/**
 * The product modal of the point-of-sale page: a quantity field that never
 * holds less than 1, and an add button that hands the product and the
 * quantity to the page's cart.
 */
module ProductModalView {
  import opened Wrappers
  import opened Text
  import opened Domain
  import opened PointOfSale

  /** The quantity the field keeps after an edit: the integer the text starts
      with, unless that is missing or 0 (both falsy, replaced by 1), and never
      less than 1. */
  function QuantityFromInput(text: string): (q: int)
    ensures q >= 1
    ensures ParseInt(text).Some? && ParseInt(text).value >= 1 ==> q == ParseInt(text).value
    ensures ParseInt(text).None? || ParseInt(text).value < 1 ==> q == 1
  {
    var parsed := match ParseInt(text)
      case None => 1
      case Some(v) => if v == 0 then 1 else v;
    if parsed < 1 then 1 else parsed
  }

  /** Typing a number is kept as typed; typing text without any digit gives 1. */
  lemma QuantityInputExamples(n: nat, rest: string, junk: string)
    requires n >= 1
    requires rest == [] || !IsDigit(rest[0])
    requires forall i | 0 <= i < |junk| :: !IsDigit(junk[i])
    ensures QuantityFromInput(FormatInt(n) + rest) == n
    ensures QuantityFromInput(junk) == 1
  {
    ParseIntFormatInt(n, rest);
    ParseIntWithoutDigits(junk);
  }

  class ProductModal {
    const product: Product
    var quantity: int

    constructor(p: Product)
      ensures product == p && quantity == 1
    {
      product := p;
      quantity := 1;
    }

    /** The quantity field's `onChange`. */
    method OnQuantityInput(text: string)
      modifies this
      ensures quantity == QuantityFromInput(text)
      ensures quantity >= 1
    {
      quantity := QuantityFromInput(text);
    }

    /** `handleAdd`: a positive quantity of the product goes to the page's
        cart (which closes the modal); the product's stock and sold-out flag
        are not looked at. */
    method HandleAdd(page: PointOfSalePage)
      modifies page
      ensures quantity > 0 ==> page.State() == old(page.State()).(
        submitMessage := "",
        currentOrder := old(page.currentOrder) + Repeat(product, quantity),
        selectedProduct := None)
      ensures quantity <= 0 ==> page.State() == old(page.State())
    {
      if quantity > 0 {
        page.AddProductToOrder(product, quantity);
      }
    }
  }
}
