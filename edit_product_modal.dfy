/**
 * The product edit modal: a form that saves the product's name, price and
 * description, a form that adds a positive quantity to its stock, and one
 * message slot that both report to.
 */
module EditProduct {
  import opened Wrappers
  import opened Http
  import opened Text
  import opened Domain

  datatype NoticeKind = SuccessNotice | ErrorNotice

  /** The message slot: its kind decides the colour. */
  datatype Notice = Notice(kind: NoticeKind, text: string)

  const UpdatedText: string := "Produto atualizado com sucesso!"
  const StockAddedText: string := "Estoque adicionado com sucesso!"
  const UpdateErrorPrefix: string := "Erro ao atualizar: "
  const StockErrorPrefix: string := "Erro ao adicionar estoque: "

  /** The backend's `error`, else the error's own message. */
  function ErrorDetail(e: HttpError): (d: string)
    ensures e.responseError != "" ==> d == e.responseError
    ensures e.responseError == "" ==> d == e.message
  {
    OrElse(e.responseError, e.message)
  }

  /** The details request: the product and its three edited fields. */
  datatype DetailsRequest = DetailsRequest(productId: string, name: string, price: string, description: string)

  /** The stock request: the product and the quantity to add. */
  datatype StockRequest = StockRequest(productId: string, quantity: int)

  /** The quantity the stock form sends: `parseInt(text, 10)` when it is positive. */
  function StockQuantity(text: string): (q: Option<int>)
    ensures q.Some? <==> ParseInt(text).Some? && ParseInt(text).value > 0
    ensures q.Some? ==> q.value == ParseInt(text).value && q.value > 0
  {
    match ParseInt(text)
    case None => None
    case Some(v) => if v > 0 then Some(v) else None
  }

  /** A typed positive quantity is sent as typed; zero, a negative number or
      a text without digits sends nothing. */
  lemma StockQuantityOfTypedNumber(n: int, rest: string, junk: string)
    requires rest == [] || !IsDigit(rest[0])
    requires forall i | 0 <= i < |junk| :: !IsDigit(junk[i])
    ensures StockQuantity(FormatInt(n) + rest) == if n > 0 then Some(n) else None
    ensures StockQuantity(junk) == None
  {
    ParseIntFormatInt(n, rest);
    ParseIntWithoutDigits(junk);
  }

  /** Every state cell of the modal at once. */
  datatype ModalState = ModalState(
    product: Product,
    name: string,
    price: string,
    description: string,
    stockToAdd: string,
    message: Option<Notice>,
    updatePending: bool,
    stockPending: bool)

  /** The fields as they are for a freshly shown product. */
  function FreshState(p: Product, updatePending: bool, stockPending: bool): (s: ModalState)
    ensures s.product == p && s.name == p.name && s.price == p.price
    ensures s.description == "" <==> p.description.None? || p.description.value == ""
    ensures p.description.Some? ==> s.description == p.description.value
    ensures s.stockToAdd == "" && s.message == None
  {
    ModalState(p, p.name, p.price, p.description.GetOr(""), "", None, updatePending, stockPending)
  }

  class EditProductModal {
    var product: Product
    var name: string
    var price: string
    var description: string
    var stockToAdd: string
    var message: Option<Notice>
    var updatePending: bool
    var stockPending: bool

    function State(): ModalState
      reads this
    {
      ModalState(product, name, price, description, stockToAdd, message, updatePending, stockPending)
    }

    constructor(p: Product)
      ensures State() == FreshState(p, false, false)
    {
      product := p;
      name, price, description := p.name, p.price, p.description.GetOr("");
      stockToAdd, message := "", None;
      updatePending, stockPending := false, false;
    }

    /** The effect that runs when the modal is given another product: the
        fields take its values and the stock field and the message are cleared. */
    method ResetForProduct(p: Product)
      modifies this
      ensures State() == FreshState(p, old(updatePending), old(stockPending))
    {
      product := p;
      name := p.name;
      price := p.price;
      description := p.description.GetOr("");
      stockToAdd := "";
      message := None;
    }

    method EditFields(newName: string, newPrice: string, newDescription: string, newStock: string)
      modifies this
      ensures State() == old(State()).(name := newName, price := newPrice, description := newDescription,
                                       stockToAdd := newStock)
    {
      name, price, description, stockToAdd := newName, newPrice, newDescription, newStock;
    }

    /** `handleDetailsSubmit`: the three fields are sent as they are, without any check. */
    method DetailsSubmit() returns (request: DetailsRequest)
      modifies this
      ensures request == DetailsRequest(old(product).id, old(name), old(price), old(description))
      ensures State() == old(State()).(updatePending := true)
    {
      updatePending := true;
      request := DetailsRequest(product.id, name, price, description);
    }

    /** The details mutation settles. */
    method DetailsSettled(outcome: Outcome<()>)
      modifies this
      ensures outcome.Success? ==> State() == old(State()).(
        message := Some(Notice(SuccessNotice, UpdatedText)), updatePending := false)
      ensures outcome.Failure? ==> State() == old(State()).(
        message := Some(Notice(ErrorNotice, UpdateErrorPrefix + ErrorDetail(outcome.error))), updatePending := false)
    {
      match outcome {
        case Success(_) =>
          message := Some(Notice(SuccessNotice, UpdatedText));
        case Failure(e) =>
          message := Some(Notice(ErrorNotice, UpdateErrorPrefix + ErrorDetail(e)));
      }
      updatePending := false;
    }

    /** `handleAddStockSubmit`: only a positive quantity is sent. */
    method AddStockSubmit() returns (request: Option<StockRequest>)
      modifies this
      ensures request.None? <==> StockQuantity(old(stockToAdd)).None?
      ensures request.Some? ==> request.value == StockRequest(old(product).id, StockQuantity(old(stockToAdd)).value)
      ensures request.Some? ==> request.value.quantity > 0
      ensures request.None? ==> State() == old(State())
      ensures request.Some? ==> State() == old(State()).(stockPending := true)
    {
      var quantity := ParseInt(stockToAdd);
      if quantity.Some? && quantity.value > 0 {
        stockPending := true;
        request := Some(StockRequest(product.id, quantity.value));
      } else {
        request := None;
      }
    }

    /** The stock mutation settles: a success also clears the quantity field. */
    method AddStockSettled(outcome: Outcome<()>)
      modifies this
      ensures outcome.Success? ==> State() == old(State()).(
        message := Some(Notice(SuccessNotice, StockAddedText)), stockToAdd := "", stockPending := false)
      ensures outcome.Failure? ==> State() == old(State()).(
        message := Some(Notice(ErrorNotice, StockErrorPrefix + ErrorDetail(outcome.error))), stockPending := false)
    {
      match outcome {
        case Success(_) =>
          message := Some(Notice(SuccessNotice, StockAddedText));
          stockToAdd := "";
        case Failure(e) =>
          message := Some(Notice(ErrorNotice, StockErrorPrefix + ErrorDetail(e)));
      }
      stockPending := false;
    }
  }
}
