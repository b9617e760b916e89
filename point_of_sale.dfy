/**
 * The point-of-sale page: the cart of repeated products, the grouping of the
 * cart into one line per product when it is submitted, the menu grouped by
 * category under the search and category filters, and the page state the
 * submit and consumption handlers update.
 */
module PointOfSale {
  import opened Wrappers
  import opened Http
  import opened Text
  import opened Domain

  // ---------------------------------------------------------------- the cart

  /** `Array(quantity).fill(product)`. */
  function Repeat(p: Product, k: nat): (r: seq<Product>)
    ensures |r| == k
    ensures forall i | 0 <= i < k :: r[i] == p
  {
    if k == 0 then [] else [p] + Repeat(p, k - 1)
  }

  /** One line of an order request. */
  datatype LineItem = LineItem(productId: string, quantity: int)

  /** How many entries of the cart are the product `id`. */
  function Count(cart: seq<Product>, id: string): nat {
    if cart == [] then 0
    else Count(cart[..|cart| - 1], id) + (if cart[|cart| - 1].id == id then 1 else 0)
  }

  /** The index of the first cart entry that is the product `id`, or `|cart|`.
      `FindItem` and `FindEntry` below are the same search over the request
      lines (by product id) and over the record (by category name); each
      keeps its own key field so that its contract names it. */
  function FirstIndex(cart: seq<Product>, id: string): (k: nat)
    ensures k <= |cart|
    ensures k < |cart| ==> cart[k].id == id
    ensures forall j | 0 <= j < k :: cart[j].id != id
  {
    if cart == [] then 0
    else if cart[0].id == id then 0
    else 1 + FirstIndex(cart[1..], id)
  }

  /** `acc.find(item => item.productId === id)`, as the index of the line or `|items|`. */
  function FindItem(items: seq<LineItem>, id: string): (k: nat)
    ensures k <= |items|
    ensures k < |items| ==> items[k].productId == id
    ensures forall j | 0 <= j < k :: items[j].productId != id
  {
    if items == [] then 0
    else if items[0].productId == id then 0
    else 1 + FindItem(items[1..], id)
  }

  /** One step of the reduce: add one to the line of `id`, or append a line of quantity 1. */
  function AddUnit(items: seq<LineItem>, id: string): (r: seq<LineItem>)
    ensures |items| <= |r| <= |items| + 1
  {
    var k := FindItem(items, id);
    if k < |items| then items[k := LineItem(id, items[k].quantity + 1)]
    else items + [LineItem(id, 1)]
  }

  /** The lines the submit handler's reduce builds from the cart. */
  function Grouped(cart: seq<Product>): (r: seq<LineItem>)
    ensures |r| <= |cart|
    ensures cart != [] ==> r != []
  {
    if cart == [] then [] else AddUnit(Grouped(cart[..|cart| - 1]), cart[|cart| - 1].id)
  }

  function TotalQuantity(items: seq<LineItem>): int {
    if items == [] then 0 else TotalQuantity(items[..|items| - 1]) + items[|items| - 1].quantity
  }

  /** The reduce itself, which looks up the accumulator and bumps or appends in place. */
  method GroupForSubmission(cart: seq<Product>) returns (items: seq<LineItem>)
    ensures items == Grouped(cart)
  {
    items := [];
    for i := 0 to |cart|
      invariant items == Grouped(cart[..i])
    {
      var id := cart[i].id;
      var k := FindLine(items, id);
      ghost var before := items;
      if k < |items| {
        items := items[k := LineItem(id, items[k].quantity + 1)];
        assert items == AddUnit(before, id);
      } else {
        items := items + [LineItem(id, 1)];
        assert items == AddUnit(before, id);
      }
      GroupedStep(cart, i);
    }
    assert cart[..|cart|] == cart;
  }

  /** `acc.find(item => item.productId === id)`: a scan from the front. */
  method FindLine(items: seq<LineItem>, id: string) returns (k: nat)
    ensures k == FindItem(items, id)
  {
    k := 0;
    while k < |items| && items[k].productId != id
      invariant 0 <= k <= |items|
      invariant forall j | 0 <= j < k :: items[j].productId != id
    {
      k := k + 1;
    }
  }

  /** The reduce over one more cart entry is one more `AddUnit`. */
  lemma GroupedStep(cart: seq<Product>, i: int)
    requires 0 <= i < |cart|
    ensures Grouped(cart[..i + 1]) == AddUnit(Grouped(cart[..i]), cart[i].id)
  {
    assert cart[..i + 1][..i] == cart[..i];
  }

  /** No two lines of the request name the same product. */
  predicate DistinctLines(items: seq<LineItem>) {
    forall i, j | 0 <= i < j < |items| :: items[i].productId != items[j].productId
  }

  lemma {:induction false} GroupedDistinct(cart: seq<Product>)
    ensures DistinctLines(Grouped(cart))
  {
    if cart != [] {
      var g0 := Grouped(cart[..|cart| - 1]);
      var id := cart[|cart| - 1].id;
      GroupedDistinct(cart[..|cart| - 1]);
      AddUnitLines(g0, id);
      var g := Grouped(cart);
      forall i, j | 0 <= i < j < |g| ensures g[i].productId != g[j].productId {
        assert g == AddUnit(g0, id);
        assert g[i].productId == g0[i].productId;
        if j == |g0| {
          assert !HasLine(g0, id);
          assert g[j].productId == id;
        } else {
          assert g[j].productId == g0[j].productId;
          assert g0[i].productId != g0[j].productId;
        }
      }
    }
  }

  predicate HasLine(items: seq<LineItem>, id: string) {
    exists i | 0 <= i < |items| :: items[i].productId == id
  }

  predicate InCart(cart: seq<Product>, id: string) {
    exists i | 0 <= i < |cart| :: cart[i].id == id
  }

  /** What one step of the reduce does to the lines: the product ids stay in
      place, and a new one goes last. */
  lemma AddUnitLines(items: seq<LineItem>, id: string)
    ensures var r := AddUnit(items, id);
      && (HasLine(items, id) ==> |r| == |items|)
      && (!HasLine(items, id) ==> |r| == |items| + 1 && r[|items|] == LineItem(id, 1))
      && (forall i | 0 <= i < |items| :: r[i].productId == items[i].productId)
      && (forall i | 0 <= i < |items| && items[i].productId != id :: r[i] == items[i])
      && (forall i | 0 <= i < |items| && i == FindItem(items, id) :: r[i].quantity == items[i].quantity + 1)
      && (forall other :: HasLine(r, other) <==> HasLine(items, other) || other == id)
  {
    var r := AddUnit(items, id);
    var k := FindItem(items, id);
    if k < |items| {
      forall other ensures HasLine(r, other) <==> HasLine(items, other) || other == id {
        if HasLine(items, other) {
          var i :| 0 <= i < |items| && items[i].productId == other;
          assert r[i].productId == other;
        }
      }
    } else {
      forall other ensures HasLine(r, other) <==> HasLine(items, other) || other == id {
        if HasLine(items, other) {
          var i :| 0 <= i < |items| && items[i].productId == other;
          assert r[i].productId == other;
        }
        if other == id {
          assert r[|items|].productId == other;
        }
      }
    }
  }

  lemma InCartExtend(c: seq<Product>, x: Product, id: string)
    ensures InCart(c + [x], id) <==> InCart(c, id) || x.id == id
  {
    if InCart(c, id) {
      var i :| 0 <= i < |c| && c[i].id == id;
      assert (c + [x])[i].id == id;
    }
    if x.id == id {
      assert (c + [x])[|c|].id == id;
    }
    if InCart(c + [x], id) && x.id != id {
      var i :| 0 <= i < |c| + 1 && (c + [x])[i].id == id;
      assert c[i].id == id;
    }
  }

  /** A product has a line exactly when it is in the cart. */
  lemma {:induction false} GroupedCovers(cart: seq<Product>, id: string)
    ensures HasLine(Grouped(cart), id) <==> InCart(cart, id)
  {
    if cart != [] {
      var c := cart[..|cart| - 1];
      var x := cart[|cart| - 1];
      GroupedCovers(c, id);
      AddUnitLines(Grouped(c), x.id);
      InCartExtend(c, x, id);
      assert c + [x] == cart;
    }
  }

  lemma {:induction false} FirstIndexExtend(c: seq<Product>, x: Product, id: string)
    ensures FirstIndex(c, id) < |c| ==> FirstIndex(c + [x], id) == FirstIndex(c, id)
    ensures FirstIndex(c, id) == |c| ==> FirstIndex(c + [x], id) == if x.id == id then |c| else |c| + 1
  {
    if c != [] && c[0].id != id {
      FirstIndexExtend(c[1..], x, id);
      assert (c + [x])[1..] == c[1..] + [x];
    }
  }

  lemma {:induction false} CountPositive(cart: seq<Product>, id: string)
    ensures Count(cart, id) > 0 <==> InCart(cart, id)
  {
    if cart != [] {
      var c := cart[..|cart| - 1];
      CountPositive(c, id);
      InCartExtend(c, cart[|cart| - 1], id);
      assert c + [cart[|cart| - 1]] == cart;
    }
  }

  /** Each line's quantity is the number of cart entries of its product, so at least 1. */
  lemma {:induction false} GroupedCounts(cart: seq<Product>)
    ensures var g := Grouped(cart);
      forall i | 0 <= i < |g| :: g[i].quantity == Count(cart, g[i].productId) >= 1
  {
    if cart != [] {
      var c := cart[..|cart| - 1];
      var x := cart[|cart| - 1];
      var g0 := Grouped(c);
      GroupedCounts(c);
      GroupedDistinct(c);
      GroupedCovers(c, x.id);
      CountPositive(c, x.id);
      AddUnitLines(g0, x.id);
      var k := FindItem(g0, x.id);
      assert k < |g0| <==> HasLine(g0, x.id);
    }
  }

  /** The lines follow the order in which their products first enter the cart. */
  predicate InFirstOccurrenceOrder(cart: seq<Product>, g: seq<LineItem>) {
    forall i, j | 0 <= i < j < |g| :: FirstIndex(cart, g[i].productId) < FirstIndex(cart, g[j].productId) < |cart|
  }

  lemma {:induction false} GroupedFirstOccurrenceOrder(cart: seq<Product>)
    ensures InFirstOccurrenceOrder(cart, Grouped(cart))
  {
    if cart != [] {
      var c := cart[..|cart| - 1];
      var x := cart[|cart| - 1];
      GroupedFirstOccurrenceOrder(c);
      FirstOccurrenceStep(c, x);
      assert c + [x] == cart;
    }
  }

  /** One more cart entry keeps the lines in first-occurrence order. */
  lemma FirstOccurrenceStep(c: seq<Product>, x: Product)
    requires InFirstOccurrenceOrder(c, Grouped(c))
    ensures InFirstOccurrenceOrder(c + [x], AddUnit(Grouped(c), x.id))
  {
    var cart := c + [x];
    var g0 := Grouped(c);
    var g := AddUnit(g0, x.id);
    OldLinesFirstIndex(c, x, g0);
    AddUnitLines(g0, x.id);
    if !HasLine(g0, x.id) {
      GroupedCovers(c, x.id);
      FirstIndexExtend(c, x, x.id);
    }
    forall i, j | 0 <= i < j < |g|
      ensures FirstIndex(cart, g[i].productId) < FirstIndex(cart, g[j].productId) < |cart|
    {
      assert g[i].productId == g0[i].productId;
      if j < |g0| {
        assert g[j].productId == g0[j].productId;
        assert FirstIndex(c, g0[i].productId) < FirstIndex(c, g0[j].productId);
      } else {
        assert g[j].productId == x.id;
      }
    }
  }

  /** The lines already built keep their first cart position when one more
      entry is appended. */
  lemma OldLinesFirstIndex(c: seq<Product>, x: Product, g0: seq<LineItem>)
    requires g0 == Grouped(c)
    ensures forall i | 0 <= i < |g0| ::
      FirstIndex(c + [x], g0[i].productId) == FirstIndex(c, g0[i].productId) < |c|
  {
    forall i | 0 <= i < |g0|
      ensures FirstIndex(c + [x], g0[i].productId) == FirstIndex(c, g0[i].productId) < |c|
    {
      assert HasLine(g0, g0[i].productId);
      GroupedCovers(c, g0[i].productId);
      FirstIndexExtend(c, x, g0[i].productId);
    }
  }

  lemma {:induction false} TotalQuantityUpdate(items: seq<LineItem>, k: nat, v: LineItem)
    requires k < |items|
    ensures TotalQuantity(items[k := v]) == TotalQuantity(items) - items[k].quantity + v.quantity
  {
    if k < |items| - 1 {
      TotalQuantityUpdate(items[..|items| - 1], k, v);
      assert items[k := v][..|items| - 1] == items[..|items| - 1][k := v];
    } else {
      assert items[k := v][..|items| - 1] == items[..|items| - 1];
    }
  }

  /** One step of the reduce adds exactly one unit to the request. */
  lemma AddUnitTotal(items: seq<LineItem>, id: string)
    ensures TotalQuantity(AddUnit(items, id)) == TotalQuantity(items) + 1
  {
    var k := FindItem(items, id);
    if k < |items| {
      TotalQuantityUpdate(items, k, LineItem(id, items[k].quantity + 1));
    } else {
      assert (items + [LineItem(id, 1)])[..|items|] == items;
    }
  }

  /** The quantities of the request add up to the number of cart entries. */
  lemma {:induction false} GroupedTotal(cart: seq<Product>)
    ensures TotalQuantity(Grouped(cart)) == |cart|
  {
    if cart != [] {
      var c := cart[..|cart| - 1];
      GroupedTotal(c);
      AddUnitTotal(Grouped(c), cart[|cart| - 1].id);
    }
  }

  // ---------------------------------------------------------------- the menu

  predicate MatchesSearch(p: Product, term: string) {
    Contains(ToLower(p.name), ToLower(term))
  }

  /** `products.filter(p => p.categoryId === categoryId)`. */
  function ByCategory(ps: seq<Product>, categoryId: string): (r: seq<Product>)
    ensures |r| <= |ps|
    ensures forall p :: p in r <==> p in ps && p.categoryId == categoryId
  {
    if ps == [] then []
    else (if ps[0].categoryId == categoryId then [ps[0]] else []) + ByCategory(ps[1..], categoryId)
  }

  /** `products.filter(p => p.name.toLowerCase().includes(term.toLowerCase()))`. */
  function BySearch(ps: seq<Product>, term: string): (r: seq<Product>)
    ensures |r| <= |ps|
    ensures forall p :: p in r <==> p in ps && MatchesSearch(p, term)
  {
    if ps == [] then []
    else (if MatchesSearch(ps[0], term) then [ps[0]] else []) + BySearch(ps[1..], term)
  }

  /** A product passes the filters: the selected category, if any, and the search term, if any. */
  predicate PassesFilters(p: Product, selectedCategoryId: string, searchTerm: string) {
    && (selectedCategoryId == "" || p.categoryId == selectedCategoryId)
    && (searchTerm == "" || MatchesSearch(p, searchTerm))
  }

  /** A key of the grouped record and the products stored under it. */
  datatype CategoryEntry = CategoryEntry(name: string, products: seq<Product>)

  /** Where the key `name` sits in the record, or `|rec|`: the lookup that an
      assignment `grouped[name] = ...` does. Like `FindItem`, it is the
      `FirstIndex` search over another list and key field. */
  function FindEntry(rec: seq<CategoryEntry>, name: string): (k: nat)
    ensures k <= |rec|
    ensures k < |rec| ==> rec[k].name == name
    ensures forall j | 0 <= j < k :: rec[j].name != name
  {
    if rec == [] then 0
    else if rec[0].name == name then 0
    else 1 + FindEntry(rec[1..], name)
  }

  /** `grouped[name] = ps`: an existing key keeps its place and takes the new
      value, a new key goes last. */
  function SetEntry(rec: seq<CategoryEntry>, name: string, ps: seq<Product>): (r: seq<CategoryEntry>)
    ensures |r| == |rec| || (|r| == |rec| + 1 && r[|rec|].name == name)
    ensures |r| == |rec| <==> FindEntry(rec, name) < |rec|
    ensures forall i | 0 <= i < |rec| :: r[i].name == rec[i].name
    ensures FindEntry(rec, name) < |r| && r[FindEntry(rec, name)] == CategoryEntry(name, ps)
    ensures forall i | 0 <= i < |r| && i != FindEntry(rec, name) :: r[i] == rec[i]
  {
    var k := FindEntry(rec, name);
    if k < |rec| then rec[k := CategoryEntry(name, ps)] else rec + [CategoryEntry(name, ps)]
  }

  predicate DistinctNames(rec: seq<CategoryEntry>) {
    forall i, j | 0 <= i < j < |rec| :: rec[i].name != rec[j].name
  }

  /** Every key holds some products, and they are exactly the products among
      `filtered` of one of the first `n` categories with that name. */
  predicate EntriesFromCategories(rec: seq<CategoryEntry>, cats: seq<Category>, n: nat, filtered: seq<Product>) {
    forall k | 0 <= k < |rec| :: rec[k].products != [] && exists j | 0 <= j < n && j < |cats| ::
      cats[j].name == rec[k].name && rec[k].products == ByCategory(filtered, cats[j].id)
  }

  /** The position of the last of the first `n` categories named `name` that
      has products among `filtered`, or -1 when there is none. */
  function LastNamed(cats: seq<Category>, n: nat, filtered: seq<Product>, name: string): (j: int)
    requires n <= |cats|
    ensures -1 <= j < n
    ensures j >= 0 ==> cats[j].name == name && ByCategory(filtered, cats[j].id) != []
  {
    if n == 0 then -1
    else if cats[n - 1].name == name && ByCategory(filtered, cats[n - 1].id) != [] then n - 1
    else LastNamed(cats, n - 1, filtered, name)
  }

  /** No later category of that name has products: `LastNamed` is the last one. */
  lemma {:induction false} LastNamedIsLast(cats: seq<Category>, n: nat, filtered: seq<Product>, name: string)
    requires n <= |cats|
    ensures forall i | LastNamed(cats, n, filtered, name) < i < n && cats[i].name == name ::
      ByCategory(filtered, cats[i].id) == []
  {
    if n > 0 && !(cats[n - 1].name == name && ByCategory(filtered, cats[n - 1].id) != []) {
      var j := LastNamed(cats, n - 1, filtered, name);
      assert LastNamed(cats, n, filtered, name) == j;
      LastNamedIsLast(cats, n - 1, filtered, name);
      forall i | j < i < n && cats[i].name == name
        ensures ByCategory(filtered, cats[i].id) == []
      {
        if i == n - 1 {
          assert !(cats[n - 1].name == name && ByCategory(filtered, cats[n - 1].id) != []);
        }
      }
    }
  }

  /** Every key holds the products of the last category of its name to have
      any, as a later `grouped[name] = items` overwrites an earlier one. */
  predicate KeysHoldLastCategory(rec: seq<CategoryEntry>, cats: seq<Category>, n: nat, filtered: seq<Product>)
    requires n <= |cats|
  {
    forall k | 0 <= k < |rec| ::
      LastNamed(cats, n, filtered, rec[k].name) >= 0
      && rec[k].products == ByCategory(filtered, cats[LastNamed(cats, n, filtered, rec[k].name)].id)
  }

  /** Every one of the first `n` categories with products among `filtered` has its name as a key. */
  predicate CategoriesListed(rec: seq<CategoryEntry>, cats: seq<Category>, n: nat, filtered: seq<Product>) {
    forall j | 0 <= j < n && j < |cats| && ByCategory(filtered, cats[j].id) != [] :: FindEntry(rec, cats[j].name) < |rec|
  }

  /** What the record holds after the first `n` turns of the `forEach`. */
  predicate RecordBuilt(rec: seq<CategoryEntry>, cats: seq<Category>, n: nat, filtered: seq<Product>)
    requires n <= |cats|
  {
    && DistinctNames(rec)
    && EntriesFromCategories(rec, cats, n, filtered)
    && CategoriesListed(rec, cats, n, filtered)
    && KeysHoldLastCategory(rec, cats, n, filtered)
  }

  /** One turn of the `forEach`: `RecordBuilt` goes from `n` to `n + 1`. */
  lemma RecordStep(rec: seq<CategoryEntry>, r: seq<CategoryEntry>, cats: seq<Category>, n: nat,
                   filtered: seq<Product>)
    requires n < |cats|
    requires RecordBuilt(rec, cats, n, filtered)
    requires var prods := ByCategory(filtered, cats[n].id);
      r == if |prods| > 0 then SetEntry(rec, cats[n].name, prods) else rec
    ensures RecordBuilt(r, cats, n + 1, filtered)
  {
    RecordCategory(rec, r, cats, n, filtered);
    RecordLastCategory(rec, r, cats, n, filtered);
  }

  /** One turn of the `forEach` over the categories keeps the record's invariants. */
  lemma RecordCategory(rec: seq<CategoryEntry>, r: seq<CategoryEntry>, cats: seq<Category>, n: nat,
                       filtered: seq<Product>)
    requires n < |cats|
    requires DistinctNames(rec)
    requires EntriesFromCategories(rec, cats, n, filtered) && CategoriesListed(rec, cats, n, filtered)
    requires var prods := ByCategory(filtered, cats[n].id);
      r == if |prods| > 0 then SetEntry(rec, cats[n].name, prods) else rec
    ensures DistinctNames(r)
    ensures EntriesFromCategories(r, cats, n + 1, filtered)
    ensures CategoriesListed(r, cats, n + 1, filtered)
  {
    if |ByCategory(filtered, cats[n].id)| > 0 {
      RecordListsCategory(rec, r, cats, n, filtered);
      RecordEntries(rec, r, cats, n, filtered);
    }
  }

  /** A turn that sets a key keeps the names distinct and every category
      seen so far listed. */
  lemma RecordListsCategory(rec: seq<CategoryEntry>, r: seq<CategoryEntry>, cats: seq<Category>, n: nat,
                            filtered: seq<Product>)
    requires n < |cats|
    requires DistinctNames(rec) && CategoriesListed(rec, cats, n, filtered)
    requires r == SetEntry(rec, cats[n].name, ByCategory(filtered, cats[n].id))
    ensures DistinctNames(r)
    ensures CategoriesListed(r, cats, n + 1, filtered)
  {
    var k := FindEntry(rec, cats[n].name);
    forall j | 0 <= j < n + 1 && j < |cats| && ByCategory(filtered, cats[j].id) != []
      ensures FindEntry(r, cats[j].name) < |r|
    {
      var m := FindEntry(rec, cats[j].name);
      if j < n {
        assert r[m].name == cats[j].name;
      } else {
        assert r[k].name == cats[j].name;
      }
    }
  }

  /** A turn that sets a key keeps every key on the products of a category
      of its name. */
  lemma RecordEntries(rec: seq<CategoryEntry>, r: seq<CategoryEntry>, cats: seq<Category>, n: nat,
                      filtered: seq<Product>)
    requires n < |cats|
    requires EntriesFromCategories(rec, cats, n, filtered)
    requires ByCategory(filtered, cats[n].id) != []
    requires r == SetEntry(rec, cats[n].name, ByCategory(filtered, cats[n].id))
    ensures EntriesFromCategories(r, cats, n + 1, filtered)
  {
    var k := FindEntry(rec, cats[n].name);
    forall i | 0 <= i < |r| ensures r[i].products != [] && exists j | 0 <= j < n + 1 && j < |cats| ::
      cats[j].name == r[i].name && r[i].products == ByCategory(filtered, cats[j].id)
    {
      if i != k {
        assert r[i] == rec[i];
      } else {
        assert cats[n].name == r[i].name && r[i].products == ByCategory(filtered, cats[n].id);
      }
    }
  }

  /** The same turn keeps every key on the last category of its name. */
  lemma RecordLastCategory(rec: seq<CategoryEntry>, r: seq<CategoryEntry>, cats: seq<Category>, n: nat,
                           filtered: seq<Product>)
    requires n < |cats|
    requires DistinctNames(rec)
    requires KeysHoldLastCategory(rec, cats, n, filtered)
    requires var prods := ByCategory(filtered, cats[n].id);
      r == if |prods| > 0 then SetEntry(rec, cats[n].name, prods) else rec
    ensures KeysHoldLastCategory(r, cats, n + 1, filtered)
  {
    var c := cats[n];
    var prods := ByCategory(filtered, c.id);
    if |prods| > 0 {
      var k := FindEntry(rec, c.name);
      forall i | 0 <= i < |r|
        ensures LastNamed(cats, n + 1, filtered, r[i].name) >= 0
        ensures r[i].products == ByCategory(filtered, cats[LastNamed(cats, n + 1, filtered, r[i].name)].id)
      {
        if i != k {
          assert r[i] == rec[i];
          assert rec[i].name != c.name;
          assert LastNamed(cats, n + 1, filtered, r[i].name) == LastNamed(cats, n, filtered, rec[i].name);
        } else {
          assert LastNamed(cats, n + 1, filtered, r[i].name) == n;
        }
      }
    } else {
      forall i | 0 <= i < |r|
        ensures LastNamed(cats, n + 1, filtered, r[i].name) == LastNamed(cats, n, filtered, r[i].name)
      {
      }
    }
  }

  /** `productsByCategory`: filter by the selected category, then by the search
      term, then record, for each category in turn that has products left,
      those products under the category's name. */
  method ProductsByCategory(products: Option<seq<Product>>, categories: Option<seq<Category>>,
                            selectedCategoryId: string, searchTerm: string)
    returns (grouped: seq<CategoryEntry>)
    ensures products.None? || categories.None? ==> grouped == []
    ensures DistinctNames(grouped)
    ensures products.Some? && categories.Some? ==>
      var filtered := Visible(products.value, selectedCategoryId, searchTerm);
      && EntriesFromCategories(grouped, categories.value, |categories.value|, filtered)
      && CategoriesListed(grouped, categories.value, |categories.value|, filtered)
      && KeysHoldLastCategory(grouped, categories.value, |categories.value|, filtered)
  {
    if products.None? || categories.None? {
      return [];
    }
    var filtered := products.value;
    if selectedCategoryId != "" {
      filtered := ByCategory(filtered, selectedCategoryId);
    }
    if searchTerm != "" {
      filtered := BySearch(filtered, searchTerm);
    }
    assert filtered == Visible(products.value, selectedCategoryId, searchTerm);
    var cats := categories.value;
    grouped := [];
    for i := 0 to |cats|
      invariant RecordBuilt(grouped, cats, i, filtered)
    {
      var prods := ByCategory(filtered, cats[i].id);
      var next := grouped;
      if |prods| > 0 {
        next := SetEntry(grouped, cats[i].name, prods);
      }
      RecordStep(grouped, next, cats, i, filtered);
      grouped := next;
    }
  }

  /** Whatever the record lists is a product of the list that passes both
      filters and belongs to a category named by its key. */
  lemma ListedProductsPassFilters(rec: seq<CategoryEntry>, cats: seq<Category>, ps: seq<Product>,
                                  selectedCategoryId: string, searchTerm: string)
    requires EntriesFromCategories(rec, cats, |cats|, Visible(ps, selectedCategoryId, searchTerm))
    ensures forall k, p | 0 <= k < |rec| && p in rec[k].products ::
      && p in ps && PassesFilters(p, selectedCategoryId, searchTerm)
      && exists j | 0 <= j < |cats| :: cats[j].name == rec[k].name && cats[j].id == p.categoryId
  {
    forall k, p | 0 <= k < |rec| && p in rec[k].products
      ensures && p in ps && PassesFilters(p, selectedCategoryId, searchTerm)
              && exists j | 0 <= j < |cats| :: cats[j].name == rec[k].name && cats[j].id == p.categoryId
    {
      VisibleMembers(ps, selectedCategoryId, searchTerm, p);
      var j :| 0 <= j < |cats| && cats[j].name == rec[k].name
        && rec[k].products == ByCategory(Visible(ps, selectedCategoryId, searchTerm), cats[j].id);
      assert cats[j].id == p.categoryId;
    }
  }

  /** The products left after the two filters of `productsByCategory`. */
  function Visible(ps: seq<Product>, selectedCategoryId: string, searchTerm: string): (r: seq<Product>)
    ensures |r| <= |ps|
  {
    var a := if selectedCategoryId != "" then ByCategory(ps, selectedCategoryId) else ps;
    if searchTerm != "" then BySearch(a, searchTerm) else a
  }

  lemma VisibleMembers(ps: seq<Product>, selectedCategoryId: string, searchTerm: string, p: Product)
    ensures p in Visible(ps, selectedCategoryId, searchTerm) <==> p in ps && PassesFilters(p, selectedCategoryId, searchTerm)
  {
  }

  // ---------------------------------------------------------------- the page

  datatype OrderRequest = OrderRequest(sessionId: string, items: seq<LineItem>)

  const SubmittingMessage: string := "Adicionando ao pedido..."
  const SubmittedMessage: string := "Itens adicionados com sucesso!"
  const SubmitFallback: string := "Falha ao adicionar itens."

  /** "Erro: " followed by the backend's `error`, else the error's own message, else a fixed text. */
  function SubmitFailureMessage(e: HttpError): (msg: string)
    ensures |msg| > 6 && msg[..6] == "Erro: "
    ensures e.responseError != "" ==> msg[6..] == e.responseError
    ensures e.responseError == "" && e.message != "" ==> msg[6..] == e.message
    ensures e.responseError == "" && e.message == "" ==> msg[6..] == SubmitFallback
  {
    "Erro: " + OrElse(OrElse(e.responseError, e.message), SubmitFallback)
  }

  /** Every state cell of the page at once. */
  datatype PageState = PageState(
    sessionId: string,
    currentOrder: seq<Product>,
    selectedProduct: Option<Product>,
    searchTerm: string,
    selectedCategoryId: string,
    isSubmitting: bool,
    submitMessage: string,
    sessionDetails: Option<SessionDetails>,
    isLoadingConsumption: bool,
    showOrderHistoryModal: bool)

  /** The guard of `handleFinalizeOrder`: the order is sent only with a code
      and a non-empty cart. */
  predicate SendsOrder(s: PageState) {
    s.sessionId != "" && s.currentOrder != []
  }

  /** The guard of `handleCheckConsumption`: the lookup needs a code. */
  predicate SendsLookup(s: PageState) {
    s.sessionId != ""
  }

  class PointOfSalePage {
    var sessionId: string
    var currentOrder: seq<Product>
    var selectedProduct: Option<Product>
    var searchTerm: string
    var selectedCategoryId: string
    var isSubmitting: bool
    var submitMessage: string
    var sessionDetails: Option<SessionDetails>
    var isLoadingConsumption: bool
    var showOrderHistoryModal: bool

    function State(): PageState
      reads this
    {
      PageState(sessionId, currentOrder, selectedProduct, searchTerm, selectedCategoryId,
                isSubmitting, submitMessage, sessionDetails, isLoadingConsumption, showOrderHistoryModal)
    }

    constructor()
      ensures State() == PageState("", [], None, "", "", false, "", None, false, false)
    {
      sessionId, currentOrder, selectedProduct := "", [], None;
      searchTerm, selectedCategoryId := "", "";
      isSubmitting, submitMessage := false, "";
      sessionDetails, isLoadingConsumption, showOrderHistoryModal := None, false, false;
    }

    /** The code typed into the summary panel. */
    method SetSessionId(code: string)
      modifies this
      ensures State() == old(State()).(sessionId := code)
    {
      sessionId := code;
    }

    method SetSearchTerm(term: string)
      modifies this
      ensures State() == old(State()).(searchTerm := term)
    {
      searchTerm := term;
    }

    method SetSelectedCategoryId(id: string)
      modifies this
      ensures State() == old(State()).(selectedCategoryId := id)
    {
      selectedCategoryId := id;
    }

    /** Opens (a product) or closes (None) the product modal. */
    method SetSelectedProduct(p: Option<Product>)
      modifies this
      ensures State() == old(State()).(selectedProduct := p)
    {
      selectedProduct := p;
    }

    /** `addProductToOrder`: `quantity` copies of the product go after the
        cart, the message is cleared and the modal closes. */
    method AddProductToOrder(product: Product, quantity: nat)
      modifies this
      ensures State() == old(State()).(
        submitMessage := "",
        currentOrder := old(currentOrder) + Repeat(product, quantity),
        selectedProduct := None)
      ensures currentOrder[..|old(currentOrder)|] == old(currentOrder)
    {
      submitMessage := "";
      var itemsToAdd := Repeat(product, quantity);
      currentOrder := currentOrder + itemsToAdd;
      selectedProduct := None;
    }

    /** `handleFinalizeOrder` up to the request: nothing at all without a code
        or with an empty cart; otherwise the page shows it is submitting and
        the request carries the code and the grouped cart. */
    method FinalizeOrder() returns (request: Option<OrderRequest>)
      modifies this
      ensures !SendsOrder(old(State())) ==> request == None && State() == old(State())
      ensures SendsOrder(old(State())) ==>
        && request == Some(OrderRequest(old(sessionId), Grouped(old(currentOrder))))
        && State() == old(State()).(isSubmitting := true, submitMessage := SubmittingMessage)
    {
      if sessionId == "" || |currentOrder| == 0 {
        return None;
      }
      isSubmitting := true;
      submitMessage := SubmittingMessage;
      var items := GroupForSubmission(currentOrder);
      request := Some(OrderRequest(sessionId, items));
    }

    /** `handleFinalizeOrder` after the request: on success the cart and the
        code are cleared; on failure both are kept and the message is an
        error; either way the page is no longer submitting. */
    method FinalizeOrderSettled(outcome: Outcome<Order>)
      modifies this
      ensures outcome.Success? ==> State() == old(State()).(
        submitMessage := SubmittedMessage, currentOrder := [], sessionId := "", isSubmitting := false)
      ensures outcome.Failure? ==> State() == old(State()).(
        submitMessage := SubmitFailureMessage(outcome.error), isSubmitting := false)
    {
      match outcome {
        case Success(_) =>
          submitMessage := SubmittedMessage;
          currentOrder := [];
          sessionId := "";
        case Failure(e) =>
          submitMessage := SubmitFailureMessage(e);
      }
      isSubmitting := false;
    }

    /** `handleCheckConsumption` up to the request: nothing without a code. */
    method CheckConsumption() returns (request: Option<string>)
      modifies this
      ensures !SendsLookup(old(State())) ==> request == None && State() == old(State())
      ensures SendsLookup(old(State())) ==>
        && request == Some(old(sessionId))
        && State() == old(State()).(isLoadingConsumption := true, submitMessage := "")
    {
      if sessionId == "" {
        return None;
      }
      isLoadingConsumption := true;
      submitMessage := "";
      request := Some(sessionId);
    }

    /** `handleCheckConsumption` after the request: the history modal opens
        either way; only a success replaces the session details. */
    method CheckConsumptionSettled(outcome: Outcome<SessionDetails>)
      modifies this
      ensures outcome.Success? ==> State() == old(State()).(
        sessionDetails := Some(outcome.value), showOrderHistoryModal := true, isLoadingConsumption := false)
      ensures outcome.Failure? ==> State() == old(State()).(
        showOrderHistoryModal := true, isLoadingConsumption := false)
    {
      match outcome {
        case Success(details) =>
          sessionDetails := Some(details);
          showOrderHistoryModal := true;
        case Failure(_) =>
          showOrderHistoryModal := true;
      }
      isLoadingConsumption := false;
    }

    method CloseOrderHistory()
      modifies this
      ensures State() == old(State()).(showOrderHistoryModal := false)
    {
      showOrderHistoryModal := false;
    }
  }
}
