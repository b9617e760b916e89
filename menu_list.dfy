/**
 * The menu panel of the point-of-sale page: the search field, the category
 * select (whose "all" item clears the filter), one section per key of the
 * grouped record with its products sorted by name, sold-out products that
 * cannot be picked, and the message shown when nothing is left.
 */
module MenuListView {
  import opened Wrappers
  import opened Text
  import opened Domain
  import opened Sorting
  import opened PointOfSale

  /** The select's item that stands for every category. */
  const AllCategories: string := "all"

  /** The value the select stores as the category filter. */
  function CategoryFilterValue(value: string): (id: string)
    ensures value == AllCategories ==> id == ""
    ensures value != AllCategories ==> id == value
  {
    if value == AllCategories then "" else value
  }

  /** Choosing "all" leaves only the search filter; choosing a category keeps
      exactly its products. */
  lemma CategoryChoiceFilters(ps: seq<Product>, value: string, term: string)
    ensures value == AllCategories ==>
      forall p :: p in Visible(ps, CategoryFilterValue(value), term) <==> p in ps && (term == "" || MatchesSearch(p, term))
    ensures value != AllCategories && value != "" ==>
      forall p :: p in Visible(ps, CategoryFilterValue(value), term) <==>
        p in ps && p.categoryId == value && (term == "" || MatchesSearch(p, term))
  {
    forall p ensures p in Visible(ps, CategoryFilterValue(value), term) <==>
      p in ps && PassesFilters(p, CategoryFilterValue(value), term)
    {
      VisibleMembers(ps, CategoryFilterValue(value), term, p);
    }
  }

  /** The select's `onValueChange`. */
  method OnCategoryChange(page: PointOfSalePage, value: string)
    modifies page
    ensures page.State() == old(page.State()).(selectedCategoryId := CategoryFilterValue(value))
  {
    page.SetSelectedCategoryId(CategoryFilterValue(value));
  }

  /** The search field's `onChange`. */
  method OnSearchInput(page: PointOfSalePage, text: string)
    modifies page
    ensures page.State() == old(page.State()).(searchTerm := text)
  {
    page.SetSearchTerm(text);
  }

  /** A product row's `onClick`: a sold-out product is not picked; any other
      opens the product modal. */
  method OnProductClick(page: PointOfSalePage, p: Product)
    modifies page
    ensures p.isSoldOut ==> page.State() == old(page.State())
    ensures !p.isSoldOut ==> page.State() == old(page.State()).(selectedProduct := Some(p))
  {
    if !p.isSoldOut {
      page.SetSelectedProduct(Some(p));
    }
  }

  /** What a product row shows besides its name and price. */
  datatype RowMarks = RowMarks(soldOutBadge: bool, dimmed: bool, stockNote: Option<int>)

  function MarksFor(p: Product): (m: RowMarks)
    ensures m.soldOutBadge == m.dimmed
  {
    RowMarks(p.isSoldOut, p.isSoldOut, p.stock)
  }

  /** A row is dimmed and badged exactly when its click is ignored, and it
      shows a stock note exactly when the product has a stock. */
  lemma RowMarksMatchClick(p: Product)
    ensures MarksFor(p).dimmed <==> p.isSoldOut
    ensures MarksFor(p).stockNote.Some? <==> p.stock.Some?
    ensures MarksFor(p).stockNote.Some? ==> MarksFor(p).stockNote.value == p.stock.value
  {
  }

  /** `a.name.localeCompare(b.name)`, read as "`a` may come first". */
  predicate NameLeq(a: Product, b: Product) {
    LexLeq(a.name, b.name)
  }

  lemma NameOrderIsTotalPreorder()
    ensures TotalPreorder(NameLeq)
  {
    forall x: Product, y: Product ensures NameLeq(x, y) || NameLeq(y, x) {
      LexLeqTotal(x.name, y.name);
    }
    forall x: Product, y: Product, z: Product | NameLeq(x, y) && NameLeq(y, z) ensures NameLeq(x, z) {
      LexLeqTransitive(x.name, y.name, z.name);
    }
  }

  /** The `.sort` each section applies, in place, to its array of products. */
  method SortCategoryProducts(a: array<Product>)
    modifies a
    ensures SortedBy(a[..], NameLeq)
    ensures multiset(a[..]) == multiset(old(a[..]))
  {
    NameOrderIsTotalPreorder();
    SortInPlace(a, NameLeq);
  }

  /** What each section renders: its entry of `productsByCategory`, with
      the entry's products sorted by name. */
  method SortEntry(e: CategoryEntry) returns (sorted: CategoryEntry)
    ensures sorted.name == e.name
    ensures SortedBy(sorted.products, NameLeq)
    ensures multiset(sorted.products) == multiset(e.products)
  {
    var a := new Product[|e.products|](i requires 0 <= i < |e.products| => e.products[i]);
    assert a[..] == e.products;
    SortCategoryProducts(a);
    sorted := CategoryEntry(e.name, a[..]);
  }

  /** The "no products" message is shown when the record has no key. */
  predicate ShowsNoProductsMessage(grouped: seq<CategoryEntry>) {
    |grouped| == 0
  }

  /** The message shows exactly when no listed category has a product left
      after the filters; a product whose category is not in the list never
      shows, whatever the filters. */
  lemma NoProductsMessageIff(grouped: seq<CategoryEntry>, cats: seq<Category>, filtered: seq<Product>)
    requires EntriesFromCategories(grouped, cats, |cats|, filtered)
    requires CategoriesListed(grouped, cats, |cats|, filtered)
    ensures ShowsNoProductsMessage(grouped) <==> forall j | 0 <= j < |cats| :: ByCategory(filtered, cats[j].id) == []
    ensures forall k, p | 0 <= k < |grouped| && p in grouped[k].products ::
      p in filtered && exists j | 0 <= j < |cats| :: cats[j].id == p.categoryId
  {
    if !ShowsNoProductsMessage(grouped) {
      var j :| 0 <= j < |cats| && cats[j].name == grouped[0].name && grouped[0].products == ByCategory(filtered, cats[j].id);
    }
    forall k, p | 0 <= k < |grouped| && p in grouped[k].products
      ensures p in filtered && exists j | 0 <= j < |cats| :: cats[j].id == p.categoryId
    {
      var j :| 0 <= j < |cats| && cats[j].name == grouped[k].name && grouped[k].products == ByCategory(filtered, cats[j].id);
      assert cats[j].id == p.categoryId;
    }
  }
}
