/**
 * The product listing page (app/products/page.tsx): its filter state, the filter it
 * applies to the catalogue, the active-filter count, the category list, and the
 * handlers that change the state.
 */
module ProductsPage {
  import opened Catalog
  import opened Seqs
  import JsNumber
  import opened ProductSort

  /** The state variables that decide which products are listed. */
  datatype FilterState = FilterState(
    category: string,
    minPrice: int,
    maxPrice: int,
    quick: string,
    inStockOnly: bool,
    onSaleOnly: bool)

  const DefaultMaxPrice: int := 2000

  /** The page's initial filter state. */
  function InitialFilters(): FilterState {
    FilterState("All", 0, DefaultMaxPrice, "all", false, false)
  }

  /** The quick-filter rules: 'sale', 'trending', 'new' and 'popular'; any other id accepts all. */
  predicate QuickAccepts(quick: string, p: Product) {
    && !(quick == "sale" && !OnSale(p))
    && !(quick == "trending" && p.rating < 4.7)
    && !(quick == "new" && JsNumber.Rem(p.id, 3) != 0)
    && !(quick == "popular" && p.reviews < 300)
  }

  /** The listing predicate as the page writes it; it does not read `inStockOnly`. */
  predicate Matches(st: FilterState, p: Product) {
    && QuickAccepts(st.quick, p)
    && !(st.category != "All" && p.category != st.category)
    && !(p.price < st.minPrice as real || p.price > st.maxPrice as real)
    && !(st.onSaleOnly && !OnSale(p))
  }

  /** `products.filter(...)` with the predicate as written. */
  function FilteredAsWritten(catalog: seq<Product>, st: FilterState): seq<Product> {
    Filter(catalog, (p: Product) => Matches(st, p))
  }

  /**
   * A product is listed exactly when it passes every rule: the quick filter ('sale'
   * needs a discount, 'trending' a rating of at least 4.7, 'new' an id divisible by
   * 3, 'popular' at least 300 reviews, any other id nothing), the category unless
   * 'All', the inclusive price range, and the sale toggle. The list keeps catalogue order.
   */
  lemma FilterRules(catalog: seq<Product>, st: FilterState)
    ensures var r := FilteredAsWritten(catalog, st);
      && IsSubsequence(r, catalog)
      && (forall i :: 0 <= i < |catalog| && Matches(st, catalog[i]) ==> catalog[i] in r)
      && forall i :: 0 <= i < |r| ==>
          && r[i] in catalog
          && st.minPrice as real <= r[i].price <= st.maxPrice as real
          && (st.category != "All" ==> r[i].category == st.category)
          && (st.quick == "sale" || st.onSaleOnly ==> OnSale(r[i]))
          && (st.quick == "trending" ==> r[i].rating >= 4.7)
          && (st.quick == "new" ==> r[i].id % 3 == 0)
          && (st.quick == "popular" ==> r[i].reviews >= 300)
  {
    var r := FilteredAsWritten(catalog, st);
    FilterIsSubsequence(catalog, (p: Product) => Matches(st, p));
    forall i | 0 <= i < |r| && st.quick == "new" ensures r[i].id % 3 == 0 {
      assert Matches(st, r[i]);
    }
  }

  /**
   * As written, ticking "In stock only" changes nothing in the list: the flag is
   * counted as an active filter but the predicate never reads it, so a product that
   * is out of stock is still listed.
   */
  lemma InStockOnlyIgnored(catalog: seq<Product>, st: FilterState, p: Product)
    ensures FilteredAsWritten(catalog, st.(inStockOnly := true))
         == FilteredAsWritten(catalog, st.(inStockOnly := false))
    ensures st.inStockOnly && !p.inStock && Matches(st, p) ==> p in FilteredAsWritten([p], st)
  {
    var on, off := st.(inStockOnly := true), st.(inStockOnly := false);
    FilterExt(catalog, (p: Product) => Matches(on, p), (p: Product) => Matches(off, p));
  }

  /** The listing predicate with the stock toggle applied. */
  predicate Listable(st: FilterState, p: Product) {
    Matches(st, p) && !(st.inStockOnly && !p.inStock)
  }

  /** The products the page lists, before sorting. */
  function Listed(catalog: seq<Product>, st: FilterState): seq<Product> {
    Filter(catalog, (p: Product) => Listable(st, p))
  }

  /**
   * With the stock toggle applied, "In stock only" lists exactly the in-stock products
   * the other rules accept (an accepted product is listed when it is in stock or the
   * toggle is off); with the toggle off the list is the one written above.
   */
  lemma ListedRespectsStockToggle(catalog: seq<Product>, st: FilterState)
    ensures var r := Listed(catalog, st);
      && (st.inStockOnly ==> forall i :: 0 <= i < |r| ==> r[i].inStock)
      && (forall i :: 0 <= i < |catalog| && Listable(st, catalog[i]) ==> catalog[i] in r)
      && (!st.inStockOnly ==> r == FilteredAsWritten(catalog, st))
      && IsSubsequence(r, catalog)
  {
    FilterIsSubsequence(catalog, (p: Product) => Listable(st, p));
    if !st.inStockOnly {
      FilterExt(catalog, (p: Product) => Listable(st, p), (p: Product) => Matches(st, p));
    }
  }

  /**
   * `filteredProducts` after sorting: what the grid shows. It is built on the filter
   * as written, so the stock toggle has no effect on it.
   */
  function Visible(catalog: seq<Product>, st: FilterState, sortBy: string): seq<Product> {
    Sort(SortKeyOf(sortBy), FilteredAsWritten(catalog, st))
  }

  /**
   * The grid shows each filtered product once, in the order the sort key asks for,
   * and the same products whether or not "In stock only" is ticked.
   */
  lemma VisibleIsSortedListing(catalog: seq<Product>, st: FilterState, sortBy: string)
    ensures var r := Visible(catalog, st, sortBy);
      && multiset(r) == multiset(FilteredAsWritten(catalog, st))
      && (forall i :: 0 <= i < |r| ==> r[i] in catalog && Matches(st, r[i]))
      && (SortKeyOf(sortBy) == Featured ==> r == FilteredAsWritten(catalog, st))
      && SortedBy(SortKeyOf(sortBy), r)
      && r == Visible(catalog, st.(inStockOnly := !st.inStockOnly), sortBy)
  {
    var r := Visible(catalog, st, sortBy);
    var l := FilteredAsWritten(catalog, st);
    var flipped := st.(inStockOnly := !st.inStockOnly);
    FilterExt(catalog, (p: Product) => Matches(st, p), (p: Product) => Matches(flipped, p));
    SortByKey(sortBy, l);
    SortSorted(SortKeyOf(sortBy), l);
    forall i | 0 <= i < |r| ensures r[i] in catalog && Matches(st, r[i]) {
      assert r[i] in multiset(r);
      var m :| 0 <= m < |l| && l[m] == r[i];
    }
  }

  /** `activeFiltersCount`: category, upper price bound, stock and sale toggles. */
  function ActiveFiltersCount(st: FilterState): (r: nat)
    ensures r <= 4
    ensures r == 0 <==> st.category == "All" && st.maxPrice == DefaultMaxPrice
                        && !st.inStockOnly && !st.onSaleOnly
  {
    (if st.category != "All" then 1 else 0) + (if st.maxPrice != 2000 then 1 else 0)
    + (if st.inStockOnly then 1 else 0) + (if st.onSaleOnly then 1 else 0)
  }

  /** resetFilters: category, price range and both toggles back to their defaults. */
  function Reset(st: FilterState): FilterState {
    st.(category := "All", minPrice := 0, maxPrice := DefaultMaxPrice,
        inStockOnly := false, onSaleOnly := false)
  }

  /**
   * After a reset no filter counts as active, the quick filter is kept, and the list
   * is the quick filter's selection of products priced from 0 to 2000.
   */
  lemma ResetClearsFilters(catalog: seq<Product>, st: FilterState)
    ensures ActiveFiltersCount(Reset(st)) == 0
    ensures Reset(st).quick == st.quick
    ensures Reset(Reset(st)) == Reset(st)
    ensures forall p :: Matches(Reset(st), p) <==> QuickAccepts(st.quick, p) && 0.0 <= p.price <= 2000.0
    ensures forall p :: Listable(Reset(st), p) <==> QuickAccepts(st.quick, p) && 0.0 <= p.price <= 2000.0
  {
  }

  /** A deduplication keeping first occurrences, as `Array.from(new Set(...))`. */
  function Dedup(s: seq<string>): (r: seq<string>)
    ensures forall x :: x in r <==> x in s
    ensures forall i, j :: 0 <= i < j < |r| ==> r[i] != r[j]
  {
    if s == [] then []
    else
      var d := Dedup(s[..|s| - 1]);
      assert s == s[..|s| - 1] + [s[|s| - 1]];
      if s[|s| - 1] in d then d else d + [s[|s| - 1]]
  }

  /**
   * The deduplication keeps first appearances in order: wherever a later entry of the
   * result occurs in the input, the earlier entry has already occurred before it.
   */
  lemma {:induction false} DedupKeepsFirstOrder(s: seq<string>, i: int, j: int, k: int)
    requires 0 <= i < j < |Dedup(s)| && 0 <= k < |s| && s[k] == Dedup(s)[j]
    ensures Dedup(s)[i] in s[..k]
  {
    var init, last := s[..|s| - 1], s[|s| - 1];
    var d, r := Dedup(init), Dedup(s);
    assert r == if last in d then d else d + [last];
    assert r[i] == d[i] && d[i] in init;
    if k == |s| - 1 {
      assert s[..k] == init;
    } else {
      assert init[k] == s[k] && init[..k] == s[..k];
      if j < |d| {
        DedupKeepsFirstOrder(init, i, j, k);
      }
    }
  }

  function CategoryNames(catalog: seq<Product>): (r: seq<string>)
    ensures |r| == |catalog|
    ensures forall i :: 0 <= i < |r| ==> r[i] == catalog[i].category
  {
    seq(|catalog|, i requires 0 <= i < |catalog| => catalog[i].category)
  }

  /** `['All', ...new Set(products.map(p => p.category))]`. */
  function Categories(catalog: seq<Product>): seq<string> {
    ["All"] + Dedup(CategoryNames(catalog))
  }

  /** 'All' comes first, then each category of the catalogue exactly once. */
  lemma CategoriesListEachOnce(catalog: seq<Product>)
    ensures var c := Categories(catalog);
      && c[0] == "All"
      && (forall i :: 0 <= i < |catalog| ==> catalog[i].category in c[1..])
      && (forall i :: 1 <= i < |c| ==> exists j :: 0 <= j < |catalog| && catalog[j].category == c[i])
      && (forall i, j :: 1 <= i < j < |c| ==> c[i] != c[j])
  {
    var c := Categories(catalog);
    assert c[1..] == Dedup(CategoryNames(catalog));
    forall i | 0 <= i < |catalog| ensures catalog[i].category in c[1..] {
      assert CategoryNames(catalog)[i] == catalog[i].category;
    }
    forall i | 1 <= i < |c| ensures exists j :: 0 <= j < |catalog| && catalog[j].category == c[i] {
      assert c[i] == c[1..][i - 1];
      assert c[i] in CategoryNames(catalog);
    }
    forall i, j | 1 <= i < j < |c| ensures c[i] != c[j] {
      assert c[i] == c[1..][i - 1] && c[j] == c[1..][j - 1];
    }
  }

  /**
   * The categories follow their first appearance in the catalogue: wherever a later
   * category of the list occurs in the catalogue, an earlier one has occurred before.
   */
  lemma CategoriesFollowFirstAppearance(catalog: seq<Product>, i: int, j: int, k: int)
    requires 1 <= i < j < |Categories(catalog)| && 0 <= k < |catalog|
    requires catalog[k].category == Categories(catalog)[j]
    ensures exists m :: 0 <= m < k && catalog[m].category == Categories(catalog)[i]
  {
    var c := Categories(catalog);
    var names := CategoryNames(catalog);
    var d := Dedup(names);
    assert c[i] == d[i - 1] && c[j] == d[j - 1] && names[k] == catalog[k].category;
    DedupKeepsFirstOrder(names, i - 1, j - 1, k);
    var m :| 0 <= m < k && names[..k][m] == c[i];
    assert names[m] == catalog[m].category;
  }

  /** What the results area renders. */
  datatype GridView = Skeleton | Grid(products: seq<Product>) | NoResults

  class Page {
    var selectedCategory: string
    var minPrice: int
    var maxPrice: int
    var sortBy: string
    var showFilters: bool
    var activeQuickFilter: string
    var isLoading: bool
    var inStockOnly: bool
    var onSaleOnly: bool

    function Filters(): FilterState
      reads this
    {
      FilterState(selectedCategory, minPrice, maxPrice, activeQuickFilter, inStockOnly, onSaleOnly)
    }

    constructor ()
      ensures Filters() == InitialFilters() && sortBy == "featured"
      ensures !showFilters && !isLoading
    {
      selectedCategory, minPrice, maxPrice := "All", 0, 2000;
      sortBy, showFilters := "featured", false;
      activeQuickFilter, isLoading := "all", false;
      inStockOnly, onSaleOnly := false, false;
    }

    /** handleQuickFilter: select the quick filter and show the loading skeleton. */
    method HandleQuickFilter(filterId: string)
      modifies this
      ensures Filters() == old(Filters()).(quick := filterId)
      ensures isLoading && sortBy == old(sortBy) && showFilters == old(showFilters)
    {
      activeQuickFilter := filterId;
      isLoading := true;
    }

    /** The timer the quick filter starts: hide the skeleton again. */
    method FinishLoading()
      modifies this
      ensures Filters() == old(Filters()) && !isLoading
      ensures sortBy == old(sortBy) && showFilters == old(showFilters)
    {
      isLoading := false;
    }

    method ResetFilters()
      modifies this
      ensures Filters() == Reset(old(Filters()))
      ensures ActiveFiltersCount(Filters()) == 0
      ensures sortBy == old(sortBy) && isLoading == old(isLoading) && showFilters == old(showFilters)
    {
      selectedCategory := "All";
      minPrice, maxPrice := 0, 2000;
      inStockOnly := false;
      onSaleOnly := false;
    }

    method SelectCategory(category: string)
      modifies this
      ensures Filters() == old(Filters()).(category := category)
      ensures sortBy == old(sortBy) && isLoading == old(isLoading) && showFilters == old(showFilters)
    {
      selectedCategory := category;
    }

    /** The range input moves only the upper bound, in steps of 50 from 0 to 2000. */
    method SetMaxPrice(value: int)
      requires 0 <= value <= 2000 && value % 50 == 0
      modifies this
      ensures Filters() == old(Filters()).(maxPrice := value)
      ensures sortBy == old(sortBy) && isLoading == old(isLoading) && showFilters == old(showFilters)
    {
      maxPrice := value;
    }

    method SetInStockOnly(checked: bool)
      modifies this
      ensures Filters() == old(Filters()).(inStockOnly := checked)
      ensures sortBy == old(sortBy) && isLoading == old(isLoading) && showFilters == old(showFilters)
    {
      inStockOnly := checked;
    }

    method SetOnSaleOnly(checked: bool)
      modifies this
      ensures Filters() == old(Filters()).(onSaleOnly := checked)
      ensures sortBy == old(sortBy) && isLoading == old(isLoading) && showFilters == old(showFilters)
    {
      onSaleOnly := checked;
    }

    method SetSortBy(value: string)
      modifies this
      ensures Filters() == old(Filters()) && sortBy == value
      ensures isLoading == old(isLoading) && showFilters == old(showFilters)
    {
      sortBy := value;
    }

    /** The skeleton while loading, else the grid, or the empty notice when nothing matches. */
    function View(catalog: seq<Product>): (v: GridView)
      reads this
      ensures isLoading <==> v == Skeleton
      ensures v.Grid? ==> |v.products| > 0 && multiset(v.products) == multiset(FilteredAsWritten(catalog, Filters()))
      ensures v == NoResults <==> !isLoading && FilteredAsWritten(catalog, Filters()) == []
    {
      var r := Visible(catalog, Filters(), sortBy);
      SortPermutes(SortKeyOf(sortBy), FilteredAsWritten(catalog, Filters()));
      if isLoading then Skeleton else if |r| > 0 then Grid(r) else NoResults
    }
  }
}
