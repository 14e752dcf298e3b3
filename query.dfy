/**
 * The catalog query of the storefront page (src/App.tsx, `isFiltered`, `filtered` and
 * `handleClearFilters`): a category, a size and a free-text filter applied one after the
 * other, then an optional stable sort by price.
 */
module Query {
  import opened Seqs
  import opened Text
  import opened Catalog
  import opened KeySort

  /** What the filter bar holds: the selected category and size, the search text and the sort choice. */
  datatype Criteria = Criteria(category: string, size: string, query: string, sort: string)

  /** The initial state of the filter bar, and the one "Clear Filters" restores. */
  const Defaults := Criteria("All", "All", "", "featured")

  /** `isFiltered`: some choice differs from the defaults (a blank search text does not count). */
  predicate IsFiltered(c: Criteria)
  {
    c.category != "All" || c.size != "All" || Trim(c.query) != "" || c.sort != "featured"
  }

  /** The category test: "All" accepts every product. */
  predicate CategoryOk(category: string, p: Product)
  {
    category == "All" || p.category == category
  }

  /** The size test: "All" accepts every product. */
  predicate SizeOk(size: string, p: Product)
  {
    size == "All" || p.size == size
  }

  /** The search test for an already lowercased text: a substring of the lowercased name, category or condition. */
  predicate TextMatch(p: Product, q: string)
  {
    Contains(Lower(p.name), q) || Contains(Lower(p.category), q) || Contains(Lower(p.condition), q)
  }

  /** The text test: a blank search text accepts every product; otherwise the text is lowercased, but not trimmed. */
  predicate TextOk(query: string, p: Product)
  {
    Trim(query) == "" || TextMatch(p, Lower(query))
  }

  /** A product is shown exactly when it passes all three tests. */
  predicate Matches(c: Criteria, p: Product)
  {
    CategoryOk(c.category, p) && SizeOk(c.size, p) && TextOk(c.query, p)
  }

  function CategoryIs(category: string): Product -> bool
  {
    (p: Product) => p.category == category
  }

  function SizeIs(size: string): Product -> bool
  {
    (p: Product) => p.size == size
  }

  function Mentions(q: string): Product -> bool
  {
    p => TextMatch(p, q)
  }

  /** `data.filter((p) => p.category === category)`, applied unless the choice is "All". */
  function ByCategory(data: seq<Product>, category: string): seq<Product>
  {
    if category != "All" then Filter(data, CategoryIs(category)) else data
  }

  /** `data.filter((p) => p.size === size)`, applied unless the choice is "All". */
  function BySize(data: seq<Product>, size: string): seq<Product>
  {
    if size != "All" then Filter(data, SizeIs(size)) else data
  }

  /** The search filter, applied only when the trimmed text is not empty, with the untrimmed text lowercased. */
  function ByText(data: seq<Product>, query: string): seq<Product>
  {
    if Trim(query) != "" then Filter(data, Mentions(Lower(query))) else data
  }

  /** The three filter stages in the page's order. */
  function Staged(catalog: seq<Product>, c: Criteria): seq<Product>
  {
    ByText(BySize(ByCategory(catalog, c.category), c.size), c.query)
  }

  /** The sort key of the comparator: `price || 0` ascending, or its negation for descending. */
  function Rank(desc: bool): Product -> int
  {
    p => if desc then -(PriceKey(p) as int) else PriceKey(p) as int
  }

  /** The comparator handed to `sort`: `(a.price || 0) - (b.price || 0)`, or the other way round for descending. */
  function Compare(a: Product, b: Product, desc: bool): int
  {
    if desc then PriceKey(b) as int - PriceKey(a) as int else PriceKey(a) as int - PriceKey(b) as int
  }

  /**
   * The comparator is positive exactly when the first product's sort key is greater, and zero exactly
   * when the prices tie, so sorting with it is sorting by `Rank`, ties kept in place.
   */
  lemma CompareIsRank(a: Product, b: Product, desc: bool)
    ensures Compare(a, b, desc) > 0 <==> Rank(desc)(a) > Rank(desc)(b)
    ensures Compare(a, b, desc) == 0 <==> PriceKey(a) == PriceKey(b)
  {
  }

  /** The sort stage: a stable sort by `Rank` for the two price choices, the list unchanged for any other. */
  function Arrange(data: seq<Product>, sort: string): seq<Product>
  {
    if sort == "price_asc" then SortByKey(data, Rank(false))
    else if sort == "price_desc" then SortByKey(data, Rank(true))
    else data
  }

  /** The list the page shows: the filtered catalog, then the sort stage. */
  function Select(catalog: seq<Product>, c: Criteria): seq<Product>
  {
    Arrange(Staged(catalog, c), c.sort)
  }

  /**
   * `filtered`: a copy of the catalog narrowed stage by stage, then sorted in place.
   * The array sort moves an element left past another exactly when the comparator is positive.
   */
  method Filtered(catalog: seq<Product>, c: Criteria) returns (r: seq<Product>)
    ensures r == Select(catalog, c)
  {
    var data := catalog;
    if c.category != "All" {
      data := Filter(data, CategoryIs(c.category));
    }
    if c.size != "All" {
      data := Filter(data, SizeIs(c.size));
    }
    if Trim(c.query) != "" {
      var q := Lower(c.query);
      data := Filter(data, Mentions(q));
    }
    if c.sort == "price_asc" || c.sort == "price_desc" {
      var a := new Product[|data|](k requires 0 <= k < |data| => data[k]);
      assert a[..] == data;
      SortInPlace(a, Rank(c.sort == "price_desc"));
      data := a[..];
    }
    r := data;
  }

  function CategoryAccepts(category: string): Product -> bool
  {
    p => CategoryOk(category, p)
  }

  function SizeAccepts(size: string): Product -> bool
  {
    p => SizeOk(size, p)
  }

  function TextAccepts(query: string): Product -> bool
  {
    p => TextOk(query, p)
  }

  function CategoryAndSize(c: Criteria): Product -> bool
  {
    p => CategoryOk(c.category, p) && SizeOk(c.size, p)
  }

  function MatchesAll(c: Criteria): Product -> bool
  {
    p => Matches(c, p)
  }

  lemma ByCategoryIsTest(data: seq<Product>, category: string)
    ensures ByCategory(data, category) == Filter(data, CategoryAccepts(category))
  {
    if category != "All" {
      FilterExt(data, CategoryIs(category), CategoryAccepts(category));
    } else {
      FilterKeepsAll(data, CategoryAccepts(category));
    }
  }

  lemma BySizeIsTest(data: seq<Product>, size: string)
    ensures BySize(data, size) == Filter(data, SizeAccepts(size))
  {
    if size != "All" {
      FilterExt(data, SizeIs(size), SizeAccepts(size));
    } else {
      FilterKeepsAll(data, SizeAccepts(size));
    }
  }

  lemma ByTextIsTest(data: seq<Product>, query: string)
    ensures ByText(data, query) == Filter(data, TextAccepts(query))
  {
    if Trim(query) != "" {
      FilterExt(data, Mentions(Lower(query)), TextAccepts(query));
    } else {
      FilterKeepsAll(data, TextAccepts(query));
    }
  }

  /** The staged filters are one filter by `Matches`. */
  lemma StagedIsOneFilter(catalog: seq<Product>, c: Criteria)
    ensures Staged(catalog, c) == Filter(catalog, MatchesAll(c))
  {
    var byCategory := Filter(catalog, CategoryAccepts(c.category));
    ByCategoryIsTest(catalog, c.category);
    BySizeIsTest(byCategory, c.size);
    FilterFusion(catalog, CategoryAccepts(c.category), SizeAccepts(c.size), CategoryAndSize(c));
    var bySize := Filter(catalog, CategoryAndSize(c));
    ByTextIsTest(bySize, c.query);
    FilterFusion(catalog, CategoryAndSize(c), TextAccepts(c.query), MatchesAll(c));
  }

  /** Soundness and completeness of the filters: a product is in the result exactly when it is in the catalog and matches. */
  lemma SelectMembers(catalog: seq<Product>, c: Criteria, p: Product)
    ensures p in Select(catalog, c) <==> p in catalog && Matches(c, p)
  {
    var data := Staged(catalog, c);
    StagedIsOneFilter(catalog, c);
    FilterMembers(catalog, MatchesAll(c));
    assert p in data <==> p in catalog && MatchesAll(c)(p);
    ArrangePermutes(data, c.sort);
    assert p in Select(catalog, c) <==> p in multiset(Select(catalog, c));
    assert p in data <==> p in multiset(data);
  }

  /** The filters keep the catalog order: their result is the catalog with some products deleted. */
  lemma FilterKeepsOrder(catalog: seq<Product>, c: Criteria)
    ensures IsSubsequence(Staged(catalog, c), catalog)
  {
    StagedIsOneFilter(catalog, c);
    FilterIsSubsequence(catalog, MatchesAll(c));
  }

  /** The sort stage rearranges the filtered products and adds or drops none. */
  lemma ArrangePermutes(data: seq<Product>, sort: string)
    ensures multiset(Arrange(data, sort)) == multiset(data)
  {
    if sort == "price_asc" {
      SortByKeySortsAndPermutes(data, Rank(false));
    } else if sort == "price_desc" {
      SortByKeySortsAndPermutes(data, Rank(true));
    }
  }

  /** With the defaults the page shows the whole catalog in its own order. */
  lemma DefaultsShowCatalog(catalog: seq<Product>)
    ensures Select(catalog, Defaults) == catalog
  {
    assert Trim("") == "";
  }

  /** When nothing counts as filtered, the page shows the whole catalog in its own order, whatever blank text is in the search box. */
  lemma UnfilteredShowsCatalog(catalog: seq<Product>, c: Criteria)
    requires !IsFiltered(c)
    ensures Select(catalog, c) == catalog
  {
  }

  /** `isFiltered` holds exactly when a choice is not its default, a search text counting only when it is not all white space. */
  lemma IsFilteredIffChanged(c: Criteria)
    ensures IsFiltered(c) <==>
      (c.category != Defaults.category || c.size != Defaults.size || !AllSpace(c.query) || c.sort != Defaults.sort)
  {
  }

  /** A search text of white space only is skipped: the text filter leaves the list as it is. */
  lemma BlankQueryIgnored(data: seq<Product>, query: string)
    requires AllSpace(query)
    ensures ByText(data, query) == data
  {
  }

  /** Any one of name, category and condition containing the lowercased text is enough. */
  lemma EachFieldSuffices(c: Criteria, p: Product)
    requires Trim(c.query) != ""
    ensures TextOk(c.query, p) <==>
      ((exists i: nat :: OccursAt(Lower(p.name), Lower(c.query), i))
      || (exists i: nat :: OccursAt(Lower(p.category), Lower(c.query), i))
      || (exists i: nat :: OccursAt(Lower(p.condition), Lower(c.query), i)))
  {
  }

  lemma AllSpaceUpper(s: string)
    ensures AllSpace(Upper(s)) <==> AllSpace(s)
  {
    assert forall k :: 0 <= k < |s| ==> IsJsSpace(Upper(s)[k]) == IsJsSpace(s[k]);
  }

  lemma ByTextIgnoresCase(data: seq<Product>, query: string)
    ensures ByText(data, Upper(query)) == ByText(data, query)
  {
    AllSpaceUpper(query);
    LowerIgnoresCase(query);
  }

  /** The search ignores the case of what is typed: typing the text in capitals shows the same products. */
  lemma SearchIgnoresCase(catalog: seq<Product>, c: Criteria)
    ensures Select(catalog, c.(query := Upper(c.query))) == Select(catalog, c)
  {
    var upper := c.(query := Upper(c.query));
    ByTextIgnoresCase(BySize(ByCategory(catalog, c.category), c.size), c.query);
    assert Staged(catalog, upper) == Staged(catalog, c);
    assert upper.sort == c.sort;
  }

  /** `s` has no "ee" early enough to start an occurrence of "tee ". */
  lemma NoTeeSpace(s: string)
    requires forall i :: 1 <= i < |s| - 2 ==> !(s[i] == 'e' && s[i + 1] == 'e')
    ensures !Contains(s, "tee ")
  {
    forall i: nat ensures !OccursAt(s, "tee ", i) {
      if i + 4 <= |s| {
        assert s[i..i + 4][1] == s[i + 1] && s[i..i + 4][2] == s[i + 2];
      }
    }
  }

  /** The search lowercases both sides: "new" finds a product in the condition "New with tags", such as dv-001. */
  lemma SearchFindsLowercased(p: Product)
    requires p.condition == "New with tags"
    ensures TextMatch(p, Lower("new"))
  {
    assert Lower(p.condition)[..3] == "new";
    assert OccursAt(Lower(p.condition), Lower("new"), 0);
  }

  lemma NameHasTee()
    ensures OccursAt(Lower("Trapstar Tee"), "tee", 9)
  {
    assert Lower("Trapstar Tee") == "trapstar tee";
  }

  lemma NameLacksTeeSpace()
    ensures !Contains(Lower("Trapstar Tee"), "tee ")
  {
    assert Lower("Trapstar Tee") == "trapstar tee";
    NoTeeSpace("trapstar tee");
  }

  lemma CategoryLacksTeeSpace()
    ensures !Contains(Lower("Designer Clothing"), "tee ")
  {
    assert Lower("Designer Clothing") == "designer clothing";
    NoTeeSpace("designer clothing");
  }

  lemma ConditionLacksTeeSpace()
    ensures !Contains(Lower("Used, Like New"), "tee ")
  {
    assert Lower("Used, Like New") == "used, like new";
    NoTeeSpace("used, like new");
  }

  /**
   * The search text is not trimmed: "Tee" finds the catalog's "Trapstar Tee" (dv-005), but "Tee " with a
   * trailing space does not, although its trimmed form is the same.
   */
  lemma SearchIsNotTrimmed(p: Product)
    requires p.name == "Trapstar Tee" && p.category == "Designer Clothing" && p.condition == "Used, Like New"
    ensures TextMatch(p, Lower("Tee"))
    ensures !TextMatch(p, Lower("Tee "))
  {
    assert Lower("Tee") == "tee" && Lower("Tee ") == "tee ";
    NameHasTee();
    NameLacksTeeSpace();
    CategoryLacksTeeSpace();
    ConditionLacksTeeSpace();
  }

  /** "Price: Low to High" orders by `price || 0` from low to high. */
  lemma AscendingByPrice(data: seq<Product>)
    ensures forall i, j :: 0 <= i < j < |Arrange(data, "price_asc")| ==>
      PriceKey(Arrange(data, "price_asc")[i]) <= PriceKey(Arrange(data, "price_asc")[j])
  {
    SortByKeySortsAndPermutes(data, Rank(false));
  }

  /** "Price: High to Low" orders by `price || 0` from high to low. */
  lemma DescendingByPrice(data: seq<Product>)
    ensures forall i, j :: 0 <= i < j < |Arrange(data, "price_desc")| ==>
      PriceKey(Arrange(data, "price_desc")[i]) >= PriceKey(Arrange(data, "price_desc")[j])
  {
    SortByKeySortsAndPermutes(data, Rank(true));
  }

  /** A product without a price counts as 0: from low to high it comes before every product with a price above 0. */
  lemma UnpricedFirst(data: seq<Product>)
    ensures forall i, j ::
      (0 <= i < |Arrange(data, "price_asc")| && 0 <= j < |Arrange(data, "price_asc")| &&
       Arrange(data, "price_asc")[i].price.None? && HasShownPrice(Arrange(data, "price_asc")[j])) ==> i < j
  {
    AscendingByPrice(data);
  }

  /** From high to low, every product with a price above 0 comes before every product without one. */
  lemma UnpricedLast(data: seq<Product>)
    ensures forall i, j ::
      (0 <= i < |Arrange(data, "price_desc")| && 0 <= j < |Arrange(data, "price_desc")| &&
       Arrange(data, "price_desc")[i].price.None? && HasShownPrice(Arrange(data, "price_desc")[j])) ==> j < i
  {
    DescendingByPrice(data);
  }

  function PricedAt(n: nat): Product -> bool
  {
    p => PriceKey(p) == n
  }

  /** The products with `price || 0` equal to `n`, in their order in `s`. */
  function WithPrice(s: seq<Product>, n: nat): seq<Product>
  {
    Filter(s, PricedAt(n))
  }

  lemma WithPriceIsWithKey(s: seq<Product>, desc: bool, n: nat)
    ensures WithPrice(s, n) == WithKey(s, Rank(desc), if desc then -(n as int) else n as int)
  {
    var k := if desc then -(n as int) else n as int;
    forall i | 0 <= i < |s| ensures PricedAt(n)(s[i]) == KeyIs(Rank(desc), k)(s[i]) {
    }
    FilterExt(s, PricedAt(n), KeyIs(Rank(desc), k));
  }

  /** Both price sorts are stable: products of equal price keep the order the filters left them in. */
  lemma PriceSortIsStable(data: seq<Product>, sort: string, n: nat)
    ensures WithPrice(Arrange(data, sort), n) == WithPrice(data, n)
  {
    var desc := sort == "price_desc";
    if sort == "price_asc" || desc {
      WithPriceIsWithKey(Arrange(data, sort), desc, n);
      WithPriceIsWithKey(data, desc, n);
      SortStable(data, Rank(desc), if desc then -(n as int) else n as int);
    }
  }

  /**
   * The price order is determined: a list ordered from low to high that keeps, price by price, the
   * order of the filtered products is exactly what "Price: Low to High" shows.
   */
  lemma AscendingIsDetermined(data: seq<Product>, r: seq<Product>)
    requires forall i, j :: 0 <= i < j < |r| ==> PriceKey(r[i]) <= PriceKey(r[j])
    requires forall n: nat :: WithPrice(r, n) == WithPrice(data, n)
    ensures r == Arrange(data, "price_asc")
  {
    forall k ensures WithKey(r, Rank(false), k) == WithKey(data, Rank(false), k) {
      if k >= 0 {
        WithPriceIsWithKey(r, false, k);
        WithPriceIsWithKey(data, false, k);
      } else {
        KeyAbsent(r, Rank(false), k);
        KeyAbsent(data, Rank(false), k);
      }
    }
    IsStableSort(data, r, Rank(false));
  }

  lemma {:induction false} KeyAbsent(s: seq<Product>, key: Product -> int, k: int)
    requires forall p :: key(p) >= 0
    requires k < 0
    ensures WithKey(s, key, k) == []
  {
    if s != [] {
      KeyAbsent(s[1..], key, k);
    }
  }

  /** "Featured" and every other sort choice keep the filtered order. */
  lemma FeaturedKeepsOrder(catalog: seq<Product>, c: Criteria)
    requires c.sort != "price_asc" && c.sort != "price_desc"
    ensures Select(catalog, c) == Filter(catalog, MatchesAll(c))
  {
    StagedIsOneFilter(catalog, c);
  }

  /** The defaults, which the filter bar starts with and "Clear Filters" restores, are not a filtered state. */
  lemma DefaultsNotFiltered()
    ensures !IsFiltered(Defaults)
  {
    assert AllSpace("");
  }

  /** The filter bar's four choices, which the page keeps as state and clears together. */
  class FilterBar {
    var category: string
    var query: string
    var size: string
    var sort: string

    function Current(): Criteria
      reads this
    {
      Criteria(category, size, query, sort)
    }

    constructor()
      ensures Current() == Defaults
    {
      category, query, size, sort := "All", "", "All", "featured";
    }

    /** `handleClearFilters`: every choice back to its default, so the page is no longer filtered. */
    method ClearFilters()
      modifies this
      ensures Current() == Defaults
    {
      category := "All";
      query := "";
      size := "All";
      sort := "featured";
    }
  }
}
