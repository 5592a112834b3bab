/** The shop listing: a fixed catalogue narrowed by an optional search, an inclusive
    price range and an optional brand selection, then stably sorted by the chosen
    order; plus the page state those controls update. */
module Shop {
  import opened Lists
  import opened Cart

  const AllProducts: seq<Product> := [
    Product("1", "Air Max Revolution", 299, "/models/airmax.png", "Nike", "Red/White", "10", "Air Max Revolution"),
    Product("2", "Ultra Boost 3D", 259, "/models/adidasboost.png", "Adidas", "Black/Gold", "9", "Ultra Boost 3D"),
    Product("3", "Jordan Infinity", 399, "/models/nikeinfinity.png", "Jordan", "White/Blue", "11", "Jordan Infinity"),
    Product("4", "Yeezy Future", 449, "/models/yeezy.png", "Adidas", "Beige/Brown", "10", "Yeezy Future"),
    Product("5", "Chuck Taylor All-Star 3D", 159, "/models/converse.png", "Converse", "Black/White", "9", "Chuck Taylor All-Star 3D"),
    Product("6", "Air Force One Elite", 329, "/models/airforce1.png", "Nike", "White/Silver", "11", "Air Force One Elite")
  ]

  const AvailableBrands: seq<string> := ["Nike", "Adidas", "Jordan", "Converse"]

  /** The price range a reset restores. */
  const DefaultRange: (int, int) := (0, 500)

  /** The sort orders of the sort selector. */
  datatype SortMode = Featured | PriceLow | PriceHigh | Name

  // ---------------------------------------------------------------------------
  // Search

  /** `toLowerCase` on one character, restricted to ASCII letters. */
  function LowerChar(c: char): char {
    if 'A' <= c <= 'Z' then (c as int + 32) as char else c
  }

  function Lower(s: string): string {
    seq(|s|, i requires 0 <= i < |s| => LowerChar(s[i]))
  }

  /** `s.includes(sub)`: `sub` occurs in `s` at some position. */
  function Includes(s: string, sub: string): bool
    decreases |s|
  {
    if |sub| > |s| then false
    else if s[..|sub|] == sub then true
    else |s| > 0 && Includes(s[1..], sub)
  }

  /** The search predicate: the lowercased name or brand contains the lowercased query. */
  predicate MatchesSearch(p: Product, query: string): (r: bool)
    ensures r <==>
      || (exists i :: OccursAt(Lower(p.name), Lower(query), i))
      || (exists i :: OccursAt(Lower(p.brand), Lower(query), i))
    ensures query == [] ==> r
  {
    IncludesIff(Lower(p.name), Lower(query));
    IncludesIff(Lower(p.brand), Lower(query));
    assert query == [] ==> OccursAt(Lower(p.name), Lower(query), 0);
    Includes(Lower(p.name), Lower(query)) || Includes(Lower(p.brand), Lower(query))
  }

  /** `sub` occurs in `s` starting at position `i`. */
  predicate OccursAt(s: string, sub: string, i: int) {
    0 <= i && i + |sub| <= |s| && s[i..i + |sub|] == sub
  }

  /** A successful `Includes` has a position where `sub` occurs. */
  lemma {:induction false} IncludesSound(s: string, sub: string) returns (i: int)
    requires Includes(s, sub)
    ensures OccursAt(s, sub, i)
    decreases |s|
  {
    if s[..|sub|] == sub {
      i := 0;
    } else {
      var j := IncludesSound(s[1..], sub);
      assert s[j + 1..j + 1 + |sub|] == s[1..][j..j + |sub|];
      i := j + 1;
    }
  }

  /** An occurrence at any position makes `Includes` succeed. */
  lemma {:induction false} IncludesComplete(s: string, sub: string, i: int)
    requires OccursAt(s, sub, i)
    ensures Includes(s, sub)
    decreases |s|
  {
    if i > 0 && s[..|sub|] != sub {
      assert OccursAt(s[1..], sub, i - 1) by {
        assert |s| > 0;
        forall j | 0 <= j < |sub| ensures s[1..][i - 1 + j] == sub[j] {
          assert s[i..i + |sub|][j] == sub[j];
        }
      }
      IncludesComplete(s[1..], sub, i - 1);
    }
  }

  /** `Includes` agrees with the positional definition of a substring. */
  lemma IncludesIff(s: string, sub: string)
    ensures Includes(s, sub) <==> exists i :: OccursAt(s, sub, i)
  {
    if Includes(s, sub) {
      var i := IncludesSound(s, sub);
    }
    forall i | OccursAt(s, sub, i) ensures Includes(s, sub) {
      IncludesComplete(s, sub, i);
    }
  }

  /** Lowercased text holds no ASCII capital and keeps its length. */
  lemma LowerNoCapitals(s: string)
    ensures |Lower(s)| == |s|
    ensures forall i :: 0 <= i < |s| ==> !('A' <= Lower(s)[i] <= 'Z')
  {
  }

  /** A query containing no ASCII capitals is matched against the lowercased fields unchanged. */
  lemma LowerIdentity(s: string)
    requires forall i :: 0 <= i < |s| ==> !('A' <= s[i] <= 'Z')
    ensures Lower(s) == s
  {
  }

  /** Lowercasing twice is lowercasing once. */
  lemma LowerIdempotent(s: string)
    ensures Lower(Lower(s)) == Lower(s)
  {
    LowerNoCapitals(s);
    LowerIdentity(Lower(s));
  }

  // ---------------------------------------------------------------------------
  // Filters

  /** The three filters of the listing, in the order the page applies them. */
  function Filtered(products: seq<Product>, query: string, range: (int, int), brands: seq<string>)
    : (r: seq<Product>)
    ensures forall p :: p in r ==> range.0 <= p.price <= range.1
    ensures |brands| > 0 ==> forall p :: p in r ==> p.brand in brands
    ensures |query| > 0 ==> forall p :: p in r ==> MatchesSearch(p, query)
    ensures forall p :: p in r <==>
      && p in products
      && (|query| == 0 || MatchesSearch(p, query))
      && range.0 <= p.price <= range.1
      && (|brands| == 0 || p.brand in brands)
  {
    var searched := if |query| > 0 then Filter(products, p => MatchesSearch(p, query)) else products;
    var priced := Filter(searched, (p: Product) => p.price >= range.0 && p.price <= range.1);
    if |brands| > 0 then Filter(priced, (p: Product) => p.brand in brands) else priced
  }

  /** Before sorting, the listing is the catalogue with entries deleted, in catalogue order. */
  lemma FilteredIsSubsequence(products: seq<Product>, query: string, range: (int, int), brands: seq<string>)
    ensures IsSubsequence(Filtered(products, query, range, brands), products)
  {
    var searched := if |query| > 0 then Filter(products, p => MatchesSearch(p, query)) else products;
    if |query| > 0 {
      FilterIsSubsequence(products, p => MatchesSearch(p, query));
    } else {
      SubsequenceReflexive(products);
    }
    var inRange := (p: Product) => p.price >= range.0 && p.price <= range.1;
    var priced := Filter(searched, inRange);
    FilterIsSubsequence(searched, inRange);
    SubsequenceTransitive(priced, searched, products);
    if |brands| > 0 {
      var inBrands := (p: Product) => p.brand in brands;
      FilterIsSubsequence(priced, inBrands);
      SubsequenceTransitive(Filter(priced, inBrands), priced, products);
    }
  }

  /** A lower bound above the upper bound leaves nothing to show. */
  lemma InvertedRangeIsEmpty(products: seq<Product>, query: string, range: (int, int), brands: seq<string>)
    requires range.0 > range.1
    ensures Filtered(products, query, range, brands) == []
  {
    var searched := if |query| > 0 then Filter(products, p => MatchesSearch(p, query)) else products;
    var inRange := (p: Product) => p.price >= range.0 && p.price <= range.1;
    FilterNoneKept(searched, inRange);
    if |brands| > 0 {
      FilterNoneKept([], (p: Product) => p.brand in brands);
    }
  }

  // ---------------------------------------------------------------------------
  // Sorting

  /** The comparator handed to `sort`; `localeCompare` is the platform's collation. */
  function Compare(mode: SortMode, localeCompare: (string, string) -> int, a: Product, b: Product): (r: int)
    ensures mode == Featured ==> r == 0
    ensures mode == PriceLow ==> (r < 0 <==> a.price < b.price) && (r == 0 <==> a.price == b.price)
    ensures mode == PriceHigh ==> (r < 0 <==> a.price > b.price) && (r == 0 <==> a.price == b.price)
    ensures mode == Name ==> r == localeCompare(a.name, b.name)
  {
    match mode
    case PriceLow => a.price - b.price
    case PriceHigh => b.price - a.price
    case Name => localeCompare(a.name, b.name)
    case Featured => 0
  }

  /** Places `x` before the first element it does not compare above; `x` goes
      before elements it ties with, which is what keeps the sort stable. */
  function Insert(x: Product, t: seq<Product>, mode: SortMode, localeCompare: (string, string) -> int)
    : (r: seq<Product>)
    ensures multiset(r) == multiset(t) + multiset{x}
    decreases |t|
  {
    if t == [] then [x]
    else if Compare(mode, localeCompare, x, t[0]) <= 0 then [x] + t
    else
      assert t == [t[0]] + t[1..];
      [t[0]] + Insert(x, t[1..], mode, localeCompare)
  }

  /** `[...filtered].sort(compare)`: a stable sort, written as insertion sort. */
  function Sort(s: seq<Product>, mode: SortMode, localeCompare: (string, string) -> int)
    : (r: seq<Product>)
    ensures multiset(r) == multiset(s)
    decreases |s|
  {
    if s == [] then []
    else
      assert s == [s[0]] + s[1..];
      Insert(s[0], Sort(s[1..], mode, localeCompare), mode, localeCompare)
  }

  /** For every order but `Name`, the comparator is a difference of integer keys. */
  function Key(mode: SortMode, p: Product): int {
    match mode
    case PriceLow => p.price
    case PriceHigh => -p.price
    case _ => 0
  }

  predicate SortedBy(s: seq<Product>, mode: SortMode) {
    forall i, j :: 0 <= i < j < |s| ==> Key(mode, s[i]) <= Key(mode, s[j])
  }

  /** The products whose key is `k`. */
  function WithKey(mode: SortMode, k: int): Product -> bool {
    (p: Product) => Key(mode, p) == k
  }

  /** A head no greater than anything after it extends a sorted sequence. */
  lemma SortedCons(h: Product, rest: seq<Product>, mode: SortMode)
    requires SortedBy(rest, mode)
    requires forall y :: y in rest ==> Key(mode, h) <= Key(mode, y)
    ensures SortedBy([h] + rest, mode)
  {
    var r := [h] + rest;
    forall i, j | 0 <= i < j < |r| ensures Key(mode, r[i]) <= Key(mode, r[j]) {
      assert r[j] == rest[j - 1] && rest[j - 1] in rest;
      if i > 0 {
        assert r[i] == rest[i - 1];
      }
    }
  }

  lemma {:induction false} InsertSorted(x: Product, t: seq<Product>, mode: SortMode, localeCompare: (string, string) -> int)
    requires mode != Name && SortedBy(t, mode)
    ensures SortedBy(Insert(x, t, mode, localeCompare), mode)
    decreases |t|
  {
    if t != [] {
      var tail := t[1..];
      assert SortedBy(tail, mode);
      assert forall y :: y in tail ==> Key(mode, t[0]) <= Key(mode, y) by {
        forall y | y in tail ensures Key(mode, t[0]) <= Key(mode, y) {
          var m :| 0 <= m < |tail| && tail[m] == y;
          assert tail[m] == t[m + 1];
        }
      }
      if Compare(mode, localeCompare, x, t[0]) <= 0 {
        assert t == [t[0]] + tail;
        assert forall y :: y in t ==> Key(mode, x) <= Key(mode, y);
        SortedCons(x, t, mode);
      } else {
        var rest := Insert(x, tail, mode, localeCompare);
        InsertSorted(x, tail, mode, localeCompare);
        forall y | y in rest ensures Key(mode, t[0]) <= Key(mode, y) {
          assert y in multiset(rest);
        }
        SortedCons(t[0], rest, mode);
      }
    }
  }

  /** For every order but `Name`, the sort orders by key. */
  lemma {:induction false} SortSorted(s: seq<Product>, mode: SortMode, localeCompare: (string, string) -> int)
    requires mode != Name
    ensures SortedBy(Sort(s, mode, localeCompare), mode)
    decreases |s|
  {
    if s != [] {
      SortSorted(s[1..], mode, localeCompare);
      InsertSorted(s[0], Sort(s[1..], mode, localeCompare), mode, localeCompare);
    }
  }

  /** 'price-low' yields non-decreasing prices. */
  lemma PriceLowSorted(s: seq<Product>, localeCompare: (string, string) -> int)
    ensures var r := Sort(s, PriceLow, localeCompare);
      forall i, j :: 0 <= i < j < |r| ==> r[i].price <= r[j].price
  {
    SortSorted(s, PriceLow, localeCompare);
  }

  /** 'price-high' yields non-increasing prices. */
  lemma PriceHighSorted(s: seq<Product>, localeCompare: (string, string) -> int)
    ensures var r := Sort(s, PriceHigh, localeCompare);
      forall i, j :: 0 <= i < j < |r| ==> r[i].price >= r[j].price
  {
    SortSorted(s, PriceHigh, localeCompare);
    var r := Sort(s, PriceHigh, localeCompare);
    forall i, j | 0 <= i < j < |r| ensures r[i].price >= r[j].price {
      assert Key(PriceHigh, r[i]) <= Key(PriceHigh, r[j]);
    }
  }

  /** Inserting keeps, among the products of one key, the new one first and the others in order. */
  lemma {:induction false} InsertStable(x: Product, t: seq<Product>, mode: SortMode,
                                        localeCompare: (string, string) -> int, k: int)
    requires mode != Name
    ensures Filter(Insert(x, t, mode, localeCompare), WithKey(mode, k))
         == Filter([x] + t, WithKey(mode, k))
    decreases |t|
  {
    var same := WithKey(mode, k);
    if t == [] {
    } else if Compare(mode, localeCompare, x, t[0]) <= 0 {
    } else {
      var rest := Insert(x, t[1..], mode, localeCompare);
      InsertStable(x, t[1..], mode, localeCompare, k);
      assert ([t[0]] + rest)[1..] == rest;
      assert ([x] + t)[1..] == t;
      assert ([x] + t[1..])[1..] == t[1..];
      assert t == [t[0]] + t[1..];
      assert ([t[0]] + t[1..])[1..] == t[1..];
    }
  }

  /** For every order but `Name`, products with equal keys keep their relative order. */
  lemma {:induction false} SortStable(s: seq<Product>, mode: SortMode,
                                      localeCompare: (string, string) -> int, k: int)
    requires mode != Name
    ensures Filter(Sort(s, mode, localeCompare), WithKey(mode, k)) == Filter(s, WithKey(mode, k))
    decreases |s|
  {
    if s != [] {
      var sorted := Sort(s[1..], mode, localeCompare);
      InsertStable(s[0], sorted, mode, localeCompare, k);
      SortStable(s[1..], mode, localeCompare, k);
      assert ([s[0]] + sorted)[1..] == sorted;
    }
  }

  /** 'featured' compares everything equal, so the stable sort keeps the given order. */
  lemma {:induction false} FeaturedKeepsOrder(s: seq<Product>, localeCompare: (string, string) -> int)
    ensures Sort(s, Featured, localeCompare) == s
    decreases |s|
  {
    if s != [] {
      FeaturedKeepsOrder(s[1..], localeCompare);
    }
  }

  // ---------------------------------------------------------------------------
  // The listing

  /** The body of the filtering effect: filter, then sort a copy. */
  function Visible(products: seq<Product>, query: string, range: (int, int), brands: seq<string>,
                   mode: SortMode, localeCompare: (string, string) -> int): (r: seq<Product>)
    ensures multiset(r) == multiset(Filtered(products, query, range, brands))
    ensures forall p :: p in r ==> range.0 <= p.price <= range.1
  {
    var r := Sort(Filtered(products, query, range, brands), mode, localeCompare);
    assert forall p :: p in r ==> p in multiset(r);
    r
  }

  /** Every listed product is a catalogue product that passes the active filters. */
  lemma VisibleMembers(products: seq<Product>, query: string, range: (int, int), brands: seq<string>,
                       mode: SortMode, localeCompare: (string, string) -> int)
    ensures var r := Visible(products, query, range, brands, mode, localeCompare);
      forall p :: p in r ==>
        && p in products
        && range.0 <= p.price <= range.1
        && (|brands| > 0 ==> p.brand in brands)
        && (|query| > 0 ==> MatchesSearch(p, query))
  {
    var r := Visible(products, query, range, brands, mode, localeCompare);
    forall p | p in r ensures p in Filtered(products, query, range, brands) {
      assert p in multiset(r);
    }
  }

  /** With 'featured' the listing keeps catalogue order. */
  lemma FeaturedListingInCatalogueOrder(products: seq<Product>, query: string, range: (int, int),
                                        brands: seq<string>, localeCompare: (string, string) -> int)
    ensures Visible(products, query, range, brands, Featured, localeCompare)
         == Filtered(products, query, range, brands)
    ensures IsSubsequence(Visible(products, query, range, brands, Featured, localeCompare), products)
  {
    FeaturedKeepsOrder(Filtered(products, query, range, brands), localeCompare);
    FilteredIsSubsequence(products, query, range, brands);
  }

  /** Every catalogue price lies in the default range. */
  lemma CatalogueInDefaultRange()
    ensures forall i :: 0 <= i < |AllProducts| ==> DefaultRange.0 <= AllProducts[i].price <= DefaultRange.1
  {
  }

  /** With every filter at its reset value, any product list whose prices lie in
      the reset range is listed whole and in its own order. */
  lemma UnfilteredListing(products: seq<Product>, localeCompare: (string, string) -> int)
    requires forall i :: 0 <= i < |products| ==> DefaultRange.0 <= products[i].price <= DefaultRange.1
    ensures Visible(products, "", DefaultRange, [], Featured, localeCompare) == products
  {
    var inRange := (p: Product) => p.price >= DefaultRange.0 && p.price <= DefaultRange.1;
    FilterKeepsAll(products, inRange);
    assert Filtered(products, "", DefaultRange, []) == Filter(products, inRange);
    FeaturedKeepsOrder(products, localeCompare);
  }

  /** With every filter at its reset value, the page lists the whole catalogue in order. */
  lemma DefaultListingIsCatalogue(localeCompare: (string, string) -> int)
    ensures Visible(AllProducts, "", DefaultRange, [], Featured, localeCompare) == AllProducts
  {
    CatalogueInDefaultRange();
    UnfilteredListing(AllProducts, localeCompare);
  }

  /** Catalogue ids are distinct and every catalogue brand is offered as a brand filter. */
  lemma CatalogueWellFormed()
    ensures forall i, j :: 0 <= i < j < |AllProducts| ==> AllProducts[i].id != AllProducts[j].id
    ensures forall i :: 0 <= i < |AllProducts| ==> AllProducts[i].brand in AvailableBrands
  {
  }

  // ---------------------------------------------------------------------------
  // Filter state

  /** `activeFiltersCount`: selected brands, plus one when the range is not the default. */
  function ActiveFiltersCount(brands: seq<string>, range: (int, int)): (r: int)
    ensures |brands| <= r <= |brands| + 1
    ensures r == |brands| <==> range == DefaultRange
  {
    |brands| + (if range.0 != 0 || range.1 != 500 then 1 else 0)
  }

  /** No filter is reported active exactly when no brand is selected and the range is the default. */
  lemma ActiveFiltersZero(brands: seq<string>, range: (int, int))
    ensures ActiveFiltersCount(brands, range) >= 0
    ensures ActiveFiltersCount(brands, range) == 0 <==> brands == [] && range == DefaultRange
  {
  }

  /** The listing page's filter state. */
  class ShopPage {
    var searchQuery: string
    var priceRange: (int, int)
    var selectedBrands: seq<string>
    var sortBy: SortMode
    var filteredProducts: seq<Product>

    /** The brand selection never holds a brand twice. */
    ghost predicate Valid()
      reads this
    {
      Distinct(selectedBrands)
    }

    constructor ()
      ensures Valid()
      ensures searchQuery == "" && priceRange == DefaultRange && selectedBrands == []
      ensures sortBy == Featured && filteredProducts == AllProducts
    {
      searchQuery := "";
      priceRange := DefaultRange;
      selectedBrands := [];
      sortBy := Featured;
      filteredProducts := AllProducts;
    }

    /** The filtering effect: recompute the listing from the current controls. */
    method ApplyFilters(localeCompare: (string, string) -> int)
      modifies this`filteredProducts
      ensures filteredProducts
           == Visible(AllProducts, searchQuery, priceRange, selectedBrands, sortBy, localeCompare)
      ensures forall p :: p in filteredProducts ==> priceRange.0 <= p.price <= priceRange.1
      ensures forall p :: p in filteredProducts ==> p in AllProducts
      ensures |selectedBrands| > 0 ==> forall p :: p in filteredProducts ==> p.brand in selectedBrands
    {
      filteredProducts := Visible(AllProducts, searchQuery, priceRange, selectedBrands, sortBy, localeCompare);
      VisibleMembers(AllProducts, searchQuery, priceRange, selectedBrands, sortBy, localeCompare);
    }

    /** `toggleBrand`: append an absent brand, drop a present one. */
    method ToggleBrand(brand: string)
      requires Valid()
      modifies this`selectedBrands
      ensures Valid()
      ensures selectedBrands == Toggle(old(selectedBrands), brand)
      ensures brand in selectedBrands <==> brand !in old(selectedBrands)
      ensures forall b :: b != brand ==> (b in selectedBrands <==> b in old(selectedBrands))
    {
      ToggleKeepsDistinct(selectedBrands, brand);
      selectedBrands := Toggle(selectedBrands, brand);
    }

    /** `clearAllFilters`: every control back to its initial value. */
    method ClearAllFilters()
      modifies this`selectedBrands, this`priceRange, this`searchQuery, this`sortBy
      ensures Valid()
      ensures selectedBrands == [] && priceRange == DefaultRange && searchQuery == "" && sortBy == Featured
      ensures ActiveFiltersCount(selectedBrands, priceRange) == 0
    {
      selectedBrands := [];
      priceRange := DefaultRange;
      searchQuery := "";
      sortBy := Featured;
    }

    method SetSearchQuery(query: string)
      modifies this`searchQuery
      ensures searchQuery == query
    {
      searchQuery := query;
    }

    method SetSortBy(mode: SortMode)
      modifies this`sortBy
      ensures sortBy == mode
    {
      sortBy := mode;
    }

    /** The lower range slider: `setPriceRange([value, priceRange[1]])`. */
    method SetMinPrice(value: int)
      modifies this`priceRange
      ensures priceRange == (value, old(priceRange.1))
    {
      priceRange := (value, priceRange.1);
    }

    /** The upper range slider: `setPriceRange([priceRange[0], value])`. */
    method SetMaxPrice(value: int)
      modifies this`priceRange
      ensures priceRange == (old(priceRange.0), value)
    {
      priceRange := (priceRange.0, value);
    }
  }
}
