/**
 * The catalogue page (app/catalog/page.tsx): the body of the `useMemo` that filters the
 * products by a case-insensitive search term and a category, then sorts them by one of
 * four modes, and the "showing N of M products" line.
 */
module Catalog {
  import opened Types
  import opened JsString
  import opened Constants

  // ---------------------------------------------------------------------------
  // Filter
  // ---------------------------------------------------------------------------

  /** The lowercased name or description contains the lowercased search term. */
  predicate MatchesSearch(p: Product, searchTerm: string)
  {
    Includes(ToLower(p.name), ToLower(searchTerm)) || Includes(ToLower(p.description), ToLower(searchTerm))
  }

  /** The category selector is `'all'` or names the product's category. */
  predicate MatchesCategory(p: Product, category: string)
  {
    category == "all" || p.category == category
  }

  predicate Matches(p: Product, searchTerm: string, category: string)
  {
    MatchesSearch(p, searchTerm) && MatchesCategory(p, category)
  }

  /** `products.filter(...)`: keeps exactly the matching products, in order. */
  function FilterProducts(products: seq<Product>, searchTerm: string, category: string): (r: seq<Product>)
    ensures forall i :: 0 <= i < |r| ==> r[i] in products && Matches(r[i], searchTerm, category)
    ensures forall i :: 0 <= i < |products| && Matches(products[i], searchTerm, category) ==> products[i] in r
    ensures |r| <= |products|
    decreases |products|
  {
    if |products| == 0 then []
    else
      var rest := FilterProducts(products[1..], searchTerm, category);
      assert forall i :: 0 <= i < |rest| ==> rest[i] in products by {
        forall i | 0 <= i < |rest| ensures rest[i] in products {
          assert rest[i] in products[1..];
        }
      }
      assert forall i :: 1 <= i < |products| ==> products[i] == products[1..][i - 1];
      if Matches(products[0], searchTerm, category) then [products[0]] + rest else rest
  }

  /** The filter distributes over concatenation: relative order is kept. */
  lemma {:induction false} FilterKeepsOrder(a: seq<Product>, b: seq<Product>, searchTerm: string, category: string)
    ensures FilterProducts(a + b, searchTerm, category)
         == FilterProducts(a, searchTerm, category) + FilterProducts(b, searchTerm, category)
    decreases |a|
  {
    if |a| > 0 {
      assert (a + b)[0] == a[0];
      assert (a + b)[1..] == a[1..] + b;
      FilterKeepsOrder(a[1..], b, searchTerm, category);
    } else {
      assert a + b == b;
    }
  }

  /** An empty search term in category `'all'` keeps every product. */
  lemma {:induction false} EmptySearchKeepsAll(products: seq<Product>)
    ensures FilterProducts(products, "", "all") == products
    decreases |products|
  {
    if |products| > 0 {
      EmptyIsIncluded(ToLower(products[0].name));
      assert ToLower("") == "";
      EmptySearchKeepsAll(products[1..]);
      assert products == [products[0]] + products[1..];
    }
  }

  // ---------------------------------------------------------------------------
  // Sort
  // ---------------------------------------------------------------------------

  /** The `sortBy` cases of the comparator; every other value is the name order. */
  datatype SortMode = PriceLow | PriceHigh | Newest | ByName

  /** The `switch (sortBy)`: three named cases and a default. */
  function ParseSortMode(sortBy: string): (m: SortMode)
    ensures m == PriceLow <==> sortBy == "price-low"
    ensures m == PriceHigh <==> sortBy == "price-high"
    ensures m == Newest <==> sortBy == "newest"
  {
    if sortBy == "price-low" then PriceLow
    else if sortBy == "price-high" then PriceHigh
    else if sortBy == "newest" then Newest
    else ByName
  }

  /** The comparator passed to `filtered.sort`; negative means `a` goes first. */
  function Compare(mode: SortMode, a: Product, b: Product): int
  {
    match mode
    case PriceLow => a.price - b.price
    case PriceHigh => b.price - a.price
    case Newest => LocaleCompare(b.id, a.id)
    case ByName => LocaleCompare(a.name, b.name)
  }

  /** The comparator is consistent: swapping its operands negates it, in every mode. */
  lemma CompareAntisymmetric(mode: SortMode, a: Product, b: Product)
    ensures Compare(mode, b, a) == -Compare(mode, a, b)
  {
    match mode
    case Newest => LocaleCompareAntisymmetric(b.id, a.id);
    case ByName => LocaleCompareAntisymmetric(a.name, b.name);
    case _ =>
  }

  /** `a` may stand before `b` in the sorted output. */
  predicate Precedes(mode: SortMode, a: Product, b: Product)
  {
    Compare(mode, a, b) <= 0
  }

  lemma PrecedesTotal(mode: SortMode, a: Product, b: Product)
    ensures Precedes(mode, a, b) || Precedes(mode, b, a)
  {
    match mode
    case Newest => LocaleCompareTotal(b.id, a.id);
    case ByName => LocaleCompareTotal(a.name, b.name);
    case _ =>
  }

  lemma PrecedesTransitive(mode: SortMode, a: Product, b: Product, c: Product)
    requires Precedes(mode, a, b) && Precedes(mode, b, c)
    ensures Precedes(mode, a, c)
  {
    match mode
    case Newest => LocaleCompareTransitive(c.id, b.id, a.id);
    case ByName => LocaleCompareTransitive(a.name, b.name, c.name);
    case _ =>
  }

  /** Every earlier product may precede every later one. */
  ghost predicate Sorted(mode: SortMode, s: seq<Product>)
  {
    forall i, j :: 0 <= i < j < |s| ==> Precedes(mode, s[i], s[j])
  }

  /** Places `x` in front of the first product it may precede. */
  function Insert(mode: SortMode, x: Product, s: seq<Product>): (r: seq<Product>)
    requires Sorted(mode, s)
    ensures multiset(r) == multiset(s) + multiset{x}
    ensures Sorted(mode, r)
    decreases |s|
  {
    if |s| == 0 then [x]
    else if Precedes(mode, x, s[0]) then
      assert forall j :: 0 <= j < |s| ==> Precedes(mode, x, s[j]) by {
        forall j | 0 <= j < |s| ensures Precedes(mode, x, s[j]) {
          if j > 0 { PrecedesTransitive(mode, x, s[0], s[j]); }
        }
      }
      [x] + s
    else
      PrecedesTotal(mode, x, s[0]);
      var rest := Insert(mode, x, s[1..]);
      assert s == [s[0]] + s[1..];
      assert forall j :: 0 <= j < |rest| ==> Precedes(mode, s[0], rest[j]) by {
        forall j | 0 <= j < |rest| ensures Precedes(mode, s[0], rest[j]) {
          assert rest[j] in multiset(rest);
          if rest[j] != x {
            assert rest[j] in multiset(s[1..]);
            var p :| 0 <= p < |s[1..]| && s[1..][p] == rest[j];
            assert s[p + 1] == rest[j];
          }
        }
      }
      [s[0]] + rest
  }

  /** `filtered.sort(comparator)`, as a stable insertion sort. */
  function SortProducts(mode: SortMode, xs: seq<Product>): (r: seq<Product>)
    ensures multiset(r) == multiset(xs)
    ensures Sorted(mode, r)
    decreases |xs|
  {
    if |xs| == 0 then []
    else
      assert xs == [xs[0]] + xs[1..];
      Insert(mode, xs[0], SortProducts(mode, xs[1..]))
  }

  /** `a` and `b` tie under the comparator. */
  predicate Tied(mode: SortMode, a: Product, b: Product)
  {
    Compare(mode, a, b) == 0
  }

  /** Tying is an equivalence: two products tied with a third are tied with each other. */
  lemma TiedThrough(mode: SortMode, a: Product, b: Product, p: Product)
    requires Tied(mode, a, p) && Tied(mode, b, p)
    ensures Tied(mode, a, b)
  {
  }

  /** The products of `s` that tie with `p`, in their order in `s`. */
  function TiesOf(mode: SortMode, p: Product, s: seq<Product>): seq<Product>
    decreases |s|
  {
    if |s| == 0 then []
    else if Tied(mode, s[0], p) then [s[0]] + TiesOf(mode, p, s[1..])
    else TiesOf(mode, p, s[1..])
  }

  /** Inserting `x` puts it in front of every product it ties with. */
  lemma {:induction false} InsertTies(mode: SortMode, x: Product, s: seq<Product>, p: Product)
    requires Sorted(mode, s)
    ensures TiesOf(mode, p, Insert(mode, x, s))
         == if Tied(mode, x, p) then [x] + TiesOf(mode, p, s) else TiesOf(mode, p, s)
    decreases |s|
  {
    if |s| > 0 && !Precedes(mode, x, s[0]) {
      var r := Insert(mode, x, s);
      assert r == [s[0]] + Insert(mode, x, s[1..]);
      assert r[1..] == Insert(mode, x, s[1..]);
      InsertTies(mode, x, s[1..], p);
      if Tied(mode, x, p) && Tied(mode, s[0], p) {
        TiedThrough(mode, x, s[0], p);
      }
    }
  }

  /** The sort is stable: products that tie keep their relative input order. */
  lemma {:induction false} SortIsStable(mode: SortMode, xs: seq<Product>, p: Product)
    ensures TiesOf(mode, p, SortProducts(mode, xs)) == TiesOf(mode, p, xs)
    decreases |xs|
  {
    if |xs| > 0 {
      SortIsStable(mode, xs[1..], p);
      InsertTies(mode, xs[0], SortProducts(mode, xs[1..]), p);
    }
  }

  // ---------------------------------------------------------------------------
  // The page
  // ---------------------------------------------------------------------------

  /** `filteredAndSortedProducts` over a given product list. */
  function FilteredAndSortedProducts(products: seq<Product>, searchTerm: string, category: string, sortBy: string): (r: seq<Product>)
    ensures multiset(r) == multiset(FilterProducts(products, searchTerm, category))
    ensures Sorted(ParseSortMode(sortBy), r)
  {
    SortProducts(ParseSortMode(sortBy), FilterProducts(products, searchTerm, category))
  }

  /** Every shown product is a matching catalogue product, every matching product is
      shown, and no more products are shown than the catalogue holds. */
  lemma ShownProductsMatch(products: seq<Product>, searchTerm: string, category: string, sortBy: string)
    ensures var r := FilteredAndSortedProducts(products, searchTerm, category, sortBy);
      && (forall i :: 0 <= i < |r| ==> r[i] in products && Matches(r[i], searchTerm, category))
      && (forall i :: 0 <= i < |products| && Matches(products[i], searchTerm, category) ==> products[i] in r)
      && |r| <= |products|
  {
    var filtered := FilterProducts(products, searchTerm, category);
    var r := FilteredAndSortedProducts(products, searchTerm, category, sortBy);
    assert forall i :: 0 <= i < |r| ==> r[i] in filtered by {
      forall i | 0 <= i < |r| ensures r[i] in filtered {
        assert r[i] in multiset(r);
      }
    }
    assert forall i :: 0 <= i < |products| && Matches(products[i], searchTerm, category) ==> products[i] in r by {
      forall i | 0 <= i < |products| && Matches(products[i], searchTerm, category)
        ensures products[i] in r
      {
        assert products[i] in multiset(filtered);
      }
    }
    assert |r| == |multiset(r)| == |filtered|;
  }

  /** Products that tie under the chosen mode are shown in catalogue order. */
  lemma TiesShownInCatalogueOrder(products: seq<Product>, searchTerm: string, category: string, sortBy: string, p: Product)
    ensures var mode := ParseSortMode(sortBy);
      TiesOf(mode, p, FilteredAndSortedProducts(products, searchTerm, category, sortBy))
        == TiesOf(mode, p, FilterProducts(products, searchTerm, category))
  {
    SortIsStable(ParseSortMode(sortBy), FilterProducts(products, searchTerm, category), p);
  }

  /** The chosen sort mode never changes which products are shown. */
  lemma SortChoiceKeepsSelection(products: seq<Product>, searchTerm: string, category: string, sortBy1: string, sortBy2: string)
    ensures multiset(FilteredAndSortedProducts(products, searchTerm, category, sortBy1))
         == multiset(FilteredAndSortedProducts(products, searchTerm, category, sortBy2))
  {
  }

  /** What each sort mode means for the shown list. */
  lemma SortModesOrder(products: seq<Product>, searchTerm: string, category: string, sortBy: string)
    ensures var r := FilteredAndSortedProducts(products, searchTerm, category, sortBy);
      && (sortBy == "price-low" ==> forall i, j :: 0 <= i < j < |r| ==> r[i].price <= r[j].price)
      && (sortBy == "price-high" ==> forall i, j :: 0 <= i < j < |r| ==> r[i].price >= r[j].price)
      && (sortBy == "newest" ==> forall i, j :: 0 <= i < j < |r| ==> LocaleCompare(r[j].id, r[i].id) <= 0)
      && (sortBy !in {"price-low", "price-high", "newest"} ==>
            forall i, j :: 0 <= i < j < |r| ==> LocaleCompare(r[i].name, r[j].name) <= 0)
  {
    var r := FilteredAndSortedProducts(products, searchTerm, category, sortBy);
    var mode := ParseSortMode(sortBy);
    assert forall i, j :: 0 <= i < j < |r| ==> Compare(mode, r[i], r[j]) <= 0;
  }

  /** The counts of the "showing N of M products" line for the sample catalogue. */
  function ResultsInfo(searchTerm: string, category: string, sortBy: string): (counts: (nat, nat))
    ensures counts.0 <= counts.1
    ensures counts.1 == |SampleProducts| == 4
  {
    ShownProductsMatch(SampleProducts, searchTerm, category, sortBy);
    (|FilteredAndSortedProducts(SampleProducts, searchTerm, category, sortBy)|, |SampleProducts|)
  }
}
