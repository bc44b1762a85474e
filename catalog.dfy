/**
 * The catalog side of the products store: the product record, the filter
 * criteria, and the `filterProducts` view (a conjunction of optional
 * predicates followed by an optional sort by price).
 */
module Catalog {
  import opened Wrappers
  import Seqs
  import Text

  type ProductId = int
  type Size = int

  /**
   * A catalog entry as the backend delivers it. The text fields and `size`
   * and `gender` may be missing, which the filter tests for.
   */
  datatype Product = Product(
    id: ProductId,
    brand: Option<string>,
    model: Option<string>,
    colorName: Option<string>,
    category: Option<string>,
    price: int,
    size: Option<Size>,
    gender: Option<string>,
    inStock: bool)

  /** The reactive `filters` object; `maxPrice` is `filters.price.current`. */
  datatype Filters = Filters(
    maxPrice: Option<int>,
    brands: seq<string>,
    sizes: seq<Size>,
    gender: Option<string>,
    inStock: bool,
    searchQuery: string)

  /** The initial criteria: nothing selected, no query. */
  const NoFilters := Filters(None, [], [], None, false, "")

  /** The six criteria `filterProducts` can apply. */
  datatype Criterion = Search | Brands | MaxPrice | Sizes | Gender | InStock

  /** A criterion is applied only when its value is truthy in JavaScript terms (0 and "" are falsy). */
  predicate Active(f: Filters, c: Criterion)
  {
    match c
    case Search => f.searchQuery != ""
    case Brands => |f.brands| > 0
    case MaxPrice => f.maxPrice.Some? && f.maxPrice.value != 0
    case Sizes => |f.sizes| > 0
    case Gender => f.gender.Some? && f.gender.value != ""
    case InStock => f.inStock
  }

  /** `field?.toLowerCase().includes(term)`: a missing field never matches. */
  predicate FieldContains(field: Option<string>, term: string)
  {
    field.Some? && Text.Includes(Text.Lower(field.value), term)
  }

  predicate TextMatch(p: Product, term: string)
  {
    FieldContains(p.brand, term) || FieldContains(p.model, term)
    || FieldContains(p.colorName, term) || FieldContains(p.category, term)
  }

  /** What product `p` must satisfy for criterion `c`, taken on its own. */
  predicate Passes(p: Product, f: Filters, c: Criterion)
    requires Active(f, c)
  {
    match c
    case Search => TextMatch(p, Text.Lower(f.searchQuery))
    case Brands => p.brand.Some? && p.brand.value in f.brands
    case MaxPrice => p.price <= f.maxPrice.value
    case Sizes => p.size.Some? && p.size.value in f.sizes
    case Gender => p.gender == f.gender
    case InStock => p.inStock
  }

  /** The callback given to `products.filter`, test by test in the order it makes them. */
  predicate Matches(p: Product, f: Filters)
  {
    if f.searchQuery != "" && !TextMatch(p, Text.Lower(f.searchQuery)) then false
    else if |f.brands| > 0 && !(p.brand.Some? && p.brand.value in f.brands) then false
    else if f.maxPrice.Some? && f.maxPrice.value != 0 && p.price > f.maxPrice.value then false
    else if |f.sizes| > 0 && !(p.size.Some? && p.size.value in f.sizes) then false
    else if f.gender.Some? && f.gender.value != "" && p.gender != f.gender then false
    else if f.inStock && !p.inStock then false
    else true
  }

  /** The chain of early returns is exactly the conjunction of the active criteria. */
  lemma {:induction false} MatchesIffAllActivePass(p: Product, f: Filters)
    ensures Matches(p, f) <==> forall c :: Active(f, c) ==> Passes(p, f, c)
  {
    if forall c :: Active(f, c) ==> Passes(p, f, c) {
      assert Active(f, Search) ==> Passes(p, f, Search);
      assert Active(f, Brands) ==> Passes(p, f, Brands);
      assert Active(f, MaxPrice) ==> Passes(p, f, MaxPrice);
      assert Active(f, Sizes) ==> Passes(p, f, Sizes);
      assert Active(f, Gender) ==> Passes(p, f, Gender);
      assert Active(f, InStock) ==> Passes(p, f, InStock);
    } else {
      var c :| Active(f, c) && !Passes(p, f, c);
    }
  }

  /** With no criterion active every product matches. */
  lemma {:induction false} InactiveFiltersMatchAll(p: Product, f: Filters)
    requires forall c :: !Active(f, c)
    ensures Matches(p, f)
  {
    MatchesIffAllActivePass(p, f);
  }

  /** A maximum price of 0 is falsy, so it filters exactly as no maximum price at all. */
  lemma {:induction false} ZeroMaxPriceIsInactive(p: Product, f: Filters)
    ensures Matches(p, f.(maxPrice := Some(0))) == Matches(p, f.(maxPrice := None))
  {
  }

  /** The filtering step: the products that match, in catalog order. */
  function Select(products: seq<Product>, f: Filters): (r: seq<Product>)
    ensures forall x :: multiset(r)[x] == if Matches(x, f) then multiset(products)[x] else 0
  {
    Seqs.Filter(products, p => Matches(p, f))
  }

  /** `a` may come before `b` in the list sorted by the comparator of the given direction. */
  predicate InOrder(a: Product, b: Product, descending: bool)
  {
    if descending then a.price >= b.price else a.price <= b.price
  }

  ghost predicate SortedByPrice(s: seq<Product>, descending: bool)
  {
    forall i, j :: 0 <= i < j < |s| ==> InOrder(s[i], s[j], descending)
  }

  /** Every element of `s` may come after `lo`. */
  ghost predicate Bounded(s: seq<Product>, lo: Product, descending: bool)
  {
    forall k :: 0 <= k < |s| ==> InOrder(lo, s[k], descending)
  }

  /** Inserts `x` before the first element it may precede, so it stays ahead of its equals. */
  function Insert(x: Product, s: seq<Product>, descending: bool): (r: seq<Product>)
    ensures multiset(r) == multiset(s) + multiset{x}
  {
    if s == [] || InOrder(x, s[0], descending) then
      [x] + s
    else
      assert s == [s[0]] + s[1..];
      [s[0]] + Insert(x, s[1..], descending)
  }

  lemma {:induction false} InsertBounded(x: Product, s: seq<Product>, descending: bool, lo: Product)
    requires Bounded(s, lo, descending) && InOrder(lo, x, descending)
    ensures Bounded(Insert(x, s, descending), lo, descending)
  {
    if s != [] && !InOrder(x, s[0], descending) {
      var t := Insert(x, s[1..], descending);
      InsertBounded(x, s[1..], descending, lo);
      assert Insert(x, s, descending) == [s[0]] + t;
    }
  }

  /** Inserting into a list sorted by price keeps it sorted. */
  lemma {:induction false} InsertSorted(x: Product, s: seq<Product>, descending: bool)
    requires SortedByPrice(s, descending)
    ensures SortedByPrice(Insert(x, s, descending), descending)
  {
    if s == [] || InOrder(x, s[0], descending) {
      var r := [x] + s;
      forall i, j | 0 <= i < j < |r| ensures InOrder(r[i], r[j], descending) {
        if i == 0 {
          assert r[j] == s[j - 1];
        } else {
          assert r[i] == s[i - 1] && r[j] == s[j - 1];
        }
      }
    } else {
      var t := Insert(x, s[1..], descending);
      InsertSorted(x, s[1..], descending);
      InsertBounded(x, s[1..], descending, s[0]);
      var r := [s[0]] + t;
      assert Insert(x, s, descending) == r;
      forall i, j | 0 <= i < j < |r| ensures InOrder(r[i], r[j], descending) {
        assert r[j] == t[j - 1];
        if i > 0 {
          assert r[i] == t[i - 1];
        }
      }
    }
  }

  /**
   * `result.sort((a, b) => a.price - b.price)` (or `b.price - a.price`
   * when descending): a stable insertion sort on price.
   */
  function SortByPrice(s: seq<Product>, descending: bool): (r: seq<Product>)
    ensures SortedByPrice(r, descending)
    ensures multiset(r) == multiset(s)
  {
    if s == [] then []
    else
      assert s == [s[0]] + s[1..];
      var sorted := SortByPrice(s[1..], descending);
      InsertSorted(s[0], sorted, descending);
      Insert(s[0], sorted, descending)
  }

  /** The products of `s` whose price is `v`, in their order in `s`. */
  function WithPrice(s: seq<Product>, v: int): seq<Product>
  {
    if s == [] then [] else (if s[0].price == v then [s[0]] else []) + WithPrice(s[1..], v)
  }

  lemma {:induction false} InsertStable(x: Product, s: seq<Product>, descending: bool, v: int)
    ensures WithPrice(Insert(x, s, descending), v) == (if x.price == v then [x] else []) + WithPrice(s, v)
  {
    if s == [] || InOrder(x, s[0], descending) {
      var r := [x] + s;
      assert Insert(x, s, descending) == r;
      assert r[0] == x && r[1..] == s;
      assert WithPrice(r, v) == (if x.price == v then [x] else []) + WithPrice(s, v);
    } else {
      var t := Insert(x, s[1..], descending);
      var r := [s[0]] + t;
      assert Insert(x, s, descending) == r;
      assert r[0] == s[0] && r[1..] == t;
      var head := if s[0].price == v then [s[0]] else [];
      var mine := if x.price == v then [x] else [];
      assert WithPrice(r, v) == head + WithPrice(t, v);
      InsertStable(x, s[1..], descending, v);
      assert WithPrice(s, v) == head + WithPrice(s[1..], v);
      assert x.price != s[0].price;
      assert mine == [] || head == [];
      assert head + (mine + WithPrice(s[1..], v)) == mine + (head + WithPrice(s[1..], v));
    }
  }

  /** The sort is stable: products of equal price keep their relative order (as `Array.prototype.sort` guarantees). */
  lemma {:induction false} SortByPriceStable(s: seq<Product>, descending: bool, v: int)
    ensures WithPrice(SortByPrice(s, descending), v) == WithPrice(s, v)
  {
    if s != [] {
      SortByPriceStable(s[1..], descending, v);
      InsertStable(s[0], SortByPrice(s[1..], descending), descending, v);
    }
  }

  /**
   * The `filterProducts` view: every product that satisfies the active
   * criteria, as often as it occurs in the catalog and no other, sorted by
   * price when `sortOrder` is "asc" or "desc", in catalog order otherwise.
   */
  function FilterProducts(products: seq<Product>, f: Filters, sortOrder: string): (r: seq<Product>)
    ensures forall x :: multiset(r)[x] == if Matches(x, f) then multiset(products)[x] else 0
    ensures sortOrder == "asc" ==> SortedByPrice(r, false)
    ensures sortOrder == "desc" ==> SortedByPrice(r, true)
    ensures sortOrder != "asc" && sortOrder != "desc" ==> r == Select(products, f)
  {
    var selected := Select(products, f);
    if sortOrder == "asc" then SortByPrice(selected, false)
    else if sortOrder == "desc" then SortByPrice(selected, true)
    else selected
  }

  /** Soundness and completeness: a product is shown exactly when it is in the catalog and matches. */
  lemma {:induction false} FilterProductsMembership(products: seq<Product>, f: Filters, sortOrder: string, x: Product)
    ensures x in FilterProducts(products, f, sortOrder) <==> x in products && Matches(x, f)
  {
    var r := FilterProducts(products, f, sortOrder);
    assert x in r <==> multiset(r)[x] > 0;
    assert x in products <==> multiset(products)[x] > 0;
  }

  /** Unsorted, the view keeps the catalog order: filtering two halves and joining them is filtering the whole. */
  lemma {:induction false} SelectPreservesOrder(a: seq<Product>, b: seq<Product>, f: Filters)
    ensures Select(a + b, f) == Select(a, f) + Select(b, f)
  {
    Seqs.FilterAppend(a, b, p => Matches(p, f));
  }

  /** With every criterion inactive and no sort order the view is the catalog itself, in order. */
  lemma {:induction false} DefaultViewIsCatalog(products: seq<Product>, f: Filters, sortOrder: string)
    requires forall c :: !Active(f, c)
    requires sortOrder != "asc" && sortOrder != "desc"
    ensures FilterProducts(products, f, sortOrder) == products
  {
    forall i | 0 <= i < |products| ensures Matches(products[i], f) {
      InactiveFiltersMatchAll(products[i], f);
    }
    Seqs.FilterKeepsAll(products, p => Matches(p, f));
  }

  /** A catalog of two products, brands "A" and "B", priced 50 and 100. */
  function TwoProductCatalog(): seq<Product>
  {
    [ Product(1, Some("A"), None, None, None, 50, None, None, true),
      Product(2, Some("B"), None, None, None, 100, None, None, true) ]
  }

  /** A maximum price of 60 keeps only the product priced 50. */
  lemma MaxPriceScenario()
    ensures FilterProducts(TwoProductCatalog(), NoFilters.(maxPrice := Some(60)), "") == [TwoProductCatalog()[0]]
  {
    var f := NoFilters.(maxPrice := Some(60));
    var c := TwoProductCatalog();
    assert Matches(c[0], f) && !Matches(c[1], f);
    assert c == [c[0]] + [c[1]];
    SelectPreservesOrder([c[0]], [c[1]], f);
  }

  /** The query "red" finds a product whose colour is "Red Suede". */
  lemma SearchScenario()
    ensures Matches(Product(7, None, None, Some("Red Suede"), None, 120, None, None, true),
                    NoFilters.(searchQuery := "red"))
  {
    var lowered := Text.Lower("Red Suede");
    forall i | 0 <= i < |lowered| ensures lowered[i] == "red suede"[i] { }
    assert lowered == "red suede";
    assert Text.OccursAt("red suede", "red", 0);
  }
}
