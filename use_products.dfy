/**
 * The `useProducts` hook: the filtered view of the catalog, the sorted
 * list of distinct categories, and the four inventory statistics. All
 * three are recomputed from the store's list and change nothing.
 */
module UseProducts {
  import opened Wrappers
  import opened ProductTypes
  import opened Strings
  import opened Collections
  import opened MockData

  /** The optional filter object; `None` is an absent property. */
  datatype Filters = Filters(
    category: Option<string>,
    searchQuery: Option<string>,
    minPrice: Option<real>,
    maxPrice: Option<real>)

  /** The empty object literal `{}`. */
  const NoFilters: Filters := Filters(None, None, None, None)

  /** JavaScript truthiness of an optional string: present and not "". */
  predicate Truthy(s: Option<string>)
  {
    s.Some? && s.value != ""
  }

  /** The filter callback, one early `return false` per test. A kept
      product meets the category test and both price bounds; the filter
      object without properties keeps everything. */
  predicate Keep(p: Product, f: Filters)
    ensures Keep(p, f) && Truthy(f.category) ==> Lower(p.category) == Lower(f.category.value)
    ensures Keep(p, f) ==> (f.minPrice.None? || p.price >= f.minPrice.value)
                           && (f.maxPrice.None? || p.price <= f.maxPrice.value)
    ensures f == NoFilters ==> Keep(p, f)
  {
    if Truthy(f.category) && Lower(p.category) != Lower(f.category.value) then false
    else if Truthy(f.searchQuery)
            && !(Includes(Lower(p.name), Lower(f.searchQuery.value))
                 || Includes(Lower(p.description), Lower(f.searchQuery.value))) then false
    else if f.minPrice.Some? && p.price < f.minPrice.value then false
    else if f.maxPrice.Some? && p.price > f.maxPrice.value then false
    else true
  }

  /** The lower-cased query occurs in the lower-cased name or description. */
  ghost predicate Mentions(p: Product, query: string)
  {
    || (exists k :: OccursAt(Lower(p.name), Lower(query), k))
    || (exists k :: OccursAt(Lower(p.description), Lower(query), k))
  }

  /** A product passes the callback exactly when all four conditions hold;
      an empty-string category or query imposes nothing, a price bound only
      when present. */
  lemma KeepIff(p: Product, f: Filters)
    ensures Keep(p, f) <==>
      && (f.category.None? || f.category.value == "" || Lower(p.category) == Lower(f.category.value))
      && (f.searchQuery.None? || f.searchQuery.value == "" || Mentions(p, f.searchQuery.value))
      && (f.minPrice.None? || p.price >= f.minPrice.value)
      && (f.maxPrice.None? || p.price <= f.maxPrice.value)
  {
    if Truthy(f.searchQuery) {
      IncludesIffOccurs(Lower(p.name), Lower(f.searchQuery.value));
      IncludesIffOccurs(Lower(p.description), Lower(f.searchQuery.value));
    }
  }

  /** `products.filter(callback)`. */
  function FilterProducts(ps: seq<Product>, f: Filters): (r: seq<Product>)
    ensures forall p :: p in r <==> p in ps && Keep(p, f)
    ensures |r| <= |ps|
  {
    if ps == [] then []
    else if Keep(ps[0], f) then [ps[0]] + FilterProducts(ps[1..], f)
    else FilterProducts(ps[1..], f)
  }

  /** The filter keeps every copy of a passing product and no copy of any
      other. */
  lemma {:induction false} FilterCounts(ps: seq<Product>, f: Filters)
    ensures forall p :: multiset(FilterProducts(ps, f))[p] == if Keep(p, f) then multiset(ps)[p] else 0
  {
    if ps != [] {
      FilterCounts(ps[1..], f);
      assert ps == [ps[0]] + ps[1..];
    }
  }

  /** `filteredProducts`: no filter object, or one without properties, gives
      the list itself; any other object keeps exactly the products that pass. */
  function FilteredProducts(ps: seq<Product>, filters: Option<Filters>): (r: seq<Product>)
    ensures filters.None? || filters == Some(NoFilters) ==> r == ps
    ensures filters.Some? ==> forall p :: p in r <==> p in ps && Keep(p, filters.value)
    ensures forall p :: p in r ==> p in ps
  {
    if filters.None? || filters.value == NoFilters then ps
    else FilterProducts(ps, filters.value)
  }

  /** When every product passes, filtering returns the list unchanged. */
  lemma {:induction false} FilterAllKept(ps: seq<Product>, f: Filters)
    requires forall p :: p in ps ==> Keep(p, f)
    ensures FilterProducts(ps, f) == ps
  {
    if ps != [] {
      FilterAllKept(ps[1..], f);
      assert ps == [ps[0]] + ps[1..];
    }
  }

  /** Empty-string category and query, with no price bounds, keep everything. */
  lemma EmptyStringsKeepAll(ps: seq<Product>)
    ensures FilteredProducts(ps, Some(Filters(Some(""), Some(""), None, None))) == ps
  {
    FilterAllKept(ps, Filters(Some(""), Some(""), None, None));
  }

  /** The filtered list is the product list with some entries left out,
      the others in their original order. */
  lemma {:induction false} FilterSubsequence(ps: seq<Product>, f: Filters)
    ensures Subsequence(FilterProducts(ps, f), ps)
  {
    if ps != [] {
      FilterSubsequence(ps[1..], f);
      if Keep(ps[0], f) {
        assert FilterProducts(ps, f)[1..] == FilterProducts(ps[1..], f);
      }
    }
  }

  /** The hook's view keeps every copy of a passing product and no copy of
      any other. */
  lemma FilteredCounts(ps: seq<Product>, filters: Option<Filters>)
    requires filters.Some?
    ensures forall p :: multiset(FilteredProducts(ps, filters))[p]
                        == if Keep(p, filters.value) then multiset(ps)[p] else 0
  {
    if filters.value != NoFilters {
      FilterCounts(ps, filters.value);
    }
  }

  lemma FilteredSubsequence(ps: seq<Product>, filters: Option<Filters>)
    ensures Subsequence(FilteredProducts(ps, filters), ps)
  {
    if filters.None? || filters.value == NoFilters {
      SubsequenceReflexive(ps);
    } else {
      FilterSubsequence(ps, filters.value);
    }
  }

  /** Filtering the filtered list again with the same filters changes nothing. */
  lemma FilteredIdempotent(ps: seq<Product>, filters: Option<Filters>)
    ensures FilteredProducts(FilteredProducts(ps, filters), filters) == FilteredProducts(ps, filters)
  {
    if filters.Some? && filters.value != NoFilters {
      FilterAllKept(FilterProducts(ps, filters.value), filters.value);
    }
  }

  /** `products.map(p => p.category)`. */
  function CategoryValues(ps: seq<Product>): (r: seq<string>)
    ensures |r| == |ps|
    ensures forall i :: 0 <= i < |ps| ==> r[i] == ps[i].category
  {
    if ps == [] then [] else [ps[0].category] + CategoryValues(ps[1..])
  }

  /** `[...new Set(products.map(p => p.category))].sort()`. */
  function Categories(ps: seq<Product>): (r: seq<string>)
    ensures NoDuplicates(r)
    ensures Sorted(r)
    ensures forall c :: c in r <==> exists p :: p in ps && p.category == c
    ensures |r| == |Elements(CategoryValues(ps))| && |r| <= |ps|
  {
    var values := CategoryValues(ps);
    var distinct := Distinct(values);
    SortSorted(distinct);
    SortNoDuplicates(distinct);
    DistinctCardinality(values);
    assert |Sort(distinct)| == |multiset(Sort(distinct))| == |distinct|;
    assert forall c :: c in Sort(distinct) <==> c in distinct by {
      forall c ensures c in Sort(distinct) <==> c in distinct {
        assert c in Sort(distinct) <==> c in multiset(Sort(distinct));
      }
    }
    assert forall c :: c in values <==> exists p :: p in ps && p.category == c by {
      forall c | c in values ensures exists p :: p in ps && p.category == c {
        var i :| 0 <= i < |values| && values[i] == c;
        assert ps[i] in ps;
      }
      forall p | p in ps ensures p.category in values {
        var i :| 0 <= i < |ps| && ps[i] == p;
        assert values[i] == p.category;
      }
    }
    Sort(distinct)
  }

  /** `products.reduce((sum, p) => sum + p.price * p.stock, 0)`; with
      non-negative prices the inventory value is non-negative. */
  function TotalValue(ps: seq<Product>): (v: real)
    ensures (forall p :: p in ps ==> p.price >= 0.0) ==> v >= 0.0
  {
    if ps == [] then 0.0
    else
      var front, last := ps[..|ps| - 1], ps[|ps| - 1];
      assert (forall p :: p in ps ==> p.price >= 0.0) ==>
        (forall p :: p in front ==> p.price >= 0.0) && last.price * (last.stock as real) >= 0.0 by {
        if forall p :: p in ps ==> p.price >= 0.0 {
          assert last in ps;
          forall p | p in front ensures p.price >= 0.0 {
            assert p in ps;
          }
        }
      }
      TotalValue(front) + last.price * (last.stock as real)
  }

  /** The inventory value grows by `price * stock` for each appended product. */
  lemma TotalValueAppend(ps: seq<Product>, p: Product)
    ensures TotalValue(ps + [p]) == TotalValue(ps) + p.price * (p.stock as real)
  {
    assert (ps + [p])[..|ps|] == ps;
  }

  /** `products.filter(p => p.stock < 10)`. */
  function LowStockProducts(ps: seq<Product>): (r: seq<Product>)
    ensures forall p :: p in r <==> p in ps && p.stock < 10
    ensures |r| <= |ps|
  {
    if ps == [] then []
    else if ps[0].stock < 10 then [ps[0]] + LowStockProducts(ps[1..])
    else LowStockProducts(ps[1..])
  }

  datatype Stats = Stats(totalProducts: nat, totalValue: real, lowStockCount: nat, categories: nat)

  /** The number of low-stock products equals the number of positions whose
      stock is below 10, counted from position `k` on. */
  lemma {:induction false} LowStockCountFrom(ps: seq<Product>, k: nat)
    requires k <= |ps|
    ensures |LowStockProducts(ps[k..])| == |set i | k <= i < |ps| && ps[i].stock < 10|
    decreases |ps| - k
  {
    if k < |ps| {
      LowStockCountFrom(ps, k + 1);
      assert ps[k..][1..] == ps[k + 1..];
      var rest := set i | k + 1 <= i < |ps| && ps[i].stock < 10;
      if ps[k].stock < 10 {
        assert (set i | k <= i < |ps| && ps[i].stock < 10) == {k} + rest;
      } else {
        assert (set i | k <= i < |ps| && ps[i].stock < 10) == rest;
      }
    }
  }

  /** The hook's `stats`: the length, the inventory value, the number of
      positions with stock below 10, and the number of distinct categories. */
  function ComputeStats(ps: seq<Product>): (s: Stats)
    ensures s.totalProducts == |ps|
    ensures s.totalValue == TotalValue(ps)
    ensures s.lowStockCount == |set i | 0 <= i < |ps| && ps[i].stock < 10|
    ensures s.lowStockCount <= s.totalProducts
    ensures s.categories <= s.totalProducts
    ensures s.categories == |Elements(CategoryValues(ps))|
    ensures s.lowStockCount == 0 <==> forall p :: p in ps ==> p.stock >= 10
  {
    var low := LowStockProducts(ps);
    assert low != [] ==> low[0] in low;
    LowStockCountFrom(ps, 0);
    assert ps[0..] == ps;
    Stats(|ps|, TotalValue(ps), |low|, |Categories(ps)|)
  }

  // ---- the seed catalog ----

  /** One step of `FilterProducts` over a suffix. */
  lemma FilterStep(ps: seq<Product>, f: Filters, k: nat)
    requires k < |ps|
    ensures FilterProducts(ps[k..], f)
            == (if Keep(ps[k], f) then [ps[k]] else []) + FilterProducts(ps[k + 1..], f)
  {
    assert ps[k..][1..] == ps[k + 1..];
  }

  /** One step of `LowStockProducts` over a suffix. */
  lemma LowStockStep(ps: seq<Product>, k: nat)
    requires k < |ps|
    ensures LowStockProducts(ps[k..])
            == (if ps[k].stock < 10 then [ps[k]] else []) + LowStockProducts(ps[k + 1..])
  {
    assert ps[k..][1..] == ps[k + 1..];
  }

  /** One step of `TotalValue` over a prefix. */
  lemma TotalValueStep(ps: seq<Product>, k: nat)
    requires k < |ps|
    ensures TotalValue(ps[..k + 1]) == TotalValue(ps[..k]) + ps[k].price * (ps[k].stock as real)
  {
    assert ps[..k + 1][..k] == ps[..k];
  }

  /** A string without upper-case ASCII letters is its own lower case. */
  lemma LowerOfLowerCase(s: string)
    requires forall i :: 0 <= i < |s| ==> !('A' <= s[i] <= 'Z')
    ensures Lower(s) == s
  {
  }

  /** Categories drawn from `a` and `b`, both present, make the value set `{a, b}`. */
  lemma CategoryValuesOfTwo(ps: seq<Product>, a: string, b: string)
    requires forall p :: p in ps ==> p.category == a || p.category == b
    requires exists p :: p in ps && p.category == a
    requires exists p :: p in ps && p.category == b
    ensures Elements(CategoryValues(ps)) == {a, b}
  {
    var vs := CategoryValues(ps);
    var pa :| pa in ps && pa.category == a;
    var pb :| pb in ps && pb.category == b;
    var ia :| 0 <= ia < |ps| && ps[ia] == pa;
    var ib :| 0 <= ib < |ps| && ps[ib] == pb;
    assert vs[ia] == a && vs[ib] == b;
    forall c | c in Elements(vs) ensures c == a || c == b {
      var i :| 0 <= i < |vs| && vs[i] == c;
      assert ps[i] in ps;
    }
  }

  /** The only sorted list of the two strings `a` before `b`. */
  lemma SortedPair(r: seq<string>, a: string, b: string)
    requires NoDuplicates(r) && Sorted(r) && |r| == 2 && a in r && b in r
    requires !StrLe(b, a)
    ensures r == [a, b]
  {
    StrLeReflexive(a);
    assert StrLe(r[0], r[1]);
    assert r[0] != r[1];
  }

  /** Any sorted list of the catalog's categories without duplicates is the
      category list: the result of `[...new Set(...)].sort()` does not depend
      on how the distinct values were gathered. */
  lemma CategoriesUnique(ps: seq<Product>, r: seq<string>)
    requires NoDuplicates(r) && Sorted(r)
    requires forall c :: c in r <==> exists p :: p in ps && p.category == c
    ensures r == Categories(ps)
  {
    SortedUnique(r, Categories(ps));
  }

  /** A catalog whose categories are exactly `a` and `b`, with `a` first in
      the order, has the category list `[a, b]`. */
  lemma CategoriesOfTwo(ps: seq<Product>, a: string, b: string)
    requires !StrLe(b, a)
    requires forall p :: p in ps ==> p.category == a || p.category == b
    requires exists p :: p in ps && p.category == a
    requires exists p :: p in ps && p.category == b
    ensures Categories(ps) == [a, b]
  {
    StrLeReflexive(a);
    CategoryValuesOfTwo(ps, a, b);
    assert |{a, b}| == 2;
    SortedPair(Categories(ps), a, b);
  }

  // The seed lemmas are proved for every list that agrees with the seed in
  // all fields but the texts (`SeedLike`), and then applied to the seed.

  /** Every product of such a list is an accessory or electronics, and both occur. */
  lemma SeedLikeCategoryValues(ps: seq<Product>)
    requires SeedLike(ps)
    ensures !StrLe("electronics", "accessories")
    ensures forall p :: p in ps ==> p.category == "accessories" || p.category == "electronics"
    ensures exists p :: p in ps && p.category == "accessories"
    ensures exists p :: p in ps && p.category == "electronics"
  {
    assert ps[2] in ps && ps[2].category == "accessories";
    assert ps[0] in ps && ps[0].category == "electronics";
  }

  // The low-stock walk goes over the twelve products three at a time.

  lemma SeedLowStockFrom9(ps: seq<Product>)
    requires SeedLike(ps)
    ensures LowStockProducts(ps[9..]) == []
  {
    LowStockStep(ps, 11);
    LowStockStep(ps, 10);
    LowStockStep(ps, 9);
  }

  lemma SeedLowStockFrom6(ps: seq<Product>)
    requires SeedLike(ps)
    ensures LowStockProducts(ps[6..]) == []
  {
    SeedLowStockFrom9(ps);
    LowStockStep(ps, 8);
    LowStockStep(ps, 7);
    LowStockStep(ps, 6);
  }

  lemma SeedLowStockFrom3(ps: seq<Product>)
    requires SeedLike(ps)
    ensures LowStockProducts(ps[3..]) == []
  {
    SeedLowStockFrom6(ps);
    LowStockStep(ps, 5);
    LowStockStep(ps, 4);
    LowStockStep(ps, 3);
  }

  lemma SeedLowStock(ps: seq<Product>)
    requires SeedLike(ps)
    ensures LowStockProducts(ps) == [ps[1]]
  {
    SeedLowStockFrom3(ps);
    LowStockStep(ps, 2);
    LowStockStep(ps, 1);
    LowStockStep(ps, 0);
    assert ps[0..] == ps;
  }

  lemma SeedTotalValueHalf(ps: seq<Product>)
    requires SeedLike(ps)
    ensures TotalValue(ps[..6]) == 5768.65
  {
    TotalValueStep(ps, 0);
    TotalValueStep(ps, 1);
    TotalValueStep(ps, 2);
    TotalValueStep(ps, 3);
    TotalValueStep(ps, 4);
    TotalValueStep(ps, 5);
    assert ps[..0] == [];
  }

  lemma SeedTotalValue(ps: seq<Product>)
    requires SeedLike(ps)
    ensures TotalValue(ps) == 13012.23
  {
    SeedTotalValueHalf(ps);
    TotalValueStep(ps, 6);
    TotalValueStep(ps, 7);
    TotalValueStep(ps, 8);
    TotalValueStep(ps, 9);
    TotalValueStep(ps, 10);
    TotalValueStep(ps, 11);
    assert ps[..12] == ps;
  }

  /** The seed's two categories, in sorted order. */
  lemma SeedCategories()
    ensures Categories(MockProducts) == ["accessories", "electronics"]
  {
    MockProductsSeedLike();
    SeedLikeCategoryValues(MockProducts);
    CategoriesOfTwo(MockProducts, "accessories", "electronics");
  }

  /** The seed's statistics: twelve products worth 13012.23 in all, two
      categories, and only product 2 (stock 8) low on stock; product 9, with
      stock 10, is not. */
  lemma SeedStats()
    ensures LowStockProducts(MockProducts) == [MockProducts[1]]
    ensures MockProducts[1].id == 2 && MockProducts[1].stock == 8
    ensures MockProducts[8].id == 9 && MockProducts[8].stock == 10
    ensures ComputeStats(MockProducts) == Stats(12, 13012.23, 1, 2)
  {
    MockProductsSeedLike();
    SeedLowStock(MockProducts);
    SeedTotalValue(MockProducts);
    SeedCategories();
  }

  /** The filter `{ category: 'accessories', minPrice: 20 }`. */
  const AccessoriesFrom20: Filters := Filters(Some("accessories"), None, Some(20.0), None)

  /** The two seed categories are already lower case. */
  lemma SeedCategoriesLower()
    ensures Lower("accessories") == "accessories" && Lower("electronics") == "electronics"
  {
    LowerOfLowerCase("accessories");
    LowerOfLowerCase("electronics");
  }

  /** On the seed's categories, the filter keeps exactly the accessories
      priced at 20 or more. */
  lemma KeepAccessoriesFrom20(p: Product)
    requires p.category == "accessories" || p.category == "electronics"
    ensures Keep(p, AccessoriesFrom20) <==> p.category == "accessories" && p.price >= 20.0
  {
    SeedCategoriesLower();
  }

  /** One step of the seed filter walk. */
  lemma SeedFilterStep(ps: seq<Product>, k: nat)
    requires SeedLike(ps) && k < 12
    ensures FilterProducts(ps[k..], AccessoriesFrom20)
            == (if CategoryColumn[k] == "accessories" && PriceColumn[k] >= 20.0 then [ps[k]] else [])
               + FilterProducts(ps[k + 1..], AccessoriesFrom20)
  {
    KeepAccessoriesFrom20(ps[k]);
    FilterStep(ps, AccessoriesFrom20, k);
  }

  // The filter walk goes over the twelve products three at a time.

  lemma SeedFilterFrom9(ps: seq<Product>)
    requires SeedLike(ps)
    ensures FilterProducts(ps[9..], AccessoriesFrom20) == [ps[9], ps[11]]
  {
    SeedFilterStep(ps, 11);
    SeedFilterStep(ps, 10);
    SeedFilterStep(ps, 9);
    assert ps[12..] == [];
  }

  lemma SeedFilterFrom6(ps: seq<Product>)
    requires SeedLike(ps)
    ensures FilterProducts(ps[6..], AccessoriesFrom20) == [ps[7], ps[9], ps[11]]
  {
    SeedFilterFrom9(ps);
    SeedFilterStep(ps, 8);
    SeedFilterStep(ps, 7);
    SeedFilterStep(ps, 6);
  }

  lemma SeedFilterFrom3(ps: seq<Product>)
    requires SeedLike(ps)
    ensures FilterProducts(ps[3..], AccessoriesFrom20) == [ps[7], ps[9], ps[11]]
  {
    SeedFilterFrom6(ps);
    SeedFilterStep(ps, 5);
    SeedFilterStep(ps, 4);
    SeedFilterStep(ps, 3);
  }

  lemma SeedFilter(ps: seq<Product>)
    requires SeedLike(ps)
    ensures FilterProducts(ps, AccessoriesFrom20) == [ps[2], ps[7], ps[9], ps[11]]
  {
    SeedFilterFrom3(ps);
    SeedFilterStep(ps, 2);
    SeedFilterStep(ps, 1);
    SeedFilterStep(ps, 0);
    assert ps[0..] == ps;
  }

  /** Accessories priced at 20 or more, in catalog order: ids 3, 8, 10 and 12. */
  lemma SeedAccessoriesFrom20()
    ensures FilteredProducts(MockProducts, Some(AccessoriesFrom20))
            == [MockProducts[2], MockProducts[7], MockProducts[9], MockProducts[11]]
    ensures MockProducts[2].id == 3 && MockProducts[7].id == 8
    ensures MockProducts[9].id == 10 && MockProducts[11].id == 12
  {
    MockProductsSeedLike();
    SeedFilter(MockProducts);
  }

  /** Two products, 10 x 5 and 20 x 1: value 70, both low on stock. */
  lemma TwoProductScenario(a: Product, b: Product)
    requires a.id == 1 && a.price == 10.0 && a.stock == 5
    requires b.id == 2 && b.price == 20.0 && b.stock == 1
    ensures TotalValue([a, b]) == 70.0
    ensures ComputeStats([a, b]).lowStockCount == 2
  {
    TotalValueAppend([], a);
    TotalValueAppend([a], b);
    assert [] + [a] == [a] && [a] + [b] == [a, b];
    assert LowStockProducts([a, b]) == [a] + LowStockProducts([b]);
    assert LowStockProducts([b]) == [b] + LowStockProducts([]);
  }
}
