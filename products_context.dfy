/**
 * The product catalog store (`ProductsProvider`): the list of products,
 * its four operations, and its mirroring to the `"products"` key of local
 * storage. The new lists are pure functions of the old one; the store
 * class holds the list and the storage it writes to.
 */
module ProductsContext {
  import opened Wrappers
  import opened ProductTypes
  import opened Collections
  import opened LocalStorage
  import opened MockData

  const ProductsKey: string := "products"

  /** `Math.max(...products.map(p => p.id), 0)`. */
  function MaxId(ps: seq<Product>): (m: int)
    ensures m >= 0
    ensures forall i :: 0 <= i < |ps| ==> ps[i].id <= m
    ensures m == 0 || exists i :: 0 <= i < |ps| && ps[i].id == m
  {
    if ps == [] then 0
    else
      var m0 := MaxId(ps[..|ps| - 1]);
      var last := ps[|ps| - 1].id;
      if last > m0 then last else m0
  }

  /** The id `addProduct` gives a new product: larger than every id in use. */
  function NextId(ps: seq<Product>): (id: int)
    ensures id >= 1
    ensures forall i :: 0 <= i < |ps| ==> ps[i].id < id
    ensures id == 1 || exists i :: 0 <= i < |ps| && ps[i].id == id - 1
  {
    MaxId(ps) + 1
  }

  /** `[...products, { ...draft, id: NextId(products) }]`. */
  function Added(ps: seq<Product>, d: Draft): (r: seq<Product>)
    ensures |r| == |ps| + 1 && r[..|ps|] == ps
    ensures r[|ps|] == d.WithId(NextId(ps))
    ensures forall i :: 0 <= i < |ps| ==> r[i].id != r[|ps|].id
  {
    ps + [d.WithId(NextId(ps))]
  }

  /** `products.map(p => p.id === id ? { ...draft, id } : p)`. */
  function Updated(ps: seq<Product>, id: int, d: Draft): (r: seq<Product>)
    ensures |r| == |ps|
    ensures forall i :: 0 <= i < |ps| && ps[i].id != id ==> r[i] == ps[i]
    ensures forall i :: 0 <= i < |ps| && ps[i].id == id ==> r[i] == d.WithId(id)
  {
    if ps == [] then []
    else [if ps[0].id == id then d.WithId(id) else ps[0]] + Updated(ps[1..], id, d)
  }

  /** `products.filter(p => p.id !== id)`. */
  function Deleted(ps: seq<Product>, id: int): (r: seq<Product>)
    ensures forall p :: p in r <==> p in ps && p.id != id
    ensures |r| <= |ps|
  {
    if ps == [] then []
    else if ps[0].id != id then [ps[0]] + Deleted(ps[1..], id)
    else Deleted(ps[1..], id)
  }

  /** The delete keeps every copy of an entry with another id and no copy
      of an entry with this id. */
  lemma {:induction false} DeletedCounts(ps: seq<Product>, id: int)
    ensures forall p :: multiset(Deleted(ps, id))[p] == if p.id != id then multiset(ps)[p] else 0
  {
    if ps != [] {
      DeletedCounts(ps[1..], id);
      assert ps == [ps[0]] + ps[1..];
    }
  }

  /** The position of the first entry with this id, or `|ps|` when there is none. */
  function FirstIndex(ps: seq<Product>, id: int): (k: nat)
    ensures k <= |ps|
    ensures forall j :: 0 <= j < k ==> ps[j].id != id
    ensures k < |ps| ==> ps[k].id == id
  {
    if ps == [] || ps[0].id == id then 0 else 1 + FirstIndex(ps[1..], id)
  }

  /** `products.find(p => p.id === id)`. */
  function Find(ps: seq<Product>, id: int): (r: Option<Product>)
    ensures r.None? <==> forall i :: 0 <= i < |ps| ==> ps[i].id != id
    ensures r.Some? ==> exists k :: 0 <= k < |ps| && ps[k] == r.value && ps[k].id == id &&
                                    forall j :: 0 <= j < k ==> ps[j].id != id
  {
    var k := FirstIndex(ps, id);
    if k < |ps| then Some(ps[k]) else None
  }

  /** The load effect: a non-empty saved value that parses gives the parsed
      list; an absent key, an empty value or a parse failure gives the seed. */
  function Loaded(items: map<string, string>, decode: string -> Option<seq<Product>>): (r: seq<Product>)
    ensures ProductsKey !in items ==> r == MockProducts
    ensures ProductsKey in items && items[ProductsKey] == "" ==> r == MockProducts
    ensures ProductsKey in items && items[ProductsKey] != "" && decode(items[ProductsKey]).Some?
            ==> r == decode(items[ProductsKey]).value
    ensures ProductsKey in items && decode(items[ProductsKey]).None? ==> r == MockProducts
  {
    if ProductsKey in items && items[ProductsKey] != "" then
      match decode(items[ProductsKey])
      case Some(ps) => ps
      case None => MockProducts
    else MockProducts
  }

  /** The persist effect: a snapshot is written only for a non-empty list. */
  function Persisted(items: map<string, string>, ps: seq<Product>, encode: seq<Product> -> string)
    : (r: map<string, string>)
    ensures |ps| > 0 ==> r == items[ProductsKey := encode(ps)]
    ensures |ps| == 0 ==> r == items
  {
    if |ps| > 0 then items[ProductsKey := encode(ps)] else items
  }

  // ---- addProduct ----

  /** On an empty catalog the first id is 1. */
  lemma NextIdEmpty()
    ensures NextId([]) == 1
  {
  }

  /** Ids equal to their positions plus one, as in the seed. */
  ghost predicate ConsecutiveIds(ps: seq<Product>)
  {
    forall i :: 0 <= i < |ps| ==> ps[i].id == i + 1
  }

  /** With ids 1..n in order, the next id is n + 1. */
  lemma {:induction false} NextIdConsecutive(ps: seq<Product>)
    requires ConsecutiveIds(ps)
    ensures NextId(ps) == |ps| + 1
  {
    if ps != [] {
      NextIdConsecutive(ps[..|ps| - 1]);
    }
  }

  /** Adding to a catalog whose ids are 1..n gives it ids 1..n+1. */
  lemma AddedConsecutive(ps: seq<Product>, d: Draft)
    requires ConsecutiveIds(ps)
    ensures ConsecutiveIds(Added(ps, d))
  {
    NextIdConsecutive(ps);
  }

  /** `addProduct` applied to each draft in turn. */
  function AddAll(ps: seq<Product>, ds: seq<Draft>): (r: seq<Product>)
    ensures |r| == |ps| + |ds|
    decreases |ds|
  {
    if ds == [] then ps else AddAll(Added(ps, ds[0]), ds[1..])
  }

  /** From a catalog with ids 1..n, adding k drafts gives ids n+1..n+k in call
      order, each entry being its draft with that id. */
  lemma {:induction false} AddAllConsecutive(ps: seq<Product>, ds: seq<Draft>)
    requires ConsecutiveIds(ps)
    ensures ConsecutiveIds(AddAll(ps, ds))
    ensures AddAll(ps, ds)[..|ps|] == ps
    ensures forall i :: 0 <= i < |ds| ==> AddAll(ps, ds)[|ps| + i] == ds[i].WithId(|ps| + i + 1)
    decreases |ds|
  {
    if ds != [] {
      var ps' := Added(ps, ds[0]);
      NextIdConsecutive(ps);
      AddedConsecutive(ps, ds[0]);
      AddAllConsecutive(ps', ds[1..]);
      var r := AddAll(ps', ds[1..]);
      assert r[..|ps|] == r[..|ps'|][..|ps|];
      forall i | 0 <= i < |ds| ensures r[|ps| + i] == ds[i].WithId(|ps| + i + 1) {
        if i == 0 {
          assert r[|ps|] == r[..|ps'|][|ps|];
        } else {
          assert r[|ps'| + (i - 1)] == ds[1..][i - 1].WithId(|ps'| + (i - 1) + 1);
        }
      }
    }
  }

  /** n adds starting from an empty catalog assign the ids 1..n in call order. */
  lemma AddAllFromEmpty(ds: seq<Draft>)
    ensures |AddAll([], ds)| == |ds|
    ensures forall i :: 0 <= i < |ds| ==> AddAll([], ds)[i] == ds[i].WithId(i + 1)
  {
    AddAllConsecutive([], ds);
  }

  /** Adding to the seed catalog assigns id 13. */
  lemma AddToSeedAssigns13(d: Draft)
    ensures NextId(MockProducts) == 13
    ensures Added(MockProducts, d)[12] == d.WithId(13)
  {
    MockProductsIds();
    NextIdConsecutive(MockProducts);
  }

  /** The created product can be looked up by its new id. */
  lemma FindAdded(ps: seq<Product>, d: Draft)
    ensures Find(Added(ps, d), NextId(ps)) == Some(d.WithId(NextId(ps)))
  {
    var r := Added(ps, d);
    var k :| 0 <= k < |r| && r[k] == Find(r, NextId(ps)).value && r[k].id == NextId(ps) &&
             forall j :: 0 <= j < k ==> r[j].id != NextId(ps);
    assert k == |ps|;
  }

  /** Adding keeps ids unique. */
  lemma AddedUnique(ps: seq<Product>, d: Draft)
    requires UniqueIds(ps)
    ensures UniqueIds(Added(ps, d))
  {
  }

  // ---- updateProduct ----

  /** Updating keeps every id in place. */
  lemma {:induction false} UpdatedIds(ps: seq<Product>, id: int, d: Draft)
    ensures Ids(Updated(ps, id, d)) == Ids(ps)
  {
    var r := Updated(ps, id, d);
    assert forall i :: 0 <= i < |ps| ==> Ids(r)[i] == Ids(ps)[i];
  }

  /** Updating an id that is not in the catalog changes nothing. */
  lemma UpdatedAbsent(ps: seq<Product>, id: int, d: Draft)
    requires forall p :: p in ps ==> p.id != id
    ensures Updated(ps, id, d) == ps
  {
    var r := Updated(ps, id, d);
    assert forall i :: 0 <= i < |ps| ==> r[i] == ps[i];
  }

  /** After an update of a present id, looking it up gives the draft with that id. */
  lemma FindUpdated(ps: seq<Product>, id: int, d: Draft)
    requires exists p :: p in ps && p.id == id
    ensures Find(Updated(ps, id, d), id) == Some(d.WithId(id))
  {
    var r := Updated(ps, id, d);
    var p :| p in ps && p.id == id;
    var i :| 0 <= i < |ps| && ps[i] == p;
    assert r[i].id == id;
  }

  /** Updating keeps ids unique. */
  lemma UpdatedUnique(ps: seq<Product>, id: int, d: Draft)
    requires UniqueIds(ps)
    ensures UniqueIds(Updated(ps, id, d))
  {
    var r := Updated(ps, id, d);
    assert forall i :: 0 <= i < |ps| ==> r[i].id == ps[i].id;
  }

  /** Saving a product's own fields again leaves a catalog with unique ids unchanged. */
  lemma UpdatedWithOwnDraft(ps: seq<Product>, p: Product)
    requires UniqueIds(ps) && p in ps
    ensures Updated(ps, p.id, DraftOf(p)) == ps
  {
    var r := Updated(ps, p.id, DraftOf(p));
    forall i | 0 <= i < |ps| ensures r[i] == ps[i] {
      if ps[i].id == p.id {
        var j :| 0 <= j < |ps| && ps[j] == p;
        assert i == j;
      }
    }
  }

  // ---- deleteProduct ----

  /** Deleting keeps the remaining entries in their order. */
  lemma {:induction false} DeletedSubsequence(ps: seq<Product>, id: int)
    ensures Subsequence(Deleted(ps, id), ps)
  {
    if ps != [] {
      DeletedSubsequence(ps[1..], id);
      if ps[0].id != id {
        assert Deleted(ps, id)[1..] == Deleted(ps[1..], id);
      }
    }
  }

  /** After a delete, the id is no longer found. */
  lemma FindDeleted(ps: seq<Product>, id: int)
    ensures Find(Deleted(ps, id), id) == None
  {
  }

  /** Deleting an id that is not in the catalog changes nothing. */
  lemma {:induction false} DeletedAbsent(ps: seq<Product>, id: int)
    requires forall p :: p in ps ==> p.id != id
    ensures Deleted(ps, id) == ps
  {
    if ps != [] {
      DeletedAbsent(ps[1..], id);
      assert ps == [ps[0]] + ps[1..];
    }
  }

  /** With unique ids, deleting a present id removes exactly one entry. */
  lemma {:induction false} DeletedLength(ps: seq<Product>, id: int)
    requires UniqueIds(ps)
    ensures |Deleted(ps, id)| == if exists p :: p in ps && p.id == id then |ps| - 1 else |ps|
  {
    if ps != [] {
      assert UniqueIds(ps[1..]);
      DeletedLength(ps[1..], id);
      if ps[0].id == id {
        assert forall p :: p in ps[1..] ==> p.id != id;
        DeletedAbsent(ps[1..], id);
      } else {
        assert (exists p :: p in ps && p.id == id) <==> (exists p :: p in ps[1..] && p.id == id);
      }
    }
  }

  /** Deleting keeps ids unique. */
  lemma {:induction false} DeletedUnique(ps: seq<Product>, id: int)
    requires UniqueIds(ps)
    ensures UniqueIds(Deleted(ps, id))
  {
    if ps != [] {
      assert UniqueIds(ps[1..]);
      DeletedUnique(ps[1..], id);
      var t := Deleted(ps[1..], id);
      if ps[0].id != id {
        var r := [ps[0]] + t;
        forall i, j | 0 <= i < j < |r| ensures r[i].id != r[j].id {
          if i == 0 {
            assert r[j] in ps[1..];
          } else {
            assert r[i] == t[i - 1] && r[j] == t[j - 1];
          }
        }
      }
    }
  }

  // ---- persistence ----

  /** A reload after any change restores the last non-empty list, provided
      parsing inverts serialising on it. */
  lemma ReloadRestoresSnapshot(items: map<string, string>, ps: seq<Product>,
                               encode: seq<Product> -> string, decode: string -> Option<seq<Product>>)
    requires |ps| > 0 && encode(ps) != "" && decode(encode(ps)) == Some(ps)
    ensures Loaded(Persisted(items, ps, encode), decode) == ps
  {
  }

  /** Deleting the last product writes nothing, so the saved snapshot still
      holds the previous list, and a reload brings it back. */
  lemma ReloadAfterDeletingLast(items: map<string, string>, p: Product,
                                encode: seq<Product> -> string, decode: string -> Option<seq<Product>>)
    requires encode([p]) != "" && decode(encode([p])) == Some([p])
    ensures Deleted([p], p.id) == []
    ensures Persisted(Persisted(items, [p], encode), Deleted([p], p.id), encode)[ProductsKey] == encode([p])
    ensures Loaded(Persisted(Persisted(items, [p], encode), Deleted([p], p.id), encode), decode) == [p]
  {
    assert Deleted([p], p.id) == Deleted([], p.id);
  }

  class ProductsStore {
    var products: seq<Product>
    const storage: Storage
    const encode: seq<Product> -> string

    /** The saved snapshot is the current list whenever that list is non-empty. */
    ghost predicate Valid()
      reads this, storage
    {
      |products| > 0 ==> ProductsKey in storage.items && storage.items[ProductsKey] == encode(products)
    }

    /** Mounting the provider: the load effect, then the persist effect. */
    constructor (storage: Storage, decode: string -> Option<seq<Product>>, encode: seq<Product> -> string)
      modifies storage
      ensures this.storage == storage && this.encode == encode
      ensures products == Loaded(old(storage.items), decode)
      ensures storage.items == Persisted(old(storage.items), products, encode)
      ensures Valid()
    {
      this.storage := storage;
      this.encode := encode;
      products := Loaded(storage.items, decode);
      new;
      Persist();
    }

    /** The persist effect, run after every change of `products`. */
    method Persist()
      modifies storage
      ensures Valid()
      ensures storage.items == Persisted(old(storage.items), products, encode)
    {
      if |products| > 0 {
        storage.SetItem(ProductsKey, encode(products));
      }
    }

    method AddProduct(d: Draft)
      modifies this, storage
      ensures Valid()
      ensures products == Added(old(products), d)
      ensures storage.items == old(storage.items)[ProductsKey := encode(products)]
    {
      products := Added(products, d);
      Persist();
    }

    method UpdateProduct(id: int, d: Draft)
      modifies this, storage
      ensures Valid()
      ensures products == Updated(old(products), id, d)
      ensures storage.items == Persisted(old(storage.items), products, encode)
    {
      products := Updated(products, id, d);
      Persist();
    }

    method DeleteProduct(id: int)
      modifies this, storage
      ensures Valid()
      ensures products == Deleted(old(products), id)
      ensures storage.items == Persisted(old(storage.items), products, encode)
    {
      products := Deleted(products, id);
      Persist();
    }

    function GetProductById(id: int): (r: Option<Product>)
      reads this
      ensures r.Some? ==> r.value in products && r.value.id == id
      ensures r.Some? ==> exists k :: 0 <= k < |products| && products[k] == r.value &&
                                      forall j :: 0 <= j < k ==> products[j].id != id
      ensures r.None? <==> forall p :: p in products ==> p.id != id
    {
      Find(products, id)
    }
  }
}
