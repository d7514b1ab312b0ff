/**
 * The catalog entity. `Product` is what the store holds; `Draft` is the
 * same record without its `id` (`Omit<Product, 'id'>`), which is what the
 * admin form submits and what the store's add and update accept.
 */
module ProductTypes {

  datatype Product = Product(
    id: int,
    name: string,
    price: real,
    description: string,
    image: string,
    category: string,
    stock: nat)

  datatype Draft = Draft(
    name: string,
    price: real,
    description: string,
    image: string,
    category: string,
    stock: nat)
  {
    /** `{ ...draft, id }` */
    function WithId(id: int): (p: Product)
      ensures p.id == id
    {
      Product(id, name, price, description, image, category, stock)
    }
  }

  /** The fields of a product other than its id. */
  function DraftOf(p: Product): (d: Draft)
    ensures d.WithId(p.id) == p
  {
    Draft(p.name, p.price, p.description, p.image, p.category, p.stock)
  }

  /** Stripping the assigned id gives back the draft. */
  lemma WithIdRoundTrip(d: Draft, id: int)
    ensures DraftOf(d.WithId(id)) == d
  {
  }

  /** The ids in list order (`products.map(p => p.id)`). */
  function Ids(ps: seq<Product>): (r: seq<int>)
    ensures |r| == |ps|
    ensures forall i :: 0 <= i < |ps| ==> r[i] == ps[i].id
  {
    if ps == [] then [] else [ps[0].id] + Ids(ps[1..])
  }

  /** No two entries share an id. */
  ghost predicate UniqueIds(ps: seq<Product>)
  {
    forall i, j :: 0 <= i < j < |ps| ==> ps[i].id != ps[j].id
  }
}
