/**
 * The admin dashboard (`Admin` page): its four statistics, the stock badge
 * of each table row, the product form's validation rules, and the modal's
 * editing state, whose submit either updates the product being edited or
 * adds a new one through the catalog store.
 */
module AdminPage {
  import opened Wrappers
  import opened ProductTypes
  import opened Collections
  import opened UseProducts
  import opened ProductsContext

  // ---- statistics ----

  /** The page's own statistics: `[...new Set(categories)].length` counts the
      distinct categories without sorting them. */
  function DashboardStats(ps: seq<Product>): (s: Stats)
    ensures s == ComputeStats(ps)
  {
    var distinct := Distinct(CategoryValues(ps));
    assert |Sort(distinct)| == |distinct| by {
      assert |multiset(Sort(distinct))| == |multiset(distinct)|;
    }
    Stats(|ps|, TotalValue(ps), |LowStockProducts(ps)|, |distinct|)
  }

  // ---- stock badge ----

  datatype StockStatus = OutOfStock | LowStock | InStock

  /** The badge of a table row. */
  function StatusOf(stock: nat): (s: StockStatus)
    ensures s == OutOfStock <==> stock == 0
    ensures s == LowStock <==> 0 < stock < 10
    ensures s == InStock <==> stock >= 10
  {
    if stock == 0 then OutOfStock else if stock < 10 then LowStock else InStock
  }

  /** A product is counted as low on stock exactly when its badge is not
      "In Stock"; in particular every "Out of Stock" product is counted. */
  lemma LowStockMeansBadge(ps: seq<Product>, p: Product)
    requires p in ps
    ensures p in LowStockProducts(ps) <==> StatusOf(p.stock) != InStock
    ensures StatusOf(p.stock) == OutOfStock ==> p in LowStockProducts(ps)
  {
  }

  // ---- the product form ----

  /** The raw form values. A number field that does not read as a number
      is `None`. */
  datatype FormValues = FormValues(
    name: string,
    price: Option<real>,
    description: string,
    image: string,
    category: string,
    stock: Option<real>)

  /** The form after `reset()`: every field empty. */
  const EmptyForm: FormValues := FormValues("", None, "", "", "", None)

  /** The form filled from a product by the `setValue` calls. Saving it
      unchanged submits that product's own fields when they meet the rules,
      and nothing otherwise. */
  function FormOf(p: Product): (f: FormValues)
    ensures Validate(f) == if AcceptsDraft(DraftOf(p)) then Some(DraftOf(p)) else None
  {
    assert (p.stock as real).Floor == p.stock;
    FormValues(p.name, Some(p.price), p.description, p.image, p.category, Some(p.stock as real))
  }

  /** The numeric and length rules of `productSchema`. */
  predicate Accepts(f: FormValues)
  {
    && |f.name| >= 3
    && f.price.Some? && f.price.value > 0.0
    && |f.description| >= 10
    && f.image != ""
    && f.category != ""
    && f.stock.Some? && f.stock.value == (f.stock.value.Floor as real) && f.stock.value >= 0.0
  }

  /** The same rules on a draft. */
  predicate AcceptsDraft(d: Draft)
  {
    |d.name| >= 3 && d.price > 0.0 && |d.description| >= 10 && d.image != "" && d.category != ""
  }

  /** The resolver: the validated data when every rule holds, nothing otherwise. */
  function Validate(f: FormValues): (r: Option<Draft>)
    ensures r.Some? <==> Accepts(f)
    ensures r.Some? ==> AcceptsDraft(r.value)
    ensures r.Some? ==> r.value.name == f.name && r.value.description == f.description
                        && r.value.image == f.image && r.value.category == f.category
                        && Some(r.value.price) == f.price && Some(r.value.stock as real) == f.stock
  {
    if Accepts(f) then
      Some(Draft(f.name, f.price.value, f.description, f.image, f.category, f.stock.value.Floor as nat))
    else None
  }

  /** The empty form never validates. */
  lemma EmptyFormRejected()
    ensures Validate(EmptyForm) == None
  {
  }

  // ---- the page ----

  /** The page's state: whether the product modal is open, which product it
      edits (none when adding), and the form's values. */
  class AdminDashboard {
    var isModalOpen: bool
    var editingProduct: Option<Product>
    var form: FormValues
    const store: ProductsStore

    constructor (store: ProductsStore)
      ensures this.store == store
      ensures !isModalOpen && editingProduct == None && form == EmptyForm
    {
      this.store := store;
      isModalOpen := false;
      editingProduct := None;
      form := EmptyForm;
    }

    /** `handleOpenModal(product?)`: edit the given product with its values
        in the form, or add a new one from an empty form. */
    method HandleOpenModal(product: Option<Product>)
      modifies this
      ensures isModalOpen
      ensures editingProduct == product
      ensures form == if product.Some? then FormOf(product.value) else EmptyForm
    {
      if product.Some? {
        editingProduct := product;
        form := FormOf(product.value);
      } else {
        editingProduct := None;
        form := EmptyForm;
      }
      isModalOpen := true;
    }

    /** `handleCloseModal()`. */
    method HandleCloseModal()
      modifies this
      ensures !isModalOpen && editingProduct == None && form == EmptyForm
    {
      isModalOpen := false;
      editingProduct := None;
      form := EmptyForm;
    }

    /** `onSubmit(data)`: exactly one store operation, an update of the
        product being edited or an add, then the modal closes. */
    method OnSubmit(data: Draft)
      requires store.Valid()
      modifies this, store, store.storage
      ensures store.Valid()
      ensures store.products == if old(editingProduct).Some?
                                then Updated(old(store.products), old(editingProduct).value.id, data)
                                else Added(old(store.products), data)
      ensures store.storage.items == Persisted(old(store.storage.items), store.products, store.encode)
      ensures !isModalOpen && editingProduct == None && form == EmptyForm
    {
      if editingProduct.Some? {
        store.UpdateProduct(editingProduct.value.id, data);
      } else {
        store.AddProduct(data);
      }
      HandleCloseModal();
    }

    /** `handleSubmit(onSubmit)`: the form reaches `onSubmit` only when it
        validates; otherwise nothing changes. */
    method Submit() returns (submitted: bool)
      requires store.Valid()
      modifies this, store, store.storage
      ensures store.Valid()
      ensures submitted <==> Validate(old(form)).Some?
      ensures store.storage.items == Persisted(old(store.storage.items), store.products, store.encode)
      ensures !submitted ==> store.products == old(store.products)
                             && store.storage.items == old(store.storage.items)
                             && isModalOpen == old(isModalOpen)
                             && editingProduct == old(editingProduct) && form == old(form)
      ensures submitted ==> store.products == if old(editingProduct).Some?
                              then Updated(old(store.products), old(editingProduct).value.id, Validate(old(form)).value)
                              else Added(old(store.products), Validate(old(form)).value)
      ensures submitted ==> !isModalOpen && editingProduct == None && form == EmptyForm
    {
      var data := Validate(form);
      if data.Some? {
        OnSubmit(data.value);
        return true;
      }
      return false;
    }

    /** `handleDelete(id, name)`; `confirmed` is the answer to the browser's
        confirmation dialog. */
    method HandleDelete(id: int, confirmed: bool)
      requires store.Valid()
      modifies store, store.storage
      ensures store.Valid()
      ensures store.products == if confirmed then Deleted(old(store.products), id) else old(store.products)
      ensures store.storage.items == Persisted(old(store.storage.items), store.products, store.encode)
      ensures !confirmed ==> store.storage.items == old(store.storage.items)
    {
      if confirmed {
        store.DeleteProduct(id);
      }
    }
  }
}
