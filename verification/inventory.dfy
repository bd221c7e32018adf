/**
 * The persisted records of the inventory application (`Produto`, `Cliente`,
 * `Venda`) and the store that holds them. Money is kept in integer cents.
 * The relational store is a set of sequences in insertion order. Identifiers
 * are handed out by counters that never go back; this is the model's own
 * abstraction. SQLite gives a new row the largest id plus one, so it can reuse
 * the id of a deleted last row, but deletion is not part of this model.
 */
module Inventory {

  import opened Wrappers
  import opened Folds

  /** The calendar part of `Venda.data`. */
  datatype Date = Date(day: int, month: int, year: int)

  /** `Produto`: price and the optional purchase cost are in cents. */
  datatype Product = Product(
    id: int,
    name: string,
    quantity: int,
    price: int,
    cost: Option<int>,
    expiry: Option<string>)

  /** `Cliente`. */
  datatype Customer = Customer(
    id: int,
    name: string,
    phone: Option<string>,
    email: Option<string>,
    city: Option<string>)

  /** `Venda`: `total` is fixed when the sale is recorded. */
  datatype Sale = Sale(
    id: int,
    date: Date,
    quantity: int,
    total: int,
    productId: int,
    customerId: Option<int>)

  /** The database: the three tables and the next identifier of each auto-increment. */
  datatype Store = Store(
    products: seq<Product>,
    customers: seq<Customer>,
    sales: seq<Sale>,
    nextProductId: int,
    nextSaleId: int)

  /** `Produto.query.get(id)`: the position of the product with primary key `id`. */
  function FindProduct(ps: seq<Product>, id: int): (r: Option<nat>)
    ensures r.Some? ==> r.value < |ps| && ps[r.value].id == id
    ensures r.Some? ==> forall j :: 0 <= j < r.value ==> ps[j].id != id
    ensures r.None? <==> forall j :: 0 <= j < |ps| ==> ps[j].id != id
  {
    FindFirst(ps, (p: Product) => p.id == id)
  }

  /** `Produto.query.filter_by(nome=name).first()`: the first product with exactly that name. */
  function FindProductNamed(ps: seq<Product>, name: string): (r: Option<nat>)
    ensures r.Some? ==> r.value < |ps| && ps[r.value].name == name
    ensures r.Some? ==> forall j :: 0 <= j < r.value ==> ps[j].name != name
    ensures r.None? <==> forall j :: 0 <= j < |ps| ==> ps[j].name != name
  {
    FindFirst(ps, (p: Product) => p.name == name)
  }

  /** `Cliente.query.get(id)`: the position of the customer with primary key `id`. */
  function FindCustomer(cs: seq<Customer>, id: int): (r: Option<nat>)
    ensures r.Some? ==> r.value < |cs| && cs[r.value].id == id
    ensures r.Some? ==> forall j :: 0 <= j < r.value ==> cs[j].id != id
    ensures r.None? <==> forall j :: 0 <= j < |cs| ==> cs[j].id != id
  {
    FindFirst(cs, (c: Customer) => c.id == id)
  }

  /** `venda.produto`: the product a sale refers to, if it still exists. */
  function ProductOf(ps: seq<Product>, s: Sale): (r: Option<Product>)
    ensures r.Some? ==> r.value in ps && r.value.id == s.productId
    ensures r.None? <==> forall j :: 0 <= j < |ps| ==> ps[j].id != s.productId
  {
    match FindProduct(ps, s.productId)
    case None => None
    case Some(i) => Some(ps[i])
  }

  /** Product identifiers are positive, below the counter, and pairwise different. */
  predicate ProductIdsValid(ps: seq<Product>, next: int)
  {
    && (forall i :: 0 <= i < |ps| ==> 0 < ps[i].id < next)
    && (forall i, j :: 0 <= i < j < |ps| ==> ps[i].id != ps[j].id)
  }

  /** Sale identifiers are positive, below the counter, and pairwise different. */
  predicate SaleIdsValid(ss: seq<Sale>, next: int)
  {
    && (forall i :: 0 <= i < |ss| ==> 0 < ss[i].id < next)
    && (forall i, j :: 0 <= i < j < |ss| ==> ss[i].id != ss[j].id)
  }

  /** What the database guarantees through its primary keys. */
  predicate ValidStore(st: Store)
  {
    && st.nextProductId >= 1 && st.nextSaleId >= 1
    && ProductIdsValid(st.products, st.nextProductId) && SaleIdsValid(st.sales, st.nextSaleId)
  }

  /** No two products share a name: the natural key the CSV import relies on. */
  predicate NamesDistinct(ps: seq<Product>)
  {
    forall i, j :: 0 <= i < j < |ps| ==> ps[i].name != ps[j].name
  }

  /** Units of one product in stock. */
  function StockOf(p: Product): int
  {
    p.quantity
  }

  /** Units in stock over all products. */
  function TotalStock(ps: seq<Product>): int
  {
    SumOf(ps, StockOf)
  }

  /** No product has a negative stock. */
  predicate StockNonNegative(ps: seq<Product>)
  {
    forall i :: 0 <= i < |ps| ==> ps[i].quantity >= 0
  }
}
