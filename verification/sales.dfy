/** Recording a sale (`nova_venda`): the stock check, the stock decrement and the sale row. */
module Sales {

  import opened Wrappers
  import opened Inventory

  /** Why a sale is refused. */
  datatype SaleError =
    | ProductNotFound(productId: int)   // `Produto.query.get` returned None
    | InsufficientStock(available: int) // the stock left, as the notice reports it

  /** The store after the request, and the recorded sale or the refusal. */
  datatype SaleResponse = SaleResponse(store: Store, outcome: Result<Sale, SaleError>)

  /**
   * `st'` is `st` after recording `s` against the product at position `i`:
   * that product lost `s.quantity` units, every other product and customer is
   * as it was, and exactly one sale row was appended.
   */
  predicate Recorded(st: Store, st': Store, i: nat, s: Sale)
    requires i < |st.products|
  {
    && |st'.products| == |st.products|
    && st'.products[i] == st.products[i].(quantity := st.products[i].quantity - s.quantity)
    && (forall j :: 0 <= j < |st.products| && j != i ==> st'.products[j] == st.products[j])
    && st'.sales == st.sales + [s]
    && st'.customers == st.customers
    && st'.nextProductId == st.nextProductId
    && st'.nextSaleId == st.nextSaleId + 1
  }

  /**
   * A sale request for `quantity` units of product `productId`, at time `now`.
   * The request is refused, and nothing changes, when the product is missing or
   * has fewer units than asked for; otherwise the stock goes down by exactly
   * `quantity` and the sale is recorded with the unit price of this moment.
   */
  function NewSale(st: Store, productId: int, customerId: Option<int>, quantity: int, now: Date)
    : (r: SaleResponse)
    ensures r.outcome.Failure? ==> r.store == st
    ensures FindProduct(st.products, productId).None? ==>
              r.outcome == Failure(ProductNotFound(productId))
    ensures FindProduct(st.products, productId).Some? ==>
              var i := FindProduct(st.products, productId).value;
              var p := st.products[i];
              && (p.quantity < quantity <==> r.outcome.Failure?)
              && (p.quantity < quantity ==> r.outcome == Failure(InsufficientStock(p.quantity)))
              && (r.outcome.Success? ==>
                    && r.outcome.value ==
                         Sale(st.nextSaleId, now, quantity, p.price * quantity, productId, customerId)
                    && Recorded(st, r.store, i, r.outcome.value)
                    && r.store.products[i].quantity >= 0)
  {
    match FindProduct(st.products, productId)
    case None => SaleResponse(st, Failure(ProductNotFound(productId)))
    case Some(i) =>
      var p := st.products[i];
      if p.quantity < quantity then
        SaleResponse(st, Failure(InsufficientStock(p.quantity)))
      else
        var sale := Sale(st.nextSaleId, now, quantity, p.price * quantity, productId, customerId);
        var st' := st.(
          products := st.products[i := p.(quantity := p.quantity - quantity)],
          sales := st.sales + [sale],
          nextSaleId := st.nextSaleId + 1);
        SaleResponse(st', Success(sale))
  }

  /** Recording a sale keeps every primary key unique and below its counter. */
  lemma {:induction false} NewSalePreservesValid(st: Store, productId: int, customerId: Option<int>, quantity: int, now: Date)
    requires ValidStore(st)
    ensures ValidStore(NewSale(st, productId, customerId, quantity, now).store)
  {
    var r := NewSale(st, productId, customerId, quantity, now);
    if r.outcome.Success? {
      var i := FindProduct(st.products, productId).value;
      assert forall j :: 0 <= j < |st.products| ==> r.store.products[j].id == st.products[j].id;
    }
  }

  /** No sale, accepted or refused, drives any product's stock below zero. */
  lemma {:induction false} NewSaleKeepsStockNonNegative(st: Store, productId: int, customerId: Option<int>, quantity: int, now: Date)
    requires StockNonNegative(st.products)
    ensures StockNonNegative(NewSale(st, productId, customerId, quantity, now).store.products)
  {
    var r := NewSale(st, productId, customerId, quantity, now);
    if r.outcome.Success? {
      var i := FindProduct(st.products, productId).value;
      assert forall j :: 0 <= j < |st.products| && j != i ==> r.store.products[j] == st.products[j];
    }
  }

  /**
   * A run of sale requests against one store, each applied to the store the
   * previous one left. Sales are only ever appended: the earlier ones stay as
   * a prefix, at most one is added per request, and customers are untouched.
   */
  function SaleRun(st: Store, requests: seq<(int, int)>, now: Date): (st': Store)
    ensures |st'.products| == |st.products|
    ensures |st.sales| <= |st'.sales| <= |st.sales| + |requests|
    ensures st'.sales[..|st.sales|] == st.sales
    ensures st'.customers == st.customers
    decreases |requests|
  {
    if |requests| == 0 then st
    else
      var st1 := NewSale(st, requests[0].0, None, requests[0].1, now).store;
      var st' := SaleRun(st1, requests[1..], now);
      assert st1.sales[..|st.sales|] == st.sales;
      assert st'.sales[..|st.sales|] == st1.sales[..|st.sales|];
      st'
  }

  /** However many sales are attempted in a row, no stock ever goes negative. */
  lemma {:induction false} SaleRunKeepsStockNonNegative(st: Store, requests: seq<(int, int)>, now: Date)
    requires StockNonNegative(st.products)
    ensures StockNonNegative(SaleRun(st, requests, now).products)
    decreases |requests|
  {
    if |requests| > 0 {
      NewSaleKeepsStockNonNegative(st, requests[0].0, None, requests[0].1, now);
      SaleRunKeepsStockNonNegative(NewSale(st, requests[0].0, None, requests[0].1, now).store, requests[1..], now);
    }
  }

  /**
   * The stock check only compares quantities, so a negative quantity passes
   * it: the stock goes up and the sale is recorded with a negative total.
   */
  lemma {:induction false} NegativeQuantityRaisesStock(st: Store, productId: int, quantity: int, now: Date)
    requires FindProduct(st.products, productId).Some?
    requires StockNonNegative(st.products)
    requires quantity < 0
    ensures var r := NewSale(st, productId, None, quantity, now);
            var i := FindProduct(st.products, productId).value;
            && r.outcome.Success?
            && r.store.products[i].quantity > st.products[i].quantity
  {
  }

  /** Ten units at 5.00 each, three sold: the sale totals 15.00 and seven units remain. */
  lemma {:induction false} ScenarioAcceptedSale(now: Date)
    ensures var widget := Product(1, "Widget", 10, 500, None, None);
            var st := Store([widget], [], [], 2, 1);
            var r := NewSale(st, 1, None, 3, now);
            && r.outcome.Success?
            && r.outcome.value.total == 1500
            && r.store.products[0].quantity == 7
  {
  }

  /** Two units in stock, five asked for: refused, the stock stays at two. */
  lemma {:induction false} ScenarioRefusedSale(now: Date)
    ensures var widget := Product(1, "Widget", 2, 500, None, None);
            var st := Store([widget], [], [], 2, 1);
            var r := NewSale(st, 1, None, 5, now);
            && r.outcome == Failure(InsufficientStock(2))
            && r.store.products[0].quantity == 2
  {
  }
}
