/** How recording a sale moves the figures of the reports page. */
module Conservation {

  import opened Wrappers
  import opened Folds
  import opened Inventory
  import opened Sales
  import opened Reports

  /** An accepted sale replaces one product and appends one sale row. */
  lemma {:induction false} AcceptedSaleShape(st: Store, productId: int, customerId: Option<int>, quantity: int, now: Date)
    requires NewSale(st, productId, customerId, quantity, now).outcome.Success?
    ensures var r := NewSale(st, productId, customerId, quantity, now);
            var i := FindProduct(st.products, productId).value;
            && r.store.products == st.products[i := st.products[i].(quantity := st.products[i].quantity - quantity)]
            && r.store.sales == st.sales + [r.outcome.value]
            && r.outcome.value.total == st.products[i].price * quantity
            && r.outcome.value.quantity == quantity
  {
  }

  /** Selling `q` units of one product at its price moves exactly their value from stock to revenue. */
  lemma {:induction false} ValueMoved(ps: seq<Product>, i: nat, q: int, ss: seq<Sale>, sale: Sale)
    requires i < |ps|
    requires sale.total == ps[i].price * q
    ensures SumOf(ps[i := ps[i].(quantity := ps[i].quantity - q)], ValueAtPrice) + SumOf(ss + [sale], SaleTotal)
              == SumOf(ps, ValueAtPrice) + SumOf(ss, SaleTotal)
  {
    var p := ps[i];
    var p' := p.(quantity := p.quantity - q);
    SumOfUpdate(ps, i, p', ValueAtPrice);
    SumOfSnoc(ss, sale, SaleTotal);
    assert ValueAtPrice(p') == p.price * (p.quantity - q);
    assert p.price * (p.quantity - q) == p.price * p.quantity - p.price * q;
  }

  /**
   * A sale moves value from the stock into the revenue: stock valued at sale
   * price plus revenue is the same before and after. A refused sale changes
   * neither.
   */
  lemma {:induction false} SaleConservesValue(st: Store, productId: int, customerId: Option<int>, quantity: int, now: Date)
    ensures var st' := NewSale(st, productId, customerId, quantity, now).store;
            SumOf(st'.products, ValueAtPrice) + SumOf(st'.sales, SaleTotal)
              == SumOf(st.products, ValueAtPrice) + SumOf(st.sales, SaleTotal)
  {
    var r := NewSale(st, productId, customerId, quantity, now);
    if r.outcome.Success? {
      AcceptedSaleShape(st, productId, customerId, quantity, now);
      ValueMoved(st.products, FindProduct(st.products, productId).value, quantity, st.sales, r.outcome.value);
    }
  }

  /** Likewise units: units in stock plus units sold is the same before and after a sale. */
  lemma {:induction false} SaleConservesUnits(st: Store, productId: int, customerId: Option<int>, quantity: int, now: Date)
    ensures var st' := NewSale(st, productId, customerId, quantity, now).store;
            TotalStock(st'.products) + SumOf(st'.sales, SaleUnits)
              == TotalStock(st.products) + SumOf(st.sales, SaleUnits)
  {
    var r := NewSale(st, productId, customerId, quantity, now);
    if r.outcome.Success? {
      AcceptedSaleShape(st, productId, customerId, quantity, now);
      var i := FindProduct(st.products, productId).value;
      var p := st.products[i];
      SumOfUpdate(st.products, i, p.(quantity := p.quantity - quantity), StockOf);
      SumOfSnoc(st.sales, r.outcome.value, SaleUnits);
    }
  }
}
