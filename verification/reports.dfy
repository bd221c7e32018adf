/**
 * The reports page (`relatorios`): totals over sales and products, units sold
 * per product name, revenue per day of the month, and the low-stock list.
 * Every figure is recomputed from the full tables on each request.
 */
module Reports {

  import opened Wrappers
  import opened Folds
  import opened Inventory

  /** A product is low on stock below this many units. */
  const LowStockThreshold: int := 5

  /** Amount of one sale. */
  function SaleTotal(s: Sale): int
  {
    s.total
  }

  /** Units of one sale. */
  function SaleUnits(s: Sale): int
  {
    s.quantity
  }

  /** Stock of one product valued at its purchase cost, a missing cost counting as 0. */
  function ValueAtCost(p: Product): int
  {
    p.cost.GetOr(0) * p.quantity
  }

  /** Stock of one product valued at its sale price. */
  function ValueAtPrice(p: Product): int
  {
    p.price * p.quantity
  }

  /** The day-level label of a sale date: day and month, the year is dropped. */
  datatype DayMonth = DayMonth(day: int, month: int)

  /** `data.strftime('%d/%m')`. */
  function DayLabel(d: Date): DayMonth
  {
    DayMonth(d.day, d.month)
  }

  /** What one sale contributes to the per-product series: its product's name and its units, if the product still exists. */
  function ProductEntry(ps: seq<Product>, s: Sale): Option<(string, int)>
  {
    match ProductOf(ps, s)
    case None => None
    case Some(p) => Some((p.name, s.quantity))
  }

  /** One entry per sale, in sale order, for the per-product fold. */
  function ProductEntries(ps: seq<Product>, ss: seq<Sale>): (e: seq<Option<(string, int)>>)
    ensures |e| == |ss|
    ensures forall i :: 0 <= i < |ss| ==> e[i] == ProductEntry(ps, ss[i])
  {
    seq(|ss|, i requires 0 <= i < |ss| => ProductEntry(ps, ss[i]))
  }

  /** One entry per sale, in sale order, for the per-day fold. */
  function DayEntries(ss: seq<Sale>): (e: seq<Option<(DayMonth, int)>>)
    ensures |e| == |ss|
    ensures forall i :: 0 <= i < |ss| ==> e[i] == Some((DayLabel(ss[i].date), ss[i].total))
  {
    seq(|ss|, i requires 0 <= i < |ss| => Some((DayLabel(ss[i].date), ss[i].total)))
  }

  /** `vendas_por_produto`: units sold per product name, in first-sale order. */
  function SalesByProduct(ps: seq<Product>, ss: seq<Sale>): seq<(string, int)>
  {
    GroupSum(ProductEntries(ps, ss))
  }

  /** `faturamento_diario`: revenue per day label, in first-sale order. */
  function DailyRevenue(ss: seq<Sale>): seq<(DayMonth, int)>
  {
    GroupSum(DayEntries(ss))
  }

  /** Reference definition: units sold of every sale whose product still exists and bears `name`. */
  function UnitsSoldAs(ps: seq<Product>, ss: seq<Sale>, name: string): int
  {
    if |ss| == 0 then 0
    else
      var s := ss[|ss| - 1];
      UnitsSoldAs(ps, ss[..|ss| - 1], name)
      + (if SoldAs(ps, s, name) then s.quantity else 0)
  }

  /** Reference definition: revenue of every sale made on day label `d`, whatever its year. */
  function RevenueOn(ss: seq<Sale>, d: DayMonth): int
  {
    if |ss| == 0 then 0
    else
      var s := ss[|ss| - 1];
      RevenueOn(ss[..|ss| - 1], d) + (if DayLabel(s.date) == d then s.total else 0)
  }

  /** A sale that counts towards the per-product series under `name`. */
  predicate SoldAs(ps: seq<Product>, s: Sale, name: string)
  {
    ProductOf(ps, s).Some? && ProductOf(ps, s).value.name == name
  }

  /** `[p for p in produtos if p.quantidade < 5]`. */
  function LowStock(ps: seq<Product>): (r: seq<Product>)
    ensures |r| <= |ps|
  {
    if |ps| == 0 then []
    else (if ps[0].quantity < LowStockThreshold then [ps[0]] else []) + LowStock(ps[1..])
  }

  /** The figures and series of the reports page. */
  datatype Report = Report(
    revenue: int,
    unitsSold: int,
    stockAtCost: int,
    stockAtPrice: int,
    estimatedProfit: int,
    productLabels: seq<string>,
    productValues: seq<int>,
    dayLabels: seq<DayMonth>,
    dayValues: seq<int>,
    lowStock: seq<Product>)

  /** Keys of a dictionary in order. */
  function Labels<K>(r: seq<(K, int)>): (ls: seq<K>)
    ensures |ls| == |r| && forall i :: 0 <= i < |r| ==> ls[i] == r[i].0
  {
    seq(|r|, i requires 0 <= i < |r| => r[i].0)
  }

  /** The listed keys are the dictionary's key set. */
  lemma {:induction false} LabelsSet<K>(r: seq<(K, int)>)
    ensures forall k :: k in Labels(r) <==> k in LabelsOf(r)
  {
    forall k | k in LabelsOf(r) ensures k in Labels(r) {
      var i :| 0 <= i < |r| && r[i].0 == k;
      assert Labels(r)[i] == k;
    }
  }

  /** Values of a dictionary in order. */
  function Values<K>(r: seq<(K, int)>): (vs: seq<int>)
    ensures |vs| == |r| && forall i :: 0 <= i < |r| ==> vs[i] == r[i].1
  {
    seq(|r|, i requires 0 <= i < |r| => r[i].1)
  }

  /** The entries of a prefix of the sales are the prefix of the entries. */
  lemma {:induction false} ProductEntriesPrefix(ps: seq<Product>, ss: seq<Sale>, n: nat)
    requires n <= |ss|
    ensures ProductEntries(ps, ss)[..n] == ProductEntries(ps, ss[..n])
  {
    var a, b := ProductEntries(ps, ss)[..n], ProductEntries(ps, ss[..n]);
    assert |a| == |b|;
    forall i | 0 <= i < n ensures a[i] == b[i] {
      assert ss[..n][i] == ss[i];
    }
  }

  /** The units sold under a name are what the per-product entries carry under it. */
  lemma {:induction false} ProductEntriesSum(ps: seq<Product>, ss: seq<Sale>, name: string)
    ensures SumFor(ProductEntries(ps, ss), name) == UnitsSoldAs(ps, ss, name)
    decreases |ss|
  {
    if |ss| > 0 {
      var n := |ss| - 1;
      var e := ProductEntries(ps, ss);
      ProductEntriesPrefix(ps, ss, n);
      ProductEntriesSum(ps, ss[..n], name);
      assert e[n] == ProductEntry(ps, ss[n]);
      assert ss[..n] == ss[..|ss| - 1];
    }
  }

  /** The revenue of a day label is what the per-day entries carry under it. */
  lemma {:induction false} DayEntriesSum(ss: seq<Sale>, d: DayMonth)
    ensures SumFor(DayEntries(ss), d) == RevenueOn(ss, d)
    decreases |ss|
  {
    if |ss| > 0 {
      var n := |ss| - 1;
      assert DayEntries(ss)[..n] == DayEntries(ss[..n]);
      DayEntriesSum(ss[..n], d);
    }
  }

  /** The per-product labels are the names of the products of the remaining sales, each once. */
  lemma {:induction false} SalesByProductKeys(ps: seq<Product>, ss: seq<Sale>)
    ensures DistinctKeys(SalesByProduct(ps, ss))
    ensures forall name :: name in LabelsOf(SalesByProduct(ps, ss)) <==>
              exists i :: 0 <= i < |ss| && SoldAs(ps, ss[i], name)
  {
    var e := ProductEntries(ps, ss);
    GroupSumKeys(e);
    forall name
      ensures name in KeysOf(e) <==> exists i :: 0 <= i < |ss| && SoldAs(ps, ss[i], name)
    {
      if name in KeysOf(e) {
        var i :| 0 <= i < |e| && e[i].Some? && e[i].value.0 == name;
        assert SoldAs(ps, ss[i], name);
      }
      if exists i :: 0 <= i < |ss| && SoldAs(ps, ss[i], name) {
        var i :| 0 <= i < |ss| && SoldAs(ps, ss[i], name);
        assert e[i].Some? && e[i].value.0 == name;
      }
    }
  }

  /** Each per-product label carries the units of the sales of products with that name. */
  lemma {:induction false} SalesByProductValues(ps: seq<Product>, ss: seq<Sale>)
    ensures forall i :: 0 <= i < |SalesByProduct(ps, ss)| ==>
              SalesByProduct(ps, ss)[i].1 == UnitsSoldAs(ps, ss, SalesByProduct(ps, ss)[i].0)
  {
    var e := ProductEntries(ps, ss);
    var r := SalesByProduct(ps, ss);
    GroupSumValues(e);
    forall i | 0 <= i < |r|
      ensures r[i].1 == UnitsSoldAs(ps, ss, r[i].0)
    {
      ProductEntriesSum(ps, ss, r[i].0);
    }
  }

  /**
   * The per-product labels are ordered by the first sale that carries them:
   * that sale is the first whose (still existing) product bears the label.
   */
  lemma {:induction false} SalesByProductOrder(ps: seq<Product>, ss: seq<Sale>)
    ensures var r := SalesByProduct(ps, ss);
            var e := ProductEntries(ps, ss);
            && FirstEncounterOrder(e, r)
            && (forall i :: 0 <= i < |r| ==> SoldAs(ps, ss[FirstIndex(e, r[i].0)], r[i].0))
            && (forall i, k :: 0 <= i < |r| && 0 <= k < FirstIndex(e, r[i].0) ==>
                  !SoldAs(ps, ss[k], r[i].0))
  {
    var e := ProductEntries(ps, ss);
    var r := SalesByProduct(ps, ss);
    GroupSumOrder(e);
    forall i, k | 0 <= i < |r| && 0 <= k < FirstIndex(e, r[i].0)
      ensures !SoldAs(ps, ss[k], r[i].0)
    {
      assert e[k].None? || e[k].value.0 != r[i].0;
    }
  }

  /** The per-day labels are the day labels of the sales, each once. */
  lemma {:induction false} DailyRevenueKeys(ss: seq<Sale>)
    ensures DistinctKeys(DailyRevenue(ss))
    ensures forall d :: d in LabelsOf(DailyRevenue(ss)) <==>
              exists i :: 0 <= i < |ss| && DayLabel(ss[i].date) == d
  {
    var e := DayEntries(ss);
    GroupSumKeys(e);
    forall d
      ensures d in KeysOf(e) <==> exists i :: 0 <= i < |ss| && DayLabel(ss[i].date) == d
    {
      if exists i :: 0 <= i < |ss| && DayLabel(ss[i].date) == d {
        var i :| 0 <= i < |ss| && DayLabel(ss[i].date) == d;
        assert e[i].Some? && e[i].value.0 == d;
      }
    }
  }

  /** Each per-day label carries the revenue of all sales on that day and month, whatever their year. */
  lemma {:induction false} DailyRevenueValues(ss: seq<Sale>)
    ensures forall i :: 0 <= i < |DailyRevenue(ss)| ==>
              DailyRevenue(ss)[i].1 == RevenueOn(ss, DailyRevenue(ss)[i].0)
  {
    var e := DayEntries(ss);
    var r := DailyRevenue(ss);
    GroupSumValues(e);
    forall i | 0 <= i < |r|
      ensures r[i].1 == RevenueOn(ss, r[i].0)
    {
      DayEntriesSum(ss, r[i].0);
    }
  }

  /** The per-day labels are ordered by the first sale made on each. */
  lemma {:induction false} DailyRevenueOrder(ss: seq<Sale>)
    ensures var r := DailyRevenue(ss);
            var e := DayEntries(ss);
            && FirstEncounterOrder(e, r)
            && (forall i :: 0 <= i < |r| ==> DayLabel(ss[FirstIndex(e, r[i].0)].date) == r[i].0)
            && (forall i, k :: 0 <= i < |r| && 0 <= k < FirstIndex(e, r[i].0) ==>
                  DayLabel(ss[k].date) != r[i].0)
  {
    var e := DayEntries(ss);
    var r := DailyRevenue(ss);
    GroupSumOrder(e);
    forall i, k | 0 <= i < |r| && 0 <= k < FirstIndex(e, r[i].0)
      ensures DayLabel(ss[k].date) != r[i].0
    {
      assert e[k].value.0 != r[i].0;
    }
  }

  /** Two sales on the same day and month of different years share one label and one total. */
  lemma {:induction false} DailyRevenueConflatesYears(a: Sale, b: Sale)
    requires a.date.day == b.date.day && a.date.month == b.date.month
    requires a.date.year != b.date.year
    ensures DailyRevenue([a, b]) == [(DayMonth(a.date.day, a.date.month), a.total + b.total)]
  {
    var e := DayEntries([a, b]);
    var d := DayMonth(a.date.day, a.date.month);
    assert e[..1][..0] == [];
    assert e[..1][0] == Some((d, a.total));
    var r1 := GroupSum(e[..1]);
    assert GroupSum(e[..1][..0]) == [];
    assert r1 == Upsert([], d, a.total);
    assert r1 == [(d, a.total)];
    assert Find(r1, d) == 0;
    assert GroupSum(e) == Upsert(r1, d, b.total);
  }

  /** The low-stock list of a concatenation is the concatenation of the low-stock lists. */
  lemma {:induction false} LowStockAppend(a: seq<Product>, b: seq<Product>)
    ensures LowStock(a + b) == LowStock(a) + LowStock(b)
    decreases |a|
  {
    if |a| == 0 {
      assert a + b == b;
    } else {
      var head := if a[0].quantity < LowStockThreshold then [a[0]] else [];
      assert (a + b)[0] == a[0];
      assert (a + b)[1..] == a[1..] + b;
      assert LowStock(a + b) == head + LowStock(a[1..] + b);
      LowStockAppend(a[1..], b);
      assert head + (LowStock(a[1..]) + LowStock(b)) == (head + LowStock(a[1..])) + LowStock(b);
    }
  }

  /** The low-stock list holds exactly the products with fewer than five units. */
  lemma {:induction false} LowStockMembers(ps: seq<Product>)
    ensures forall p :: p in LowStock(ps) <==> p in ps && p.quantity < LowStockThreshold
    decreases |ps|
  {
    if |ps| > 0 {
      LowStockMembers(ps[1..]);
      assert ps == [ps[0]] + ps[1..];
    }
  }

  /**
   * Together with `LowStockAppend`, this pins the list down: each product
   * appears exactly when its stock is below 5, in the original order.
   */
  lemma {:induction false} LowStockSingle(p: Product)
    ensures LowStock([p]) == (if p.quantity < LowStockThreshold then [p] else [])
  {
  }

  /** The threshold is strict: four units is low, five is not, and nothing else decides. */
  lemma {:induction false} LowStockThresholdIsStrict(p: Product, q: Product)
    requires p.quantity == 4 && q.quantity == 5
    ensures LowStock([p, q]) == [p]
  {
    LowStockAppend([p], [q]);
    assert [p, q] == [p] + [q];
  }

  /** The per-product chart series: each name once, with the units sold under it. */
  lemma {:induction false} ProductSeries(ps: seq<Product>, ss: seq<Sale>)
    ensures var ls, vs := Labels(SalesByProduct(ps, ss)), Values(SalesByProduct(ps, ss));
            && |ls| == |vs|
            && (forall i, j :: 0 <= i < j < |ls| ==> ls[i] != ls[j])
            && (forall i :: 0 <= i < |ls| ==> vs[i] == UnitsSoldAs(ps, ss, ls[i]))
            && (forall name :: name in ls <==> exists i :: 0 <= i < |ss| && SoldAs(ps, ss[i], name))
  {
    SalesByProductKeys(ps, ss);
    SalesByProductValues(ps, ss);
    LabelsSet(SalesByProduct(ps, ss));
  }

  /** The per-product chart labels come in the order of the first sale carrying each. */
  lemma {:induction false} ProductLabelOrder(ps: seq<Product>, ss: seq<Sale>)
    ensures var ls, e := Labels(SalesByProduct(ps, ss)), ProductEntries(ps, ss);
            forall i, j :: 0 <= i < j < |ls| ==>
              && ls[i] in KeysOf(e) && ls[j] in KeysOf(e)
              && FirstIndex(e, ls[i]) < FirstIndex(e, ls[j])
  {
    SalesByProductOrder(ps, ss);
  }

  /** The per-day chart series: each day label once, with the revenue made on it. */
  lemma {:induction false} DaySeries(ss: seq<Sale>)
    ensures var ls, vs := Labels(DailyRevenue(ss)), Values(DailyRevenue(ss));
            && |ls| == |vs|
            && (forall i, j :: 0 <= i < j < |ls| ==> ls[i] != ls[j])
            && (forall i :: 0 <= i < |ls| ==> vs[i] == RevenueOn(ss, ls[i]))
            && (forall d :: d in ls <==> exists i :: 0 <= i < |ss| && DayLabel(ss[i].date) == d)
  {
    DailyRevenueKeys(ss);
    DailyRevenueValues(ss);
    LabelsSet(DailyRevenue(ss));
  }

  /** The per-day chart labels come in the order of the first sale made on each. */
  lemma {:induction false} DayLabelOrder(ss: seq<Sale>)
    ensures var ls, e := Labels(DailyRevenue(ss)), DayEntries(ss);
            forall i, j :: 0 <= i < j < |ls| ==>
              && ls[i] in KeysOf(e) && ls[j] in KeysOf(e)
              && FirstIndex(e, ls[i]) < FirstIndex(e, ls[j])
  {
    DailyRevenueOrder(ss);
  }

  /**
   * The reports page. Revenue and units sold sum over every sale, the stock
   * values sum over every product, and the estimated profit is their
   * difference. The per-product series lists each name of a still existing
   * product with sales once, with its units; the per-day series lists each
   * day label of a sale once, with its revenue. Both series keep the order in
   * which their labels first occur among the sales, and the low-stock list is
   * the products under five units in their own order.
   */
  function BuildReport(ps: seq<Product>, ss: seq<Sale>): (r: Report)
    ensures r.revenue == SumOf(ss, SaleTotal) && r.unitsSold == SumOf(ss, SaleUnits)
    ensures r.stockAtCost == SumOf(ps, ValueAtCost) && r.stockAtPrice == SumOf(ps, ValueAtPrice)
    ensures r.estimatedProfit == r.stockAtPrice - r.stockAtCost
    ensures forall name :: name in r.productLabels <==> exists i :: 0 <= i < |ss| && SoldAs(ps, ss[i], name)
    ensures forall d :: d in r.dayLabels <==> exists i :: 0 <= i < |ss| && DayLabel(ss[i].date) == d
    ensures |r.productLabels| == |r.productValues|
    ensures forall i, j :: 0 <= i < j < |r.productLabels| ==> r.productLabels[i] != r.productLabels[j]
    ensures forall i :: 0 <= i < |r.productLabels| ==>
              r.productValues[i] == UnitsSoldAs(ps, ss, r.productLabels[i])
    ensures |r.dayLabels| == |r.dayValues|
    ensures forall i, j :: 0 <= i < j < |r.dayLabels| ==> r.dayLabels[i] != r.dayLabels[j]
    ensures forall i :: 0 <= i < |r.dayLabels| ==> r.dayValues[i] == RevenueOn(ss, r.dayLabels[i])
    ensures forall i, j :: 0 <= i < j < |r.productLabels| ==>
              var e := ProductEntries(ps, ss);
              && r.productLabels[i] in KeysOf(e) && r.productLabels[j] in KeysOf(e)
              && FirstIndex(e, r.productLabels[i]) < FirstIndex(e, r.productLabels[j])
    ensures forall i, j :: 0 <= i < j < |r.dayLabels| ==>
              var e := DayEntries(ss);
              && r.dayLabels[i] in KeysOf(e) && r.dayLabels[j] in KeysOf(e)
              && FirstIndex(e, r.dayLabels[i]) < FirstIndex(e, r.dayLabels[j])
    ensures forall p :: p in r.lowStock <==> p in ps && p.quantity < LowStockThreshold
    ensures r.lowStock == LowStock(ps)
  {
    var atCost := SumOf(ps, ValueAtCost);
    var atPrice := SumOf(ps, ValueAtPrice);
    var byProduct := SalesByProduct(ps, ss);
    var byDay := DailyRevenue(ss);
    ProductSeries(ps, ss);
    ProductLabelOrder(ps, ss);
    DaySeries(ss);
    DayLabelOrder(ss);
    LowStockMembers(ps);
    Report(
      SumOf(ss, SaleTotal),
      SumOf(ss, SaleUnits),
      atCost,
      atPrice,
      atPrice - atCost,
      Labels(byProduct),
      Values(byProduct),
      Labels(byDay),
      Values(byDay),
      LowStock(ps))
  }
}
