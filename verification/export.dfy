/** The defensive name lookups of the sales export (`exportar('vendas')`). */
module Export {

  import opened Folds
  import opened Inventory
  import opened Reports

  /** Shown for a sale whose product has been deleted. */
  const RemovedLabel: string := "Removido"

  /** Shown for a sale without a (still existing) customer. */
  const WalkInLabel: string := "Balcão"

  /** Product column of a sale row: the product's name, or the removed marker. */
  function SaleProductName(ps: seq<Product>, s: Sale): (r: string)
    ensures ProductOf(ps, s).Some? ==> r == ProductOf(ps, s).value.name
    ensures ProductOf(ps, s).None? ==> r == RemovedLabel
  {
    match ProductOf(ps, s)
    case Some(p) => p.name
    case None => RemovedLabel
  }

  /** Customer column of a sale row: the customer's name, or the walk-in marker. */
  function SaleCustomerName(cs: seq<Customer>, s: Sale): (r: string)
    ensures s.customerId.None? ==> r == WalkInLabel
    ensures s.customerId.Some? && FindCustomer(cs, s.customerId.value).None? ==> r == WalkInLabel
    ensures s.customerId.Some? && FindCustomer(cs, s.customerId.value).Some? ==>
              r == cs[FindCustomer(cs, s.customerId.value).value].name
  {
    match s.customerId
    case None => WalkInLabel
    case Some(id) =>
      match FindCustomer(cs, id)
      case None => WalkInLabel
      case Some(j) => cs[j].name
  }

  /**
   * The export and the reports resolve products the same way: a sale whose
   * product exists is exported under a name the per-product series shows,
   * and, as long as no product is itself called "Removido", the export marks
   * a sale as removed exactly when the reports skip it.
   */
  lemma {:induction false} ExportAgreesWithReport(ps: seq<Product>, ss: seq<Sale>, i: nat)
    requires i < |ss|
    ensures ProductOf(ps, ss[i]).Some? ==>
              SaleProductName(ps, ss[i]) in LabelsOf(SalesByProduct(ps, ss))
    ensures (forall j :: 0 <= j < |ps| ==> ps[j].name != RemovedLabel) ==>
              (SaleProductName(ps, ss[i]) == RemovedLabel <==> ProductOf(ps, ss[i]).None?)
  {
    SalesByProductKeys(ps, ss);
    if ProductOf(ps, ss[i]).Some? {
      assert SoldAs(ps, ss[i], SaleProductName(ps, ss[i]));
    }
  }

  /**
   * The customer column names a customer the sale refers to whenever it does
   * not show the walk-in marker, and, as long as no customer is itself called
   * "Balcão", it shows the marker exactly when the sale has no customer or its
   * customer has been deleted.
   */
  lemma {:induction false} CustomerNameResolves(cs: seq<Customer>, s: Sale)
    ensures SaleCustomerName(cs, s) != WalkInLabel ==>
              s.customerId.Some? &&
              exists j :: 0 <= j < |cs| && cs[j].id == s.customerId.value && cs[j].name == SaleCustomerName(cs, s)
    ensures (forall j :: 0 <= j < |cs| ==> cs[j].name != WalkInLabel) ==>
              (SaleCustomerName(cs, s) == WalkInLabel <==>
                 s.customerId.None? || FindCustomer(cs, s.customerId.value).None?)
  {
    if s.customerId.Some? && FindCustomer(cs, s.customerId.value).Some? {
      var j := FindCustomer(cs, s.customerId.value).value;
      assert cs[j].id == s.customerId.value && cs[j].name == SaleCustomerName(cs, s);
    }
  }
}
