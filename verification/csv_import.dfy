/**
 * The CSV import (`importar_csv`): after the header row, every row is either
 * skipped or upserted into the products by name. A row whose name matches an
 * existing product adds to its stock; any other row creates a product. Rows
 * arrive already split into cells; `int()` and `float()` are parameters.
 */
module CsvImport {

  import opened Wrappers
  import opened Folds
  import opened Inventory
  import opened Text

  /** One row as the CSV reader yields it. */
  type Row = seq<string>

  /**
   * The numeric conversions the import uses: `int(cell)` and `float(cell)`,
   * the latter giving cents. `None` is the `ValueError` that skips the row.
   */
  datatype Parsers = Parsers(parseInt: string -> Option<int>, parseDecimal: string -> Option<int>)

  /** The values read from one accepted row. */
  datatype RowFields = RowFields(name: string, quantity: int, price: int, cost: int, expiry: string)

  /** How many products were created and how many were updated. */
  datatype ImportCounts = ImportCounts(created: nat, updated: nat)

  /** The products while the import runs, the next product identifier, and the counters. */
  datatype ImportState = ImportState(products: seq<Product>, nextId: int, counts: ImportCounts)

  /** The uploaded file: its name and its rows, or `None` when it is not valid UTF-8. */
  datatype Upload = Upload(filename: string, rows: Option<seq<Row>>)

  /** Why an import is refused as a whole. */
  datatype ImportError =
    | NoFilePart        // the form carries no `arquivo_csv` file
    | NoFileSelected    // the file has an empty name
    | UnreadableFile    // decoding the upload failed

  /** The store after the request, and the counters or the refusal. */
  datatype ImportResponse = ImportResponse(store: Store, outcome: Result<ImportCounts, ImportError>)

  /** The cost cell: an empty or absent cell is 0; anything else, whitespace included, must parse. */
  function ParseCost(row: Row, ps: Parsers): Option<int>
  {
    if |row| > 3 && row[3] != "" then ps.parseDecimal(CommaToPeriod(row[3])) else Some(0)
  }

  /**
   * The skip rules of one data row: fewer than three cells, a blank name, or a
   * numeric cell that does not parse. An accepted row yields its fields.
   */
  function ParseRow(row: Row, ps: Parsers): (r: Option<RowFields>)
    ensures |row| < 3 ==> r.None?
    ensures |row| >= 3 && Strip(row[0]) == "" ==> r.None?
    ensures r.Some? ==>
              && |row| >= 3
              && r.value.name == Strip(row[0]) && r.value.name != ""
              && ps.parseInt(row[1]) == Some(r.value.quantity)
              && ps.parseDecimal(CommaToPeriod(row[2])) == Some(r.value.price)
              && ParseCost(row, ps) == Some(r.value.cost)
              && r.value.expiry == (if |row| > 4 then Strip(row[4]) else "")
    ensures r.None? && |row| >= 3 && Strip(row[0]) != "" ==>
              || ps.parseInt(row[1]).None?
              || ps.parseDecimal(CommaToPeriod(row[2])).None?
              || ParseCost(row, ps).None?
  {
    if |row| < 3 then None
    else
      var name := Strip(row[0]);
      if name == "" then None
      else
        match (ps.parseInt(row[1]), ps.parseDecimal(CommaToPeriod(row[2])), ParseCost(row, ps))
        case (Some(qty), Some(price), Some(cost)) =>
          Some(RowFields(name, qty, price, cost, if |row| > 4 then Strip(row[4]) else ""))
        case _ => None
  }

  /**
   * The upsert of one accepted row. A product with the row's name (the first
   * one) gains the row's quantity, and takes the row's cost only when that cost
   * is positive; otherwise a new product is appended. Exactly one counter moves.
   */
  function ApplyRow(s: ImportState, f: RowFields): (s': ImportState)
    ensures FindProductNamed(s.products, f.name).Some? ==>
              var i := FindProductNamed(s.products, f.name).value;
              var p := s.products[i];
              && |s'.products| == |s.products|
              && s'.products[i].quantity == p.quantity + f.quantity
              && s'.products[i].cost == (if f.cost > 0 then Some(f.cost) else p.cost)
              && s'.products[i] == p.(quantity := s'.products[i].quantity, cost := s'.products[i].cost)
              && (forall j :: 0 <= j < |s.products| && j != i ==> s'.products[j] == s.products[j])
              && s'.nextId == s.nextId
              && s'.counts == s.counts.(updated := s.counts.updated + 1)
    ensures FindProductNamed(s.products, f.name).None? ==>
              && s'.products == s.products
                   + [Product(s.nextId, f.name, f.quantity, f.price, Some(f.cost), Some(f.expiry))]
              && s'.nextId == s.nextId + 1
              && s'.counts == s.counts.(created := s.counts.created + 1)
  {
    match FindProductNamed(s.products, f.name)
    case Some(i) =>
      var p := s.products[i];
      var p' := p.(quantity := p.quantity + f.quantity,
                   cost := if f.cost > 0 then Some(f.cost) else p.cost);
      s.(products := s.products[i := p'],
         counts := s.counts.(updated := s.counts.updated + 1))
    case None =>
      var p := Product(s.nextId, f.name, f.quantity, f.price, Some(f.cost), Some(f.expiry));
      ImportState(s.products + [p], s.nextId + 1,
                  s.counts.(created := s.counts.created + 1))
  }

  /** One data row: skipped rows change nothing. */
  function Step(s: ImportState, row: Row, ps: Parsers): (s': ImportState)
    ensures ParseRow(row, ps).None? ==> s' == s
    ensures Extends(s, s', 1)
  {
    match ParseRow(row, ps)
    case None => s
    case Some(f) => ApplyRowExtends(s, f); ApplyRow(s, f)
  }

  /** One upsert follows its state after one row. */
  lemma {:induction false} ApplyRowExtends(s: ImportState, f: RowFields)
    ensures Extends(s, ApplyRow(s, f), 1)
  {
    var s' := ApplyRow(s, f);
    if FindProductNamed(s.products, f.name).Some? {
      assert forall j :: 0 <= j < |s.products| ==> s'.products[j].id == s.products[j].id;
    }
  }

  /**
   * `s'` follows `s` after at most `n` rows: products are only ever added at
   * the end, keep their identifier and name, and new ones receive consecutive
   * identifiers; the counters only grow, by at most `n` together, and the
   * created counter is the number of products added.
   */
  predicate Extends(s: ImportState, s': ImportState, n: nat)
  {
    && s'.counts.created >= s.counts.created && s'.counts.updated >= s.counts.updated
    && s'.counts.created + s'.counts.updated <= s.counts.created + s.counts.updated + n
    && |s'.products| == |s.products| + (s'.counts.created - s.counts.created)
    && s'.nextId == s.nextId + (s'.counts.created - s.counts.created)
    && (forall j :: 0 <= j < |s.products| ==>
          s'.products[j].id == s.products[j].id && s'.products[j].name == s.products[j].name)
    && (forall j :: |s.products| <= j < |s'.products| ==>
          s'.products[j].id == s.nextId + (j - |s.products|))
  }

  /** Following is transitive, the row budgets adding up. */
  lemma {:induction false} ExtendsTrans(s1: ImportState, s2: ImportState, s3: ImportState, m: nat, n: nat)
    requires Extends(s1, s2, m) && Extends(s2, s3, n)
    ensures Extends(s1, s3, m + n)
  {
    forall j | |s1.products| <= j < |s3.products|
      ensures s3.products[j].id == s1.nextId + (j - |s1.products|)
    {
      if j < |s2.products| {
        assert s3.products[j].id == s2.products[j].id;
      }
    }
  }

  /**
   * The import loop, a left fold over the data rows; each row moves at most
   * one counter.
   */
  function ImportRows(s: ImportState, rows: seq<Row>, ps: Parsers): (r: ImportState)
    ensures Extends(s, r, |rows|)
    decreases |rows|
  {
    if |rows| == 0 then s
    else
      var s1 := Step(s, rows[0], ps);
      var r := ImportRows(s1, rows[1..], ps);
      ExtendsTrans(s, s1, r, 1, |rows| - 1);
      r
  }

  /** The rows after the header, as `next(csv_input, None)` leaves them. */
  function DataRows(rows: seq<Row>): seq<Row>
  {
    if |rows| == 0 then [] else rows[1..]
  }

  /**
   * The import request. A missing, unnamed or undecodable file is refused and
   * nothing changes; otherwise the data rows are folded into the products and
   * the whole result is committed at once. Sales and customers are untouched,
   * the products follow the old ones as `Extends` describes, and the two
   * counters together never exceed the number of data rows.
   */
  function ImportCsv(st: Store, upload: Option<Upload>, ps: Parsers): (r: ImportResponse)
    ensures r.outcome.Failure? ==> r.store == st
    ensures upload.None? ==> r.outcome == Failure(NoFilePart)
    ensures upload.Some? && upload.value.filename == "" ==> r.outcome == Failure(NoFileSelected)
    ensures upload.Some? && upload.value.filename != "" && upload.value.rows.None? ==>
              r.outcome == Failure(UnreadableFile)
    ensures upload.Some? && upload.value.filename != "" && upload.value.rows.Some? ==>
              && r.outcome.Success?
              && r.outcome.value.created + r.outcome.value.updated
                   <= |DataRows(upload.value.rows.value)|
              && |r.store.products| == |st.products| + r.outcome.value.created
              && r.store.sales == st.sales
              && r.store.customers == st.customers
              && Extends(ImportState(st.products, st.nextProductId, ImportCounts(0, 0)),
                         ImportState(r.store.products, r.store.nextProductId, r.outcome.value),
                         |DataRows(upload.value.rows.value)|)
  {
    match upload
    case None => ImportResponse(st, Failure(NoFilePart))
    case Some(file) =>
      if file.filename == "" then ImportResponse(st, Failure(NoFileSelected))
      else match file.rows
        case None => ImportResponse(st, Failure(UnreadableFile))
        case Some(rows) =>
          var s := ImportRows(ImportState(st.products, st.nextProductId, ImportCounts(0, 0)),
                              DataRows(rows), ps);
          ImportResponse(st.(products := s.products, nextProductId := s.nextId), Success(s.counts))
  }

  /** Total quantity carried by the accepted rows among `rows`. */
  function ParsedQuantity(rows: seq<Row>, ps: Parsers): int
    decreases |rows|
  {
    if |rows| == 0 then 0
    else
      (match ParseRow(rows[0], ps) case Some(f) => f.quantity case None => 0)
      + ParsedQuantity(rows[1..], ps)
  }

  /** An upsert moves the total stock by exactly the row's quantity. */
  lemma {:induction false} ApplyRowStock(s: ImportState, f: RowFields)
    ensures TotalStock(ApplyRow(s, f).products) == TotalStock(s.products) + f.quantity
  {
    var s' := ApplyRow(s, f);
    match FindProductNamed(s.products, f.name)
    case Some(i) =>
      assert s'.products == s.products[i := s'.products[i]];
      SumOfUpdate(s.products, i, s'.products[i], StockOf);
    case None =>
      assert s'.products == s.products + [s'.products[|s.products|]];
      SumOfSnoc(s.products, s'.products[|s.products|], StockOf);
  }

  /**
   * Stock is additive under import: whether a row creates a product or adds to
   * one, the total stock grows by exactly the quantities of the accepted rows.
   */
  lemma {:induction false} ImportRowsStock(s: ImportState, rows: seq<Row>, ps: Parsers)
    ensures TotalStock(ImportRows(s, rows, ps).products) == TotalStock(s.products) + ParsedQuantity(rows, ps)
    decreases |rows|
  {
    if |rows| > 0 {
      var s1 := Step(s, rows[0], ps);
      if ParseRow(rows[0], ps).Some? {
        ApplyRowStock(s, ParseRow(rows[0], ps).value);
      }
      ImportRowsStock(s1, rows[1..], ps);
    }
  }

  /** An upsert never introduces a second product with the same name. */
  lemma {:induction false} ApplyRowKeepsNamesDistinct(s: ImportState, f: RowFields)
    requires NamesDistinct(s.products)
    ensures NamesDistinct(ApplyRow(s, f).products)
  {
    var s' := ApplyRow(s, f);
    if FindProductNamed(s.products, f.name).Some? {
      assert forall j :: 0 <= j < |s.products| ==> s'.products[j].name == s.products[j].name;
    }
  }

  /** Name is the natural key: if names were distinct before the import, they stay distinct. */
  lemma {:induction false} ImportRowsKeepsNamesDistinct(s: ImportState, rows: seq<Row>, ps: Parsers)
    requires NamesDistinct(s.products)
    ensures NamesDistinct(ImportRows(s, rows, ps).products)
    decreases |rows|
  {
    if |rows| > 0 {
      if ParseRow(rows[0], ps).Some? {
        ApplyRowKeepsNamesDistinct(s, ParseRow(rows[0], ps).value);
      }
      ImportRowsKeepsNamesDistinct(Step(s, rows[0], ps), rows[1..], ps);
    }
  }

  /** After an upsert, the row's name names a product. */
  lemma {:induction false} ApplyRowNamePresent(s: ImportState, f: RowFields)
    ensures FindProductNamed(ApplyRow(s, f).products, f.name).Some?
  {
    var s' := ApplyRow(s, f);
    match FindProductNamed(s.products, f.name)
    case Some(i) =>
      assert s'.products[i].name == f.name;
    case None =>
      assert s'.products[|s.products|].name == f.name;
  }

  /** A name that names a product keeps naming one for the rest of the import. */
  lemma {:induction false} NamePresentPersists(s: ImportState, rows: seq<Row>, ps: Parsers, name: string)
    requires FindProductNamed(s.products, name).Some?
    ensures FindProductNamed(ImportRows(s, rows, ps).products, name).Some?
  {
    var j := FindProductNamed(s.products, name).value;
    assert ImportRows(s, rows, ps).products[j].name == name;
  }

  /** After the import, every accepted row's name is the name of some product. */
  lemma {:induction false} ImportRowsNamesPresent(s: ImportState, rows: seq<Row>, ps: Parsers)
    ensures forall k :: 0 <= k < |rows| && ParseRow(rows[k], ps).Some? ==>
              FindProductNamed(ImportRows(s, rows, ps).products, ParseRow(rows[k], ps).value.name).Some?
    decreases |rows|
  {
    if |rows| > 0 {
      var s1 := Step(s, rows[0], ps);
      var r := ImportRows(s, rows, ps);
      assert r == ImportRows(s1, rows[1..], ps);
      ImportRowsNamesPresent(s1, rows[1..], ps);
      forall k | 0 <= k < |rows| && ParseRow(rows[k], ps).Some?
        ensures FindProductNamed(r.products, ParseRow(rows[k], ps).value.name).Some?
      {
        if k == 0 {
          var f := ParseRow(rows[0], ps).value;
          ApplyRowNamePresent(s, f);
          NamePresentPersists(s1, rows[1..], ps, f.name);
        } else {
          assert rows[k] == rows[1..][k - 1];
        }
      }
    }
  }

  /**
   * What an accepted upload does to the products: total stock grows by the
   * quantities of the accepted data rows, every accepted row's name then names
   * a product, and distinct names stay distinct.
   */
  lemma {:induction false} ImportCsvEffect(st: Store, filename: string, rows: seq<Row>, ps: Parsers)
    requires filename != ""
    ensures var r := ImportCsv(st, Some(Upload(filename, Some(rows))), ps);
            && TotalStock(r.store.products) == TotalStock(st.products) + ParsedQuantity(DataRows(rows), ps)
            && (forall k :: 0 <= k < |DataRows(rows)| && ParseRow(DataRows(rows)[k], ps).Some? ==>
                  FindProductNamed(r.store.products, ParseRow(DataRows(rows)[k], ps).value.name).Some?)
            && (NamesDistinct(st.products) ==> NamesDistinct(r.store.products))
  {
    var s0 := ImportState(st.products, st.nextProductId, ImportCounts(0, 0));
    ImportRowsStock(s0, DataRows(rows), ps);
    ImportRowsNamesPresent(s0, DataRows(rows), ps);
    if NamesDistinct(st.products) {
      ImportRowsKeepsNamesDistinct(s0, DataRows(rows), ps);
    }
  }

  /** Importing keeps primary keys unique and below the counter. */
  lemma {:induction false} ImportCsvPreservesValid(st: Store, upload: Option<Upload>, ps: Parsers)
    requires ValidStore(st)
    ensures ValidStore(ImportCsv(st, upload, ps).store)
  {
    var r := ImportCsv(st, upload, ps);
    if r.outcome.Success? {
      var ps' := r.store.products;
      var n := |st.products|;
      forall i, j | 0 <= i < j < |ps'|
        ensures ps'[i].id != ps'[j].id
      {
        if j < n {
          assert ps'[i].id == st.products[i].id;
        }
      }
    }
  }

  /**
   * An empty or absent cost cell never overwrites a cost: when such a row names
   * an existing product, only its stock moves.
   */
  lemma {:induction false} EmptyCostKeepsCost(s: ImportState, row: Row, ps: Parsers)
    requires |row| <= 3 || row[3] == ""
    requires ParseRow(row, ps).Some?
    requires FindProductNamed(s.products, ParseRow(row, ps).value.name).Some?
    ensures var i := FindProductNamed(s.products, ParseRow(row, ps).value.name).value;
            var s' := ImportRows(s, [row], ps);
            && s'.products[i].cost == s.products[i].cost
            && s'.products[i].quantity == s.products[i].quantity + ParseRow(row, ps).value.quantity
            && s'.counts.updated == s.counts.updated + 1
            && s'.counts.created == s.counts.created
  {
    assert ImportRows(s, [row], ps) == ImportRows(Step(s, row, ps), [], ps);
  }

  /** Importing two rows is upserting one after the other. */
  lemma {:induction false} ImportTwoRows(s: ImportState, row1: Row, row2: Row, ps: Parsers)
    ensures ImportRows(s, [row1, row2], ps) == Step(Step(s, row1, ps), row2, ps)
  {
    var s1 := Step(s, row1, ps);
    var s2 := Step(s1, row2, ps);
    assert [row1, row2][1..] == [row2];
    assert [row2][1..] == [];
    assert ImportRows(s, [row1, row2], ps) == ImportRows(s1, [row2], ps);
    assert ImportRows(s1, [row2], ps) == ImportRows(s2, [], ps);
  }

  /** A product appended under a name no other product has is the one a lookup by that name finds. */
  lemma {:induction false} FindAppended(ps: seq<Product>, p: Product)
    requires FindProductNamed(ps, p.name).None?
    ensures FindProductNamed(ps + [p], p.name) == Some(|ps|)
  {
    var r := FindProductNamed(ps + [p], p.name);
    assert (ps + [p])[|ps|].name == p.name;
    assert forall j :: 0 <= j < |ps| ==> (ps + [p])[j] == ps[j];
  }

  /** Two upserts under one new name: the first creates the product, the second updates it. */
  lemma {:induction false} UpsertSameNameTwice(s: ImportState, f1: RowFields, f2: RowFields)
    requires f1.name == f2.name
    requires FindProductNamed(s.products, f1.name).None?
    ensures var s' := ApplyRow(ApplyRow(s, f1), f2);
            && |s'.products| == |s.products| + 1
            && s'.products[|s.products|].quantity == f1.quantity + f2.quantity
            && s'.products[|s.products|].cost == Some(if f2.cost > 0 then f2.cost else f1.cost)
            && s'.counts == ImportCounts(s.counts.created + 1, s.counts.updated + 1)
  {
    var s1 := ApplyRow(s, f1);
    FindAppended(s.products, s1.products[|s.products|]);
  }

  /**
   * Rows are looked up against products created earlier in the same import:
   * two accepted rows with a new name create one product and then update it.
   */
  lemma {:induction false} SameNameTwice(s: ImportState, row1: Row, row2: Row, ps: Parsers)
    requires ParseRow(row1, ps).Some? && ParseRow(row2, ps).Some?
    requires ParseRow(row1, ps).value.name == ParseRow(row2, ps).value.name
    requires FindProductNamed(s.products, ParseRow(row1, ps).value.name).None?
    ensures var f1 := ParseRow(row1, ps).value;
            var f2 := ParseRow(row2, ps).value;
            var s' := ImportRows(s, [row1, row2], ps);
            && |s'.products| == |s.products| + 1
            && s'.products[|s.products|].quantity == f1.quantity + f2.quantity
            && s'.products[|s.products|].cost == Some(if f2.cost > 0 then f2.cost else f1.cost)
            && s'.counts == ImportCounts(s.counts.created + 1, s.counts.updated + 1)
  {
    ImportTwoRows(s, row1, row2, ps);
    UpsertSameNameTwice(s, ParseRow(row1, ps).value, ParseRow(row2, ps).value);
  }
}
