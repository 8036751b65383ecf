/**
 * `clean_price_data` (utils.py:25-81): a top-to-bottom scan of the rows of a price-list
 * sheet that carries the supplier in force and turns offer lines into records.
 *
 * `Scan` is the specification: a left fold over the rows whose state is the supplier in
 * force and the records emitted so far, or `None` once a row could not be unpacked (the
 * `ValueError` that the `except Exception` at utils.py:79-81 turns into `None`).
 * `CleanPriceData` is the loop itself, proved equal to it.
 */
module PriceScan {
  import opened Wrappers
  import opened Text
  import opened LineRules

  /** One row as `iter_rows(values_only=True)` yields it; an empty cell is `None`. */
  type Row = seq<Option<Cell>>

  /** `{"model": name.strip(), "price": int(price), "customer": current_provider}` */
  datatype Record = Record(model: string, price: int, customer: Option<Cell>)

  /** Offers are kept only when their price is above this (utils.py:69). */
  const MinPrice: int := 100

  /** What a classified line contributes: an offer priced above 100 becomes a record
      for the supplier in force (utils.py:67-74); every other line contributes nothing.
      A record's price is above 100, its supplier is the one in force, and its model has
      no white space at either end and is empty only for an all-blank name group. */
  function ClassRecord(k: LineClass, supplier: Option<Cell>): (r: Option<Record>)
    requires k.Offer? ==> Digits(k.groups.price)
    ensures r.Some? <==> k.Offer? && DigitsValue(k.groups.price) > MinPrice
    ensures r.Some? ==> r.value == Record(Strip(k.groups.name), DigitsValue(k.groups.price), supplier)
    ensures r.Some? ==> r.value.price > MinPrice && r.value.customer == supplier
    ensures r.Some? ==> (r.value.model == "" <==> AllSpace(k.groups.name))
    ensures r.Some? && r.value.model != "" ==>
      !IsSpace(r.value.model[0]) && !IsSpace(r.value.model[|r.value.model| - 1])
  {
    match k
    case Offer(g) =>
      var price := DigitsValue(g.price);
      if price > MinPrice then Some(Record(Strip(g.name), price, supplier)) else None
    case _ => None
  }

  /** What a stripped line contributes (utils.py:54-74): nothing when it is empty. */
  function TextRecord(line: string, supplier: Option<Cell>): (r: Option<Record>) {
    if line == "" then None else ClassRecord(Classify(line), supplier)
  }

  /** What the first cell of a two-cell row contributes, given the supplier in force
      (utils.py:50-74): nothing for an empty cell, an empty line, a noise line, a line
      without the offer shape or a price of at most 100; a record otherwise. */
  function LineRecord(cell: Option<Cell>, supplier: Option<Cell>): (r: Option<Record>) {
    match cell
    case None => None
    case Some(c) => TextRecord(Strip(CellText(c)), supplier)
  }

  /** The state of the scan after a prefix of the rows */
  datatype ScanState = ScanState(supplier: Option<Cell>, records: seq<Record>)

  function AsSeq(r: Option<Record>): seq<Record> {
    match r
    case None => []
    case Some(x) => [x]
  }

  /** What the first cell of a row contributes given the supplier in force.  The scan is
      written for any such reader so that facts about rows and suppliers can be proved
      without looking at lines; `clean_price_data` uses `LineRecord`. */
  type LineReader = (Option<Cell>, Option<Cell>) -> Option<Record>

  /** One iteration of the loop at utils.py:42-74.  A row with fewer than two cells is
      skipped; one with more makes `line, provider = row` raise; otherwise a truthy second
      cell becomes the supplier before the first cell is looked at. */
  function Step(st: ScanState, row: Row, read: LineReader): Option<ScanState> {
    if |row| < 2 then Some(st)
    else if |row| > 2 then None
    else
      var supplier := if Truthy(row[1]) then row[1] else st.supplier;
      Some(ScanState(supplier, st.records + AsSeq(read(row[0], supplier))))
  }

  /** The scan over `rows`, from no supplier and no records */
  function Scan(rows: seq<Row>, read: LineReader): Option<ScanState> {
    if |rows| == 0 then Some(ScanState(None, []))
    else
      match Scan(rows[..|rows| - 1], read)
      case None => None
      case Some(st) => Step(st, rows[|rows| - 1], read)
  }

  /** The value `clean_price_data` returns once the workbook is open */
  function CleanedRecords(rows: seq<Row>): Option<seq<Record>> {
    match Scan(rows, LineRecord)
    case None => None
    case Some(st) => Some(st.records)
  }

  /** Once the scan has failed it stays failed. */
  lemma {:induction false} AbortIsFinal(rows: seq<Row>, read: LineReader, i: nat)
    requires i <= |rows| && Scan(rows[..i], read).None?
    ensures Scan(rows, read).None?
    decreases |rows| - i
  {
    if i < |rows| {
      assert rows[..i + 1][..i] == rows[..i];
      AbortIsFinal(rows, read, i + 1);
    } else {
      assert rows[..i] == rows;
    }
  }

  /** The loop of utils.py:42-75. */
  method CleanPriceData(rows: seq<Row>) returns (cleaned: Option<seq<Record>>)
    ensures cleaned == CleanedRecords(rows)
  {
    var records: seq<Record> := [];
    var currentProvider: Option<Cell> := None;
    var i := 0;
    while i < |rows|
      invariant i <= |rows|
      invariant Scan(rows[..i], LineRecord) == Some(ScanState(currentProvider, records))
    {
      var row := rows[i];
      assert rows[..i + 1][..i] == rows[..i];
      ghost var before := ScanState(currentProvider, records);
      assert Scan(rows[..i + 1], LineRecord) == Step(before, row, LineRecord);
      i := i + 1;
      if |row| < 2 {
        continue;
      }
      if |row| > 2 {
        AbortIsFinal(rows, LineRecord, i);
        return None;
      }
      var line, provider := row[0], row[1];
      if Truthy(provider) {
        currentProvider := provider;
      }
      if line.None? {
        assert records + AsSeq(None) == records;
        continue;
      }
      var text := Strip(CellText(line.value));
      if text == "" {
        assert records + AsSeq(None) == records;
        continue;
      }
      match Classify(text) {
        case Offer(g) =>
          var price := DigitsValue(g.price);
          if price > MinPrice {
            records := records + [Record(Strip(g.name), price, currentProvider)];
          } else {
            assert records + AsSeq(None) == records;
          }
        case _ =>
          assert records + AsSeq(None) == records;
      }
      assert Step(before, row, LineRecord) == Some(ScanState(currentProvider, records));
    }
    assert rows[..i] == rows;
    return Some(records);
  }
}

/** What the scan promises about the records it returns and the supplier it carries.
    Facts about rows and suppliers hold for any line reader; facts about the records
    themselves are proved for `LineRecord`. */
module ScanFacts {
  import opened Wrappers
  import opened Text
  import opened LineRules
  import opened LineFacts
  import opened PriceScan

  /** What every kept record looks like: the model is `name.strip()` of a non-empty group,
      so it is never empty and has no white space at either end, and the price is above 100. */
  predicate WellFormedRecord(rec: Record) {
    rec.price > MinPrice && rec.model != "" && !IsSpace(rec.model[0]) && !IsSpace(rec.model[|rec.model| - 1])
  }

  /** A line that yields a record yields a well-formed one for the supplier in force. */
  lemma RecordShape(cell: Option<Cell>, supplier: Option<Cell>)
    requires LineRecord(cell, supplier).Some?
    ensures WellFormedRecord(LineRecord(cell, supplier).value)
    ensures LineRecord(cell, supplier).value.customer == supplier
  {
    var line := Strip(CellText(cell.value));
    var g := Classify(line).groups;
    assert g.name[0] == line[0];
    assert !IsSpace(g.name[0]);
  }

  /** A row is wide when `line, provider = row` cannot unpack it. */
  predicate Wide(row: Row) { |row| > 2 }

  /** `clean_price_data` gives up (returns `None`) exactly when some row has more than two
      cells; short rows are skipped and never make it fail. */
  lemma {:induction false} AbortsIffWideRow(rows: seq<Row>, read: LineReader)
    ensures Scan(rows, read).None? <==> exists i :: 0 <= i < |rows| && Wide(rows[i])
  {
    if |rows| > 0 {
      var init := rows[..|rows| - 1];
      AbortsIffWideRow(init, read);
      if exists i :: 0 <= i < |init| && Wide(init[i]) {
        var i :| 0 <= i < |init| && Wide(init[i]);
        assert rows[i] == init[i];
      }
      if exists i :: 0 <= i < |rows| && Wide(rows[i]) {
        var i :| 0 <= i < |rows| && Wide(rows[i]);
        if i < |init| {
          assert init[i] == rows[i];
        }
      }
    }
  }

  /** A scan keeps only records its reader produced, so what holds of every record the
      reader can produce holds of every record kept. */
  lemma {:induction false} ScanKeeps(rows: seq<Row>, read: LineReader, good: Record -> bool)
    requires forall c, p :: read(c, p).Some? ==> good(read(c, p).value)
    requires Scan(rows, read).Some?
    ensures forall rec :: rec in Scan(rows, read).value.records ==> good(rec)
  {
    if |rows| > 0 {
      ScanKeeps(rows[..|rows| - 1], read, good);
    }
  }

  /** Every record `clean_price_data` returns is well formed. */
  lemma ScannedRecordsValid(rows: seq<Row>)
    requires CleanedRecords(rows).Some?
    ensures forall rec :: rec in CleanedRecords(rows).value ==> WellFormedRecord(rec)
  {
    forall c, p | LineRecord(c, p).Some? ensures WellFormedRecord(LineRecord(c, p).value) {
      RecordShape(c, p);
    }
    ScanKeeps(rows, LineRecord, WellFormedRecord);
  }

  /** A scan that succeeds finds at most as many records as there are rows. */
  lemma {:induction false} AtMostOneRecordPerRow(rows: seq<Row>, read: LineReader)
    requires Scan(rows, read).Some?
    ensures |Scan(rows, read).value.records| <= |rows|
  {
    if |rows| > 0 {
      var init := rows[..|rows| - 1];
      assert rows == init + [rows[|rows| - 1]];
      RowAddsAtMostOne(init, rows[|rows| - 1], read);
      AtMostOneRecordPerRow(init, read);
    }
  }

  /**
   * One more row never undoes the scan so far and adds at most one record, after the
   * records already found.
   */
  lemma RowAddsAtMostOne(rows: seq<Row>, row: Row, read: LineReader)
    ensures var after := Scan(rows + [row], read);
      after.Some? ==> && Scan(rows, read).Some?
                      && Scan(rows, read).value.records <= after.value.records
                      && |after.value.records| <= |Scan(rows, read).value.records| + 1
  {
    assert (rows + [row])[..|rows|] == rows;
  }

  /** The records keep the order of the rows: scanning more rows only appends. */
  lemma {:induction false} ScanOnlyAppends(rows: seq<Row>, more: seq<Row>, read: LineReader)
    requires Scan(rows + more, read).Some?
    ensures Scan(rows, read).Some?
    ensures Scan(rows, read).value.records <= Scan(rows + more, read).value.records
    decreases |more|
  {
    if |more| == 0 {
      assert rows + more == rows;
    } else {
      var all := rows + more;
      assert all[..|all| - 1] == rows + more[..|more| - 1];
      ScanOnlyAppends(rows, more[..|more| - 1], read);
    }
  }

  /** A row that names a supplier: two cells, the second one truthy. */
  predicate NamesSupplier(row: Row) { |row| == 2 && Truthy(row[1]) }

  /** No row after index `j` names a supplier. */
  predicate NoSupplierAfter(rows: seq<Row>, j: int) {
    forall k :: 0 <= k < |rows| && j < k ==> !NamesSupplier(rows[k])
  }

  /** The last row decides the supplier when it names one; otherwise the supplier of
      the rows before it stays in force. */
  lemma SupplierStep(rows: seq<Row>, read: LineReader)
    requires |rows| > 0 && Scan(rows, read).Some?
    ensures Scan(rows[..|rows| - 1], read).Some?
    ensures Scan(rows, read).value.supplier ==
      if NamesSupplier(rows[|rows| - 1]) then rows[|rows| - 1][1]
      else Scan(rows[..|rows| - 1], read).value.supplier
  {
  }

  /** Until a row names a supplier, there is none (the `current_provider = None` start). */
  lemma {:induction false} NoSupplierUntilNamed(rows: seq<Row>, read: LineReader)
    requires Scan(rows, read).Some? && NoSupplierAfter(rows, -1)
    ensures Scan(rows, read).value.supplier == None
  {
    if |rows| > 0 {
      var init := rows[..|rows| - 1];
      SupplierStep(rows, read);
      assert !NamesSupplier(rows[|rows| - 1]);
      assert NoSupplierAfter(init, -1) by {
        forall k | 0 <= k < |init| ensures !NamesSupplier(init[k]) {
          assert init[k] == rows[k];
        }
      }
      NoSupplierUntilNamed(init, read);
    }
  }

  /** The supplier in force after the scan is the second cell of the last row that names
      one; what the first cell of that row holds (noise, nothing, an offer) does not matter. */
  lemma {:induction false} SupplierInForce(rows: seq<Row>, read: LineReader, j: nat)
    requires Scan(rows, read).Some?
    requires j < |rows| && NamesSupplier(rows[j]) && NoSupplierAfter(rows, j)
    ensures Scan(rows, read).value.supplier == rows[j][1]
  {
    var init := rows[..|rows| - 1];
    SupplierStep(rows, read);
    if j < |rows| - 1 {
      assert !NamesSupplier(rows[|rows| - 1]);
      assert init[j] == rows[j];
      assert NoSupplierAfter(init, j) by {
        forall k | 0 <= k < |init| && j < k ensures !NamesSupplier(init[k]) {
          assert init[k] == rows[k];
        }
      }
      SupplierInForce(init, read, j);
    }
  }

  /** A number in the first column never yields a record: `str()` of an integer has no
      white space, and the offer pattern needs some before the price. */
  lemma NumberLinesNeverOffer(n: int, supplier: Option<Cell>)
    ensures LineRecord(Some(Number(n)), supplier) == None
  {
    var t := IntToDecimal(n);
    var line := Strip(t);
    var a := SkipSpaces(t, 0);
    assert line <= t[a..];
    forall k | 0 <= k < |line| ensures !IsSpace(line[k]) {
      assert line[k] == t[a + k];
    }
    forall m | OfferSplitAt(line, m) ensures false {
      SplitIsAtSpace(line, m);
    }
  }
}
