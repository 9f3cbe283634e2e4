/** The exchange-bulletin reader (`ExcelParser`): a spreadsheet, as pandas hands it
    over, is scanned row by row into trade records.

    The frame is the DataFrame after `read_excel` (so its row 0 is the sheet's
    second row): a rectangle of cells, each an integer, a text or empty (NaN).
    Positions are pandas' `iloc` positions. */
module ExcelParser {
  import opened Common
  import opened PyText
  import opened Calendar

  const UNIT_MARKER := "Единица измерения: Метрическая тонна"
  const TOTAL_MARKER := "Итого:"
  const FIRST_SCANNED_ROW := 4  // where the search for the unit marker starts
  const HEADER_GAP := 3         // data rows start this many rows below the marker
  const DATE_ROW := 2           // the cell (2, 1) ends with the bulletin date
  const DATE_LENGTH := 10       // "dd.mm.yyyy"
  const LABEL_COL := 1          // product code, and the column the markers are looked for in
  const NAME_COL := 2
  const BASIS_NAME_COL := 3
  const VOLUME_COL := 4
  const TOTAL_COL := 5
  const COUNT_COL := 14

  datatype Cell = Int(i: int) | Text(s: string) | Empty

  /** A DataFrame: every row holds `width` cells. */
  datatype Frame = Frame(width: nat, rows: seq<seq<Cell>>) {
    predicate Valid()
    {
      forall r :: 0 <= r < |rows| ==> |rows[r]| == width
    }
  }

  /** One row of the trading-results table, as inserted into the database. */
  datatype TradeRecord = TradeRecord(
    exchangeProductId: string,
    exchangeProductName: Cell,
    oilId: string,
    deliveryBasisId: string,
    deliveryBasisName: Cell,
    deliveryTypeId: string,
    volume: int,
    total: int,
    count: int,
    date: Date)

  /** Python's `int(cell)`: an integer as is, a text through `int(str)`, NaN fails. */
  function IntOf(c: Cell): Option<int>
  {
    match c
    case Int(i) => Some(i)
    case Text(s) => ParseInt(s)
    case Empty => None
  }

  /** A cell reads as the same integer whether pandas stored it as a number or as
      its decimal text, signed or not; an empty (NaN) cell does not convert. */
  lemma IntOfCells(n: nat)
    ensures IntOf(Int(n)) == Some(n) && IntOf(Int(-(n as int))) == Some(-(n as int))
    ensures IntOf(Text(Decimal(n))) == Some(n)
    ensures IntOf(Text("-" + Decimal(n))) == Some(-(n as int))
    ensures IntOf(Empty).None?
  {
    ParseIntDecimal(n);
    var s := "-" + Decimal(n);
    assert !IsSpace(s[0]) && !IsSpace(s[|s| - 1]);
    assert TrimStart(s) == s && TrimEnd(s) == s;
    assert s[1..] == Decimal(n);
    DecimalValue(n);
    UnsignedDigits(Decimal(n));
  }

  /** The text of a text cell (the label cell of every row the scan reads is one). */
  function TextOf(c: Cell): string
  {
    if c.Text? then c.s else ""
  }

  // ---------------------------------------------------------------------------
  // Product code derivation

  datatype Codes = Codes(oilId: string, deliveryBasisId: string, deliveryTypeId: string)

  /** `id[:4]`, `id[4:7]` and `id[-1]`; the last raises IndexError on an empty id. */
  function DeriveCodes(id: string): (r: Result<Codes>)
    ensures r.Err? <==> id == []
    ensures r.Ok? ==> r.value.oilId + r.value.deliveryBasisId == id[..Min(7, |id|)]
    ensures r.Ok? ==> |r.value.oilId| == Min(4, |id|)
    ensures r.Ok? ==> r.value.deliveryTypeId == [id[|id| - 1]]
  {
    if id == [] then Err(IndexError)
    else
      var oil := id[..Min(4, |id|)];
      var basis := id[Min(4, |id|)..Min(7, |id|)];
      assert oil + basis == id[..Min(7, |id|)];
      Ok(Codes(oil, basis, [id[|id| - 1]]))
  }

  /** For a full-length code the three parts sit at fixed positions. */
  lemma CodesOfFullId(id: string)
    requires |id| >= 8
    ensures DeriveCodes(id).Ok?
    ensures DeriveCodes(id).value.oilId == id[..4]
    ensures DeriveCodes(id).value.deliveryBasisId == id[4..7]
    ensures DeriveCodes(id).value.deliveryTypeId == [id[|id| - 1]]
  {
    var c := DeriveCodes(id).value;
    assert c.oilId + c.deliveryBasisId == id[..7] == id[..4] + id[4..7];
  }

  // ---------------------------------------------------------------------------
  // One row

  /** `int(row[14]) >= 1`: the row is kept. A count that does not convert, or one
      below 1, makes the row skipped. */
  predicate Accepted(row: seq<Cell>)
    requires |row| > COUNT_COL
  {
    IntOf(row[COUNT_COL]).Some? && IntOf(row[COUNT_COL]).value >= 1
  }

  /** The record dict for an accepted row, its values computed in the order they
      are written: the codes, volume, total and the date parsed from `dateText`. */
  function BuildRecord(row: seq<Cell>, count: int, dateText: string): (r: Result<TradeRecord>)
    requires |row| > COUNT_COL
    ensures r.Ok? <==>
      TextOf(row[LABEL_COL]) != [] && IntOf(row[VOLUME_COL]).Some? && IntOf(row[TOTAL_COL]).Some?
      && ParseDayFirst(dateText).Ok?
    ensures r.Ok? ==>
      && r.value.exchangeProductId == TextOf(row[LABEL_COL])
      && DeriveCodes(r.value.exchangeProductId) == Ok(Codes(r.value.oilId, r.value.deliveryBasisId, r.value.deliveryTypeId))
      && r.value.exchangeProductName == row[NAME_COL]
      && r.value.deliveryBasisName == row[BASIS_NAME_COL]
      && IntOf(row[VOLUME_COL]) == Some(r.value.volume)
      && IntOf(row[TOTAL_COL]) == Some(r.value.total)
      && r.value.count == count
      && ParseDayFirst(dateText) == Ok(r.value.date)
  {
    var id := TextOf(row[LABEL_COL]);
    match DeriveCodes(id)
    case Err(e) => Err(e)
    case Ok(codes) =>
      match IntOf(row[VOLUME_COL])
      case None => Err(ValueError)
      case Some(volume) =>
        match IntOf(row[TOTAL_COL])
        case None => Err(ValueError)
        case Some(total) =>
          match ParseDayFirst(dateText)
          case Err(e) => Err(e)
          case Ok(date) =>
            Ok(TradeRecord(id, row[NAME_COL], codes.oilId, codes.deliveryBasisId, row[BASIS_NAME_COL],
                           codes.deliveryTypeId, volume, total, count, date))
  }

  // ---------------------------------------------------------------------------
  // Finding the first data row

  predicate IsMarkerRow(df: Frame, m: nat)
    requires df.Valid() && m < |df.rows| && df.width > LABEL_COL
  {
    df.rows[m][LABEL_COL] == Text(UNIT_MARKER)
  }

  /** The first row from `i` on whose label cell is exactly the unit marker;
      running off the frame is pandas' IndexError. */
  function FindMarker(df: Frame, i: nat): Result<nat>
    requires df.Valid()
    decreases |df.rows| - i
  {
    if i >= |df.rows| || df.width <= LABEL_COL then Err(IndexError)
    else if df.rows[i][LABEL_COL] == Text(UNIT_MARKER) then Ok(i)
    else FindMarker(df, i + 1)
  }

  /** `_get_start_row`: three rows below the marker. */
  function StartRow(df: Frame): Result<nat>
    requires df.Valid()
  {
    match FindMarker(df, FIRST_SCANNED_ROW)
    case Err(e) => Err(e)
    case Ok(m) => Ok(m + HEADER_GAP)
  }

  lemma {:induction false} FindMarkerIsFirst(df: Frame, i: nat)
    requires df.Valid()
    ensures FindMarker(df, i).Ok? <==>
      df.width > LABEL_COL && exists m :: i <= m < |df.rows| && IsMarkerRow(df, m)
    ensures FindMarker(df, i).Ok? ==>
      var m := FindMarker(df, i).value;
      i <= m < |df.rows| && df.width > LABEL_COL && IsMarkerRow(df, m)
      && forall k :: i <= k < m ==> !IsMarkerRow(df, k)
    decreases |df.rows| - i
  {
    if i < |df.rows| && df.width > LABEL_COL && !IsMarkerRow(df, i) {
      FindMarkerIsFirst(df, i + 1);
      if exists m :: i <= m < |df.rows| && IsMarkerRow(df, m) {
        var m :| i <= m < |df.rows| && IsMarkerRow(df, m);
        assert i + 1 <= m;
      }
    }
  }

  /** The start row is the first marker row at or after row 4, plus 3; with no
      marker row there is no start row. */
  lemma StartRowIsFirstMarker(df: Frame)
    requires df.Valid()
    ensures StartRow(df).Ok? <==>
      df.width > LABEL_COL && exists m :: FIRST_SCANNED_ROW <= m < |df.rows| && IsMarkerRow(df, m)
    ensures StartRow(df).Ok? ==>
      var m := StartRow(df).value - HEADER_GAP;
      FIRST_SCANNED_ROW <= m < |df.rows| && df.width > LABEL_COL && IsMarkerRow(df, m)
      && forall k :: FIRST_SCANNED_ROW <= k < m ==> !IsMarkerRow(df, k)
  {
    FindMarkerIsFirst(df, FIRST_SCANNED_ROW);
  }

  method GetStartRow(df: Frame) returns (r: Result<nat>)
    requires df.Valid()
    ensures r == StartRow(df)
  {
    var i := FIRST_SCANNED_ROW;
    while true
      invariant FIRST_SCANNED_ROW <= i
      invariant FindMarker(df, FIRST_SCANNED_ROW) == FindMarker(df, i)
      decreases |df.rows| - i
    {
      if i >= |df.rows| || df.width <= LABEL_COL {
        return Err(IndexError);
      }
      if df.rows[i][LABEL_COL] == Text(UNIT_MARKER) {
        break;
      }
      i := i + 1;
    }
    r := Ok(i + HEADER_GAP);
  }

  // ---------------------------------------------------------------------------
  // Scanning the data rows

  /** `_get_all_data` from row `i`: stop at the first label containing "Итого:",
      skip rows whose count is not an integer or is below 1, turn the others into
      records. A label that is not text is a TypeError, running off the frame an
      IndexError, and a failure while building a record aborts the scan. */
  function Scan(df: Frame, i: nat, dateText: string): Result<seq<TradeRecord>>
    requires df.Valid()
    decreases |df.rows| - i
  {
    if i >= |df.rows| || df.width <= LABEL_COL then Err(IndexError)
    else if !df.rows[i][LABEL_COL].Text? then Err(TypeError)
    else if Contains(df.rows[i][LABEL_COL].s, TOTAL_MARKER) then Ok([])
    else if df.width <= COUNT_COL then Err(IndexError)
    else if !Accepted(df.rows[i]) then Scan(df, i + 1, dateText)
    else
      match BuildRecord(df.rows[i], IntOf(df.rows[i][COUNT_COL]).value, dateText)
      case Err(e) => Err(e)
      case Ok(rec) => Prefixed([rec], Scan(df, i + 1, dateText))
  }

  method GetAllData(start: nat, df: Frame, dateText: string) returns (r: Result<seq<TradeRecord>>)
    requires df.Valid()
    ensures r == Scan(df, start, dateText)
  {
    var allData: seq<TradeRecord> := [];
    var i := start;
    PrefixedNil(Scan(df, start, dateText));
    while true
      invariant start <= i
      invariant Scan(df, start, dateText) == Prefixed(allData, Scan(df, i, dateText))
      decreases |df.rows| - i
    {
      if i >= |df.rows| || df.width <= LABEL_COL {
        return Err(IndexError);
      }
      var labelCell := df.rows[i][LABEL_COL];
      if !labelCell.Text? {
        return Err(TypeError);
      }
      if Contains(labelCell.s, TOTAL_MARKER) {
        break;
      }
      var row := df.rows[i];
      i := i + 1;
      if df.width <= COUNT_COL {
        return Err(IndexError);
      }
      var count := IntOf(row[COUNT_COL]);
      if count.None? {
        continue;
      }
      if count.value < 1 {
        continue;
      }
      var rec := BuildRecord(row, count.value, dateText);
      if rec.Err? {
        return Err(rec.error);
      }
      PrefixedSnoc(allData, rec.value, Scan(df, i, dateText));
      allData := allData + [rec.value];
    }
    assert allData + [] == allData;
    r := Ok(allData);
  }

  // ---------------------------------------------------------------------------
  // What the scan produces

  /** The row that ends the table: the first row from `i` on whose label contains
      "Итого:", provided every label before it is a text. */
  function TableEnd(df: Frame, i: nat): (e: Option<nat>)
    requires df.Valid()
    ensures e.Some? ==> i <= e.value < |df.rows| && df.width > LABEL_COL
    decreases |df.rows| - i
  {
    if i >= |df.rows| || df.width <= LABEL_COL || !df.rows[i][LABEL_COL].Text? then None
    else if Contains(df.rows[i][LABEL_COL].s, TOTAL_MARKER) then Some(i)
    else TableEnd(df, i + 1)
  }

  /** The positions of the accepted rows in `[i, end)`, in order. */
  function AcceptedRows(df: Frame, i: nat, end: nat): (idx: seq<nat>)
    requires df.Valid() && df.width > COUNT_COL && end <= |df.rows|
    ensures |idx| <= if i <= end then end - i else 0
    ensures forall k :: 0 <= k < |idx| ==> i <= idx[k] < end && Accepted(df.rows[idx[k]])
    ensures forall k, l :: 0 <= k < l < |idx| ==> idx[k] < idx[l]
    ensures forall j :: i <= j < end && Accepted(df.rows[j]) ==> j in idx
    decreases end - i
  {
    if end <= i then []
    else (if Accepted(df.rows[i]) then [i] else []) + AcceptedRows(df, i + 1, end)
  }

  /** The records of the rows at `idx`; the first failure aborts. */
  function BuildAll(df: Frame, idx: seq<nat>, dateText: string): Result<seq<TradeRecord>>
    requires df.Valid() && df.width > COUNT_COL
    requires forall k :: 0 <= k < |idx| ==> idx[k] < |df.rows| && Accepted(df.rows[idx[k]])
  {
    if idx == [] then Ok([])
    else
      var row := df.rows[idx[0]];
      assert Accepted(row);
      match BuildRecord(row, IntOf(row[COUNT_COL]).value, dateText)
      case Err(e) => Err(e)
      case Ok(rec) => Prefixed([rec], BuildAll(df, idx[1..], dateText))
  }

  /** The scan succeeds only when the table is closed by a total row. */
  lemma {:induction false} ScanNeedsTableEnd(df: Frame, i: nat, dateText: string)
    requires df.Valid() && Scan(df, i, dateText).Ok?
    ensures TableEnd(df, i).Some?
    decreases |df.rows| - i
  {
    if !Contains(df.rows[i][LABEL_COL].s, TOTAL_MARKER) {
      ScanNeedsTableEnd(df, i + 1, dateText);
    }
  }

  /** With a total row ahead, the scan is building, in row order, the accepted rows
      before it (and with rows too narrow to hold a count, any row before it fails). */
  lemma {:induction false} ScanIsBuildOfAcceptedRows(df: Frame, i: nat, dateText: string)
    requires df.Valid() && TableEnd(df, i).Some?
    ensures TableEnd(df, i) == Some(i) ==> Scan(df, i, dateText) == Ok([])
    ensures i < TableEnd(df, i).value && df.width <= COUNT_COL ==> Scan(df, i, dateText) == Err(IndexError)
    ensures df.width > COUNT_COL ==>
      Scan(df, i, dateText) == BuildAll(df, AcceptedRows(df, i, TableEnd(df, i).value), dateText)
    decreases |df.rows| - i
  {
    var e := TableEnd(df, i).value;
    if i < e && df.width > COUNT_COL {
      assert TableEnd(df, i + 1) == Some(e);
      ScanIsBuildOfAcceptedRows(df, i + 1, dateText);
      var idx := AcceptedRows(df, i, e);
      if Accepted(df.rows[i]) {
        assert idx == [i] + AcceptedRows(df, i + 1, e);
        assert idx[1..] == AcceptedRows(df, i + 1, e);
      } else {
        assert idx == AcceptedRows(df, i + 1, e);
      }
    }
  }

  /** Records come out in row-scan order, each from its own accepted row before the
      total row, so there are at most as many as rows scanned; the total row
      itself never yields one. */
  lemma ScanOrderAndBound(df: Frame, i: nat, dateText: string)
    requires df.Valid()
    requires Scan(df, i, dateText).Ok?
    ensures TableEnd(df, i).Some?
    ensures var e := TableEnd(df, i).value; var recs := Scan(df, i, dateText).value;
      && |recs| <= e - i
      && (df.width > COUNT_COL ==>
          var idx := AcceptedRows(df, i, e);
          && |recs| == |idx|
          && (forall k :: 0 <= k < |recs| ==>
                i <= idx[k] < e &&
                BuildRecord(df.rows[idx[k]], IntOf(df.rows[idx[k]][COUNT_COL]).value, dateText) == Ok(recs[k]))
          && (forall k, l :: 0 <= k < l < |idx| ==> idx[k] < idx[l]))
  {
    ScanNeedsTableEnd(df, i, dateText);
    ScanIsBuildOfAcceptedRows(df, i, dateText);
    var e := TableEnd(df, i).value;
    if df.width > COUNT_COL {
      BuildAllRecords(df, AcceptedRows(df, i, e), dateText);
    }
  }

  lemma {:induction false} BuildAllRecords(df: Frame, idx: seq<nat>, dateText: string)
    requires df.Valid() && df.width > COUNT_COL
    requires forall k :: 0 <= k < |idx| ==> idx[k] < |df.rows| && Accepted(df.rows[idx[k]])
    requires BuildAll(df, idx, dateText).Ok?
    ensures |BuildAll(df, idx, dateText).value| == |idx|
    ensures forall k :: 0 <= k < |idx| ==>
      BuildRecord(df.rows[idx[k]], IntOf(df.rows[idx[k]][COUNT_COL]).value, dateText)
        == Ok(BuildAll(df, idx, dateText).value[k])
  {
    if idx != [] {
      BuildAllRecords(df, idx[1..], dateText);
      var recs := BuildAll(df, idx, dateText).value;
      forall k | 0 <= k < |idx|
        ensures BuildRecord(df.rows[idx[k]], IntOf(df.rows[idx[k]][COUNT_COL]).value, dateText) == Ok(recs[k])
      {
        if k > 0 {
          assert idx[k] == idx[1..][k - 1];
        }
      }
    }
  }

  /** Every emitted record has a count of at least 1 and carries the date read
      from `dateText`. */
  lemma {:induction false} ScanRecordsAreAccepted(df: Frame, i: nat, dateText: string)
    requires df.Valid()
    requires Scan(df, i, dateText).Ok?
    ensures forall rec :: rec in Scan(df, i, dateText).value ==>
      rec.count >= 1 && ParseDayFirst(dateText) == Ok(rec.date)
    decreases |df.rows| - i
  {
    if i < |df.rows| && df.width > COUNT_COL && df.rows[i][LABEL_COL].Text?
       && !Contains(df.rows[i][LABEL_COL].s, TOTAL_MARKER) {
      ScanRecordsAreAccepted(df, i + 1, dateText);
    }
  }

  /** A row at `idx` that fails to build makes the whole build fail. */
  lemma {:induction false} BuildAllFailsAt(df: Frame, idx: seq<nat>, dateText: string, k: nat)
    requires df.Valid() && df.width > COUNT_COL
    requires forall l :: 0 <= l < |idx| ==> idx[l] < |df.rows| && Accepted(df.rows[idx[l]])
    requires k < |idx| && Accepted(df.rows[idx[k]])
    requires BuildRecord(df.rows[idx[k]], IntOf(df.rows[idx[k]][COUNT_COL]).value, dateText).Err?
    ensures BuildAll(df, idx, dateText).Err?
  {
    if k > 0 {
      assert idx[1..][k - 1] == idx[k];
      BuildAllFailsAt(df, idx[1..], dateText, k - 1);
    }
  }

  /** A volume or total that does not convert, in an accepted row before the total
      row, aborts the whole file, unlike a count that does not convert. */
  lemma BadAmountAbortsFile(df: Frame, i: nat, dateText: string, j: nat)
    requires df.Valid() && df.width > COUNT_COL && TableEnd(df, i).Some?
    requires i <= j < TableEnd(df, i).value && Accepted(df.rows[j])
    requires IntOf(df.rows[j][VOLUME_COL]).None? || IntOf(df.rows[j][TOTAL_COL]).None?
    ensures Scan(df, i, dateText).Err?
  {
    ScanIsBuildOfAcceptedRows(df, i, dateText);
    var idx := AcceptedRows(df, i, TableEnd(df, i).value);
    var k :| 0 <= k < |idx| && idx[k] == j;
    BuildAllFailsAt(df, idx, dateText, k);
  }

  /** The date text is parsed only for accepted rows: a table with none yields no
      records and no error, whatever the date cell holds. */
  lemma NoAcceptedRowsIgnoresDate(df: Frame, i: nat, dateText: string)
    requires df.Valid() && df.width > COUNT_COL && TableEnd(df, i).Some?
    requires forall j :: i <= j < TableEnd(df, i).value ==> !Accepted(df.rows[j])
    ensures Scan(df, i, dateText) == Ok([])
  {
    ScanIsBuildOfAcceptedRows(df, i, dateText);
  }

  // ---------------------------------------------------------------------------
  // A whole file, and all files

  /** `parse_excel_file` on a frame: the date text is the last 10 characters of
      the text in cell (2, 1); then the start row; then the scan. */
  function ParseFile(df: Frame): Result<seq<TradeRecord>>
    requires df.Valid()
  {
    if |df.rows| <= DATE_ROW || df.width <= LABEL_COL then Err(IndexError)
    else if !df.rows[DATE_ROW][LABEL_COL].Text? then Err(TypeError)
    else
      var dateText := LastN(df.rows[DATE_ROW][LABEL_COL].s, DATE_LENGTH);
      match StartRow(df)
      case Err(e) => Err(e)
      case Ok(start) => Scan(df, start, dateText)
  }

  method ParseExcelFile(df: Frame) returns (r: Result<seq<TradeRecord>>)
    requires df.Valid()
    ensures r == ParseFile(df)
  {
    if |df.rows| <= DATE_ROW || df.width <= LABEL_COL {
      return Err(IndexError);
    }
    var dateCell := df.rows[DATE_ROW][LABEL_COL];
    if !dateCell.Text? {
      return Err(TypeError);
    }
    var dateText := LastN(dateCell.s, DATE_LENGTH);
    var start := GetStartRow(df);
    if start.Err? {
      return Err(start.error);
    }
    r := GetAllData(start.value, df, dateText);
  }

  /** All records of one file carry the same date: the one written in the last
      10 characters of cell (2, 1); and each has a count of at least 1. */
  lemma FileRecordsShareDate(df: Frame)
    requires df.Valid() && ParseFile(df).Ok?
    ensures |df.rows| > DATE_ROW && df.width > LABEL_COL && df.rows[DATE_ROW][LABEL_COL].Text?
    ensures forall rec :: rec in ParseFile(df).value ==>
      rec.count >= 1 && ParseDayFirst(LastN(df.rows[DATE_ROW][LABEL_COL].s, DATE_LENGTH)) == Ok(rec.date)
  {
    ScanRecordsAreAccepted(df, StartRow(df).value, LastN(df.rows[DATE_ROW][LABEL_COL].s, DATE_LENGTH));
  }

  /** A date cell ending in "dd.mm.yyyy" yields that date, whatever precedes it. */
  lemma DateCellSuffix(prefix: string, d: Date)
    ensures ParseDayFirst(LastN(prefix + FormatDayFirst(d), DATE_LENGTH)) == Ok(d)
  {
    var s := prefix + FormatDayFirst(d);
    assert LastN(s, DATE_LENGTH) == FormatDayFirst(d);
    DayFirstRoundTrip(d);
  }

  /** `parse_all_excel_files`: one batch per file, in file order; a failing file
      makes the whole gather fail. */
  function ParseAll(frames: seq<Frame>): Result<seq<seq<TradeRecord>>>
    requires forall k :: 0 <= k < |frames| ==> frames[k].Valid()
  {
    if frames == [] then Ok([])
    else match ParseFile(frames[0])
      case Err(e) => Err(e)
      case Ok(batch) => Prefixed([batch], ParseAll(frames[1..]))
  }

  lemma {:induction false} ParseAllOnePerFile(frames: seq<Frame>)
    requires forall k :: 0 <= k < |frames| ==> frames[k].Valid()
    ensures ParseAll(frames).Ok? <==> forall k :: 0 <= k < |frames| ==> ParseFile(frames[k]).Ok?
    ensures ParseAll(frames).Ok? ==>
      |ParseAll(frames).value| == |frames|
      && forall k :: 0 <= k < |frames| ==> ParseFile(frames[k]) == Ok(ParseAll(frames).value[k])
  {
    if frames != [] {
      ParseAllOnePerFile(frames[1..]);
      forall k | 1 <= k < |frames| ensures frames[k] == frames[1..][k - 1] { }
    }
  }

  method ParseAllExcelFiles(frames: seq<Frame>) returns (r: Result<seq<seq<TradeRecord>>>)
    requires forall k :: 0 <= k < |frames| ==> frames[k].Valid()
    ensures r == ParseAll(frames)
  {
    var batches: seq<seq<TradeRecord>> := [];
    var i := 0;
    assert frames[i..] == frames;
    PrefixedNil(ParseAll(frames));
    while i < |frames|
      invariant 0 <= i <= |frames|
      invariant ParseAll(frames) == Prefixed(batches, ParseAll(frames[i..]))
    {
      assert frames[i..][1..] == frames[i + 1..];
      var batch := ParseExcelFile(frames[i]);
      if batch.Err? {
        return Err(batch.error);
      }
      PrefixedSnoc(batches, batch.value, ParseAll(frames[i + 1..]));
      batches := batches + [batch.value];
      i := i + 1;
    }
    assert frames[i..] == [];
    assert batches + [] == batches;
    r := Ok(batches);
  }
}
