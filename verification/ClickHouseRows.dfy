/**
 ClickHouse rows take two routes into a batch.  The buffered route sanitizes, coerces and converts
 each value; the streaming route only sanitizes and converts.  Both must store the same cells.
 */
module ClickHouseRows {
  import opened Chars
  import opened Options
  import opened StreamEvents
  import opened ArrowBuilder
  import opened JsonRows

  // ----- the steps -----

  function WithoutNul(s: string): string {
    if s == [] then [] else (if s[0] == '\0' then [] else [s[0]]) + WithoutNul(s[1..])
  }

  /** `sanitize_null_bytes` */
  function Sanitize(v: Json): Json {
    if v.JString? && '\0' in v.s then JString(WithoutNul(v.s)) else v
  }

  /** The test both routes use for a bare timestamp: long enough, and a space at byte 10. */
  predicate LooksBare(s: string) { |s| >= 19 && s[10] == ' ' }

  function Iso(s: string, utc: bool): string
    requires LooksBare(s)
  {
    s[..10] + "T" + s[11..] + if utc then "Z" else ""
  }

  /** `coerce_value_type`; `colType` is absent for values beyond the last column. */
  function Coerce(lib: Library, v: Json, colType: Option<SimpleType>, utc: bool): Json {
    if colType.None? || !v.JString? then v
    else match colType.value
      case Number =>
        if lib.parseI64(v.s).Some? then JInt(lib.parseI64(v.s).value)
        else if lib.parseF64(v.s).Some? && lib.parseF64(v.s).value.Finite? then JFloat(lib.parseF64(v.s).value)
        else v
      case Boolean =>
        if v.s == "1" || v.s == "true" || v.s == "True" then JBool(true)
        else if v.s == "0" || v.s == "false" || v.s == "False" then JBool(false)
        else v
      case Timestamp => if LooksBare(v.s) then JString(Iso(v.s, utc)) else v
      case _ => v
  }

  /** The cell `clickhouse_row_to_arrow` stores. */
  function ClickHouseCell(lib: Library, showJson: Json -> string, v: Json, colType: SimpleType, utc: bool): (c: Cell)
    ensures Fits(KindOf(colType), c)
  {
    if utc && colType.Timestamp? && v.JString? && LooksBare(v.s)
    then JsonCell(lib, showJson, JString(Iso(v.s, true)), TimestampTz, KindOf(colType))
    else JsonCell(lib, showJson, v, colType, KindOf(colType))
  }

  function ClickHouseCells(lib: Library, showJson: Json -> string, row: seq<Json>, schema: seq<ColumnInfo>,
                           utc: bool): (cells: seq<Cell>)
    ensures |cells| == |schema|
    ensures forall i :: 0 <= i < |schema| ==> Fits(KindOf(schema[i].colType), cells[i])
  {
    seq(|schema|,
      i requires 0 <= i < |schema| => ClickHouseCell(lib, showJson, ValueAt(row, i), schema[i].colType, utc))
  }

  /** `clickhouse_row_to_arrow` */
  method ClickHouseRowToArrow(row: seq<Json>, b: ArrowResultBuilder, showJson: Json -> string, utc: bool)
    requires b.Valid()
    modifies b
    ensures b.Valid() && b.rowCount == old(b.rowCount) + 1
    ensures b.columns == PushRow(old(b.columns), ClickHouseCells(b.lib, showJson, row, b.schema, utc))
  {
    ghost var before := b.columns;
    ghost var cells := ClickHouseCells(b.lib, showJson, row, b.schema, utc);
    for idx := 0 to |b.schema|
      invariant b.rowCount == old(b.rowCount) && |b.columns| == |b.schema|
      invariant PartialRow(before, b.columns, cells, idx)
    {
      var v := ValueAt(row, idx);
      if utc && b.schema[idx].colType.Timestamp? && v.JString? && LooksBare(v.s) {
        JsonValueToArrow(JString(Iso(v.s, true)), TimestampTz, b, idx, showJson);
      } else {
        JsonValueToArrow(v, b.schema[idx].colType, b, idx, showJson);
      }
    }
    b.FinishRow();
    RowKeepsValid(before, b.columns, cells, b.schema, old(b.rowCount));
  }

  // ----- the two routes -----

  function TypeAt(schema: seq<ColumnInfo>, i: nat): Option<SimpleType> {
    if i < |schema| then Some(schema[i].colType) else None
  }

  function StreamedRow(row: seq<Json>): seq<Json> {
    seq(|row|, i requires 0 <= i < |row| => Sanitize(row[i]))
  }

  function BufferedRow(lib: Library, row: seq<Json>, schema: seq<ColumnInfo>, utc: bool): seq<Json> {
    seq(|row|, i requires 0 <= i < |row| => Coerce(lib, Sanitize(row[i]), TypeAt(schema, i), utc))
  }

  /** The cells each route stores, row by row. */
  function BufferedCells(lib: Library, showJson: Json -> string, rows: seq<seq<Json>>, schema: seq<ColumnInfo>,
                         utc: bool): (cells: seq<seq<Cell>>)
    ensures |cells| == |rows| && forall r :: 0 <= r < |rows| ==> |cells[r]| == |schema|
  {
    seq(|rows|, r requires 0 <= r < |rows| =>
      ClickHouseCells(lib, showJson, BufferedRow(lib, rows[r], schema, utc), schema, utc))
  }

  function StreamedCells(lib: Library, showJson: Json -> string, rows: seq<seq<Json>>, schema: seq<ColumnInfo>,
                         utc: bool): (cells: seq<seq<Cell>>)
    ensures |cells| == |rows| && forall r :: 0 <= r < |rows| ==> |cells[r]| == |schema|
  {
    seq(|rows|, r requires 0 <= r < |rows| =>
      ClickHouseCells(lib, showJson, StreamedRow(rows[r]), schema, utc))
  }

  // ----- the facts about chrono they rest on -----

  /** `YYYY-MM-DD HH:MM:SS`, optionally with a fraction. */
  predicate IsStamp(s: string) {
    && |s| >= 19
    && (forall i :: 0 <= i < 19 ==>
          if i == 4 || i == 7 then s[i] == '-'
          else if i == 10 then s[i] == ' '
          else if i == 13 || i == 16 then s[i] == ':'
          else IsDigit(s[i]))
    && (|s| == 19 || (|s| > 20 && s[19] == '.' && forall i :: 20 <= i < |s| ==> IsDigit(s[i])))
  }

  /** A trailing `Z` is left over by every naive format, and UTC adds nothing to an instant. */
  ghost predicate ZIsNotNaive(lib: Library) {
    && (forall f, s :: |s| > 0 && s[|s| - 1] == 'Z' ==> lib.parseDateTime(f, s).None?)
    && (forall t :: lib.dateTimeMicros(lib.naiveUtc(t)) == lib.instantMicros(t))
  }

  /** On a stamp the space and `T` formats agree, reject each other's separator, and nothing else accepts it. */
  ghost predicate SeparatorsAgree(lib: Library) {
    forall s :: IsStamp(s) ==> StampFacts(lib, s)
  }

  ghost predicate StampFacts(lib: Library, s: string)
    requires IsStamp(s)
  {
    var iso := Iso(s, false);
    && lib.parseDateTime(T_FORMAT, iso) == lib.parseDateTime(SPACE_FORMAT, s)
    && lib.parseDateTime(T_FRACTION, iso) == lib.parseDateTime(SPACE_FRACTION, s)
    && lib.parseDateTime(T_FORMAT, s).None? && lib.parseDateTime(T_FRACTION, s).None?
    && lib.parseDateTime(SPACE_FORMAT, iso).None? && lib.parseDateTime(SPACE_FRACTION, iso).None?
    && lib.parseRfc3339(s).None? && lib.parseRfc3339(iso).None?
    && lib.parseF64(s).None? && lib.parseF64(iso).None?
  }

  // ----- they agree -----

  lemma NumbersAgree(lib: Library, showJson: Json -> string, v: Json, utc: bool)
    ensures ClickHouseCell(lib, showJson, Coerce(lib, v, Some(SimpleType.Number), utc), SimpleType.Number, utc)
         == ClickHouseCell(lib, showJson, v, SimpleType.Number, utc)
  {
  }

  lemma BooleansAgree(lib: Library, showJson: Json -> string, v: Json, utc: bool)
    ensures ClickHouseCell(lib, showJson, Coerce(lib, v, Some(SimpleType.Boolean), utc), SimpleType.Boolean, utc)
         == ClickHouseCell(lib, showJson, v, SimpleType.Boolean, utc)
  {
    if v.JString? {
      assert EqIgnoreCase("true", "true");
      if v.s == "True" {
        assert LowerChar('T') == 't';
        assert EqIgnoreCase(v.s, "true");
      }
      if v.s == "0" || v.s == "false" || v.s == "False" {
        assert |v.s| != |"true"|;
      }
    }
  }

  /** On a UTC server every string agrees, well formed or not. */
  lemma UtcTimestampsAgree(lib: Library, showJson: Json -> string, v: Json)
    requires ZIsNotNaive(lib)
    ensures ClickHouseCell(lib, showJson, Coerce(lib, v, Some(Timestamp), true), Timestamp, true)
         == ClickHouseCell(lib, showJson, v, Timestamp, true)
  {
    if v.JString? && LooksBare(v.s) {
      var iso := Iso(v.s, true);
      assert iso[10] == 'T' && iso[|iso| - 1] == 'Z';
      assert !LooksBare(iso);
      assert lib.parseDateTime(T_FORMAT, iso).None? && lib.parseDateTime(SPACE_FORMAT, iso).None?;
      assert lib.parseDateTime(T_FRACTION, iso).None? && lib.parseDateTime(SPACE_FRACTION, iso).None?;
    }
  }

  /** On any other server every stamp agrees. */
  lemma OtherTimestampsAgree(lib: Library, showJson: Json -> string, v: Json)
    requires SeparatorsAgree(lib)
    requires v.JString? && LooksBare(v.s) ==> IsStamp(v.s)
    ensures ClickHouseCell(lib, showJson, Coerce(lib, v, Some(Timestamp), false), Timestamp, false)
         == ClickHouseCell(lib, showJson, v, Timestamp, false)
  {
    if v.JString? && LooksBare(v.s) {
      assert StampFacts(lib, v.s);
    }
  }

  /** The strings the routes treat alike: on a non-UTC server, a bare-looking timestamp must be a stamp. */
  predicate Comparable(v: Json, colType: SimpleType, utc: bool) {
    colType.Timestamp? && !utc && v.JString? && LooksBare(v.s) ==> IsStamp(v.s)
  }

  lemma CellsAgree(lib: Library, showJson: Json -> string, v: Json, colType: SimpleType, utc: bool)
    requires ZIsNotNaive(lib) && SeparatorsAgree(lib)
    requires Comparable(v, colType, utc)
    ensures ClickHouseCell(lib, showJson, Coerce(lib, v, Some(colType), utc), colType, utc)
         == ClickHouseCell(lib, showJson, v, colType, utc)
  {
    match colType
    case Number => NumbersAgree(lib, showJson, v, utc);
    case Boolean => BooleansAgree(lib, showJson, v, utc);
    case Timestamp => if utc { UtcTimestampsAgree(lib, showJson, v); } else { OtherTimestampsAgree(lib, showJson, v); }
    case _ =>
  }

  /**
   The buffered and the streaming route put the same cell in every column of every row, whatever the
   row's length, on UTC and other servers.
   */
  lemma RoutesAgree(lib: Library, showJson: Json -> string, row: seq<Json>, schema: seq<ColumnInfo>, utc: bool)
    requires ZIsNotNaive(lib) && SeparatorsAgree(lib)
    requires RowComparable(row, schema, utc)
    ensures ClickHouseCells(lib, showJson, BufferedRow(lib, row, schema, utc), schema, utc)
         == ClickHouseCells(lib, showJson, StreamedRow(row), schema, utc)
  {
    forall i | 0 <= i < |schema|
      ensures ClickHouseCells(lib, showJson, BufferedRow(lib, row, schema, utc), schema, utc)[i]
           == ClickHouseCells(lib, showJson, StreamedRow(row), schema, utc)[i]
    {
      if i < |row| {
        CellsAgree(lib, showJson, Sanitize(row[i]), schema[i].colType, utc);
      }
    }
  }

  ghost predicate RowComparable(row: seq<Json>, schema: seq<ColumnInfo>, utc: bool) {
    forall i :: 0 <= i < |row| && i < |schema| ==> Comparable(Sanitize(row[i]), schema[i].colType, utc)
  }

  ghost predicate AllComparable(rows: seq<seq<Json>>, schema: seq<ColumnInfo>, utc: bool) {
    forall r :: 0 <= r < |rows| ==> RowComparable(rows[r], schema, utc)
  }

  lemma CellsOfRowsAgree(lib: Library, showJson: Json -> string, rows: seq<seq<Json>>, schema: seq<ColumnInfo>,
                         utc: bool)
    requires ZIsNotNaive(lib) && SeparatorsAgree(lib) && AllComparable(rows, schema, utc)
    ensures BufferedCells(lib, showJson, rows, schema, utc) == StreamedCells(lib, showJson, rows, schema, utc)
  {
    var buffered := BufferedCells(lib, showJson, rows, schema, utc);
    var streamed := StreamedCells(lib, showJson, rows, schema, utc);
    forall r | 0 <= r < |rows|
      ensures buffered[r] == streamed[r]
    {
      assert RowComparable(rows[r], schema, utc);
      RoutesAgree(lib, showJson, rows[r], schema, utc);
    }
  }

  /** So whole results agree: the two routes build the same batch from the same rows. */
  lemma ResultsAgree(lib: Library, showJson: Json -> string, rows: seq<seq<Json>>, schema: seq<ColumnInfo>, utc: bool)
    requires ZIsNotNaive(lib) && SeparatorsAgree(lib) && AllComparable(rows, schema, utc)
    ensures Table(BufferedCells(lib, showJson, rows, schema, utc), schema)
         == Table(StreamedCells(lib, showJson, rows, schema, utc), schema)
  {
    CellsOfRowsAgree(lib, showJson, rows, schema, utc);
  }

  // ----- the batches both routes build -----

  /** The loop both routes end in. */
  method ConvertRows(lib: Library, schema: seq<ColumnInfo>, rows: seq<seq<Json>>, showJson: Json -> string, utc: bool)
    returns (r: FinishResult)
    ensures r.RecordBatch? <==> schema != []
    ensures r.RecordBatch? ==> r.columns == Table(ConvertedCells(lib, showJson, rows, schema, utc), schema)
  {
    var b := new ArrowResultBuilder(lib, schema);
    NoRows(b.columns, schema);
    ghost var table: seq<seq<Cell>> := [];
    for k := 0 to |rows|
      invariant fresh(b) && b.lib == lib && b.schema == schema && b.Valid()
      invariant table == ConvertedCells(lib, showJson, rows, schema, utc)[..k]
      invariant b.columns == Table(table, schema)
    {
      ClickHouseRowToArrow(rows[k], b, showJson, utc);
      TableGrows(table, ClickHouseCells(lib, showJson, rows[k], schema, utc), schema);
      table := table + [ClickHouseCells(lib, showJson, rows[k], schema, utc)];
    }
    assert table == ConvertedCells(lib, showJson, rows, schema, utc);
    r := b.Finish();
  }

  function ConvertedCells(lib: Library, showJson: Json -> string, rows: seq<seq<Json>>, schema: seq<ColumnInfo>,
                          utc: bool): (cells: seq<seq<Cell>>)
    ensures |cells| == |rows| && forall r :: 0 <= r < |rows| ==> |cells[r]| == |schema|
  {
    seq(|rows|, r requires 0 <= r < |rows| => ClickHouseCells(lib, showJson, rows[r], schema, utc))
  }

  /** The buffered route: sanitize and coerce every value of every row, then convert. */
  method BuildBufferedBatch(lib: Library, schema: seq<ColumnInfo>, rows: seq<seq<Json>>, showJson: Json -> string,
                            utc: bool) returns (r: FinishResult)
    ensures r.RecordBatch? <==> schema != []
    ensures r.RecordBatch? ==> r.columns == Table(BufferedCells(lib, showJson, rows, schema, utc), schema)
  {
    var coerced := seq(|rows|, k requires 0 <= k < |rows| => BufferedRow(lib, rows[k], schema, utc));
    r := ConvertRows(lib, schema, coerced, showJson, utc);
    assert ConvertedCells(lib, showJson, coerced, schema, utc) == BufferedCells(lib, showJson, rows, schema, utc);
  }

  /** The streaming route, page by page: sanitize every value of every row, then convert. */
  method BuildStreamedBatch(lib: Library, schema: seq<ColumnInfo>, rows: seq<seq<Json>>, showJson: Json -> string,
                            utc: bool) returns (r: FinishResult)
    ensures r.RecordBatch? <==> schema != []
    ensures r.RecordBatch? ==> r.columns == Table(StreamedCells(lib, showJson, rows, schema, utc), schema)
  {
    var sanitized := seq(|rows|, k requires 0 <= k < |rows| => StreamedRow(rows[k]));
    r := ConvertRows(lib, schema, sanitized, showJson, utc);
    assert ConvertedCells(lib, showJson, sanitized, schema, utc) == StreamedCells(lib, showJson, rows, schema, utc);
  }

  /**
   However the streaming route's server cuts the rows into pages, the pages' cells, stacked, are the
   buffered batch's.
   */
  lemma {:induction false} PagesStack(lib: Library, showJson: Json -> string, pages: seq<seq<seq<Json>>>,
                                      schema: seq<ColumnInfo>, utc: bool)
    requires ZIsNotNaive(lib) && SeparatorsAgree(lib)
    requires AllComparable(Flatten(pages), schema, utc)
    ensures Flatten(seq(|pages|, k requires 0 <= k < |pages| => StreamedCells(lib, showJson, pages[k], schema, utc)))
         == BufferedCells(lib, showJson, Flatten(pages), schema, utc)
  {
    var cells := seq(|pages|, k requires 0 <= k < |pages| => StreamedCells(lib, showJson, pages[k], schema, utc));
    if pages != [] {
      var rest := pages[1..];
      LaterComparable(pages[0], Flatten(rest), schema, utc);
      PagesStack(lib, showJson, rest, schema, utc);
      assert cells[1..]
          == seq(|rest|, k requires 0 <= k < |rest| => StreamedCells(lib, showJson, rest[k], schema, utc));
      StreamedAppend(lib, showJson, pages[0], Flatten(rest), schema, utc);
      CellsOfRowsAgree(lib, showJson, Flatten(pages), schema, utc);
      CellsOfRowsAgree(lib, showJson, Flatten(rest), schema, utc);
    }
  }

  lemma LaterComparable(a: seq<seq<Json>>, b: seq<seq<Json>>, schema: seq<ColumnInfo>, utc: bool)
    requires AllComparable(a + b, schema, utc)
    ensures AllComparable(b, schema, utc)
  {
    forall r | 0 <= r < |b|
      ensures RowComparable(b[r], schema, utc)
    {
      assert (a + b)[|a| + r] == b[r];
    }
  }

  lemma StreamedAppend(lib: Library, showJson: Json -> string, a: seq<seq<Json>>, b: seq<seq<Json>>,
                       schema: seq<ColumnInfo>, utc: bool)
    ensures StreamedCells(lib, showJson, a + b, schema, utc)
         == StreamedCells(lib, showJson, a, schema, utc) + StreamedCells(lib, showJson, b, schema, utc)
  {
  }
}
