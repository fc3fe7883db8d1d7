/** JSON rows from the REST providers into typed columns. */
module JsonRows {
  import opened Chars
  import opened Options
  import opened StreamEvents
  import opened ArrowBuilder

  datatype Json =
    | JNull
    | JBool(b: bool)
    | JInt(n: int)
    | JFloat(f: F64)
    | JString(s: string)
    | JArray(items: seq<Json>)
    | JObject(fields: map<string, Json>)

  function AsF64(lib: Library, v: Json): Option<F64> {
    match v
    case JInt(n) => Some(lib.intToF64(n))
    case JFloat(f) => Some(f)
    case _ => None
  }

  const T_FORMAT := Format('T', false)
  const SPACE_FORMAT := Format(' ', false)
  const T_FRACTION := Format('T', true)
  const SPACE_FRACTION := Format(' ', true)

  // ----- the cell a value becomes -----

  function NumberCell(lib: Library, v: Json, kind: Kind): (c: Cell)
    ensures Fits(kind, c)
  {
    if AsF64(lib, v).Some? then F64Cell(lib, kind, AsF64(lib, v).value)
    else if v.JString? then
      if lib.parseI64(v.s).Some? then I64Cell(lib, kind, lib.parseI64(v.s).value)
      else if lib.parseF64(v.s).Some? then F64Cell(lib, kind, lib.parseF64(v.s).value)
      else Null
    else Null
  }

  function TimestampCell(lib: Library, s: string, kind: Kind): (c: Cell)
    ensures Fits(kind, c)
  {
    if lib.parseDateTime(T_FORMAT, s).Some? then DateTimeCell(lib, kind, lib.parseDateTime(T_FORMAT, s).value)
    else if lib.parseDateTime(SPACE_FORMAT, s).Some? then
      DateTimeCell(lib, kind, lib.parseDateTime(SPACE_FORMAT, s).value)
    else if lib.parseDateTime(T_FRACTION, s).Some? then DateTimeCell(lib, kind, lib.parseDateTime(T_FRACTION, s).value)
    else if lib.parseDateTime(SPACE_FRACTION, s).Some? then
      DateTimeCell(lib, kind, lib.parseDateTime(SPACE_FRACTION, s).value)
    else if lib.parseRfc3339(s).Some? then DateTimeCell(lib, kind, lib.naiveUtc(lib.parseRfc3339(s).value))
    else if lib.parseF64(s).Some? then MicrosCell(lib, kind, lib.epochMicros(lib.parseF64(s).value))
    else StringCell(lib, kind, s)
  }

  function TimestampTzCell(lib: Library, s: string, kind: Kind): (c: Cell)
    ensures Fits(kind, c)
  {
    if lib.parseRfc3339(s).Some? then InstantCell(lib, kind, lib.parseRfc3339(s).value)
    else if lib.parseDateTime(T_FORMAT, s).Some? then
      InstantCell(lib, kind, lib.andUtc(lib.parseDateTime(T_FORMAT, s).value))
    else if lib.parseDateTime(SPACE_FORMAT, s).Some? then
      InstantCell(lib, kind, lib.andUtc(lib.parseDateTime(SPACE_FORMAT, s).value))
    else if lib.parseF64(s).Some? then MicrosCell(lib, kind, lib.epochMicros(lib.parseF64(s).value))
    else StringCell(lib, kind, s)
  }

  function TimeOfDayCell(lib: Library, s: string, kind: Kind): (c: Cell)
    ensures Fits(kind, c)
  {
    if lib.parseTime(false, s).Some? then TimeCell(lib, kind, lib.parseTime(false, s).value)
    else if lib.parseTime(true, s).Some? then TimeCell(lib, kind, lib.parseTime(true, s).value)
    else StringCell(lib, kind, s)
  }

  function JsonCell(lib: Library, showJson: Json -> string, v: Json, colType: SimpleType, kind: Kind): (c: Cell)
    ensures Fits(kind, c)
  {
    if v.JNull? then Null
    else match colType
      case Number => NumberCell(lib, v, kind)
      case Boolean =>
        if v.JBool? then BoolCell(kind, v.b)
        else if v.JString? then BoolCell(kind, v.s == "1" || EqIgnoreCase(v.s, "true"))
        else Null
      case Date =>
        if !v.JString? then Null
        else if lib.parseDate(v.s).Some? then DateCell(lib, kind, lib.parseDate(v.s).value)
        else StringCell(lib, kind, v.s)
      case Timestamp => if v.JString? then TimestampCell(lib, v.s, kind) else Null
      case TimestampTz =>
        if v.JString? then TimestampTzCell(lib, v.s, kind)
        else if AsF64(lib, v).Some? then MicrosCell(lib, kind, lib.epochMicros(AsF64(lib, v).value))
        else Null
      case Time => if v.JString? then TimeOfDayCell(lib, v.s, kind) else Null
      case String => StringCell(lib, kind, if v.JString? then v.s else showJson(v))
      case Unknown => StringCell(lib, kind, if v.JString? then v.s else showJson(v))
  }

  // ----- the converter -----

  /** `json_value_to_arrow`: exactly one cell, in its own column. */
  method JsonValueToArrow(v: Json, colType: SimpleType, b: ArrowResultBuilder, i: nat, showJson: Json -> string)
    requires i < |b.columns|
    modifies b`columns
    ensures b.columns == Push(old(b.columns), i, JsonCell(b.lib, showJson, v, colType, old(b.columns)[i].kind))
  {
    if v.JNull? {
      b.AppendNull(i);
      return;
    }
    match colType
    case Number =>
      AppendNumber(v, b, i);
    case Boolean =>
      if v.JBool? {
        b.AppendBool(i, v.b);
      } else if v.JString? {
        b.AppendBool(i, v.s == "1" || EqIgnoreCase(v.s, "true"));
      } else {
        b.AppendNull(i);
      }
    case Date =>
      if v.JString? {
        var d := b.lib.parseDate(v.s);
        if d.Some? { b.AppendNaiveDate(i, d.value); } else { b.AppendString(i, v.s); }
      } else {
        b.AppendNull(i);
      }
    case Timestamp =>
      if v.JString? { AppendTimestamp(v.s, b, i); } else { b.AppendNull(i); }
    case TimestampTz =>
      if v.JString? {
        AppendTimestampTz(v.s, b, i);
      } else {
        var epoch := AsF64(b.lib, v);
        if epoch.Some? { b.AppendTimestampMicros(i, b.lib.epochMicros(epoch.value)); } else { b.AppendNull(i); }
      }
    case Time =>
      if v.JString? {
        var t := b.lib.parseTime(false, v.s);
        if t.Some? {
          b.AppendNaiveTime(i, t.value);
        } else {
          t := b.lib.parseTime(true, v.s);
          if t.Some? { b.AppendNaiveTime(i, t.value); } else { b.AppendString(i, v.s); }
        }
      } else {
        b.AppendNull(i);
      }
    case String =>
      b.AppendString(i, if v.JString? then v.s else showJson(v));
    case Unknown =>
      b.AppendString(i, if v.JString? then v.s else showJson(v));
  }

  method AppendNumber(v: Json, b: ArrowResultBuilder, i: nat)
    requires i < |b.columns|
    modifies b`columns
    ensures b.columns == Push(old(b.columns), i, NumberCell(b.lib, v, old(b.columns)[i].kind))
  {
    var f := AsF64(b.lib, v);
    if f.Some? {
      b.AppendF64(i, f.value);
    } else if v.JString? {
      var n := b.lib.parseI64(v.s);
      if n.Some? {
        b.AppendI64(i, n.value);
      } else {
        f := b.lib.parseF64(v.s);
        if f.Some? { b.AppendF64(i, f.value); } else { b.AppendNull(i); }
      }
    } else {
      b.AppendNull(i);
    }
  }

  method AppendTimestamp(s: string, b: ArrowResultBuilder, i: nat)
    requires i < |b.columns|
    modifies b`columns
    ensures b.columns == Push(old(b.columns), i, TimestampCell(b.lib, s, old(b.columns)[i].kind))
  {
    var dt := b.lib.parseDateTime(T_FORMAT, s);
    if dt.None? { dt := b.lib.parseDateTime(SPACE_FORMAT, s); }
    if dt.None? { dt := b.lib.parseDateTime(T_FRACTION, s); }
    if dt.None? { dt := b.lib.parseDateTime(SPACE_FRACTION, s); }
    if dt.Some? {
      b.AppendNaiveDateTime(i, dt.value);
      return;
    }
    var instant := b.lib.parseRfc3339(s);
    if instant.Some? {
      b.AppendNaiveDateTime(i, b.lib.naiveUtc(instant.value));
    } else {
      var f := b.lib.parseF64(s);
      if f.Some? { b.AppendTimestampMicros(i, b.lib.epochMicros(f.value)); } else { b.AppendString(i, s); }
    }
  }

  method AppendTimestampTz(s: string, b: ArrowResultBuilder, i: nat)
    requires i < |b.columns|
    modifies b`columns
    ensures b.columns == Push(old(b.columns), i, TimestampTzCell(b.lib, s, old(b.columns)[i].kind))
  {
    var instant := b.lib.parseRfc3339(s);
    if instant.Some? {
      b.AppendDateTimeUtc(i, instant.value);
      return;
    }
    var dt := b.lib.parseDateTime(T_FORMAT, s);
    if dt.None? {
      dt := b.lib.parseDateTime(SPACE_FORMAT, s);
    }
    if dt.Some? {
      b.AppendDateTimeUtc(i, b.lib.andUtc(dt.value));
    } else {
      var f := b.lib.parseF64(s);
      if f.Some? { b.AppendTimestampMicros(i, b.lib.epochMicros(f.value)); } else { b.AppendString(i, s); }
    }
  }

  // ----- rows -----

  /** One cell more at the end of every column. */
  ghost function PushRow(columns: seq<Column>, cells: seq<Cell>): seq<Column>
    requires |cells| == |columns|
  {
    seq(|columns|, i requires 0 <= i < |columns| => columns[i].(cells := columns[i].cells + [cells[i]]))
  }

  function ValueAt(row: seq<Json>, i: nat): Json { if i < |row| then row[i] else JNull }

  /** The cells of a row of any length: missing values are null, extra ones are ignored. */
  function RowCells(lib: Library, showJson: Json -> string, row: seq<Json>, schema: seq<ColumnInfo>): (cells: seq<Cell>)
    ensures |cells| == |schema|
    ensures forall i :: 0 <= i < |schema| ==> Fits(KindOf(schema[i].colType), cells[i])
  {
    seq(|schema|,
      i requires 0 <= i < |schema| =>
        JsonCell(lib, showJson, ValueAt(row, i), schema[i].colType, KindOf(schema[i].colType)))
  }

  /** `databricks_row_to_arrow`: whatever the row, the builder stays rectangular. */
  method DatabricksRowToArrow(row: seq<Json>, b: ArrowResultBuilder, showJson: Json -> string)
    requires b.Valid()
    modifies b
    ensures b.Valid() && b.rowCount == old(b.rowCount) + 1
    ensures b.columns == PushRow(old(b.columns), RowCells(b.lib, showJson, row, b.schema))
  {
    ghost var before := b.columns;
    ghost var cells := RowCells(b.lib, showJson, row, b.schema);
    for idx := 0 to |b.schema|
      invariant b.rowCount == old(b.rowCount) && |b.columns| == |b.schema|
      invariant PartialRow(before, b.columns, cells, idx)
    {
      JsonValueToArrow(ValueAt(row, idx), b.schema[idx].colType, b, idx, showJson);
    }
    b.FinishRow();
    RowKeepsValid(before, b.columns, cells, b.schema, old(b.rowCount));
  }

  /** `rows[].f[].v`, null where the structure is missing. */
  function BigQueryValue(row: Json, i: nat): Json {
    if row.JObject? && "f" in row.fields && row.fields["f"].JArray? && i < |row.fields["f"].items| then
      var cell := row.fields["f"].items[i];
      if cell.JObject? && "v" in cell.fields then cell.fields["v"] else JNull
    else JNull
  }

  /** The cells of a BigQuery row. */
  function BigQueryCells(lib: Library, showJson: Json -> string, row: Json, schema: seq<ColumnInfo>): (cells: seq<Cell>)
    ensures |cells| == |schema|
    ensures forall i :: 0 <= i < |schema| ==> Fits(KindOf(schema[i].colType), cells[i])
  {
    RowCells(lib, showJson, seq(|schema|, i requires 0 <= i => BigQueryValue(row, i)), schema)
  }

  /** `bigquery_row_to_arrow` */
  method BigQueryRowToArrow(row: Json, b: ArrowResultBuilder, showJson: Json -> string)
    requires b.Valid()
    modifies b
    ensures b.Valid() && b.rowCount == old(b.rowCount) + 1
    ensures b.columns == PushRow(old(b.columns), BigQueryCells(b.lib, showJson, row, b.schema))
  {
    ghost var before := b.columns;
    ghost var cells := BigQueryCells(b.lib, showJson, row, b.schema);
    for idx := 0 to |b.schema|
      invariant b.rowCount == old(b.rowCount) && |b.columns| == |b.schema|
      invariant PartialRow(before, b.columns, cells, idx)
    {
      JsonValueToArrow(BigQueryValue(row, idx), b.schema[idx].colType, b, idx, showJson);
    }
    b.FinishRow();
    RowKeepsValid(before, b.columns, cells, b.schema, old(b.rowCount));
  }

  /** The first `n` columns have their new cell, the others are as before. */
  ghost predicate PartialRow(before: seq<Column>, now: seq<Column>, cells: seq<Cell>, n: nat) {
    && |before| == |now| == |cells| && n <= |now|
    && (forall i :: 0 <= i < n ==> now[i] == before[i].(cells := before[i].cells + [cells[i]]))
    && (forall i :: n <= i < |now| ==> now[i] == before[i])
  }

  ghost predicate Rectangular(columns: seq<Column>, schema: seq<ColumnInfo>, rows: nat) {
    && |columns| == |schema|
    && forall i :: 0 <= i < |columns| ==> ColumnOk(columns[i], KindOf(schema[i].colType), rows)
  }

  ghost predicate ColumnOk(column: Column, kind: Kind, rows: nat) {
    && column.kind == kind && |column.cells| == rows
    && forall r :: 0 <= r < |column.cells| ==> Fits(kind, column.cells[r])
  }

  lemma RowKeepsValid(before: seq<Column>, now: seq<Column>, cells: seq<Cell>, schema: seq<ColumnInfo>, rows: nat)
    requires Rectangular(before, schema, rows)
    requires PartialRow(before, now, cells, |now|)
    requires forall i :: 0 <= i < |schema| ==> Fits(KindOf(schema[i].colType), cells[i])
    ensures Rectangular(now, schema, rows + 1)
    ensures now == PushRow(before, cells)
  {
    forall i | 0 <= i < |now|
      ensures ColumnOk(now[i], KindOf(schema[i].colType), rows + 1)
    {
      assert ColumnOk(before[i], KindOf(schema[i].colType), rows);
    }
  }

  // ----- whole batches -----

  /** Column `i` of the batch holds, row by row, the cells of that column. */
  ghost function Table(rows: seq<seq<Cell>>, schema: seq<ColumnInfo>): seq<Column>
    requires forall r :: 0 <= r < |rows| ==> |rows[r]| == |schema|
  {
    seq(|schema|, i requires 0 <= i < |schema| =>
      Column(KindOf(schema[i].colType), seq(|rows|, r requires 0 <= r < |rows| => rows[r][i])))
  }

  lemma TableGrows(rows: seq<seq<Cell>>, row: seq<Cell>, schema: seq<ColumnInfo>)
    requires (forall r :: 0 <= r < |rows| ==> |rows[r]| == |schema|) && |row| == |schema|
    ensures Table(rows + [row], schema) == PushRow(Table(rows, schema), row)
  {
    var grown, pushed := Table(rows + [row], schema), PushRow(Table(rows, schema), row);
    forall i | 0 <= i < |schema|
      ensures grown[i] == pushed[i]
    {
      assert grown[i].cells == pushed[i].cells;
    }
  }

  /** A new builder holds the table of no rows. */
  lemma NoRows(columns: seq<Column>, schema: seq<ColumnInfo>)
    requires columns == seq(|schema|, i requires 0 <= i < |schema| => Column(KindOf(schema[i].colType), []))
    ensures columns == Table([], schema)
  {
    forall i | 0 <= i < |schema|
      ensures columns[i] == Table([], schema)[i]
    {
      assert Table([], schema)[i].cells == [];
    }
  }

  /** The cells of Databricks rows, row by row. */
  function DatabricksCells(lib: Library, showJson: Json -> string, rows: seq<seq<Json>>, schema: seq<ColumnInfo>)
    : (cells: seq<seq<Cell>>)
    ensures |cells| == |rows| && forall r :: 0 <= r < |rows| ==> |cells[r]| == |schema|
  {
    seq(|rows|, r requires 0 <= r < |rows| => RowCells(lib, showJson, rows[r], schema))
  }

  /** A Databricks batch of rows of any length: building it fails only when there are no columns at all. */
  method BuildBatch(lib: Library, schema: seq<ColumnInfo>, rows: seq<seq<Json>>, showJson: Json -> string)
    returns (r: FinishResult)
    ensures r.RecordBatch? <==> schema != []
    ensures r.RecordBatch? ==> r.columns == Table(DatabricksCells(lib, showJson, rows, schema), schema)
  {
    var b := new ArrowResultBuilder(lib, schema);
    NoRows(b.columns, schema);
    ghost var table: seq<seq<Cell>> := [];
    for k := 0 to |rows|
      invariant fresh(b) && b.lib == lib && b.schema == schema && b.Valid()
      invariant table == DatabricksCells(lib, showJson, rows, schema)[..k]
      invariant b.columns == Table(table, schema)
    {
      DatabricksRowToArrow(rows[k], b, showJson);
      TableGrows(table, RowCells(lib, showJson, rows[k], schema), schema);
      table := table + [RowCells(lib, showJson, rows[k], schema)];
    }
    assert table == DatabricksCells(lib, showJson, rows, schema);
    r := b.Finish();
  }

  /** The cells of BigQuery rows, row by row. */
  function BigQueryTable(lib: Library, showJson: Json -> string, rows: seq<Json>, schema: seq<ColumnInfo>)
    : (cells: seq<seq<Cell>>)
    ensures |cells| == |rows| && forall r :: 0 <= r < |rows| ==> |cells[r]| == |schema|
  {
    seq(|rows|, r requires 0 <= r < |rows| => BigQueryCells(lib, showJson, rows[r], schema))
  }

  /** The same for BigQuery rows of any shape. */
  method BuildBigQueryBatch(lib: Library, schema: seq<ColumnInfo>, rows: seq<Json>, showJson: Json -> string)
    returns (r: FinishResult)
    ensures r.RecordBatch? <==> schema != []
    ensures r.RecordBatch? ==> r.columns == Table(BigQueryTable(lib, showJson, rows, schema), schema)
  {
    var b := new ArrowResultBuilder(lib, schema);
    NoRows(b.columns, schema);
    ghost var table: seq<seq<Cell>> := [];
    for k := 0 to |rows|
      invariant fresh(b) && b.lib == lib && b.schema == schema && b.Valid()
      invariant table == BigQueryTable(lib, showJson, rows, schema)[..k]
      invariant b.columns == Table(table, schema)
    {
      BigQueryRowToArrow(rows[k], b, showJson);
      TableGrows(table, BigQueryCells(lib, showJson, rows[k], schema), schema);
      table := table + [BigQueryCells(lib, showJson, rows[k], schema)];
    }
    assert table == BigQueryTable(lib, showJson, rows, schema);
    r := b.Finish();
  }
}
