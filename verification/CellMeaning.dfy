/**
 What the cells of a batch hold, read back from the cells alone: a reference that says for every JSON value and
 every column type which cell stands for it, without the builder's or the converter's own functions.
 */
module CellMeaning {
  import opened ArrowBuilder
  import opened Chars
  import opened ClickHouseRows
  import opened JsonRows
  import opened Options
  import opened Splitting
  import opened StreamEvents

  // ----- the reference -----

  /** The cell stands for the value in a column of this type. */
  ghost predicate Holds(lib: Library, showJson: Json -> string, v: Json, t: SimpleType, cell: Cell) {
    match t
    case Number => HoldsNumber(lib, v, cell)
    case Boolean => HoldsTruth(v, cell)
    case String => HoldsText(showJson, v, cell)
    case Unknown => HoldsText(showJson, v, cell)
    case Date => HoldsDate(lib, v, cell)
    case Time => HoldsTime(lib, v, cell)
    case Timestamp => HoldsTimestamp(lib, v, cell)
    case TimestampTz => HoldsInstant(lib, v, cell)
  }

  /** A number as its float, a string as the integer or else the float it spells, anything else as null. */
  ghost predicate HoldsNumber(lib: Library, v: Json, cell: Cell) {
    match v
    case JInt(n) => cell == Float(lib.intToF64(n))
    case JFloat(f) => cell == Float(f)
    case JString(s) =>
      && (lib.parseI64(s).Some? ==> cell == Float(lib.intToF64(lib.parseI64(s).value)))
      && (lib.parseI64(s).None? && lib.parseF64(s).Some? ==> cell == Float(lib.parseF64(s).value))
      && (lib.parseI64(s).None? && lib.parseF64(s).None? ==> cell == Null)
    case _ => cell == Null
  }

  /** A truth value as itself; of the strings exactly "1" and "true", in any case, as true. */
  ghost predicate HoldsTruth(v: Json, cell: Cell) {
    match v
    case JBool(b) => cell == Truth(b)
    case JString(s) =>
      cell == Truth(s == "1" || (|s| == 4 && SameLetter(s[0], 't') && SameLetter(s[1], 'r')
                                         && SameLetter(s[2], 'u') && SameLetter(s[3], 'e')))
    case _ => cell == Null
  }

  /** A string as itself, anything else but null as its JSON text. */
  ghost predicate HoldsText(showJson: Json -> string, v: Json, cell: Cell) {
    match v
    case JNull => cell == Null
    case JString(s) => cell == Text(s)
    case _ => cell == Text(showJson(v))
  }

  ghost predicate HoldsDate(lib: Library, v: Json, cell: Cell) {
    if v.JString?
      && lib.parseDate(v.s).Some? then cell == Days(lib.dateDays(lib.parseDate(v.s).value)) else cell == Null
  }

  /** The time of day, without a fraction if it can be read so, else with one. */
  ghost predicate HoldsTime(lib: Library, v: Json, cell: Cell) {
    if v.JString?
      && lib.parseTime(false, v.s).Some? then cell == Micros(lib.timeMicros(lib.parseTime(false, v.s).value))
    else if v.JString?
      && lib.parseTime(true, v.s).Some? then cell == Micros(lib.timeMicros(lib.parseTime(true, v.s).value))
    else cell == Null
  }

  /** What the first format that accepts the string makes of it. */
  ghost function FirstRead(lib: Library, s: string, formats: seq<Format>): Option<NaiveDateTime> {
    if formats == [] then None
    else if lib.parseDateTime(formats[0], s).Some? then lib.parseDateTime(formats[0], s)
    else FirstRead(lib, s, formats[1..])
  }

  /** The naive formats in turn, then an instant in UTC without its zone, then seconds since the epoch. */
  ghost predicate HoldsTimestamp(lib: Library, v: Json, cell: Cell) {
    if !v.JString? then cell == Null
    else
      var naive := FirstRead(lib, v.s, [Format('T', false), Format(' ', false), Format('T', true), Format(' ', true)]);
      if naive.Some? then cell == Micros(lib.dateTimeMicros(naive.value))
      else if lib.parseRfc3339(v.s).Some? then
        cell == Micros(lib.dateTimeMicros(lib.naiveUtc(lib.parseRfc3339(v.s).value)))
      else if lib.parseF64(v.s).Some? then cell == Micros(lib.epochMicros(lib.parseF64(v.s).value))
      else cell == Null
  }

  /**
   An instant, then the naive formats without a fraction taken as UTC, then seconds since the epoch, also
   as a number.
   */
  ghost predicate HoldsInstant(lib: Library, v: Json, cell: Cell) {
    match v
    case JString(s) =>
      var naive := FirstRead(lib, s, [Format('T', false), Format(' ', false)]);
      if lib.parseRfc3339(s).Some? then cell == Micros(lib.instantMicros(lib.parseRfc3339(s).value))
      else if naive.Some? then cell == Micros(lib.instantMicros(lib.andUtc(naive.value)))
      else if lib.parseF64(s).Some? then cell == Micros(lib.epochMicros(lib.parseF64(s).value))
      else cell == Null
    case JInt(n) => cell == Micros(lib.epochMicros(lib.intToF64(n)))
    case JFloat(f) => cell == Micros(lib.epochMicros(f))
    case _ => cell == Null
  }

  // ----- the converter's cells -----

  lemma TrueInAnyCase(s: string)
    ensures EqIgnoreCase(s, "true")
       <==> |s| == 4 && SameLetter(s[0], 't') && SameLetter(s[1], 'r') && SameLetter(s[2], 'u') && SameLetter(s[3], 'e')
  {
    EqIgnoreCaseIff(s, "true");
    assert "true"[0] == 't' && "true"[1] == 'r' && "true"[2] == 'u' && "true"[3] == 'e';
  }

  /** The formats are tried in order. */
  lemma FirstReadStep(lib: Library, s: string, f: Format, rest: seq<Format>)
    ensures FirstRead(lib, s, [f] + rest)
         == if lib.parseDateTime(f, s).Some? then lib.parseDateTime(f, s) else FirstRead(lib, s, rest)
    ensures FirstRead(lib, s, []) == None
  {
    assert ([f] + rest)[0] == f && ([f] + rest)[1..] == rest;
  }

  lemma FirstOfTwo(lib: Library, s: string, a: Format, b: Format)
    ensures FirstRead(lib, s, [a, b])
         == if lib.parseDateTime(a, s).Some? then lib.parseDateTime(a, s) else lib.parseDateTime(b, s)
  {
    FirstReadStep(lib, s, b, []);
    assert [b] + [] == [b];
    FirstReadStep(lib, s, a, [b]);
    assert [a] + [b] == [a, b];
  }

  lemma FirstOfFour(lib: Library, s: string, a: Format, b: Format, c: Format, d: Format)
    ensures FirstRead(lib, s, [a, b, c, d])
         == if lib.parseDateTime(a, s).Some? then lib.parseDateTime(a, s)
            else if lib.parseDateTime(b, s).Some? then lib.parseDateTime(b, s)
            else FirstRead(lib, s, [c, d])
  {
    FirstReadStep(lib, s, b, [c, d]);
    assert [b] + [c, d] == [b, c, d];
    FirstReadStep(lib, s, a, [b, c, d]);
    assert [a] + [b, c, d] == [a, b, c, d];
  }

  lemma TimestampHolds(lib: Library, v: Json)
    requires v.JString?
    ensures HoldsTimestamp(lib, v, TimestampCell(lib, v.s, TimestampMicro))
  {
    FirstOfFour(lib, v.s, Format('T', false), Format(' ', false), Format('T', true), Format(' ', true));
    FirstOfTwo(lib, v.s, Format('T', true), Format(' ', true));
  }

  lemma InstantHolds(lib: Library, v: Json, kind: Kind)
    requires v.JString? && (kind.TimestampMicro? || kind.TimestampMicroTz?)
    ensures HoldsInstant(lib, v, TimestampTzCell(lib, v.s, kind))
  {
    FirstOfTwo(lib, v.s, Format('T', false), Format(' ', false));
  }

  /** In a column of its own type every value is held by the converter's cell. */
  lemma ConvertedHolds(lib: Library, showJson: Json -> string, v: Json, t: SimpleType)
    ensures Holds(lib, showJson, v, t, JsonCell(lib, showJson, v, t, KindOf(t)))
  {
    if v.JString? {
      TrueInAnyCase(v.s);
      TimestampHolds(lib, v);
      InstantHolds(lib, v, TimestampMicroTz);
    }
  }

  /** Which Arrow type a column has. */
  lemma ColumnKinds(t: SimpleType)
    ensures t.Number? <==> KindOf(t).Float64?
    ensures t.Boolean? <==> KindOf(t).Bool?
    ensures t.String? || t.Unknown? <==> KindOf(t).Utf8?
    ensures t.Date? <==> KindOf(t).Date32?
    ensures t.Time? <==> KindOf(t).Time64Micro?
    ensures t.Timestamp? <==> KindOf(t).TimestampMicro?
    ensures t.TimestampTz? <==> KindOf(t).TimestampMicroTz?
  {
  }

  /** A cell stands for one value only, where the type can tell values apart. */
  lemma DifferentValuesDiffer(lib: Library, showJson: Json -> string, a: Json, b: Json, t: SimpleType, x: Cell, y: Cell)
    requires Holds(lib, showJson, a, t, x) && Holds(lib, showJson, b, t, y) && a != b
    ensures t.Boolean? && a.JBool? && b.JBool? ==> x != y
    ensures (t.String? || t.Unknown?) && a.JString? && b.JString? ==> x != y
    ensures t.Number? && a.JFloat? && b.JFloat? ==> x != y
    ensures a.JNull? ==> x == Null
  {
  }

  // ----- whole batches -----

  /** Row `r` of a table is row `r` of its cells. */
  lemma TableAt(cells: seq<seq<Cell>>, schema: seq<ColumnInfo>, r: nat, i: nat)
    requires (forall k :: 0 <= k < |cells| ==> |cells[k]| == |schema|) && r < |cells| && i < |schema|
    ensures |Table(cells, schema)| == |schema| && |Table(cells, schema)[i].cells| == |cells|
    ensures Table(cells, schema)[i].cells[r] == cells[r][i] && Table(cells, schema)[i].kind == KindOf(schema[i].colType)
  {
  }

  /** Every cell of a Databricks batch holds the value in its row and column, or null where the row is too short. */
  lemma DatabricksBatchHolds(lib: Library, showJson: Json -> string, rows: seq<seq<Json>>, schema: seq<ColumnInfo>,
                             r: nat, i: nat)
    requires r < |rows| && i < |schema|
    ensures var cell := Table(DatabricksCells(lib, showJson, rows, schema), schema)[i].cells[r];
            && (i < |rows[r]| ==> Holds(lib, showJson, rows[r][i], schema[i].colType, cell))
            && (i >= |rows[r]| ==> cell == Null)
  {
    TableAt(DatabricksCells(lib, showJson, rows, schema), schema, r, i);
    if i < |rows[r]| {
      ConvertedHolds(lib, showJson, rows[r][i], schema[i].colType);
    }
  }

  /** The value of column `i` of a BigQuery row, which is nested as `{"f": [{"v": value}, ...]}`. */
  ghost predicate Nests(row: Json, i: nat, v: Json) {
    && row.JObject? && "f" in row.fields && row.fields["f"].JArray? && i < |row.fields["f"].items|
    && row.fields["f"].items[i].JObject? && "v" in row.fields["f"].items[i].fields
    && row.fields["f"].items[i].fields["v"] == v
  }

  /** Every cell of a BigQuery batch holds the nested value, or null where there is none. */
  lemma BigQueryBatchHolds(lib: Library, showJson: Json -> string, rows: seq<Json>, schema: seq<ColumnInfo>, r: nat,
                           i: nat, v: Json)
    requires r < |rows| && i < |schema|
    ensures var cell := Table(BigQueryTable(lib, showJson, rows, schema), schema)[i].cells[r];
            && (Nests(rows[r], i, v) ==> Holds(lib, showJson, v, schema[i].colType, cell))
            && ((forall w :: !Nests(rows[r], i, w)) ==> cell == Null)
  {
    TableAt(BigQueryTable(lib, showJson, rows, schema), schema, r, i);
    ConvertedHolds(lib, showJson, BigQueryValue(rows[r], i), schema[i].colType);
    if forall w :: !Nests(rows[r], i, w) {
      assert !Nests(rows[r], i, BigQueryValue(rows[r], i));
    }
  }

  // ----- ClickHouse -----

  /** Sanitizing drops the NULs of a string and nothing else, and leaves other values alone. */
  lemma SanitizeOne(c: char, v: Json)
    ensures Sanitize(JString("")) == JString("")
    ensures Sanitize(JString([c])) == JString(if c == '\0' then "" else [c])
    ensures !v.JString? ==> Sanitize(v) == v
  {
    assert [c][1..] == "";
    assert WithoutNul([c]) == (if c == '\0' then [] else [c]) + WithoutNul("");
  }

  /** It does so character by character, in order. */
  lemma SanitizeAppend(a: string, b: string)
    ensures Sanitize(JString(a + b)) == JString(Sanitize(JString(a)).s + Sanitize(JString(b)).s)
  {
    SanitizedIs(a);
    SanitizedIs(b);
    SanitizedIs(a + b);
    WithoutNulAppend(a, b);
  }

  lemma {:induction false} SanitizedIs(s: string)
    ensures Sanitize(JString(s)) == JString(WithoutNul(s))
  {
    if '\0' !in s {
      NothingToDrop(s);
    }
  }

  lemma {:induction false} NothingToDrop(s: string)
    requires '\0' !in s
    ensures WithoutNul(s) == s
  {
    if s != [] {
      NothingToDrop(s[1..]);
      assert s == [s[0]] + s[1..];
    }
  }

  lemma {:induction false} WithoutNulAppend(a: string, b: string)
    ensures WithoutNul(a + b) == WithoutNul(a) + WithoutNul(b)
  {
    if a == [] {
      assert a + b == b;
    } else {
      WithoutNulAppend(a[1..], b);
      assert (a + b)[0] == a[0] && (a + b)[1..] == a[1..] + b;
      Associative(if a[0] == '\0' then [] else [a[0]], WithoutNul(a[1..]), WithoutNul(b));
    }
  }

  /** A bare timestamp of a UTC server is read as an instant, with `T` and `Z` put in; everything else as it stands. */
  ghost predicate HoldsClickHouse(lib: Library, showJson: Json -> string, v: Json, t: SimpleType, utc: bool, cell: Cell)
  {
    if utc && t.Timestamp? && v.JString? && |v.s| >= 19 && v.s[10] == ' ' then
      HoldsInstant(lib, JString(v.s[..10] + "T" + v.s[11..] + "Z"), cell)
    else Holds(lib, showJson, v, t, cell)
  }

  lemma ClickHouseCellHolds(lib: Library, showJson: Json -> string, v: Json, t: SimpleType, utc: bool)
    ensures HoldsClickHouse(lib, showJson, v, t, utc, ClickHouseCell(lib, showJson, v, t, utc))
  {
    if utc && t.Timestamp? && v.JString? && LooksBare(v.s) {
      InstantHolds(lib, JString(Iso(v.s, true)), TimestampMicro);
    } else {
      ConvertedHolds(lib, showJson, v, t);
    }
  }

  /**
   Every cell of a streamed ClickHouse batch holds the sanitized value in its row and column, or null
   beyond the row.
   */
  lemma StreamedBatchHolds(lib: Library, showJson: Json -> string, rows: seq<seq<Json>>, schema: seq<ColumnInfo>,
                           utc: bool, r: nat, i: nat)
    requires r < |rows| && i < |schema|
    ensures var cell := Table(StreamedCells(lib, showJson, rows, schema, utc), schema)[i].cells[r];
            && (i < |rows[r]| ==> HoldsClickHouse(lib, showJson, Sanitize(rows[r][i]), schema[i].colType, utc, cell))
            && (i >= |rows[r]| ==> cell == Null)
  {
    TableAt(StreamedCells(lib, showJson, rows, schema, utc), schema, r, i);
    if i < |rows[r]| {
      ClickHouseCellHolds(lib, showJson, Sanitize(rows[r][i]), schema[i].colType, utc);
    }
  }

  /** And so does every cell of a buffered one, over the values both routes treat alike. */
  lemma BufferedBatchHolds(lib: Library, showJson: Json -> string, rows: seq<seq<Json>>, schema: seq<ColumnInfo>,
                           utc: bool, r: nat, i: nat)
    requires ZIsNotNaive(lib) && SeparatorsAgree(lib) && AllComparable(rows, schema, utc)
    requires r < |rows| && i < |schema|
    ensures var cell := Table(BufferedCells(lib, showJson, rows, schema, utc), schema)[i].cells[r];
            && (i < |rows[r]| ==> HoldsClickHouse(lib, showJson, Sanitize(rows[r][i]), schema[i].colType, utc, cell))
            && (i >= |rows[r]| ==> cell == Null)
  {
    ResultsAgree(lib, showJson, rows, schema, utc);
    StreamedBatchHolds(lib, showJson, rows, schema, utc, r, i);
  }

  /**
   What coercion makes of a string: in a number column the number it spells, unless that is not finite; in a truth
   column the value of the six spellings; in a timestamp column a bare timestamp with `T`, and `Z` on a UTC server.
   Every other value, and every value beyond the columns, stays as it is.
   */
  lemma CoercedValues(lib: Library, s: string, utc: bool)
    ensures var number := Coerce(lib, JString(s), Some(SimpleType.Number), utc);
            && (lib.parseI64(s).Some? ==> number == JInt(lib.parseI64(s).value))
            && (lib.parseI64(s).None? && lib.parseF64(s).Some? && lib.parseF64(s).value.Finite? ==>
                  number == JFloat(lib.parseF64(s).value))
            && (lib.parseI64(s).None? && (lib.parseF64(s).None? || !lib.parseF64(s).value.Finite?) ==>
                  number == JString(s))
    ensures var truth := Coerce(lib, JString(s), Some(SimpleType.Boolean), utc);
            && (s == "1" || s == "true" || s == "True" ==> truth == JBool(true))
            && (s == "0" || s == "false" || s == "False" ==> truth == JBool(false))
            && (s !in ["1", "true", "True", "0", "false", "False"] ==> truth == JString(s))
    ensures var stamp := Coerce(lib, JString(s), Some(Timestamp), utc);
            && (|s| >= 19 && s[10] == ' ' ==> stamp == JString(s[..10] + "T" + s[11..] + if utc then "Z" else ""))
            && (|s| < 19 || s[10] != ' ' ==> stamp == JString(s))
  {
  }

  lemma UncoercedValues(lib: Library, v: Json, t: SimpleType, utc: bool)
    ensures Coerce(lib, v, None, utc) == v
    ensures !v.JString? || !(t.Number? || t.Boolean? || t.Timestamp?) ==> Coerce(lib, v, Some(t), utc) == v
  {
  }

  // ----- native values -----

  /** What the other appends store, by the column's type; where none is named, null. */
  lemma NativeCells(lib: Library, kind: Kind, f: F64, n: int, b: bool, s: string)
    ensures F64Cell(lib, kind, f) == if kind.Float64? then Float(f) else if kind.Utf8? then Text(lib.showF64(f))
            else Null
    ensures I64Cell(lib, kind, n)
         == if kind.Float64? then Float(lib.intToF64(n)) else if kind.Utf8? then Text(lib.showInt(n)) else Null
    ensures BoolCell(kind, b)
         == if kind.Bool? then Truth(b) else if kind.Utf8? then Text(if b then "true" else "false") else Null
    ensures kind.Utf8? ==> StringCell(lib, kind, s) == Text(s)
    ensures kind.Float64? ==>
              StringCell(lib, kind, s) == if lib.parseF64(s).Some? then Float(lib.parseF64(s).value) else Null
    ensures kind.Bool? ==>
              StringCell(lib, kind, s) == if s in ["true", "1", "t", "yes"] then Truth(true)
                                          else if s in ["false", "0", "f", "no"] then Truth(false) else Null
    ensures !kind.Utf8? && !kind.Float64? && !kind.Bool? ==> StringCell(lib, kind, s) == Null
  {
  }

  lemma NativeTimes(lib: Library, kind: Kind, days: int, date: NaiveDate, time: NaiveTime, dt: NaiveDateTime,
                    t: Instant, micros: int)
    requires -0x8000_0000 <= days < 0x8000_0000
    ensures kind.Date32? ==>
            DateDaysCell(lib, kind, days) == Days(days) && DateCell(lib, kind, date) == Days(lib.dateDays(date))
    ensures kind.Utf8? && days + 719_163 < 0x8000_0000 ==>
              DateDaysCell(lib, kind, days)
              == if lib.dateFromCe(days + 719_163).Some? then
                Text(lib.showDate(lib.dateFromCe(days + 719_163).value)) else Null
    ensures kind.Time64Micro? ==> TimeCell(lib, kind, time) == Micros(lib.timeMicros(time))
    ensures kind.TimestampMicro? || kind.TimestampMicroTz? ==>
              && DateTimeCell(lib, kind, dt) == Micros(lib.dateTimeMicros(dt))
              && InstantCell(lib, kind, t) == Micros(lib.instantMicros(t))
              && MicrosCell(lib, kind, micros) == Micros(micros)
    ensures kind.Utf8? ==>
              && DateCell(lib, kind, date) == Text(lib.showDate(date))
                && TimeCell(lib, kind, time) == Text(lib.showTime(time))
              && DateTimeCell(lib, kind, dt) == Text(lib.showDateTime(dt))
              && InstantCell(lib, kind, t) == Text(lib.showInstant(t))
                && MicrosCell(lib, kind, micros) == Text(lib.showInt(micros))
    ensures kind.Float64? ==> MicrosCell(lib, kind, micros) == Float(lib.intToF64(micros))
  {
  }

  /** Timestamps as ClickHouse writes them are of the compared form. */
  lemma StampExamples()
    ensures IsStamp("2024-01-15 12:34:56") && IsStamp("2024-01-15 12:34:56.789")
    ensures !IsStamp("2024-01-15T12:34:56") && !IsStamp("2024-01-15 12:34:56Z")
  {
    var s := "2024-01-15 12:34:56.789";
    assert s[20] == '7' && s[21] == '8' && s[22] == '9';
    assert "2024-01-15T12:34:56"[10] == 'T' && "2024-01-15 12:34:56Z"[19] == 'Z';
  }
}
