/**
 The typed column builder behind every batch.  Cells are appended column by column; a value that
 does not fit the column becomes text in a text column and null elsewhere.  Strings are their UTF-8
 bytes, one character per byte.
 */
module ArrowBuilder {
  import opened Options
  import opened StreamEvents

  /** A 64-bit float, as far as this code distinguishes them. */
  datatype F64 = Finite(value: real) | Infinite(negative: bool) | NaN

  datatype NaiveDate = NaiveDate(key: int)
  datatype NaiveTime = NaiveTime(key: int)
  datatype NaiveDateTime = NaiveDateTime(key: int)
  datatype Instant = Instant(key: int)

  /** The timestamp formats tried, by separator and by whether a fraction may follow the seconds. */
  datatype Format = Format(separator: char, fraction: bool)

  /** The standard library's and chrono's conversions, uninterpreted. */
  datatype Library = Library(
    parseI64: string -> Option<int>, parseF64: string -> Option<F64>,
    intToF64: int -> F64, epochMicros: F64 -> int,
    showF64: F64 -> string, showInt: int -> string,
    parseDate: string -> Option<NaiveDate>, dateDays: NaiveDate -> int, showDate: NaiveDate -> string,
      dateFromCe: int -> Option<NaiveDate>,
    parseTime: (bool, string) -> Option<NaiveTime>, timeMicros: NaiveTime -> int, showTime: NaiveTime -> string,
    parseDateTime: (Format, string) -> Option<NaiveDateTime>, dateTimeMicros: NaiveDateTime -> int,
      showDateTime: NaiveDateTime -> string,
    parseRfc3339: string -> Option<Instant>, instantMicros: Instant -> int, showInstant: Instant -> string,
    naiveUtc: Instant -> NaiveDateTime, andUtc: NaiveDateTime -> Instant)

  datatype Kind = Float64 | Bool | Utf8 | Date32 | Time64Micro | TimestampMicro | TimestampMicroTz

  datatype Cell =
    | Null
    | Float(f: F64)
    | Truth(b: bool)
    | Text(s: string)
    | Days(d: int)
    | Micros(m: int)

  datatype Column = Column(kind: Kind, cells: seq<Cell>)

  function KindOf(t: SimpleType): Kind {
    match t
    case Number => Float64
    case Boolean => Bool
    case String => Utf8
    case Unknown => Utf8
    case Date => Date32
    case Time => Time64Micro
    case Timestamp => TimestampMicro
    case TimestampTz => TimestampMicroTz
  }

  /** A cell is null or of its column's type. */
  predicate Fits(kind: Kind, cell: Cell) {
    match cell
    case Null => true
    case Float(_) => kind.Float64?
    case Truth(_) => kind.Bool?
    case Text(_) => kind.Utf8?
    case Days(_) => kind.Date32?
    case Micros(_) => kind.Time64Micro? || kind.TimestampMicro? || kind.TimestampMicroTz?
  }

  // ----- what each append stores -----

  function F64Cell(lib: Library, kind: Kind, v: F64): (c: Cell)
    ensures Fits(kind, c)
  {
    match kind
    case Float64 => Float(v)
    case Utf8 => Text(lib.showF64(v))
    case _ => Null
  }

  function I64Cell(lib: Library, kind: Kind, v: int): (c: Cell)
    ensures Fits(kind, c)
  {
    match kind
    case Float64 => Float(lib.intToF64(v))
    case Utf8 => Text(lib.showInt(v))
    case _ => Null
  }

  function BoolCell(kind: Kind, v: bool): (c: Cell)
    ensures Fits(kind, c)
  {
    match kind
    case Bool => Truth(v)
    case Utf8 => Text(if v then "true" else "false")
    case _ => Null
  }

  function StringCell(lib: Library, kind: Kind, v: string): (c: Cell)
    ensures Fits(kind, c)
  {
    match kind
    case Utf8 => Text(v)
    case Float64 => if lib.parseF64(v).Some? then Float(lib.parseF64(v).value) else Null
    case Bool =>
      if v == "true" || v == "1" || v == "t" || v == "yes" then Truth(true)
      else if v == "false" || v == "0" || v == "f" || v == "no" then Truth(false)
      else Null
    case _ => Null
  }

  /** `days + 719_163` on an `i32`. */
  function CommonEraDays(days: int): int {
    var d := days + 719_163;
    if d > 0x7FFF_FFFF then d - 0x1_0000_0000 else d
  }

  function DateDaysCell(lib: Library, kind: Kind, days: int): (c: Cell)
    ensures Fits(kind, c)
  {
    match kind
    case Date32 => Days(days)
    case Utf8 =>
      var date := lib.dateFromCe(CommonEraDays(days));
      if date.Some? then Text(lib.showDate(date.value)) else Null
    case _ => Null
  }

  function DateCell(lib: Library, kind: Kind, date: NaiveDate): (c: Cell)
    ensures Fits(kind, c)
  {
    match kind
    case Date32 => Days(lib.dateDays(date))
    case Utf8 => Text(lib.showDate(date))
    case _ => Null
  }

  function TimeCell(lib: Library, kind: Kind, time: NaiveTime): (c: Cell)
    ensures Fits(kind, c)
  {
    match kind
    case Time64Micro => Micros(lib.timeMicros(time))
    case Utf8 => Text(lib.showTime(time))
    case _ => Null
  }

  function DateTimeCell(lib: Library, kind: Kind, dt: NaiveDateTime): (c: Cell)
    ensures Fits(kind, c)
  {
    match kind
    case TimestampMicro => Micros(lib.dateTimeMicros(dt))
    case TimestampMicroTz => Micros(lib.dateTimeMicros(dt))
    case Utf8 => Text(lib.showDateTime(dt))
    case _ => Null
  }

  function InstantCell(lib: Library, kind: Kind, dt: Instant): (c: Cell)
    ensures Fits(kind, c)
  {
    match kind
    case TimestampMicroTz => Micros(lib.instantMicros(dt))
    case TimestampMicro => Micros(lib.instantMicros(dt))
    case Utf8 => Text(lib.showInstant(dt))
    case _ => Null
  }

  function MicrosCell(lib: Library, kind: Kind, micros: int): (c: Cell)
    ensures Fits(kind, c)
  {
    match kind
    case TimestampMicro => Micros(micros)
    case TimestampMicroTz => Micros(micros)
    case Float64 => Float(lib.intToF64(micros))
    case Utf8 => Text(lib.showInt(micros))
    case _ => Null
  }

  /** One more cell in column `i`, and nothing else changed. */
  function Push(columns: seq<Column>, i: nat, cell: Cell): seq<Column>
    requires i < |columns|
  {
    columns[i := columns[i].(cells := columns[i].cells + [cell])]
  }

  datatype FinishResult = RecordBatch(columns: seq<Column>) | ArrowError

  class ArrowResultBuilder {
    const lib: Library
    const schema: seq<ColumnInfo>
    var columns: seq<Column>
    var rowCount: nat

    /** One column per schema field and of its type, holding only null or cells of that type. */
    ghost predicate Typed()
      reads this
    {
      && |columns| == |schema|
      && forall i :: 0 <= i < |columns| ==>
           columns[i].kind == KindOf(schema[i].colType) && forall r :: 0 <= r < |columns[i].cells| ==>
             Fits(columns[i].kind, columns[i].cells[r])
    }

    /** Between rows: every column has exactly `rowCount` cells. */
    ghost predicate Valid()
      reads this
    {
      Typed() && forall i :: 0 <= i < |columns| ==> |columns[i].cells| == rowCount
    }

    constructor (lib: Library, schema: seq<ColumnInfo>)
      ensures Valid() && this.lib == lib && this.schema == schema && rowCount == 0
      ensures columns == seq(|schema|, i requires 0 <= i < |schema| => Column(KindOf(schema[i].colType), []))
    {
      this.lib := lib;
      this.schema := schema;
      columns := seq(|schema|, i requires 0 <= i < |schema| => Column(KindOf(schema[i].colType), []));
      rowCount := 0;
    }

    method AppendNull(i: nat)
      requires i < |columns|
      modifies this`columns
      ensures columns == Push(old(columns), i, Null)
      ensures old(Typed()) ==> Typed()
    {
      columns := Push(columns, i, Null);
    }

    method AppendF64(i: nat, v: F64)
      requires i < |columns|
      modifies this`columns
      ensures columns == Push(old(columns), i, F64Cell(lib, old(columns)[i].kind, v))
      ensures old(Typed()) ==> Typed()
    {
      match columns[i].kind
      case Float64 => columns := Push(columns, i, Float(v));
      case Utf8 => columns := Push(columns, i, Text(lib.showF64(v)));
      case _ => AppendNull(i);
    }

    method AppendI64(i: nat, v: int)
      requires i < |columns|
      modifies this`columns
      ensures columns == Push(old(columns), i, I64Cell(lib, old(columns)[i].kind, v))
      ensures old(Typed()) ==> Typed()
    {
      match columns[i].kind
      case Float64 => columns := Push(columns, i, Float(lib.intToF64(v)));
      case Utf8 => columns := Push(columns, i, Text(lib.showInt(v)));
      case _ => AppendNull(i);
    }

    method AppendBool(i: nat, v: bool)
      requires i < |columns|
      modifies this`columns
      ensures columns == Push(old(columns), i, BoolCell(old(columns)[i].kind, v))
      ensures old(Typed()) ==> Typed()
    {
      match columns[i].kind
      case Bool => columns := Push(columns, i, Truth(v));
      case Utf8 => columns := Push(columns, i, Text(if v then "true" else "false"));
      case _ => AppendNull(i);
    }

    method AppendString(i: nat, v: string)
      requires i < |columns|
      modifies this`columns
      ensures columns == Push(old(columns), i, StringCell(lib, old(columns)[i].kind, v))
      ensures old(Typed()) ==> Typed()
    {
      match columns[i].kind
      case Utf8 => columns := Push(columns, i, Text(v));
      case Float64 =>
        var f := lib.parseF64(v);
        if f.Some? { columns := Push(columns, i, Float(f.value)); } else { AppendNull(i); }
      case Bool =>
        if v == "true" || v == "1" || v == "t" || v == "yes" {
          columns := Push(columns, i, Truth(true));
        } else if v == "false" || v == "0" || v == "f" || v == "no" {
          columns := Push(columns, i, Truth(false));
        } else {
          AppendNull(i);
        }
      case _ => AppendNull(i);
    }

    method AppendDateDays(i: nat, days: int)
      requires i < |columns|
      modifies this`columns
      ensures columns == Push(old(columns), i, DateDaysCell(lib, old(columns)[i].kind, days))
      ensures old(Typed()) ==> Typed()
    {
      match columns[i].kind
      case Date32 => columns := Push(columns, i, Days(days));
      case Utf8 =>
        var date := lib.dateFromCe(CommonEraDays(days));
        if date.Some? { columns := Push(columns, i, Text(lib.showDate(date.value))); } else { AppendNull(i); }
      case _ => AppendNull(i);
    }

    method AppendNaiveDate(i: nat, date: NaiveDate)
      requires i < |columns|
      modifies this`columns
      ensures columns == Push(old(columns), i, DateCell(lib, old(columns)[i].kind, date))
      ensures old(Typed()) ==> Typed()
    {
      match columns[i].kind
      case Date32 => columns := Push(columns, i, Days(lib.dateDays(date)));
      case Utf8 => columns := Push(columns, i, Text(lib.showDate(date)));
      case _ => AppendNull(i);
    }

    method AppendNaiveTime(i: nat, time: NaiveTime)
      requires i < |columns|
      modifies this`columns
      ensures columns == Push(old(columns), i, TimeCell(lib, old(columns)[i].kind, time))
      ensures old(Typed()) ==> Typed()
    {
      match columns[i].kind
      case Time64Micro => columns := Push(columns, i, Micros(lib.timeMicros(time)));
      case Utf8 => columns := Push(columns, i, Text(lib.showTime(time)));
      case _ => AppendNull(i);
    }

    method AppendNaiveDateTime(i: nat, dt: NaiveDateTime)
      requires i < |columns|
      modifies this`columns
      ensures columns == Push(old(columns), i, DateTimeCell(lib, old(columns)[i].kind, dt))
      ensures old(Typed()) ==> Typed()
    {
      var micros := lib.dateTimeMicros(dt);
      match columns[i].kind
      case TimestampMicro => columns := Push(columns, i, Micros(micros));
      case TimestampMicroTz => columns := Push(columns, i, Micros(micros));
      case Utf8 => columns := Push(columns, i, Text(lib.showDateTime(dt)));
      case _ => AppendNull(i);
    }

    method AppendDateTimeUtc(i: nat, dt: Instant)
      requires i < |columns|
      modifies this`columns
      ensures columns == Push(old(columns), i, InstantCell(lib, old(columns)[i].kind, dt))
      ensures old(Typed()) ==> Typed()
    {
      var micros := lib.instantMicros(dt);
      match columns[i].kind
      case TimestampMicroTz => columns := Push(columns, i, Micros(micros));
      case TimestampMicro => columns := Push(columns, i, Micros(micros));
      case Utf8 => columns := Push(columns, i, Text(lib.showInstant(dt)));
      case _ => AppendNull(i);
    }

    method AppendTimestampMicros(i: nat, micros: int)
      requires i < |columns|
      modifies this`columns
      ensures columns == Push(old(columns), i, MicrosCell(lib, old(columns)[i].kind, micros))
      ensures old(Typed()) ==> Typed()
    {
      match columns[i].kind
      case TimestampMicro => columns := Push(columns, i, Micros(micros));
      case TimestampMicroTz => columns := Push(columns, i, Micros(micros));
      case Float64 => columns := Push(columns, i, Float(lib.intToF64(micros)));
      case Utf8 => columns := Push(columns, i, Text(lib.showInt(micros)));
      case _ => AppendNull(i);
    }

    method FinishRow()
      modifies this`rowCount
      ensures rowCount == old(rowCount) + 1
    {
      rowCount := rowCount + 1;
    }

    /**
     Arrow's own checks: at least one column, columns of the schema's types, and equal lengths.
     Between rows only the first can fail.
     */
    method Finish() returns (r: FinishResult)
      ensures Valid() ==> (r.RecordBatch? <==> schema != [])
      ensures r.RecordBatch? ==> r.columns == columns
    {
      if columns == [] || |columns| != |schema| {
        return ArrowError;
      }
      for i := 0 to |columns|
        invariant Valid() ==> forall k :: 0 <= k < i ==> |columns[k].cells| == |columns[0].cells|
      {
        if columns[i].kind != KindOf(schema[i].colType) || |columns[i].cells| != |columns[0].cells| {
          return ArrowError;
        }
      }
      return RecordBatch(columns);
    }
  }
}
