/** PostgreSQL interval text, and a parser that reads it back. */
module PgInterval {
  import opened Chars
  import opened Options
  import opened Splitting

  datatype Interval = Interval(months: int, days: int, microseconds: int)

  // ----- Rust integer division: truncation toward zero -----

  function Quot(a: int, b: int): int
    requires b > 0
  {
    if a >= 0 then a / b else -((-a) / b)
  }

  function Rem(a: int, b: int): int
    requires b > 0
  {
    a - Quot(a, b) * b
  }

  function Abs(a: int): nat { if a >= 0 then a else -a }

  // ----- printing -----

  predicate AllDigits(s: string) {
    forall i :: 0 <= i < |s| ==> IsDigit(s[i])
  }

  function Digit(d: nat): (c: char)
    requires d < 10
    ensures IsDigit(c) && c as int - '0' as int == d
  {
    ('0' as int + d) as char
  }

  function ShowNat(n: nat): (s: string)
    ensures s != [] && AllDigits(s)
  {
    if n < 10 then [Digit(n)] else ShowNat(n / 10) + [Digit(n % 10)]
  }

  /** `{n}` */
  function Show(n: int): string {
    if n < 0 then "-" + ShowNat(-n) else ShowNat(n)
  }

  /** `{n:02}`: zero padded to two characters, the sign counting as one of them. */
  function Show02(n: int): string {
    if 0 <= n < 10 then "0" + ShowNat(n) else Show(n)
  }

  function Plural(n: int, unit: string): string {
    if Abs(n) != 1 then unit + "s" else unit
  }

  /** "{n} unit", left out when it is zero. */
  function Part(n: int, unit: string): seq<string> {
    if n == 0 then [] else [Show(n) + " " + Plural(n, unit)]
  }

  function Clock(totalSecs: int): string {
    var hours := Quot(totalSecs, 3600);
    var mins := Quot(Rem(totalSecs, 3600), 60);
    var secs := Rem(totalSecs, 60);
    Show02(hours) + ":" + Show02(mins) + ":" + Show02(secs)
  }

  function ClockPart(microseconds: int): seq<string> {
    if microseconds != 0 then [Clock(Quot(microseconds, 1_000_000))] else []
  }

  function Parts(iv: Interval): seq<string> {
    Part(Quot(iv.months, 12), "year") + Part(Rem(iv.months, 12), "mon") + Part(iv.days, "day")
      + ClockPart(iv.microseconds)
  }

  function IntervalText(iv: Interval): string {
    if Parts(iv) == [] then "00:00:00" else Join(Parts(iv), ' ')
  }

  /** `format_pg_interval`: the parts are pushed one by one and joined with spaces. */
  method FormatPgInterval(iv: Interval) returns (text: string)
    ensures text == IntervalText(iv)
  {
    var parts: seq<string> := [];
    if iv.months != 0 {
      var years := Quot(iv.months, 12);
      var mons := Rem(iv.months, 12);
      if years != 0 {
        parts := parts + [Show(years) + " " + Plural(years, "year")];
      }
      if mons != 0 {
        parts := parts + [Show(mons) + " " + Plural(mons, "mon")];
      }
    }
    assert parts == Part(Quot(iv.months, 12), "year") + Part(Rem(iv.months, 12), "mon");
    if iv.days != 0 {
      parts := parts + [Show(iv.days) + " " + Plural(iv.days, "day")];
    }
    assert parts == Part(Quot(iv.months, 12), "year") + Part(Rem(iv.months, 12), "mon") + Part(iv.days, "day");
    if iv.microseconds != 0 {
      var totalSecs := Quot(iv.microseconds, 1_000_000);
      var hours := Quot(totalSecs, 3600);
      var mins := Quot(Rem(totalSecs, 3600), 60);
      var secs := Rem(totalSecs, 60);
      parts := parts + [Show02(hours) + ":" + Show02(mins) + ":" + Show02(secs)];
    }
    assert parts == Parts(iv);
    text := if parts == [] then "00:00:00" else Join(parts, ' ');
  }

  // ----- the text as words -----

  function QuantityWords(n: int, unit: string): seq<string> {
    if n == 0 then [] else [Show(n), Plural(n, unit)]
  }

  function Words(iv: Interval): seq<string> {
    QuantityWords(Quot(iv.months, 12), "year") + QuantityWords(Rem(iv.months, 12), "mon")
    + QuantityWords(iv.days, "day") + ClockPart(iv.microseconds)
  }

  /** Joining the parts is joining their words. */
  lemma JoinParts(iv: Interval)
    ensures Join(Parts(iv), ' ') == Join(Words(iv), ' ') && (Parts(iv) == [] <==> Words(iv) == [])
  {
    var y, m := Quot(iv.months, 12), Rem(iv.months, 12);
    PartJoin([], [], y, "year");
    var p, w := Part(y, "year"), QuantityWords(y, "year");
    assert [] + p == p && [] + w == w;
    PartJoin(p, w, m, "mon");
    PartJoin(p + Part(m, "mon"), w + QuantityWords(m, "mon"), iv.days, "day");
    JoinAppend(p + Part(m, "mon") + Part(iv.days, "day"), ClockPart(iv.microseconds), ' ');
    JoinAppend(w + QuantityWords(m, "mon") + QuantityWords(iv.days, "day"), ClockPart(iv.microseconds), ' ');
  }

  lemma PartJoin(parts: seq<string>, words: seq<string>, n: int, unit: string)
    requires Join(parts, ' ') == Join(words, ' ') && (parts == [] <==> words == [])
    ensures Join(parts + Part(n, unit), ' ') == Join(words + QuantityWords(n, unit), ' ')
    ensures parts + Part(n, unit) == [] <==> words + QuantityWords(n, unit) == []
  {
    JoinAppend(parts, Part(n, unit), ' ');
    JoinAppend(words, QuantityWords(n, unit), ' ');
    if n != 0 {
      var q, u := Show(n), Plural(n, unit);
      assert [q, u][1..] == [u];
      assert Join([q, u], ' ') == q + " " + u;
    }
  }

  // ----- reading the text back -----

  function DigitValue(c: char): nat
    requires IsDigit(c)
  {
    c as int - '0' as int
  }

  function ReadNat(s: string): nat
    requires AllDigits(s)
  {
    if s == [] then 0 else ReadNat(s[..|s| - 1]) * 10 + DigitValue(s[|s| - 1])
  }

  function ReadDigits(s: string): Option<nat> {
    if s != [] && AllDigits(s) then Some(ReadNat(s)) else None
  }

  function ReadInt(s: string): Option<int> {
    if s != [] && s[0] == '-' then
      var n := ReadDigits(s[1..]);
      if n.Some? then Some(0 - n.value) else None
    else ReadDigits(s)
  }

  function ReadClock(s: string): Option<int> {
    var parts := Split(s, ':');
    if |parts| != 3 then None
    else
      var h, m, sec := ReadInt(parts[0]), ReadInt(parts[1]), ReadInt(parts[2]);
      if h.None? || m.None? || sec.None? then None else Some(h.value * 3600 + m.value * 60 + sec.value)
  }

  /** One "quantity unit" pair if the words start with that unit, and the words after it. */
  function ReadQuantity(words: seq<string>, unit: string): (int, seq<string>) {
    if |words| >= 2 && (words[1] == unit || words[1] == unit + "s") && ReadInt(words[0]).Some?
    then (ReadInt(words[0]).value, words[2..]) else (0, words)
  }

  /** Months, days and seconds, or nothing when the words are not of the printed form. */
  function ReadWords(words: seq<string>): Option<(int, int, int)> { ReadUnits(words, "year", "mon", "day") }

  function ReadUnits(words: seq<string>, year: string, mon: string, day: string): Option<(int, int, int)> {
    var (years, afterYears) := ReadQuantity(words, year);
    var (mons, afterMons) := ReadQuantity(afterYears, mon);
    var (days, afterDays) := ReadQuantity(afterMons, day);
    var secs := ReadTail(afterDays);
    if secs.None? then None else Some((years * 12 + mons, days, secs.value))
  }

  /** What is left after the quantities: nothing, or a clock. */
  function ReadTail(words: seq<string>): Option<int> {
    if words == [] then Some(0) else if |words| == 1 then ReadClock(words[0]) else None
  }

  function ParseInterval(text: string): Option<(int, int, int)> { ReadWords(Split(text, ' ')) }

  // ----- round trip -----

  lemma {:induction false} ReadShowNat(n: nat)
    ensures ReadNat(ShowNat(n)) == n
  {
    if n >= 10 {
      ReadShowNat(n / 10);
      var s := ShowNat(n);
      assert s[..|s| - 1] == ShowNat(n / 10);
    } else {
      var s := ShowNat(n);
      assert s[..|s| - 1] == [];
    }
  }

  lemma ReadShow(n: int)
    ensures ReadInt(Show(n)) == Some(n)
  {
    ReadShowNat(Abs(n));
    if n < 0 {
      assert Show(n)[1..] == ShowNat(-n);
    } else {
      assert IsDigit(ShowNat(n)[0]) && !IsDigit('-');
    }
  }

  lemma ReadShow02(n: int)
    ensures ReadInt(Show02(n)) == Some(n)
  {
    ReadShow(n);
    if 0 <= n < 10 {
      var s := Show02(n);
      assert s == ['0', Digit(n)];
      assert s[..1] == ['0'] && ['0'][..0] == [];
      assert ReadNat(['0']) == 0;
      assert AllDigits(s);
    }
  }

  lemma ShowChars(n: int, c: char)
    requires !IsDigit(c) && c != '-'
    ensures c !in Show(n) && c !in Show02(n)
  {
    assert c !in ShowNat(Abs(n));
  }

  lemma ReadPrintedClock(secs: int)
    ensures ReadClock(Clock(secs)) == Some(secs)
  {
    ReadClockFields(Quot(secs, 3600), Quot(Rem(secs, 3600), 60), Rem(secs, 60));
    ClockArithmetic(secs);
  }

  lemma ReadClockFields(h: int, m: int, s: int)
    ensures ReadClock(Show02(h) + ":" + Show02(m) + ":" + Show02(s)) == Some(h * 3600 + m * 60 + s)
  {
    var a, b, c := Show02(h), Show02(m), Show02(s);
    ShowChars(h, ':');
    ShowChars(m, ':');
    ShowChars(s, ':');
    ClockParts(a, b, c);
    ReadShow02(h);
    ReadShow02(m);
    ReadShow02(s);
    ReadThreeFields(a + ":" + b + ":" + c, [a, b, c], h, m, s);
  }

  lemma ReadThreeFields(text: string, parts: seq<string>, h: int, m: int, s: int)
    requires Split(text, ':') == parts && |parts| == 3
    requires ReadInt(parts[0]) == Some(h) && ReadInt(parts[1]) == Some(m) && ReadInt(parts[2]) == Some(s)
    ensures ReadClock(text) == Some(h * 3600 + m * 60 + s)
  {
  }

  lemma ClockParts(a: string, b: string, c: string)
    requires ':' !in a && ':' !in b && ':' !in c
    ensures Split(a + ":" + b + ":" + c, ':') == [a, b, c]
  {
    Associative(a + ":", b + ":", c);
    Associative(a + ":", b, ":");
    SplitAt(a, b + [':'] + c, ':');
    SplitAt(b, c, ':');
    SplitAt(c, "", ':');
  }

  lemma ClockHasNoSpace(secs: int)
    ensures ' ' !in Clock(secs)
  {
    ShowChars(Quot(secs, 3600), ' ');
    ShowChars(Quot(Rem(secs, 3600), 60), ' ');
    ShowChars(Rem(secs, 60), ' ');
  }

  lemma ClockArithmetic(secs: int)
    ensures Quot(secs, 3600) * 3600 + Quot(Rem(secs, 3600), 60) * 60 + Rem(secs, 60) == secs
  {
    NatClock(Abs(secs));
  }

  lemma NatClock(n: nat)
    ensures n % 3600 / 60 * 60 + n % 60 == n % 3600
  {
    var h, r := n / 3600, n % 3600;
    assert n == 3600 * h + r;
    Mod60(n, 60 * h + r / 60, r % 60);
  }

  lemma Mod60(n: nat, q: nat, r: nat)
    requires n == 60 * q + r && r < 60
    ensures n % 60 == r
  {
  }

  lemma ReadPrintedQuantity(n: int, unit: string, rest: seq<string>)
    requires n == 0 ==> !StartsWithUnit(rest, unit)
    ensures ReadQuantity(QuantityWords(n, unit) + rest, unit) == (n, rest)
  {
    ReadShow(n);
    var words := QuantityWords(n, unit) + rest;
    if n == 0 {
      assert words == rest;
    } else {
      assert words[2..] == rest;
    }
  }

  lemma QuantityHasNoSpace(n: int, unit: string)
    requires ' ' !in unit
    ensures NoneContains(QuantityWords(n, unit), ' ')
  {
    ShowChars(n, ' ');
  }

  lemma WordsHaveNoSpace(iv: Interval)
    ensures NoneContains(Words(iv), ' ')
  {
    QuantityHasNoSpace(Quot(iv.months, 12), "year");
    QuantityHasNoSpace(Rem(iv.months, 12), "mon");
    QuantityHasNoSpace(iv.days, "day");
    ClockHasNoSpace(Quot(iv.microseconds, 1_000_000));
  }

  /** Do these words start with a quantity in `unit`? */
  predicate StartsWithUnit(words: seq<string>, unit: string) {
    |words| >= 2 && (words[1] == unit || words[1] == unit + "s")
  }

  /** A unit is recognised by its first letter, and a clock alone is too short to be a quantity. */
  lemma NotThisUnit(n: int, other: string, rest: seq<string>, unit: string)
    requires other != "" && unit != "" && other[0] != unit[0]
    requires !StartsWithUnit(rest, unit)
    ensures !StartsWithUnit(QuantityWords(n, other) + rest, unit)
  {
    var words := QuantityWords(n, other) + rest;
    if n == 0 {
      assert words == rest;
    } else {
      assert words[1] == Plural(n, other);
      assert words[1][0] == other[0] && unit[0] == (unit + "s")[0];
    }
  }

  lemma ReadPrintedWords(iv: Interval)
    ensures ReadWords(Words(iv)) == Some((iv.months, iv.days, Quot(iv.microseconds, 1_000_000)))
  {
    var y, m := Quot(iv.months, 12), Rem(iv.months, 12);
    ReadPrintedUnits(y, m, iv.days, ClockPart(iv.microseconds), Words(iv), "year", "mon", "day");
    ReadPrintedTail(iv.microseconds);
    YearsAndMonths(iv.months);
  }

  lemma YearsAndMonths(months: int)
    ensures Quot(months, 12) * 12 + Rem(months, 12) == months
  {
  }

  /** Each quantity is read from the words in turn, and the tail is left. */
  lemma ReadPrintedUnits(y: int, m: int, d: int, clock: seq<string>, words: seq<string>, year: string, mon: string,
                         day: string)
    requires year != "" && mon != "" && day != "" && year[0] != mon[0] && year[0] != day[0] && mon[0] != day[0]
    requires words == QuantityWords(y, year) + QuantityWords(m, mon) + QuantityWords(d, day) + clock
    requires |clock| <= 1
    ensures ReadUnits(words, year, mon, day)
         == if ReadTail(clock).None? then None else Some((y * 12 + m, d, ReadTail(clock).value))
  {
    var fromDays := QuantityWords(d, day) + clock;
    var fromMons := QuantityWords(m, mon) + fromDays;
    NestedWords(QuantityWords(y, year), QuantityWords(m, mon), QuantityWords(d, day), clock);
    NotThisUnit(d, day, clock, mon);
    NotThisUnit(d, day, clock, year);
    NotThisUnit(m, mon, fromDays, year);
    ReadPrintedQuantity(y, year, fromMons);
    ReadPrintedQuantity(m, mon, fromDays);
    ReadPrintedQuantity(d, day, clock);
  }

  lemma NestedWords(a: seq<string>, b: seq<string>, c: seq<string>, d: seq<string>)
    ensures a + b + c + d == a + (b + (c + d))
  {
  }

  lemma ReadPrintedTail(microseconds: int)
    ensures ReadTail(ClockPart(microseconds)) == Some(Quot(microseconds, 1_000_000))
  {
    ReadPrintedClock(Quot(microseconds, 1_000_000));
  }

  /** Parsing the printed form gives back months, days and the microseconds truncated toward zero to seconds. */
  lemma RoundTrip(iv: Interval)
    ensures ParseInterval(IntervalText(iv)) == Some((iv.months, iv.days, Quot(iv.microseconds, 1_000_000)))
  {
    ReadPrintedWords(iv);
    var text := TextAsClockOrWords(iv);
    if Words(iv) == [] {
      ReadZeroClock(text, 0);
      LoneClock(text, 0);
    } else {
      WordsHaveNoSpace(iv);
      SplitJoin(Words(iv), ' ');
    }
  }

  /** The text is its words joined, or the clock at zero when there are none. */
  lemma TextAsClockOrWords(iv: Interval) returns (text: string)
    ensures text == IntervalText(iv)
    ensures text == if Words(iv) == [] then "00:00:00" else Join(Words(iv), ' ')
  {
    JoinParts(iv);
    text := IntervalText(iv);
  }

  lemma ReadZeroClock(text: string, zero: int)
    requires text == "00:00:00" && zero == 0
    ensures ReadClock(text) == Some(zero) && ' ' !in text
  {
    ReadClockFields(zero, zero, zero);
    ZeroFields(zero, zero, zero);
  }

  lemma ZeroFields(h: int, m: int, s: int)
    requires h == 0 && m == 0 && s == 0
    ensures Show02(h) + ":" + Show02(m) + ":" + Show02(s) == "00:00:00"
  {
    var two := Show02(h);
    ZeroDigits(h);
    assert two + ":" + two + ":" + two == "00:00:00";
  }

  lemma ZeroDigits(n: int)
    requires n == 0
    ensures Show02(n) == "00"
  {
    assert ShowNat(n) == [Digit(n)];
  }

  lemma LoneClock(clock: string, secs: int)
    requires ' ' !in clock && ReadClock(clock) == Some(secs)
    ensures ParseInterval(clock) == Some((0, 0, secs))
  {
    SplitAt(clock, "", ' ');
  }

  /** Intervals that differ in months, days or whole seconds print differently. */
  lemma TextInjective(a: Interval, b: Interval)
    requires IntervalText(a) == IntervalText(b)
    ensures a.months == b.months && a.days == b.days
            && Quot(a.microseconds, 1_000_000) == Quot(b.microseconds, 1_000_000)
  {
    RoundTrip(a);
    RoundTrip(b);
  }

  // ----- the text, spelt out -----

  /** Division truncates toward zero: the remainder is smaller than the divisor and has the dividend's sign. */
  lemma QuotTruncates(a: int, b: int)
    requires b > 0
    ensures a == Quot(a, b) * b + Rem(a, b)
    ensures a >= 0 ==> 0 <= Rem(a, b) < b && Quot(a, b) >= 0
    ensures a <= 0 ==> -b < Rem(a, b) <= 0 && Quot(a, b) <= 0
  {
    var n := if a >= 0 then a else -a;
    var q, r := n / b, n % b;
    Division(n, b, q, r);
    Opposite(q, b);
  }

  lemma Division(n: nat, b: int, q: int, r: int)
    requires b > 0 && q == n / b && r == n % b
    ensures n == q * b + r && 0 <= r < b && q >= 0
  {
  }

  lemma Opposite(q: int, b: int)
    ensures (-q) * b == -(q * b)
  {
  }

  /** Decimal digits, most significant first, without a leading zero. */
  lemma {:induction false} ShowDigits(n: nat)
    ensures n < 10 ==> ShowNat(n) == [('0' as int + n) as char]
    ensures n >= 10 ==> ShowNat(n) == ShowNat(n / 10) + [('0' as int + n % 10) as char]
    ensures n > 0 ==> ShowNat(n)[0] != '0'
    ensures Show(n) == ShowNat(n) && (n > 0 ==> Show(0 - n) == "-" + ShowNat(n))
  {
    if n >= 10 {
      ShowDigits(n / 10);
    }
  }

  /** Two digits below a hundred, and the sign in front of a negative number. */
  lemma TwoDigits(n: nat)
    requires n < 100
    ensures Show02(n) == [('0' as int + n / 10) as char, ('0' as int + n % 10) as char]
    ensures n > 0 ==> Show02(0 - n) == "-" + ShowNat(n)
  {
    ShowDigits(n);
    if n >= 10 {
      ShowDigits(n / 10);
    }
  }

  /** A quantity in words: nothing for zero, the singular for one and minus one. */
  function Spelt(n: int, one: string, many: string): seq<string> {
    if n == 0 then [] else if n == 1 || n == -1 then [Show(n) + " " + one] else [Show(n) + " " + many]
  }

  /** Hours, minutes and seconds of the whole seconds, unless there are no microseconds at all. */
  lemma ClockIs(microseconds: int, h: int, m: int, s: int)
    requires h == Quot(Quot(microseconds, 1_000_000), 3600)
    requires m == Quot(Rem(Quot(microseconds, 1_000_000), 3600), 60)
    requires s == Rem(Quot(microseconds, 1_000_000), 60)
    ensures microseconds == 0 ==> ClockPart(microseconds) == []
    ensures microseconds != 0 ==> ClockPart(microseconds) == [Show02(h) + ":" + Show02(m) + ":" + Show02(s)]
    ensures -60 < m < 60 && -60 < s < 60 && h * 3600 + m * 60 + s == Quot(microseconds, 1_000_000)
  {
    var secs := Quot(microseconds, 1_000_000);
    ClockArithmetic(secs);
    QuotTruncates(secs, 60);
    QuotTruncates(secs, 3600);
    QuotTruncates(Rem(secs, 3600), 60);
  }

  /** The non-zero quantities, largest unit first, and the clock, with single spaces between them. */
  lemma TextIs(iv: Interval)
    ensures var parts := Spelt(Quot(iv.months, 12), "year", "years") + Spelt(Rem(iv.months, 12), "mon", "mons")
                         + Spelt(iv.days, "day", "days") + ClockPart(iv.microseconds);
            IntervalText(iv) == if parts == [] then "00:00:00" else Join(parts, ' ')
  {
    SpeltIsPart(Quot(iv.months, 12), "year", "years");
    SpeltIsPart(Rem(iv.months, 12), "mon", "mons");
    SpeltIsPart(iv.days, "day", "days");
  }

  lemma SpeltIsPart(n: int, one: string, many: string)
    requires many == one + "s"
    ensures Part(n, one) == Spelt(n, one, many)
  {
  }

  /** The documented example. */
  lemma DocumentedExample(iv: Interval)
    requires iv == Interval(14, 3, 14_706_000_000)
    ensures IntervalText(iv) == "1 year 2 mons 3 days 04:05:06"
  {
    TextIs(iv);
    ExampleClock(iv.microseconds);
    ExampleQuantities(1, 2, 3);
    FourParts("1 year", "2 mons", "3 days", "04:05:06");
  }

  lemma ExampleClock(microseconds: int)
    requires microseconds == 14_706_000_000
    ensures ClockPart(microseconds) == ["04:05:06"]
  {
    ClockIs(microseconds, 4, 5, 6);
    TwoDigits(4);
    TwoDigits(5);
    TwoDigits(6);
    assert Show02(4) == "04" && Show02(5) == "05" && Show02(6) == "06";
    assert Show02(4) + ":" + Show02(5) + ":" + Show02(6) == "04:05:06";
  }

  lemma ExampleQuantities(a: int, b: int, c: int)
    requires a == 1 && b == 2 && c == 3
    ensures Spelt(a, "year", "years") == ["1 year"] && Spelt(b, "mon", "mons") == ["2 mons"]
    ensures Spelt(c, "day", "days") == ["3 days"]
  {
    ShowDigits(a);
    ShowDigits(b);
    ShowDigits(c);
    assert Show(a) + " " + "year" == "1 year";
    assert Show(b) + " " + "mons" == "2 mons";
    assert Show(c) + " " + "days" == "3 days";
  }

  lemma FourParts(a: string, b: string, c: string, d: string)
    ensures Join([a, b, c, d], ' ') == a + " " + b + " " + c + " " + d
  {
    JoinFirst(a, [b, c, d]);
    JoinFirst(b, [c, d]);
    JoinFirst(c, [d]);
    assert a + [' '] + (b + [' '] + (c + [' '] + d)) == a + " " + b + " " + c + " " + d;
  }

  lemma JoinFirst(a: string, rest: seq<string>)
    requires rest != []
    ensures Join([a] + rest, ' ') == a + [' '] + Join(rest, ' ')
    ensures |rest| == 1 ==> Join(rest, ' ') == rest[0]
    ensures |rest| == 2 ==> [a] + rest == [a, rest[0], rest[1]]
    ensures |rest| == 3 ==> [a] + rest == [a, rest[0], rest[1], rest[2]]
  {
    assert ([a] + rest)[1..] == rest;
  }
}
