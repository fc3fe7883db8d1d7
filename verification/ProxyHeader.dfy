/**
 The HTTP side of the SSH tunnel's proxy: read one header block, and unless it is a CONNECT, forward
 it in origin form (sections 3.2.1 and 3.2.2 of RFC 9112) with the hop-by-hop connection fields
 replaced (section 7.6.1 of RFC 9110).
 */
module ProxyHeader {
  import opened Bytes
  import opened Options
  import opened Splitting

  const CR: byte := 13
  const LF: byte := 10
  const COLON: byte := 58
  const SPACE: byte := 32
  const QUESTION: byte := 63
  const SLASH: byte := 47

  const MAX_HEADER: nat := 16 * 1024

  function Crlf(): Bytes { [CR, LF] }

  // ----- reading the block -----

  predicate EndsBlank(s: Bytes) {
    |s| >= 4 && s[|s| - 4] == CR && s[|s| - 3] == LF && s[|s| - 2] == CR && s[|s| - 1] == LF
  }

  datatype ReadResult = Header(header: Bytes) | TooLarge | ClosedEarly

  /**
   The reading loop: byte by byte, so nothing after the blank line is consumed.  The header is the
   shortest prefix that ends with a blank line, if that fits.
   */
  method ReadHeader(input: Bytes) returns (r: ReadResult)
    ensures r.Header? ==> r.header <= input && EndsBlank(r.header) && |r.header| <= 16_384
    ensures r.Header? ==> forall n :: 0 <= n < |r.header| ==> !EndsBlank(input[..n])
    ensures r.TooLarge? <==> |input| >= 16_384 && forall n :: 0 <= n <= 16_384 ==> !EndsBlank(input[..n])
    ensures r.ClosedEarly? <==> |input| < 16_384 && forall n :: 0 <= n <= |input| ==> !EndsBlank(input[..n])
  {
    var header: Bytes := [];
    while !EndsBlank(header)
      invariant header <= input && |header| <= MAX_HEADER
      invariant forall n :: 0 <= n < |header| ==> !EndsBlank(input[..n])
      decreases MAX_HEADER - |header|
    {
      assert input[..|header|] == header;
      if |header| >= MAX_HEADER {
        return TooLarge;
      }
      if |header| == |input| {
        return ClosedEarly;
      }
      header := header + [input[|header|]];
    }
    assert input[..|header|] == header;
    return Header(header);
  }

  // ----- rewriting it -----

  datatype Url = Url(path: Bytes, query: Option<Bytes>)

  /** Library behaviour: UTF-8 validation, splitting at whitespace, and URL parsing. */
  datatype Library = Library(utf8: Bytes -> bool, words: Bytes -> seq<Bytes>, parseUrl: Bytes -> Option<Url>)

  /** What became of the request, with the bytes written to the database by then. */
  datatype Outcome = Tunnel | Forward(bytes: Bytes) | Invalid | Panic(bytes: Bytes)

  function WordAt(words: seq<Bytes>, i: nat): Bytes { if i < |words| then words[i] else [] }

  /** Path and query. */
  function Target(url: Url): Bytes { url.path + if url.query.Some? then [QUESTION] + url.query.value else [] }

  /** The origin-form request line, when the proxied one can be understood. */
  function OriginLine(lib: Library, line: Bytes): Option<Bytes> {
    if !lib.utf8(line) then None
    else
      var words := lib.words(line);
      var url := lib.parseUrl(WordAt(words, 1));
      if url.None? then None
      else
        Some(WordAt(words, 0) + [SPACE] + Target(url.value) + [SPACE] + WordAt(words, 2))
  }

  function Lower(b: byte): byte { if 65 <= b <= 90 then b + 32 else b }

  predicate EqIgnoreCase(a: Bytes, b: Bytes) {
    |a| == |b| && forall i :: 0 <= i < |a| ==> Lower(a[i]) == Lower(b[i])
  }

  function FieldName(line: Bytes): Bytes { line[..IndexOf(line, COLON)] }

  /** Is this a Connection or Proxy-Connection field? */
  predicate IsConnectionField(line: Bytes) {
    EqIgnoreCase(FieldName(line), Ascii("connection")) || EqIgnoreCase(FieldName(line), Ascii("proxy-connection"))
  }

  function StripCr(line: Bytes): Bytes {
    if line != [] && line[|line| - 1] == CR then line[..|line| - 1] else line
  }

  /** The position of the first CRLF at or after `from`. */
  function LineEnd(header: Bytes, from: nat): (p: nat)
    requires EndsBlank(header) && from + 4 <= |header|
    ensures from <= p && p + 4 <= |header| && header[p] == CR && header[p + 1] == LF
    ensures forall q :: from <= q < p ==> !(header[q] == CR && header[q + 1] == LF)
    decreases |header| - from
  {
    if header[from] == CR && header[from + 1] == LF then from
    else
      assert from != |header| - 4;
      LineEnd(header, from + 1)
  }

  /** The lines as they come out of the split, forwarded one by one. */
  function ForwardLines(lines: seq<Bytes>): Bytes {
    if lines == [] then []
    else if IsConnectionField(StripCr(lines[0])) then ForwardLines(lines[1..])
    else StripCr(lines[0]) + Crlf() + ForwardLines(lines[1..])
  }

  function CloseField(): Bytes { Ascii("Connection: close") }

  /**
   The new request line and the field that closes the connection, which are written before the field lines
   are cut out.
   */
  function Opening(request: Bytes): Bytes { request + Crlf() + CloseField() + Crlf() }

  function Rewritten(header: Bytes, lib: Library): Outcome
    requires EndsBlank(header)
  {
    var p := LineEnd(header, 0);
    var request := OriginLine(lib, header[..p]);
    if Ascii("CONNECT ") <= header then Tunnel
    else if request.None? then Invalid
    else if p + 2 > |header| - 4 then Panic(Opening(request.value))   // the source's slice starts after its end
    else Forward(Opening(request.value) + ForwardLines(Split(header[p + 2..|header| - 4], LF)) + Crlf())
  }

  /** `proxy_connection` after the header has been read. */
  method RewriteHeader(header: Bytes, lib: Library) returns (out: Outcome)
    requires EndsBlank(header)
    ensures out == Rewritten(header, lib)
  {
    if Ascii("CONNECT ") <= header {
      return Tunnel;
    }
    var lineEnd := LineEnd(header, 0);
    var request := OriginLine(lib, header[..lineEnd]);
    if request.None? {
      return Invalid;
    }
    var written := request.value;
    written := written + Crlf() + CloseField() + Crlf();
    if lineEnd + 2 > |header| - 4 {
      return Panic(written);
    }
    written := WriteLines(written, Split(header[lineEnd + 2..|header| - 4], LF));
    return Forward(written + Crlf());
  }

  /** The loop that writes the surviving field lines after what has been `sent`. */
  method WriteLines(sent: Bytes, lines: seq<Bytes>) returns (written: Bytes)
    ensures written == sent + ForwardLines(lines)
  {
    written := sent;
    var i := 0;
    while i < |lines|
      invariant 0 <= i <= |lines|
      invariant written + ForwardLines(lines[i..]) == sent + ForwardLines(lines)
    {
      var line := StripCr(lines[i]);
      assert lines[i..][1..] == lines[i + 1..];
      if !IsConnectionField(line) {
        Regroup(written, line, ForwardLines(lines[i + 1..]));
        written := written + line;
        written := written + Crlf();
      }
      i := i + 1;
    }
  }

  lemma Regroup(a: Bytes, b: Bytes, c: Bytes)
    ensures a + (b + Crlf() + c) == a + b + Crlf() + c
  {
  }

  // ----- header blocks -----

  /** A request line and field lines, each ended by CRLF, and the blank line. */
  function Block(line: Bytes, fields: seq<Bytes>): Bytes
    decreases |fields|
  {
    line + Crlf() + if fields == [] then Crlf() else Block(fields[0], fields[1..])
  }

  /** No bare LF, and no empty field line. */
  ghost predicate WellFormed(line: Bytes, fields: seq<Bytes>) {
    && LF !in line
    && forall i :: 0 <= i < |fields| ==> LF !in fields[i] && fields[i] != []
  }

  lemma {:induction false} BlockEndsBlank(line: Bytes, fields: seq<Bytes>)
    ensures EndsBlank(Block(line, fields))
    decreases |fields|
  {
    if fields != [] {
      BlockEndsBlank(fields[0], fields[1..]);
    }
  }

  /** No proper prefix of a block ends with a blank line. */
  lemma {:induction false} NoEarlyEnd(line: Bytes, fields: seq<Bytes>, n: nat)
    requires WellFormed(line, fields) && n < |Block(line, fields)|
    ensures !EndsBlank(Block(line, fields)[..n])
    decreases |fields|
  {
    if fields == [] {
      NoBlankAtJoint(line, Crlf(), n);
    } else {
      var tail := Block(fields[0], fields[1..]);
      BlockStart(fields[0], fields[1..]);
      if n <= |line| + 5 {
        NoBlankAtJoint(line, tail, n);
      } else {
        NoEarlyEnd(fields[0], fields[1..], n - |line| - 2);
        assert Block(line, fields)[..n] == line + Crlf() + tail[..n - |line| - 2];
        BlankIsLocal(line + Crlf(), tail[..n - |line| - 2]);
      }
    }
  }

  /** Neither of a block's first two bytes is LF when its first line is not empty. */
  lemma BlockStart(line: Bytes, fields: seq<Bytes>)
    requires LF !in line && line != []
    ensures |Block(line, fields)| >= 4 && Block(line, fields)[0] != LF && Block(line, fields)[1] != LF
  {
    var rest := if fields == [] then Crlf() else Block(fields[0], fields[1..]);
    assert Block(line, fields) == line + (Crlf() + rest);
    assert Block(line, fields)[0] == line[0] && line[0] in line;
    assert Block(line, fields)[1] == (if |line| > 1 then line[1] else CR);
    assert |line| > 1 ==> line[1] in line;
    if fields != [] {
      assert |rest| >= 2;
    }
  }

  /** What stands more than four bytes back does not matter. */
  lemma BlankIsLocal(before: Bytes, s: Bytes)
    requires |s| >= 4
    ensures EndsBlank(before + s) <==> EndsBlank(s)
  {
  }

  /** No blank line ends within a line without LF or just after its CRLF, unless an empty line follows. */
  lemma NoBlankAtJoint(line: Bytes, tail: Bytes, n: nat)
    requires LF !in line && |tail| >= 2 && tail[0] != LF && n <= |line| + 2 + |tail|
    requires n <= |line| + 3 || (n <= |line| + 5 && tail[1] != LF)
    ensures !EndsBlank((line + Crlf() + tail)[..n])
  {
    var b := line + Crlf() + tail;
    assert b[|line|] == CR && b[|line| + 1] == LF && b[|line| + 2] == tail[0] && b[|line| + 3] == tail[1];
    assert forall i :: 0 <= i < |line| ==> b[i] == line[i] && line[i] in line;
  }

  /** The reader consumes a block that fits exactly, whatever follows it. */
  lemma BlockIsFirstHeader(line: Bytes, fields: seq<Bytes>, after: Bytes, n: nat)
    requires WellFormed(line, fields)
    ensures EndsBlank((Block(line, fields) + after)[..|Block(line, fields)|])
    ensures n < |Block(line, fields)| ==> !EndsBlank((Block(line, fields) + after)[..n])
  {
    var b := Block(line, fields);
    assert (b + after)[..|b|] == b;
    BlockEndsBlank(line, fields);
    if n < |b| {
      assert (b + after)[..n] == b[..n];
      NoEarlyEnd(line, fields, n);
    }
  }

  // ----- what is forwarded -----

  /** The field lines without Connection and Proxy-Connection. */
  function Kept(fields: seq<Bytes>): seq<Bytes> {
    if fields == [] then []
    else (if IsConnectionField(fields[0]) then [] else [fields[0]]) + Kept(fields[1..])
  }

  /** The field lines as the split yields them: every one but the last still has its CR. */
  function RawLines(fields: seq<Bytes>): seq<Bytes> {
    seq(|fields|, i requires 0 <= i < |fields| => if i < |fields| - 1 then fields[i] + [CR] else fields[i])
  }

  /** The last line loses a CR of its own if it ends with one. */
  function LastStripped(fields: seq<Bytes>): seq<Bytes>
    requires fields != []
  {
    fields[..|fields| - 1] + [StripCr(fields[|fields| - 1])]
  }

  lemma {:induction false} BlockBody(line: Bytes, fields: seq<Bytes>)
    requires fields != []
    ensures Block(line, fields) == line + Crlf() + (Join(RawLines(fields), LF) + Crlf() + Crlf())
    decreases |fields|
  {
    var f := fields[0];
    assert RawLines(fields)[1..] == RawLines(fields[1..]);
    if |fields| == 1 {
      assert Block(f, []) == f + Crlf() + Crlf();
    } else {
      var rest := Join(RawLines(fields[1..]), LF);
      BlockBody(f, fields[1..]);
      assert Join(RawLines(fields), LF) == f + [CR] + [LF] + rest;
      FieldThenRest(f, rest);
    }
  }

  lemma FieldThenRest(f: Bytes, rest: Bytes)
    ensures f + Crlf() + (rest + Crlf() + Crlf()) == f + [CR] + [LF] + rest + Crlf() + Crlf()
  {
  }

  function Stripped(lines: seq<Bytes>): seq<Bytes> {
    seq(|lines|, i requires 0 <= i < |lines| => StripCr(lines[i]))
  }

  /** What follows the request line of a block. */
  function Tail(fields: seq<Bytes>): Bytes {
    if fields == [] then Crlf() else Block(fields[0], fields[1..])
  }

  /** The forwarding loop's output, closed by the blank line, is the tail of a block of the surviving lines. */
  lemma {:induction false} ForwardIsTail(lines: seq<Bytes>)
    ensures ForwardLines(lines) + Crlf() == Tail(Kept(Stripped(lines)))
  {
    if lines != [] {
      var line, kept := StripCr(lines[0]), Kept(Stripped(lines[1..]));
      ForwardIsTail(lines[1..]);
      assert Stripped(lines)[1..] == Stripped(lines[1..]);
      if IsConnectionField(line) {
        assert [] + kept == kept;
      } else {
        TailCons(line, kept);
        Associative(line + Crlf(), ForwardLines(lines[1..]), Crlf());
      }
    }
  }

  lemma TailCons(line: Bytes, kept: seq<Bytes>)
    ensures Tail([line] + kept) == line + Crlf() + Tail(kept)
  {
    assert ([line] + kept)[0] == line && ([line] + kept)[1..] == kept;
  }

  lemma StrippedRaw(fields: seq<Bytes>)
    requires fields != []
    ensures Stripped(RawLines(fields)) == LastStripped(fields)
  {
    forall i | 0 <= i < |fields| - 1
      ensures StripCr(RawLines(fields)[i]) == fields[i]
    {
      assert (fields[i] + [CR])[..|fields[i]|] == fields[i];
    }
  }

  lemma RawLinesHaveNoLf(fields: seq<Bytes>)
    requires forall i :: 0 <= i < |fields| ==> LF !in fields[i]
    ensures NoneContains(RawLines(fields), LF)
  {
  }

  lemma BlockLineEnd(line: Bytes, rest: Bytes)
    requires LF !in line && EndsBlank(line + Crlf() + rest)
    ensures LineEnd(line + Crlf() + rest, 0) == |line|
  {
    var b := line + Crlf() + rest;
    var p := LineEnd(b, 0);
    assert b[|line|] == CR && b[|line| + 1] == LF;
    assert forall i :: 0 <= i < |line| ==> b[i] == line[i] && line[i] in line;
  }

  /**
   A non-CONNECT block with at least one field line and a request line the proxy understands is
   forwarded as one block: the origin-form request line, `Connection: close`, and the field lines
   other than Connection and Proxy-Connection, in order.  They are unchanged byte for byte, except
   that a last line ending in a bare CR loses that CR.
   */
  lemma ForwardedBlock(line: Bytes, fields: seq<Bytes>, lib: Library)
    requires WellFormed(line, fields) && fields != []
    requires !(Ascii("CONNECT ") <= Block(line, fields)) && OriginLine(lib, line).Some?
    ensures EndsBlank(Block(line, fields))
    ensures Rewritten(Block(line, fields), lib)
         == Forward(Block(OriginLine(lib, line).value, [CloseField()] + Kept(LastStripped(fields))))
  {
    BlockEndsBlank(line, fields);
    BodyOfBlock(line, fields);
    RewrittenParts(Block(line, fields), lib, line, RawLines(fields));
    LinesAssemble(OriginLine(lib, line).value, fields);
  }

  lemma LinesAssemble(request: Bytes, fields: seq<Bytes>)
    requires fields != []
    ensures Opening(request) + ForwardLines(RawLines(fields)) + Crlf()
         == Block(request, [CloseField()] + Kept(LastStripped(fields)))
  {
    ForwardIsTail(RawLines(fields));
    StrippedRaw(fields);
    Assemble(request, CloseField(), Kept(LastStripped(fields)), ForwardLines(RawLines(fields)));
  }

  lemma RewrittenParts(header: Bytes, lib: Library, line: Bytes, lines: seq<Bytes>)
    requires EndsBlank(header) && !(Ascii("CONNECT ") <= header)
    requires LineEnd(header, 0) == |line| && |line| + 2 <= |header| - 4 && header[..|line|] == line
    requires OriginLine(lib, line).Some?
    requires Split(header[|line| + 2..|header| - 4], LF) == lines
    ensures Rewritten(header, lib)
         == Forward(Opening(OriginLine(lib, line).value) + ForwardLines(lines) + Crlf())
  {
  }

  lemma Assemble(request: Bytes, close: Bytes, kept: seq<Bytes>, forwarded: Bytes)
    requires forwarded + Crlf() == Tail(kept)
    ensures request + Crlf() + close + Crlf() + forwarded + Crlf() == Block(request, [close] + kept)
  {
    assert ([close] + kept)[0] == close && ([close] + kept)[1..] == kept;
    assert Block(close, kept) == close + Crlf() + Tail(kept);
    ThreeParts(request, close, forwarded);
  }

  lemma ThreeParts(a: Bytes, b: Bytes, c: Bytes)
    ensures a + Crlf() + b + Crlf() + c + Crlf() == a + Crlf() + (b + Crlf() + (c + Crlf()))
  {
  }

  /** Where the proxy finds the request line and the field lines of a block. */
  lemma BodyOfBlock(line: Bytes, fields: seq<Bytes>)
    requires WellFormed(line, fields) && fields != [] && EndsBlank(Block(line, fields))
    ensures var b := Block(line, fields);
            && LineEnd(b, 0) == |line| && |line| + 2 <= |b| - 4
            && b[..|line|] == line
            && Split(b[|line| + 2..|b| - 4], LF) == RawLines(fields)
  {
    var body := Join(RawLines(fields), LF);
    BlockBody(line, fields);
    HeaderParts(line, body, Block(line, fields));
    RawLinesHaveNoLf(fields);
    SplitJoin(RawLines(fields), LF);
  }

  /** Where the proxy finds what stands between the request line and the blank line. */
  lemma HeaderParts(line: Bytes, body: Bytes, header: Bytes)
    requires LF !in line && EndsBlank(header) && header == line + Crlf() + (body + Crlf() + Crlf())
    ensures LineEnd(header, 0) == |line| && |line| + 2 <= |header| - 4
    ensures header[..|line|] == line && header[|line| + 2..|header| - 4] == body
  {
    BlockLineEnd(line, body + Crlf() + Crlf());
    FieldInside(line, body, header);
  }

  /**
   A non-CONNECT block with field lines is forwarded with its surviving field lines byte for byte exactly
   when the last one does not end in a bare CR, or is dropped anyway.
   */
  lemma ByteForByteIff(line: Bytes, fields: seq<Bytes>, lib: Library)
    requires WellFormed(line, fields) && fields != []
    requires !(Ascii("CONNECT ") <= Block(line, fields)) && OriginLine(lib, line).Some?
    ensures EndsBlank(Block(line, fields))
    ensures var last := fields[|fields| - 1];
            Rewritten(Block(line, fields), lib)
              == Forward(Block(OriginLine(lib, line).value, [CloseField()] + Kept(fields)))
            <==> !(last != [] && last[|last| - 1] == 13) || IsConnectionField(last)
  {
    ForwardedBlock(line, fields, lib);
    BlockUnchangedIff(OriginLine(lib, line).value, fields);
  }

  lemma BlockUnchangedIff(request: Bytes, fields: seq<Bytes>)
    requires fields != [] && forall i :: 0 <= i < |fields| ==> LF !in fields[i]
    ensures var last := fields[|fields| - 1];
            Block(request, [CloseField()] + Kept(LastStripped(fields))) == Block(request, [CloseField()] + Kept(fields))
            <==> StripCr(last) == last || IsConnectionField(last)
  {
    KeptUnchangedIff(fields);
    KeptHasNoLf(fields);
    StrippedHasNoLf(fields);
    KeptHasNoLf(LastStripped(fields));
    SameBlockIff(request, CloseField(), Kept(LastStripped(fields)), Kept(fields));
  }

  lemma StrippedHasNoLf(fields: seq<Bytes>)
    requires fields != [] && forall i :: 0 <= i < |fields| ==> LF !in fields[i]
    ensures forall i :: 0 <= i < |LastStripped(fields)| ==> LF !in LastStripped(fields)[i]
  {
  }

  lemma {:induction false} KeptHasNoLf(fields: seq<Bytes>)
    requires forall i :: 0 <= i < |fields| ==> LF !in fields[i]
    ensures forall i :: 0 <= i < |Kept(fields)| ==> LF !in Kept(fields)[i]
  {
    if fields != [] {
      KeptHasNoLf(fields[1..]);
    }
  }

  /** Behind the same opening lines, blocks of lines without LF are the same bytes only if they are the same lines. */
  lemma SameBlockIff(request: Bytes, close: Bytes, a: seq<Bytes>, b: seq<Bytes>)
    requires (forall i :: 0 <= i < |a| ==> LF !in a[i]) && (forall i :: 0 <= i < |b| ==> LF !in b[i])
    ensures Block(request, [close] + a) == Block(request, [close] + b) <==> a == b
  {
    BehindOpening(request, close, a);
    BehindOpening(request, close, b);
    SameBehind(request + Crlf() + (close + Crlf()), Tail(a), Tail(b));
    if Tail(a) == Tail(b) {
      TailInjective(a, b);
    }
  }

  lemma BehindOpening(request: Bytes, close: Bytes, kept: seq<Bytes>)
    ensures Block(request, [close] + kept) == request + Crlf() + (close + Crlf()) + Tail(kept)
  {
    TailCons(close, kept);
    assert Block(request, [close] + kept) == request + Crlf() + Tail([close] + kept);
    Associative(request + Crlf(), close + Crlf(), Tail(kept));
  }

  lemma {:induction false} TailInjective(a: seq<Bytes>, b: seq<Bytes>)
    requires (forall i :: 0 <= i < |a| ==> LF !in a[i]) && (forall i :: 0 <= i < |b| ==> LF !in b[i])
    requires Tail(a) == Tail(b)
    ensures a == b
    decreases |a|
  {
    TailLength(a);
    TailLength(b);
    if a != [] && b != [] {
      FirstLineDetermined(a[0], Tail(a[1..]), b[0], Tail(b[1..]));
      TailInjective(a[1..], b[1..]);
      assert a == [a[0]] + a[1..] && b == [b[0]] + b[1..];
    }
  }

  lemma TailLength(a: seq<Bytes>)
    ensures |Tail(a)| >= 2 && (|Tail(a)| == 2 ==> a == [])
  {
    if a != [] {
      assert Tail(a) == a[0] + Crlf() + Tail(a[1..]);
      assert |Tail(a[1..])| >= 2;
    }
  }

  /** The first LF shows where the first line ends. */
  lemma FirstLineDetermined(x: Bytes, xs: Bytes, y: Bytes, ys: Bytes)
    requires LF !in x && LF !in y && x + Crlf() + xs == y + Crlf() + ys
    ensures x == y && xs == ys
  {
    var s, t := x + Crlf() + xs, y + Crlf() + ys;
    assert s[|x| + 1] == LF && t[|y| + 1] == LF && s[|x|] == CR && t[|y|] == CR;
    assert forall i :: 0 <= i < |x| ==> s[i] == x[i] && x[i] in x;
    assert forall i :: 0 <= i < |y| ==> t[i] == y[i] && y[i] in y;
    assert |x| == |y|;
    assert x == s[..|x|] && y == t[..|y|];
    assert xs == s[|x| + 2..] && ys == t[|y| + 2..];
  }

  /** The same of the lists of lines. */
  lemma KeptUnchangedIff(fields: seq<Bytes>)
    requires fields != []
    ensures var last := fields[|fields| - 1];
            Kept(LastStripped(fields)) == Kept(fields) <==> StripCr(last) == last || IsConnectionField(last)
  {
    var front, last := fields[..|fields| - 1], fields[|fields| - 1];
    assert fields == front + [last];
    KeptAppend(front, [last]);
    KeptAppend(front, [StripCr(last)]);
    SameBehind(Kept(front), KeptOne(last), KeptOne(StripCr(last)));
    if StripCr(last) != last && IsConnectionField(last) {
      StrippedFieldName(last);
    }
  }

  function KeptOne(line: Bytes): (r: seq<Bytes>)
    ensures r == Kept([line])
  {
    assert [line][1..] == [];
    if IsConnectionField(line) then [] else [line]
  }

  lemma {:induction false} KeptAppend(a: seq<Bytes>, b: seq<Bytes>)
    ensures Kept(a + b) == Kept(a) + Kept(b)
  {
    if a == [] {
      assert a + b == b;
    } else {
      var one := if IsConnectionField(a[0]) then [] else [a[0]];
      assert (a + b)[0] == a[0] && (a + b)[1..] == a[1..] + b;
      KeptAppend(a[1..], b);
      assert one + (Kept(a[1..]) + Kept(b)) == (one + Kept(a[1..])) + Kept(b);
    }
  }

  /** A connection field with a trailing CR has a colon before it, so stripping leaves its name alone. */
  lemma StrippedFieldName(line: Bytes)
    requires line != [] && line[|line| - 1] == CR && IsConnectionField(line)
    ensures IsConnectionField(StripCr(line))
  {
    var name, k := FieldName(line), IndexOf(line, COLON);
    NoCrInName(name);
    ColonPresent(line);
    var stripped := StripCr(line);
    assert stripped == name + stripped[k..];
    IndexOfFirst(name, stripped[k..], COLON);
  }

  lemma NoCrInName(name: Bytes)
    requires EqIgnoreCase(name, Ascii("connection")) || EqIgnoreCase(name, Ascii("proxy-connection"))
    ensures CR !in name
  {
    assert Lower(CR) == CR;
  }

  lemma ColonPresent(line: Bytes)
    requires line != [] && line[|line| - 1] == CR && CR !in FieldName(line)
    ensures IndexOf(line, COLON) < |line| - 1
  {
    assert line[..|line|] == line && line[|line| - 1] in line;
    assert CR != COLON;
  }

  /**
   Headers that are not forwarded byte for byte: behind any request line the proxy understands, a last
   field line such as `X` followed by a bare CR loses that CR.
   */
  lemma BareCrIsLost(line: Bytes, field: Bytes, lib: Library)
    requires LF !in line && LF !in field && !IsConnectionField(field)
    requires OriginLine(lib, line).Some? && !(Ascii("CONNECT ") <= Block(line, [field + [CR]]))
    ensures EndsBlank(Block(line, [field + [CR]]))
    ensures Rewritten(Block(line, [field + [CR]]), lib)
            == Forward(Block(OriginLine(lib, line).value, [CloseField()] + [field]))
    ensures Rewritten(Block(line, [field + [CR]]), lib)
         != Forward(Block(OriginLine(lib, line).value, [CloseField()] + [field + [CR]]))
  {
    var fields := [field + [CR]];
    CrStripped(fields, field);
    ForwardedBlock(line, fields, lib);
    LongerFieldDiffers(OriginLine(lib, line).value, field, fields[0]);
  }

  lemma CrStripped(fields: seq<Bytes>, field: Bytes)
    requires fields == [field + [CR]] && !IsConnectionField(field)
    ensures Kept(LastStripped(fields)) == [field]
  {
    assert StripCr(fields[0]) == field;
    assert LastStripped(fields) == [field];
    assert KeptOne(field) == [field];
  }

  lemma LongerFieldDiffers(request: Bytes, a: Bytes, b: Bytes)
    requires LF !in a && LF !in b && a != b
    ensures Block(request, [CloseField()] + [a]) != Block(request, [CloseField()] + [b])
  {
    SameBlockIff(request, CloseField(), [a], [b]);
  }

  /**
   A block without field lines is not forwarded: cutting the field lines out of it panics, and only then,
   when the request line and the closing field have already been written.
   */
  lemma PanicIffNoFields(line: Bytes, fields: seq<Bytes>, lib: Library)
    requires WellFormed(line, fields) && !(Ascii("CONNECT ") <= Block(line, fields)) && OriginLine(lib, line).Some?
    ensures EndsBlank(Block(line, fields))
    ensures Rewritten(Block(line, fields), lib).Panic? <==> fields == []
    ensures fields == [] ==> Rewritten(Block(line, fields), lib) == Panic(Opening(OriginLine(lib, line).value))
  {
    BlockEndsBlank(line, fields);
    if fields == [] {
      BlockLineEnd(line, Crlf());
      assert Block(line, fields)[..|line|] == line;
    } else {
      ForwardedBlock(line, fields, lib);
    }
  }

  // ----- what is known of the libraries -----

  /** Words end at white space, so they have no LF, and the URL parser leaves none in what it returns. */
  ghost predicate NoLfFromLibrary(lib: Library) {
    && (forall line, i :: 0 <= i < |lib.words(line)| ==> LF !in lib.words(line)[i])
    && (forall u :: lib.parseUrl(u).Some? ==> LF !in lib.parseUrl(u).value.path)
    && (forall u :: lib.parseUrl(u).Some? && lib.parseUrl(u).value.query.Some? ==>
      LF !in lib.parseUrl(u).value.query.value)
  }

  /**
   The forwarded request line is one line: method, target and version; its target starts with a slash
   exactly when the URL's path does.
   */
  lemma OriginLineIsOneLine(lib: Library, line: Bytes)
    requires NoLfFromLibrary(lib) && OriginLine(lib, line).Some?
    ensures LF !in OriginLine(lib, line).value
    ensures var words := lib.words(line);
            var url := lib.parseUrl(WordAt(words, 1)).value;
            && OriginLine(lib, line).value == WordAt(words, 0) + [SPACE] + Target(url) + [SPACE] + WordAt(words, 2)
            && ([SLASH] <= Target(url) <==> [SLASH] <= url.path)
  {
    var words := lib.words(line);
    assert forall i :: LF !in WordAt(words, i);
    var url := lib.parseUrl(WordAt(words, 1)).value;
    assert LF !in Target(url);
    TargetStart(url);
  }

  lemma TargetStart(url: Url)
    ensures [SLASH] <= Target(url) <==> [SLASH] <= url.path
  {
    if url.path != [] {
      assert Target(url)[0] == url.path[0];
    } else if Target(url) != [] {
      assert Target(url)[0] == QUESTION;
    }
  }

  // ----- what is forwarded, for every header -----

  /** The field lines as the proxy takes them from a header: cut at every LF, bare or not, and without their CR. */
  function LinesOf(header: Bytes): seq<Bytes>
    requires EndsBlank(header) && LineEnd(header, 0) + 2 <= |header| - 4
  {
    Stripped(Split(header[LineEnd(header, 0) + 2..|header| - 4], LF))
  }

  /** Whatever bytes it consists of, a forwarded header becomes one block of the lines it was cut into. */
  lemma ForwardedLines(header: Bytes, lib: Library)
    requires EndsBlank(header) && Rewritten(header, lib).Forward?
    ensures var p := LineEnd(header, 0);
            && OriginLine(lib, header[..p]).Some? && p + 2 <= |header| - 4
            && Rewritten(header, lib).bytes
               == Block(OriginLine(lib, header[..p]).value, [CloseField()] + Kept(LinesOf(header)))
  {
    var p := LineEnd(header, 0);
    var lines := Split(header[p + 2..|header| - 4], LF);
    ForwardIsTail(lines);
    Assemble(OriginLine(lib, header[..p]).value, CloseField(), Kept(Stripped(lines)), ForwardLines(lines));
  }

  /** An empty line ends the block early, wherever it stands. */
  lemma {:induction false} EmptyLineEndsEarly(line: Bytes, fields: seq<Bytes>, i: nat) returns (n: nat)
    requires i < |fields| && fields[i] == []
    ensures n < |Block(line, fields)| && EndsBlank(Block(line, fields)[..n])
    decreases |fields|
  {
    var tail := Block(fields[0], fields[1..]);
    assert Block(line, fields) == line + Crlf() + tail;
    if i == 0 {
      var rest := if fields[1..] == [] then Crlf() else Block(fields[1..][0], fields[1..][1..]);
      assert tail == Crlf() + rest;
      n := |line| + 4;
      assert Block(line, fields)[..n] == line + Crlf() + Crlf();
    } else {
      var m := EmptyLineEndsEarly(fields[0], fields[1..], i - 1);
      n := |line| + 2 + m;
      BlankIsLocal(line + Crlf(), tail[..m]);
      assert Block(line, fields)[..n] == line + Crlf() + tail[..m];
    }
  }

  /** An empty line is no connection field, so it survives. */
  lemma {:induction false} KeptEmptyLine(fields: seq<Bytes>)
    ensures [] in Kept(fields) <==> [] in fields
  {
    if fields != [] {
      KeptEmptyLine(fields[1..]);
      assert fields == [fields[0]] + fields[1..];
    }
  }

  /** A reader takes these bytes as one header: they end with a blank line, and nothing shorter does. */
  ghost predicate OneBlock(out: Bytes) {
    EndsBlank(out) && forall n :: 0 <= n < |out| ==> !EndsBlank(out[..n])
  }

  /** A block of lines without LF is one block exactly when none of its field lines is empty. */
  lemma BlockIsOneIff(request: Bytes, fields: seq<Bytes>)
    requires LF !in request && forall i :: 0 <= i < |fields| ==> LF !in fields[i]
    ensures OneBlock(Block(request, fields)) <==> [] !in fields
  {
    var out := Block(request, fields);
    BlockEndsBlank(request, fields);
    if [] in fields {
      var i :| 0 <= i < |fields| && fields[i] == [];
      var n := EmptyLineEndsEarly(request, fields, i);
      assert EndsBlank(out[..n]);
    } else {
      forall n | 0 <= n < |out|
        ensures !EndsBlank(out[..n])
      {
        NoEarlyEnd(request, fields, n);
      }
    }
  }

  lemma ForwardedIsOneIff(request: Bytes, lines: seq<Bytes>)
    requires LF !in request && forall i :: 0 <= i < |lines| ==> LF !in lines[i]
    ensures OneBlock(Block(request, [CloseField()] + Kept(lines))) <==> [] !in lines
  {
    var fields := [CloseField()] + Kept(lines);
    KeptHasNoLf(lines);
    KeptEmptyLine(lines);
    assert [] in fields <==> [] in Kept(lines);
    BlockIsOneIff(request, fields);
  }

  lemma LinesHaveNoLf(s: Bytes)
    ensures forall i :: 0 <= i < |Stripped(Split(s, LF))| ==> LF !in Stripped(Split(s, LF))[i]
  {
    SplitPieces(s, LF);
  }

  /**
   Every header that is forwarded, whatever bytes it consists of: what reaches the database is one block, with no
   blank line before its end, exactly when none of the lines it was cut into is empty.
   */
  lemma OneBlockIff(header: Bytes, lib: Library)
    requires EndsBlank(header) && Rewritten(header, lib).Forward? && NoLfFromLibrary(lib)
    ensures LineEnd(header, 0) + 2 <= |header| - 4
    ensures OneBlock(Rewritten(header, lib).bytes) <==> [] !in LinesOf(header)
  {
    var p := LineEnd(header, 0);
    ForwardedLines(header, lib);
    OriginLineIsOneLine(lib, header[..p]);
    LinesHaveNoLf(header[p + 2..|header| - 4]);
    ForwardedIsOneIff(OriginLine(lib, header[..p]).value, LinesOf(header));
  }

  /** For a block of lines without bare LF that means: exactly when the last field line is not a lone CR. */
  lemma LoneCrIff(line: Bytes, fields: seq<Bytes>, lib: Library)
    requires WellFormed(line, fields) && fields != [] && NoLfFromLibrary(lib)
    requires !(Ascii("CONNECT ") <= Block(line, fields)) && OriginLine(lib, line).Some?
    ensures EndsBlank(Block(line, fields)) && Rewritten(Block(line, fields), lib).Forward?
    ensures OneBlock(Rewritten(Block(line, fields), lib).bytes) <==> fields[|fields| - 1] != [CR]
  {
    ForwardedBlock(line, fields, lib);
    OriginLineIsOneLine(lib, line);
    StrippedHasNoLf(fields);
    ForwardedIsOneIff(OriginLine(lib, line).value, LastStripped(fields));
    StrippedEmptyIff(fields);
  }

  lemma StrippedEmptyIff(fields: seq<Bytes>)
    requires fields != [] && forall i :: 0 <= i < |fields| ==> fields[i] != []
    ensures [] in LastStripped(fields) <==> fields[|fields| - 1] == [CR]
  {
    var last := fields[|fields| - 1];
    assert LastStripped(fields)[|fields| - 1] == StripCr(last);
  }

  /**
   Headers that are not forwarded as one block: behind any request line the proxy understands, a field with two
   bare LFs in a row is forwarded with a blank line inside.
   */
  lemma DoubledLfEndsEarly(line: Bytes, a: Bytes, b: Bytes, lib: Library)
    requires LF !in line && LF !in a && NoLfFromLibrary(lib) && OriginLine(lib, line).Some?
    requires !(Ascii("CONNECT ") <= Block(line, [a + [LF] + ([LF] + b)]))
    ensures var header := Block(line, [a + [LF] + ([LF] + b)]);
            && EndsBlank(header) && Rewritten(header, lib).Forward?
            && !OneBlock(Rewritten(header, lib).bytes)
  {
    var field := a + [LF] + ([LF] + b);
    var header := Block(line, [field]);
    BlockEndsBlank(line, [field]);
    OneFieldHeader(line, field, header);
    DoubledLfSplits(a, b);
    EmptyPieceCounts(header, field);
    OneBlockIff(header, lib);
  }

  lemma EmptyPieceCounts(header: Bytes, field: Bytes)
    requires EndsBlank(header) && LineEnd(header, 0) + 2 <= |header| - 4
    requires header[LineEnd(header, 0) + 2..|header| - 4] == field
    requires |Split(field, LF)| >= 2 && Split(field, LF)[1] == []
    ensures [] in LinesOf(header)
  {
    assert StripCr([]) == [];
    assert LinesOf(header)[1] == [];
  }

  lemma OneFieldHeader(line: Bytes, field: Bytes, header: Bytes)
    requires LF !in line && header == Block(line, [field]) && EndsBlank(header)
    ensures LineEnd(header, 0) == |line| && header[..|line|] == line
    ensures |line| + 2 <= |header| - 4 && header[|line| + 2..|header| - 4] == field
  {
    assert Block(field, []) == field + Crlf() + Crlf();
    HeaderParts(line, field, header);
  }

  lemma FieldInside(line: Bytes, field: Bytes, header: Bytes)
    requires header == line + Crlf() + (field + Crlf() + Crlf())
    ensures header[..|line|] == line && |header| == |line| + |field| + 6
    ensures header[|line| + 2..|header| - 4] == field
  {
    assert forall i :: 0 <= i < |field| ==> header[|line| + 2 + i] == field[i];
  }

  lemma DoubledLfSplits(a: Bytes, b: Bytes)
    requires LF !in a
    ensures |Split(a + [LF] + ([LF] + b), LF)| >= 2 && Split(a + [LF] + ([LF] + b), LF)[1] == []
  {
    SplitAt(a, [LF] + b, LF);
    SplitAt([], b, LF);
    assert [] + [LF] + b == [LF] + b;
  }
}
