/**
 The canonical query string of AWS Signature Version 4: parameters are percent-encoded (sections
 2.1 and 2.3 of RFC 3986), sorted, and joined.  Strings are their UTF-8 bytes.
 */
module SigV4 {

  import opened Bytes
  import opened Options
  import opened Splitting

  const PERCENT: byte := 0x25
  const AMPERSAND: byte := 0x26
  const EQUALS: byte := 0x3D

  // ----- percent-encoding -----

  /** A-Z a-z 0-9 - . _ ~ */
  predicate Unreserved(b: byte) {
    || 0x41 <= b <= 0x5A || 0x61 <= b <= 0x7A || 0x30 <= b <= 0x39
    || b == 0x2D || b == 0x2E || b == 0x5F || b == 0x7E
  }

  function HexDigit(d: byte): byte
    requires d < 16
  {
    if d < 10 then 0x30 + d else 0x41 + (d - 10)
  }

  function HexValue(c: byte): Option<byte> {
    if 0x30 <= c <= 0x39 then Some(c - 0x30) else if 0x41 <= c <= 0x46 then Some(c - 0x41 + 10) else None
  }

  function EncodeByte(b: byte): Bytes {
    if Unreserved(b) then [b] else [PERCENT, HexDigit(b / 16), HexDigit(b % 16)]
  }

  function Encode(s: Bytes): Bytes {
    if s == [] then [] else EncodeByte(s[0]) + Encode(s[1..])
  }

  /** `aws_url_encode` */
  method AwsUrlEncode(input: Bytes) returns (encoded: Bytes)
    ensures encoded == Encode(input)
  {
    encoded := [];
    for i := 0 to |input|
      invariant encoded + Encode(input[i..]) == Encode(input)
    {
      assert input[i..][1..] == input[i + 1..];
      Associative(encoded, EncodeByte(input[i]), Encode(input[i + 1..]));
      if Unreserved(input[i]) {
        encoded := encoded + [input[i]];
      } else {
        encoded := encoded + [PERCENT, HexDigit(input[i] / 16), HexDigit(input[i] % 16)];
      }
    }
  }

  /** Percent-decoding; anything but unreserved bytes and %XX is refused. */
  function Decode(s: Bytes): Option<Bytes> {
    if s == [] then Some([])
    else if s[0] == PERCENT then
      if |s| < 3 then None
      else
        var hi, lo, rest := HexValue(s[1]), HexValue(s[2]), Decode(s[3..]);
        if hi.None? || lo.None? || rest.None? then None
        else Some([(hi.value as int * 16 + lo.value as int) as byte] + rest.value)
    else if !Unreserved(s[0]) then None
    else
      var rest := Decode(s[1..]);
      if rest.None? then None else Some([s[0]] + rest.value)
  }

  /** Decoding undoes encoding, so encoding is injective. */
  lemma {:induction false} DecodeEncode(s: Bytes)
    ensures Decode(Encode(s)) == Some(s)
  {
    if s != [] {
      var b, rest := s[0], s[1..];
      DecodeEncode(rest);
      var e := EncodeByte(b) + Encode(rest);
      assert s == [b] + rest;
      if Unreserved(b) {
        assert e[0] == b && b != PERCENT;
        assert e[1..] == Encode(rest);
      } else {
        assert e[3..] == Encode(rest);
        assert e[0] == PERCENT && e[1] == HexDigit(b / 16) && e[2] == HexDigit(b % 16);
      }
    }
  }

  /** The byte at `i` is unreserved, or a percent sign with two upper-case hexadecimal digits behind it. */
  predicate EscapedAt(e: Bytes, i: nat)
    requires i < |e|
  {
    || Unreserved(e[i])
    || (e[i] == PERCENT && i + 2 < |e| && HexValue(e[i + 1]).Some? && HexValue(e[i + 2]).Some?)
  }

  /** Only unreserved bytes and %XX come out. */
  lemma {:induction false} EncodeAlphabet(s: Bytes)
    ensures forall i :: 0 <= i < |Encode(s)| ==> EscapedAt(Encode(s), i)
  {
    if s != [] {
      var head, rest := EncodeByte(s[0]), Encode(s[1..]);
      EncodeAlphabet(s[1..]);
      EncodedByte(s[0]);
      forall i | 0 <= i < |head + rest|
        ensures EscapedAt(head + rest, i)
      {
        if i >= |head| {
          assert EscapedAt(rest, i - |head|);
        } else {
          assert EscapedAt(head, i);
        }
      }
    }
  }

  lemma EncodedByte(b: byte)
    ensures forall i :: 0 <= i < |EncodeByte(b)| ==> EscapedAt(EncodeByte(b), i)
  {
    assert forall d: byte :: d < 16 ==> Unreserved(HexDigit(d)) && HexValue(HexDigit(d)).Some?;
  }

  // ----- the order of encoded pairs -----

  /** A parameter: name and value. */
  datatype Pair = Pair(key: Bytes, value: Bytes)

  /** Lexicographic order of byte strings. */
  predicate BytesLe(a: Bytes, b: Bytes) {
    a == [] || (b != [] && (a[0] < b[0] || (a[0] == b[0] && BytesLe(a[1..], b[1..]))))
  }

  predicate PairLe(p: Pair, q: Pair) {
    if p.key == q.key then BytesLe(p.value, q.value) else BytesLe(p.key, q.key)
  }

  lemma {:induction false} BytesTotal(a: Bytes, b: Bytes)
    ensures BytesLe(a, b) || BytesLe(b, a)
    ensures BytesLe(a, b) && BytesLe(b, a) ==> a == b
  {
    if a != [] && b != [] {
      BytesTotal(a[1..], b[1..]);
      assert a == [a[0]] + a[1..] && b == [b[0]] + b[1..];
    }
  }

  lemma {:induction false} BytesTransitive(a: Bytes, b: Bytes, c: Bytes)
    requires BytesLe(a, b) && BytesLe(b, c)
    ensures BytesLe(a, c)
  {
    if a != [] && b != [] && c != [] {
      if a[0] == b[0] && b[0] == c[0] {
        BytesTransitive(a[1..], b[1..], c[1..]);
      }
    }
  }

  lemma PairTotal(p: Pair, q: Pair)
    ensures PairLe(p, q) || PairLe(q, p)
    ensures PairLe(p, q) && PairLe(q, p) ==> p == q
  {
    BytesTotal(p.key, q.key);
    BytesTotal(p.value, q.value);
  }

  lemma PairTransitive(p: Pair, q: Pair, r: Pair)
    requires PairLe(p, q) && PairLe(q, r)
    ensures PairLe(p, r)
  {
    if p.key == q.key && q.key == r.key {
      BytesTransitive(p.value, q.value, r.value);
    } else {
      if p.key != q.key && q.key != r.key {
        BytesTransitive(p.key, q.key, r.key);
        if p.key == r.key {
          BytesTotal(p.key, q.key);
        }
      }
    }
  }

  ghost predicate Sorted(s: seq<Pair>) {
    forall i, j :: 0 <= i < j < |s| ==> PairLe(s[i], s[j])
  }

  function Insert(p: Pair, s: seq<Pair>): seq<Pair> {
    if s == [] || PairLe(p, s[0]) then [p] + s else [s[0]] + Insert(p, s[1..])
  }

  function Sort(s: seq<Pair>): seq<Pair> {
    if s == [] then [] else Insert(s[0], Sort(s[1..]))
  }

  lemma {:induction false} InsertElements(p: Pair, s: seq<Pair>)
    ensures multiset(Insert(p, s)) == multiset{p} + multiset(s)
  {
    if s != [] && !PairLe(p, s[0]) {
      InsertElements(p, s[1..]);
      assert s == [s[0]] + s[1..];
    }
  }

  lemma SortedCons(p: Pair, s: seq<Pair>)
    requires Sorted(s) && forall j :: 0 <= j < |s| ==> PairLe(p, s[j])
    ensures Sorted([p] + s)
  {
  }

  lemma {:induction false} InsertSorted(p: Pair, s: seq<Pair>)
    requires Sorted(s)
    ensures Sorted(Insert(p, s))
  {
    if s == [] {
    } else if PairLe(p, s[0]) {
      forall j | 0 <= j < |s|
        ensures PairLe(p, s[j])
      {
        if j > 0 {
          PairTransitive(p, s[0], s[j]);
        }
      }
      SortedCons(p, s);
    } else {
      InsertSorted(p, s[1..]);
      InsertElements(p, s[1..]);
      PairTotal(p, s[0]);
      var rest := Insert(p, s[1..]);
      forall j | 0 <= j < |rest|
        ensures PairLe(s[0], rest[j])
      {
        assert rest[j] in multiset(rest);
        assert rest[j] == p || rest[j] in s[1..];
      }
      SortedCons(s[0], rest);
    }
  }

  lemma {:induction false} SortSorts(s: seq<Pair>)
    ensures Sorted(Sort(s)) && multiset(Sort(s)) == multiset(s)
  {
    if s != [] {
      SortSorts(s[1..]);
      InsertSorted(s[0], Sort(s[1..]));
      InsertElements(s[0], Sort(s[1..]));
      assert s == [s[0]] + s[1..];
    }
  }

  lemma SameLeast(a: seq<Pair>, b: seq<Pair>)
    requires Sorted(a) && Sorted(b) && multiset(a) == multiset(b) && a != [] && b != []
    ensures a[0] == b[0]
  {
    assert a[0] in multiset(b) && b[0] in multiset(a);
    LeastFirst(a, b[0]);
    LeastFirst(b, a[0]);
    PairTotal(a[0], b[0]);
  }

  /** There is only one sorted arrangement. */
  lemma {:induction false} SortedUnique(a: seq<Pair>, b: seq<Pair>)
    requires Sorted(a) && Sorted(b) && multiset(a) == multiset(b)
    ensures a == b
  {
    assert |a| == |multiset(a)| == |multiset(b)| == |b|;
    if a != [] {
      SameLeast(a, b);
      assert a == [a[0]] + a[1..] && b == [b[0]] + b[1..];
      assert multiset(a) == multiset{a[0]} + multiset(a[1..]);
      assert multiset(b) == multiset{a[0]} + multiset(b[1..]);
      CancelOne(a[0], multiset(a[1..]), multiset(b[1..]));
      SortedUnique(a[1..], b[1..]);
    }
  }

  lemma CancelOne(p: Pair, a: multiset<Pair>, b: multiset<Pair>)
    requires multiset{p} + a == multiset{p} + b
    ensures a == b
  {
    assert a == (multiset{p} + a) - multiset{p};
    assert b == (multiset{p} + b) - multiset{p};
  }

  lemma LeastFirst(s: seq<Pair>, p: Pair)
    requires Sorted(s) && p in s
    ensures PairLe(s[0], p)
  {
    PairTotal(s[0], s[0]);
    var i :| 0 <= i < |s| && s[i] == p;
  }

  // ----- the canonical query string -----

  function Map<A, B>(f: A -> B, s: seq<A>): (r: seq<B>)
    ensures |r| == |s|
    ensures forall i :: 0 <= i < |s| ==> r[i] == f(s[i])
  {
    seq(|s|, i requires 0 <= i < |s| => f(s[i]))
  }

  function EncodePair(p: Pair): Pair { Pair(Encode(p.key), Encode(p.value)) }

  function Assignment(p: Pair): Bytes { p.key + [EQUALS] + p.value }

  function SortedPairs(params: seq<Pair>): seq<Pair> { Sort(Map(EncodePair, params)) }

  function Canonical(params: seq<Pair>): Bytes { Join(Map(Assignment, SortedPairs(params)), AMPERSAND) }

  /** `build_canonical_query_string` */
  method BuildCanonicalQueryString(params: seq<Pair>) returns (query: Bytes)
    ensures query == Canonical(params)
  {
    var encoded: seq<Pair> := [];
    for i := 0 to |params|
      invariant encoded == Map(EncodePair, params[..i])
    {
      var k := AwsUrlEncode(params[i].key);
      var v := AwsUrlEncode(params[i].value);
      encoded := encoded + [Pair(k, v)];
      assert encoded == Map(EncodePair, params[..i + 1]);
    }
    assert params[..|params|] == params;
    var sorted := Sort(encoded);
    query := Join(Map(Assignment, sorted), AMPERSAND);
  }

  // ----- order of the parameters does not matter -----

  lemma {:induction false} MapMultiset<A, B>(f: A -> B, a: seq<A>, b: seq<A>)
    requires multiset(a) == multiset(b)
    ensures multiset(Map(f, a)) == multiset(Map(f, b))
    decreases |a|
  {
    if a == [] {
      assert |multiset(b)| == 0;
    } else {
      assert a[0] in multiset(b);
      var k :| 0 <= k < |b| && b[k] == a[0];
      WithoutOne(a, 0);
      WithoutOne(b, k);
      MapMultiset(f, Without(a, 0), Without(b, k));
      MapWithout(f, a, 0);
      MapWithout(f, b, k);
    }
  }

  function Without<A>(s: seq<A>, k: nat): (r: seq<A>)
    requires k < |s|
    ensures |r| == |s| - 1
  {
    s[..k] + s[k + 1..]
  }

  lemma MapCommutes<A, B>(f: A -> B, s: seq<A>, k: nat)
    requires k < |s|
    ensures Without(Map(f, s), k) == Map(f, Without(s, k))
  {
    var r, m := Without(Map(f, s), k), Map(f, Without(s, k));
    forall i | 0 <= i < |r|
      ensures r[i] == m[i]
    {
      var j := if i < k then i else i + 1;
      assert r[i] == Map(f, s)[j] && Without(s, k)[i] == s[j];
    }
  }

  lemma MapWithout<A, B>(f: A -> B, s: seq<A>, k: nat)
    requires k < |s|
    ensures multiset(Map(f, s)) == multiset(Map(f, Without(s, k))) + multiset{f(s[k])}
  {
    MapCommutes(f, s, k);
    WithoutOne(Map(f, s), k);
  }

  lemma WithoutOne<A>(s: seq<A>, k: nat)
    requires k < |s|
    ensures multiset(s) == multiset(Without(s, k)) + multiset{s[k]}
    ensures multiset(Without(s, k)) == multiset(s) - multiset{s[k]}
  {
    assert s == s[..k] + [s[k]] + s[k + 1..];
  }

  /** The canonical string is the same for every ordering of the parameters. */
  lemma OrderIrrelevant(a: seq<Pair>, b: seq<Pair>)
    requires multiset(a) == multiset(b)
    ensures Canonical(a) == Canonical(b)
  {
    MapMultiset(EncodePair, a, b);
    SortSorts(Map(EncodePair, a));
    SortSorts(Map(EncodePair, b));
    SortedUnique(SortedPairs(a), SortedPairs(b));
  }

  // ----- reading the parameters back -----

  function ReadAssignment(s: Bytes): Pair {
    var k := IndexOf(s, EQUALS);
    if k == |s| then Pair(s, []) else Pair(s[..k], s[k + 1..])
  }

  function DecodePair(p: Pair): Option<Pair> {
    var k, v := Decode(p.key), Decode(p.value);
    if k.None? || v.None? then None else Some(Pair(k.value, v.value))
  }

  /** Split on `&`, split each piece on `=`, percent-decode. */
  function ParseQuery(query: Bytes): seq<Option<Pair>> {
    if query == [] then [] else Map(DecodePair, Map(ReadAssignment, Split(query, AMPERSAND)))
  }

  lemma NoSeparators(s: Bytes)
    ensures AMPERSAND !in Encode(s) && EQUALS !in Encode(s)
  {
    EncodeAlphabet(s);
    assert !Unreserved(AMPERSAND) && !Unreserved(EQUALS);
    assert forall i :: 0 <= i < |Encode(s)| ==>
      EscapedAt(Encode(s), i) && Encode(s)[i] != AMPERSAND && Encode(s)[i] != EQUALS;
  }

  /** An encoded pair contains no separator, so its assignment is read back exactly. */
  lemma EncodedPairReadBack(p: Pair)
    ensures var e := EncodePair(p);
            && AMPERSAND !in Assignment(e)
            && ReadAssignment(Assignment(e)) == e
            && DecodePair(e) == Some(p)
  {
    var e := EncodePair(p);
    NoSeparators(p.key);
    NoSeparators(p.value);
    AssignmentReadBack(e);
    DecodeEncode(p.key);
    DecodeEncode(p.value);
  }

  lemma AssignmentReadBack(e: Pair)
    requires EQUALS !in e.key
    ensures ReadAssignment(Assignment(e)) == e
  {
    SplitAt(e.key, e.value, EQUALS);
    assert Assignment(e)[..|e.key|] == e.key && Assignment(e)[|e.key| + 1..] == e.value;
  }

  ghost predicate AllEncoded(s: seq<Pair>) {
    forall i :: 0 <= i < |s| ==> exists p :: s[i] == EncodePair(p)
  }

  lemma SortedPairsEncoded(params: seq<Pair>)
    ensures AllEncoded(SortedPairs(params))
  {
    var encoded := Map(EncodePair, params);
    SortSorts(encoded);
    forall i | 0 <= i < |SortedPairs(params)|
      ensures exists p :: SortedPairs(params)[i] == EncodePair(p)
    {
      assert SortedPairs(params)[i] in multiset(SortedPairs(params));
      assert SortedPairs(params)[i] in encoded;
      var j :| 0 <= j < |encoded| && encoded[j] == SortedPairs(params)[i];
      assert encoded[j] == EncodePair(params[j]);
    }
  }

  /** Splitting on `&` and `=` and percent-decoding recovers the sorted pairs. */
  lemma ParseCanonical(params: seq<Pair>)
    ensures ParseQuery(Canonical(params)) == Map(DecodePair, SortedPairs(params))
  {
    var pairs := SortedPairs(params);
    var parts := Map(Assignment, pairs);
    SortedPairsEncoded(params);
    forall i | 0 <= i < |pairs|
      ensures AMPERSAND !in parts[i] && ReadAssignment(parts[i]) == pairs[i]
    {
      var p :| pairs[i] == EncodePair(p);
      EncodedPairReadBack(p);
    }
    if pairs != [] {
      SplitJoin(parts, AMPERSAND);
      JoinNonEmpty(pairs);
      assert Map(ReadAssignment, parts) == pairs;
    }
  }

  lemma JoinNonEmpty(pairs: seq<Pair>)
    requires pairs != []
    ensures Join(Map(Assignment, pairs), AMPERSAND) != []
  {
    var parts := Map(Assignment, pairs);
    assert parts[0] != [];
  }

  /** Different parameter multisets have different canonical strings. */
  lemma CanonicalInjective(a: seq<Pair>, b: seq<Pair>)
    requires Canonical(a) == Canonical(b)
    ensures multiset(a) == multiset(b)
  {
    ParseCanonical(a);
    ParseCanonical(b);
    DecodedMultiset(a);
    DecodedMultiset(b);
    SomeMultiset(a, b);
  }

  lemma DecodedMultiset(params: seq<Pair>)
    ensures multiset(Map(DecodePair, SortedPairs(params))) == multiset(Map(p => Some(p), params))
  {
    var encoded := Map(EncodePair, params);
    SortSorts(encoded);
    MapMultiset(DecodePair, SortedPairs(params), encoded);
    forall i | 0 <= i < |params|
      ensures Map(DecodePair, encoded)[i] == Some(params[i])
    {
      EncodedPairReadBack(params[i]);
    }
    assert Map(DecodePair, encoded) == Map(p => Some(p), params);
  }

  lemma SomeMultiset(a: seq<Pair>, b: seq<Pair>)
    requires multiset(Map(p => Some(p), a)) == multiset(Map(p => Some(p), b))
    ensures multiset(a) == multiset(b)
  {
    var unwrap := (o: Option<Pair>) => if o.Some? then o.value else Pair([], []);
    var sa, sb := Map(p => Some(p), a), Map(p => Some(p), b);
    MapMultiset(unwrap, sa, sb);
    assert Map(unwrap, sa) == a;
    assert Map(unwrap, sb) == b;
  }

  // ----- the encoding and the order, spelt out -----

  const HEX := "0123456789ABCDEF"

  /**
   Letters, digits, hyphen, period, underscore and tilde stand for themselves; every other byte, the slash
   too, is encoded.
   */
  lemma UnreservedIff(b: byte)
    ensures var c := b as char;
            Unreserved(b) <==> || 'A' <= c <= 'Z' || 'a' <= c <= 'z' || '0' <= c <= '9'
                               || c == '-' || c == '.' || c == '_' || c == '~'
    ensures b as char == '/' ==> !Unreserved(b)
  {
  }

  /** An encoded byte is a percent sign and the two upper-case hexadecimal digits of its value. */
  lemma EncodedByteIs(b: byte)
    ensures Encode([b]) == if Unreserved(b) then [b]
            else ['%' as byte, HEX[b as int / 16] as byte, HEX[b as int % 16] as byte]
  {
    assert [b][1..] == [];
    HexDigitIs(b / 16);
    HexDigitIs(b % 16);
    assert Encode([b]) == EncodeByte(b) + [];
  }

  lemma HexDigitIs(d: byte)
    requires d < 16
    ensures HexDigit(d) == HEX[d as int] as byte
  {
    assert HEX == ['0', '1', '2', '3', '4', '5', '6', '7', '8', '9', 'A', 'B', 'C', 'D', 'E', 'F'];
  }

  /** Bytes are encoded one by one, in order. */
  lemma {:induction false} EncodeAppend(a: Bytes, b: Bytes)
    ensures Encode(a + b) == Encode(a) + Encode(b)
  {
    if a == [] {
      assert a + b == b;
    } else {
      assert (a + b)[0] == a[0] && (a + b)[1..] == a[1..] + b;
      EncodeAppend(a[1..], b);
      Associative(EncodeByte(a[0]), Encode(a[1..]), Encode(b));
    }
  }

  /** One string comes before another if it is a prefix of it, or has the smaller byte where they first differ. */
  ghost predicate ComesFirst(a: Bytes, b: Bytes) {
    a <= b || exists i :: 0 <= i < |a| && SmallerAt(a, b, i)
  }

  ghost predicate SmallerAt(a: Bytes, b: Bytes, i: nat) {
    i < |a| && i < |b| && a[..i] == b[..i] && a[i] < b[i]
  }

  lemma {:induction false} BytesLeIff(a: Bytes, b: Bytes)
    ensures BytesLe(a, b) <==> ComesFirst(a, b)
  {
    if a != [] && b != [] && a[0] == b[0] {
      BytesLeIff(a[1..], b[1..]);
      assert a == [a[0]] + a[1..] && b == [b[0]] + b[1..];
      if ComesFirst(a[1..], b[1..]) && !(a[1..] <= b[1..]) {
        var i :| 0 <= i < |a[1..]| && SmallerAt(a[1..], b[1..], i);
        assert a[..i + 1] == [a[0]] + a[1..][..i] && b[..i + 1] == [b[0]] + b[1..][..i];
        assert SmallerAt(a, b, i + 1);
      }
      if ComesFirst(a, b) && !(a <= b) {
        var i :| 0 <= i < |a| && SmallerAt(a, b, i);
        assert a[..i] == b[..i] && i > 0;
        assert a[1..][..i - 1] == a[..i][1..] && b[1..][..i - 1] == b[..i][1..];
        assert SmallerAt(a[1..], b[1..], i - 1);
      }
    } else if a != [] && b != [] {
      assert SmallerAt(a, b, 0) <==> a[0] < b[0];
      forall i | 0 < i < |a| && i < |b|
        ensures a[..i] != b[..i]
      {
        FirstDiffers(a, b, i);
      }
    }
  }

  lemma FirstDiffers(a: Bytes, b: Bytes, i: nat)
    requires 0 < i <= |a| && i <= |b| && a[0] != b[0]
    ensures a[..i] != b[..i]
  {
    assert a[..i][0] == a[0] && b[..i][0] == b[0];
  }

  /**
   The canonical string, spelt out: some arrangement of the encoded pairs, in which every pair comes before the
   next by key and, between equal keys, by value, written `key=value` and joined with `&`.
   */
  lemma CanonicalIs(params: seq<Pair>) returns (sorted: seq<Pair>)
    ensures multiset(sorted)
            == multiset(seq(|params|,
              i requires 0 <= i < |params| => Pair(Encode(params[i].key), Encode(params[i].value))))
    ensures forall i, j :: 0 <= i < j < |sorted| ==>
              if sorted[i].key == sorted[j].key then ComesFirst(sorted[i].value, sorted[j].value)
              else ComesFirst(sorted[i].key, sorted[j].key)
    ensures Canonical(params)
         == Join(seq(|sorted|, i requires 0 <= i < |sorted| => sorted[i].key + ['=' as byte] + sorted[i].value),
           '&' as byte)
  {
    sorted := SortedPairs(params);
    SortSorts(Map(EncodePair, params));
    MapsSpelt(params, sorted);
    forall i, j | 0 <= i < j < |sorted|
      ensures if sorted[i].key == sorted[j].key then ComesFirst(sorted[i].value, sorted[j].value)
              else ComesFirst(sorted[i].key, sorted[j].key)
    {
      assert PairLe(sorted[i], sorted[j]);
      BytesLeIff(sorted[i].key, sorted[j].key);
      BytesLeIff(sorted[i].value, sorted[j].value);
    }
  }

  lemma MapsSpelt(params: seq<Pair>, sorted: seq<Pair>)
    ensures Map(EncodePair, params)
         == seq(|params|, i requires 0 <= i < |params| => Pair(Encode(params[i].key), Encode(params[i].value)))
    ensures Map(Assignment, sorted)
         == seq(|sorted|, i requires 0 <= i < |sorted| => sorted[i].key + ['=' as byte] + sorted[i].value)
  {
  }
}
