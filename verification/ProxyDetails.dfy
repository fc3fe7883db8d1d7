/** The proxy's constants and tests, spelt out in bytes and characters. */
module ProxyDetails {
  import opened Bytes
  import opened Options
  import opened ProxyHeader
  import opened Splitting

  /** A header ends where CR LF CR LF ends. */
  lemma EndsBlankIff(s: Bytes)
    ensures EndsBlank(s) <==> |s| >= 4 && s[|s| - 4..] == [13, 10, 13, 10]
  {
    if |s| >= 4 {
      assert s[|s| - 4..] == [s[|s| - 4], s[|s| - 3], s[|s| - 2], s[|s| - 1]];
    }
  }

  /** The field the proxy adds is `Connection: close`. */
  lemma CloseFieldIs()
    ensures |CloseField()| == |"Connection: close"|
    ensures forall i :: 0 <= i < |"Connection: close"| ==> CloseField()[i] as int == "Connection: close"[i] as int
  {
  }

  /** The bytes spell the word, in any case. */
  ghost predicate Spells(s: Bytes, word: string) {
    |s| == |word| && forall i :: 0 <= i < |word| ==> SpellsAt(s[i], word[i])
  }

  /** A lower-case character of the word, or its upper-case form. */
  predicate SpellsAt(b: byte, c: char) {
    b as int == c as int || ('a' <= c <= 'z' && b as int == c as int - 32)
  }

  /** What stands before the first colon, or the whole line, spells one of the two names. */
  lemma ConnectionFieldIff(line: Bytes, name: Bytes, rest: Bytes)
    requires line == name + rest && COLON !in name && (rest == [] || rest[0] as int == ':' as int)
    ensures IsConnectionField(line) <==> Spells(name, "connection") || Spells(name, "proxy-connection")
  {
    IndexOfFirst(name, rest, COLON);
    assert FieldName(line) == name;
    SpellsIff(name, "connection");
    SpellsIff(name, "proxy-connection");
  }

  lemma SpellsIff(s: Bytes, word: string)
    requires forall i :: 0 <= i < |word| ==> word[i] < 128 as char && !('A' <= word[i] <= 'Z')
    ensures EqIgnoreCase(s, Ascii(word)) <==> Spells(s, word)
  {
    if |s| == |word| {
      forall i | 0 <= i < |word|
        ensures Lower(s[i]) == Lower(Ascii(word)[i]) <==> SpellsAt(s[i], word[i])
      {
        assert Ascii(word)[i] as int == word[i] as int;
      }
    }
  }

  /** Exactly the other field lines survive, each as often as it came. */
  lemma {:induction false} KeptIs(fields: seq<Bytes>, field: Bytes)
    ensures multiset(Kept(fields))[field] == if IsConnectionField(field) then 0 else multiset(fields)[field]
  {
    if fields != [] {
      assert fields == [fields[0]] + fields[1..];
      KeptIs(fields[1..], field);
    }
  }

  /**
   The target is the path, and the query behind a question mark; for a path without one, splitting the target at
   its first question mark gives both back.
   */
  lemma TargetIs(url: Url)
    ensures url.query.None? ==> Target(url) == url.path
    ensures url.query.Some? ==> Target(url) == url.path + ['?' as byte] + url.query.value
    ensures '?' as byte !in url.path ==>
              var k := IndexOf(Target(url), '?' as byte);
              && Target(url)[..k] == url.path
              && (url.query.None? <==> k == |Target(url)|)
              && (url.query.Some? ==> k < |Target(url)| && Target(url)[k + 1..] == url.query.value)
  {
    if '?' as byte !in url.path {
      var mark: byte := '?' as byte;
      if url.query.Some? {
        assert Target(url) == url.path + ([mark] + url.query.value);
        IndexOfFirst(url.path, [mark] + url.query.value, mark);
      } else {
        assert url.path + [] == url.path;
        IndexOfFirst(url.path, [], mark);
      }
    }
  }

  /** The first three words of the request line, the second of them as a URL; missing words are empty. */
  lemma OriginLineIs(lib: Library, line: Bytes, verb: Bytes, target: Bytes, version: Bytes)
    requires var words := lib.words(line);
             && verb == (if |words| > 0 then words[0] else []) && target == (if |words| > 1 then words[1] else [])
             && version == if |words| > 2 then words[2] else []
    ensures OriginLine(lib, line).Some? <==> lib.utf8(line) && lib.parseUrl(target).Some?
    ensures OriginLine(lib, line).Some? ==>
              OriginLine(lib, line).value
              == verb + [' ' as byte] + Target(lib.parseUrl(target).value) + [' ' as byte] + version
  {
  }

  /**
   What becomes of a header: a tunnel exactly if it begins with `CONNECT ` in capitals; otherwise it is refused
   exactly if its request line is not UTF-8 or its second word is no URL; otherwise it is forwarded, or panics.
   */
  lemma OutcomeIs(header: Bytes, lib: Library, connect: Bytes)
    requires EndsBlank(header) && connect == [67, 79, 78, 78, 69, 67, 84, 32]
    ensures var line := header[..LineEnd(header, 0)];
            && (Rewritten(header, lib).Tunnel? <==> connect <= header)
            && (Rewritten(header, lib).Invalid? <==> !(connect <= header) && OriginLine(lib, line).None?)
  {
    assert Ascii("CONNECT ") == connect;
  }
}
