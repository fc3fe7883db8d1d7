/** Splitting a sequence at a separator and joining the pieces again. */
module Splitting {

  /** The position of the first `c` in `s`, or the length of `s`. */
  function IndexOf<T(==)>(s: seq<T>, c: T): (k: nat)
    ensures k <= |s| && (k < |s| ==> s[k] == c) && forall i :: 0 <= i < k ==> s[i] != c
  {
    if s == [] || s[0] == c then 0 else 1 + IndexOf(s[1..], c)
  }

  function Split<T(==)>(s: seq<T>, c: T): (parts: seq<seq<T>>)
    ensures parts != []
    decreases |s|
  {
    var k := IndexOf(s, c);
    if k == |s| then [s] else [s[..k]] + Split(s[k + 1..], c)
  }

  function Join<T>(parts: seq<seq<T>>, c: T): seq<T> {
    if parts == [] then [] else if |parts| == 1 then parts[0] else parts[0] + [c] + Join(parts[1..], c)
  }

  predicate NoneContains<T(==)>(parts: seq<seq<T>>, c: T) {
    forall i :: 0 <= i < |parts| ==> c !in parts[i]
  }

  lemma IndexOfFirst<T>(a: seq<T>, rest: seq<T>, c: T)
    requires c !in a && (rest == [] || rest[0] == c)
    ensures IndexOf(a + rest, c) == |a|
  {
    if rest != [] {
      assert (a + rest)[|a|] == c;
    }
  }

  lemma SplitAt<T>(a: seq<T>, rest: seq<T>, c: T)
    requires c !in a
    ensures Split(a, c) == [a]
    ensures Split(a + [c] + rest, c) == [a] + Split(rest, c)
    ensures IndexOf(a + [c] + rest, c) == |a|
  {
    IndexOfFirst(a, [], c);
    assert a + [] == a;
    IndexOfFirst(a, [c] + rest, c);
    assert a + ([c] + rest) == a + [c] + rest;
    var s := a + [c] + rest;
    assert s[..|a|] == a && s[|a| + 1..] == rest;
  }

  /** No piece contains the separator. */
  lemma {:induction false} SplitPieces<T>(s: seq<T>, c: T)
    ensures NoneContains(Split(s, c), c)
    decreases |s|
  {
    var k := IndexOf(s, c);
    if k < |s| {
      SplitPieces(s[k + 1..], c);
    }
  }

  /** Splitting undoes joining when no piece contains the separator. */
  lemma {:induction false} SplitJoin<T>(parts: seq<seq<T>>, c: T)
    requires parts != [] && NoneContains(parts, c)
    ensures Split(Join(parts, c), c) == parts
  {
    if |parts| == 1 {
      SplitAt(parts[0], [], c);
    } else {
      SplitJoin(parts[1..], c);
      SplitAt(parts[0], Join(parts[1..], c), c);
    }
  }

  lemma {:induction false} JoinAppend<T>(a: seq<seq<T>>, b: seq<seq<T>>, c: T)
    ensures Join(a + b, c)
         == if a == [] then Join(b, c) else if b == [] then Join(a, c) else Join(a, c) + [c] + Join(b, c)
  {
    if a == [] {
      assert a + b == b;
    } else if b == [] {
      assert a + b == a;
    } else if |a| > 1 {
      JoinAppend(a[1..], b, c);
      assert (a + b)[1..] == a[1..] + b;
      assert a[0] + [c] + (Join(a[1..], c) + [c] + Join(b, c)) == (a[0] + [c] + Join(a[1..], c)) + [c] + Join(b, c);
    } else {
      assert (a + b)[1..] == b;
    }
  }

  lemma Associative<T>(a: seq<T>, b: seq<T>, c: seq<T>)
    ensures a + (b + c) == (a + b) + c
  {
  }

  lemma SameBehind<T>(a: seq<T>, b: seq<T>, c: seq<T>)
    ensures a + b == a + c <==> b == c
  {
    assert b == (a + b)[|a|..] && c == (a + c)[|a|..];
  }
}
