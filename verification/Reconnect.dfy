/** The reconnect loop around the sessions: exponential backoff and the readiness flag. */
module Reconnect {
  import opened Arithmetic

  /** What the client does, with the value of the readiness flag while it does it. */
  datatype Act =
    | TryConnect(ready: bool)
    | RunSession(ready: bool)
    | Sleep(seconds: nat, ready: bool)

  const MAX_BACKOFF: nat := 60

  function Pow2(k: nat): nat { if k == 0 then 1 else 2 * Pow2(k - 1) }

  /** The sleep after `k` earlier sleeps without a successful connect in between. */
  function Delay(k: nat): nat { Min(Pow2(k), MAX_BACKOFF) }

  /** The acts of one round per connection attempt, `k` sleeps after the last success. */
  function Rounds(attempts: seq<bool>, k: nat): seq<Act> {
    if attempts == [] then []
    else if attempts[0] then [TryConnect(false), RunSession(true), Sleep(Delay(0), false)] + Rounds(attempts[1..], 1)
    else [TryConnect(false), Sleep(Delay(k), false)] + Rounds(attempts[1..], k + 1)
  }

  class WsClient {
    var wsConnected: bool
    var acts: seq<Act>

    constructor ()
      ensures !wsConnected && acts == []
    {
      wsConnected := false;
      acts := [];
    }

    /** `run_forever`, for as long as there are connection attempts; `attempts` says which succeed. */
    method RunForever(attempts: seq<bool>)
      requires !wsConnected
      modifies this
      ensures acts == old(acts) + Rounds(attempts, 0)
      ensures !wsConnected
    {
      var backoff: nat := 1;
      ghost var k: nat := 0;
      var n := 0;
      while n < |attempts|
        invariant 0 <= n <= |attempts|
        invariant !wsConnected && backoff == Delay(k)
        invariant acts + Rounds(attempts[n..], k) == old(acts) + Rounds(attempts, 0)
      {
        assert attempts[n..][1..] == attempts[n + 1..];
        ghost var before := acts;
        acts := acts + [TryConnect(wsConnected)];
        if attempts[n] {
          backoff := 1;
          k := 0;
          wsConnected := true;
          acts := acts + [RunSession(wsConnected)];
          wsConnected := false;
        }
        acts := acts + [Sleep(backoff, wsConnected)];
        backoff := Min(backoff * 2, MAX_BACKOFF);
        k := k + 1;
        n := n + 1;
        ghost var rest := Rounds(attempts[n..], k);
        if attempts[n - 1] {
          Regroup3(before, TryConnect(false), RunSession(true), Sleep(Delay(0), false), rest);
        } else {
          Regroup2(before, TryConnect(false), Sleep(Delay(k - 1), false), rest);
        }
      }
    }
  }

  /** Sleeps since the start or the last session. */
  function SleepsSinceConnect(acts: seq<Act>): nat {
    if acts == [] then 0
    else
      var front := acts[..|acts| - 1];
      match acts[|acts| - 1]
      case TryConnect(_) => SleepsSinceConnect(front)
      case RunSession(_) => 0
      case Sleep(_, _) => SleepsSinceConnect(front) + 1
  }

  /** The law for one act done after `front`. */
  ghost predicate ActLawful(front: seq<Act>, act: Act) {
    && (act.ready <==> act.RunSession?)
    && (act.Sleep? ==> act.seconds == Min(Pow2(SleepsSinceConnect(front)), 60))
  }

  ghost predicate Lawful(acts: seq<Act>) {
    acts == [] || (Lawful(acts[..|acts| - 1]) && ActLawful(acts[..|acts| - 1], acts[|acts| - 1]))
  }

  lemma LawfulStep(front: seq<Act>, act: Act)
    ensures Lawful(front + [act]) <==> Lawful(front) && ActLawful(front, act)
    ensures SleepsSinceConnect(front + [act]) == match act
            case TryConnect(_) => SleepsSinceConnect(front)
            case RunSession(_) => 0
            case Sleep(_, _) => SleepsSinceConnect(front) + 1
  {
    assert (front + [act])[..|front|] == front;
  }

  lemma {:induction false} RoundsLawful(before: seq<Act>, attempts: seq<bool>)
    requires Lawful(before)
    ensures Lawful(before + Rounds(attempts, SleepsSinceConnect(before)))
    decreases |attempts|
  {
    var k := SleepsSinceConnect(before);
    if attempts == [] {
      assert before + Rounds(attempts, k) == before;
    } else {
      var a, b, c := TryConnect(false), RunSession(true), Sleep(Delay(if attempts[0] then 0 else k), false);
      LawfulStep(before, a);
      if attempts[0] {
        LawfulStep(before + [a], b);
        LawfulStep(before + [a] + [b], c);
        RoundsLawful(before + [a] + [b] + [c], attempts[1..]);
        Regroup3(before, a, b, c, Rounds(attempts[1..], 1));
      } else {
        LawfulStep(before + [a], c);
        RoundsLawful(before + [a] + [c], attempts[1..]);
        Regroup2(before, a, c, Rounds(attempts[1..], k + 1));
      }
    }
  }

  lemma Regroup2(before: seq<Act>, a: Act, b: Act, rest: seq<Act>)
    ensures before + ([a, b] + rest) == before + [a] + [b] + rest
  {
  }

  lemma Regroup3(before: seq<Act>, a: Act, b: Act, c: Act, rest: seq<Act>)
    ensures before + ([a, b, c] + rest) == before + [a] + [b] + [c] + rest
  {
  }

  /**
   In every run each sleep lasts exactly min(2^k, 60) seconds, k being the number of sleeps since the
   start or the last successful connect; and the flag is true exactly while a session runs.
   */
  lemma SleepLaw(attempts: seq<bool>, i: nat)
    requires i < |Rounds(attempts, 0)|
    ensures ActLawful(Rounds(attempts, 0)[..i], Rounds(attempts, 0)[i])
  {
    RoundsLawful([], attempts);
    assert [] + Rounds(attempts, 0) == Rounds(attempts, 0);
    LawfulAt(Rounds(attempts, 0), i);
  }

  lemma {:induction false} LawfulAt(acts: seq<Act>, i: nat)
    requires Lawful(acts) && i < |acts|
    ensures ActLawful(acts[..i], acts[i])
  {
    var front := acts[..|acts| - 1];
    if i < |front| {
      LawfulAt(front, i);
      assert front[..i] == acts[..i];
    }
  }

  // ----- every attempt is made, and every connection is served -----

  datatype Kind = Connecting | Serving | Sleeping

  function KindOf(act: Act): Kind {
    match act
    case TryConnect(_) => Connecting
    case RunSession(_) => Serving
    case Sleep(_, _) => Sleeping
  }

  /** How many acts of this kind there are. */
  function Count(acts: seq<Act>, kind: Kind): nat {
    if acts == [] then 0 else (if KindOf(acts[0]) == kind then 1 else 0) + Count(acts[1..], kind)
  }

  lemma {:induction false} CountAppend(a: seq<Act>, b: seq<Act>, kind: Kind)
    ensures Count(a + b, kind) == Count(a, kind) + Count(b, kind)
  {
    if a == [] {
      assert a + b == b;
    } else {
      CountAppend(a[1..], b, kind);
      assert (a + b)[0] == a[0] && (a + b)[1..] == a[1..] + b;
    }
  }

  /** The number of attempts that succeed. */
  function Successes(attempts: seq<bool>): nat {
    if attempts == [] then 0 else (if attempts[0] then 1 else 0) + Successes(attempts[1..])
  }

  /** Where the j-th attempt is made: two acts per earlier attempt and one more per earlier success. */
  function AttemptAt(attempts: seq<bool>, j: nat): nat
    requires j <= |attempts|
  {
    2 * j + Successes(attempts[..j])
  }

  lemma {:induction false} RoundCounts(attempts: seq<bool>, k: nat)
    ensures var acts := Rounds(attempts, k);
            && |acts| == 2 * |attempts| + Successes(attempts)
            && Count(acts, Connecting) == |attempts|
            && Count(acts, Sleeping) == |attempts|
            && Count(acts, Serving) == Successes(attempts)
  {
    if attempts != [] {
      var rest := Rounds(attempts[1..], if attempts[0] then 1 else k + 1);
      RoundCounts(attempts[1..], if attempts[0] then 1 else k + 1);
      var first := Rounds(attempts, k)[..|Rounds(attempts, k)| - |rest|];
      assert Rounds(attempts, k) == first + rest;
      CountFew(first);
      CountAppend(first, rest, Connecting);
      CountAppend(first, rest, Sleeping);
      CountAppend(first, rest, Serving);
    }
  }

  /** Counting two or three acts. */
  lemma CountFew(acts: seq<Act>)
    ensures forall kind :: |acts| == 2 ==>
              Count(acts, kind) == (if KindOf(acts[0]) == kind then 1 else 0) + if KindOf(acts[1]) == kind then 1 else 0
    ensures forall kind :: |acts| == 3 ==>
              Count(acts, kind)
                == (if KindOf(acts[0]) == kind then 1 else 0) + (if KindOf(acts[1]) == kind then 1 else 0)
                                   + if KindOf(acts[2]) == kind then 1 else 0
  {
    forall kind | |acts| == 2 || |acts| == 3
      ensures Count(acts, kind) == (if KindOf(acts[0]) == kind then 1 else 0) + Count(acts[1..], kind)
      ensures Count(acts[1..], kind) == (if KindOf(acts[1]) == kind then 1 else 0) + Count(acts[2..], kind)
      ensures Count(acts[2..], kind) == if |acts| == 3 && KindOf(acts[2]) == kind then 1 else 0
    {
      assert acts[1..][1..] == acts[2..];
      if |acts| == 3 {
        assert acts[2..][1..] == [];
      }
    }
  }

  /**
   Every attempt is made, with the flag down; it is followed by a session if and only if it succeeds, and the
   round always ends with a sleep.
   */
  lemma {:induction false} EveryConnectionIsServed(attempts: seq<bool>, k: nat, j: nat)
    requires j < |attempts|
    ensures var acts, at := Rounds(attempts, k), AttemptAt(attempts, j);
            && at + 1 < |acts| && acts[at] == TryConnect(false)
            && (acts[at + 1].RunSession? <==> attempts[j])
            && (attempts[j] ==> at + 2 < |acts| && acts[at + 1] == RunSession(true) && acts[at + 2].Sleep?)
            && (!attempts[j] ==> acts[at + 1].Sleep?)
  {
    if j > 0 {
      var next := if attempts[0] then 1 else k + 1;
      EveryConnectionIsServed(attempts[1..], next, j - 1);
      assert attempts[..j] == [attempts[0]] + attempts[1..][..j - 1];
      SuccessesCons(attempts[0], attempts[1..][..j - 1]);
      var skip := if attempts[0] then 3 else 2;
      assert Rounds(attempts, k)[skip..] == Rounds(attempts[1..], next);
      assert AttemptAt(attempts, j) == skip + AttemptAt(attempts[1..], j - 1);
    } else {
      assert attempts[..0] == [];
    }
  }

  lemma SuccessesCons(first: bool, rest: seq<bool>)
    ensures Successes([first] + rest) == (if first then 1 else 0) + Successes(rest)
  {
    assert ([first] + rest)[1..] == rest;
  }
}
