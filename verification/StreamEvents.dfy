/**
 The Arrow event stream every datasource provider produces: the events, the channel
 they travel through, the one specification all producers refine, and an independent
 recogniser of well-formed streams.

 A batch is represented by the rows it encodes.  Counters are the source's `u32` and
 `u64`, so they are reduced modulo their size wherever the source increments them.
 */
module StreamEvents {
  import opened Options

  // ----- machine counters -----

  /** `counter += 1` on a `u32`. */
  function Succ32(counter: nat): nat { if counter == 0xFFFF_FFFF then 0 else counter + 1 }

  /** `counter += 1` on a `u64`. */
  function Succ64(counter: nat): nat { if counter == 0xFFFF_FFFF_FFFF_FFFF then 0 else counter + 1 }

  /** `counter += n` on a `u64`. */
  function Add64(counter: nat, n: nat): nat { if n == 0 then counter else Succ64(Add64(counter, n - 1)) }

  /** The value of a `u32` counter that starts at 0 and is incremented `n` times. */
  function U32(n: nat): nat { if n == 0 then 0 else Succ32(U32(n - 1)) }

  /** The value of a `u64` counter that starts at 0 and is raised by `n` in all. */
  function U64(n: nat): nat { Add64(0, n) }

  /** Counters are exact as long as they fit: fewer than 2^32 batches, fewer than 2^64 rows. */
  lemma {:induction false} CountersExact(n: nat)
    ensures n < 0x1_0000_0000 ==> U32(n) == n
    ensures n < 0x1_0000_0000_0000_0000 ==> U64(n) == n
  {
    if n > 0 {
      CountersExact(n - 1);
    }
  }

  /** And they wrap: adding a full turn changes nothing. */
  lemma {:induction false} CountersWrap(n: nat)
    ensures U32(n + 0x1_0000_0000) == U32(n)
    ensures U64(n + 0x1_0000_0000_0000_0000) == U64(n)
  {
    if n > 0 {
      CountersWrap(n - 1);
    } else {
      CountersExact(0xFFFF_FFFF);
      CountersExact(0xFFFF_FFFF_FFFF_FFFF);
    }
  }

  lemma {:induction false} AddRows(total: nat, n: nat)
    ensures Add64(U64(total), n) == U64(total + n)
  {
    if n > 0 {
      AddRows(total, n - 1);
    }
  }

  datatype SimpleType = String | Number | Boolean | Date | Time | Timestamp | TimestampTz | Unknown

  datatype ColumnInfo = ColumnInfo(name: string, colType: SimpleType)

  /** One item of a provider's stream: an event, or the error that ends the stream. */
  datatype Event<+R> =
    | Schema(columns: seq<ColumnInfo>, totalRows: Option<int>)
    | Batch(rows: seq<R>, chunkIndex: nat)
    | Complete(totalChunks: nat, totalRowsReturned: nat)
    | Failed(message: string)

  /** Which schemas and batches the Arrow IPC writer accepts. */
  datatype Codec<!R> = Codec(schemaOk: seq<ColumnInfo> -> bool, batchOk: seq<R> -> bool)

  const SCHEMA_ERROR := "Arrow schema serialization error"
  const BATCH_ERROR := "Arrow IPC serialization error"

  // ----- sequences of batches -----

  function Flatten<T>(parts: seq<seq<T>>): seq<T> {
    if parts == [] then [] else parts[0] + Flatten(parts[1..])
  }

  /** A sequence is a prefix of itself with something behind it, and the same exactly when that is nothing. */
  lemma SameIffNothingBehind<T>(a: seq<T>, b: seq<T>)
    ensures a <= a + b && (a == a + b <==> b == [])
  {
    if a == a + b {
      assert |b| == 0;
    }
  }

  /** A page or chunk becomes one batch, or none when it has no rows. */
  function NonEmpty<R>(rows: seq<R>): seq<seq<R>> {
    if rows == [] then [] else [rows]
  }

  lemma FlattenNonEmpty<R>(rows: seq<R>, rest: seq<seq<R>>)
    ensures Flatten(NonEmpty(rows) + rest) == rows + Flatten(rest)
  {
    if rows == [] {
      assert NonEmpty(rows) + rest == rest;
      assert rows + Flatten(rest) == Flatten(rest);
    } else {
      assert NonEmpty(rows) + rest == [rows] + rest;
      assert ([rows] + rest)[1..] == rest;
    }
  }

  predicate AllEncode<R>(batches: seq<seq<R>>, codec: Codec<R>) {
    forall i :: 0 <= i < |batches| ==> codec.batchOk(batches[i])
  }

  // ----- the specification all producers refine -----

  /**
   How a stream ends when `index` batches with `received` rows have been sent and `left` are still
   to come: with an error, or with the totals of all of them.
   */
  function Terminal<R>(left: seq<seq<R>>, index: nat, received: nat, failure: Option<string>): Event<R> {
    if failure.Some? then Failed(failure.value)
    else Complete(U32(index + |left|), U64(received + |Flatten(left)|))
  }

  /** The batches numbered from `index`, cut short by an error at the first one that does not encode. */
  function Emissions<R>(batches: seq<seq<R>>, index: nat, terminal: Event<R>, codec: Codec<R>): seq<Event<R>> {
    if batches == [] then [terminal]
    else if !codec.batchOk(batches[0]) then [Failed(BATCH_ERROR)]
    else [Batch(batches[0], U32(index))] + Emissions(batches[1..], index + 1, terminal, codec)
  }

  /** "These rows, in order, cut into numbered batches." */
  function StreamOf<R>(columns: seq<ColumnInfo>, totalRows: Option<int>, batches: seq<seq<R>>, failure: Option<string>,
                       codec: Codec<R>): seq<Event<R>>
  {
    if !codec.schemaOk(columns) then [Failed(SCHEMA_ERROR)]
    else [Schema(columns, totalRows)] + Emissions(batches, 0, Terminal(batches, 0, 0, failure), codec)
  }

  /** The part of a stream a receiver that hangs up after `accepts` events gets. */
  function Delivered<R>(trace: seq<Event<R>>, accepts: Option<nat>): seq<Event<R>> {
    if accepts.Some? && accepts.value < |trace| then trace[..accepts.value] else trace
  }

  // ----- the channel -----

  /** The sending half of the bounded channel.  The receiver may hang up at any point. */
  class EventChannel<R> {
    const accepts: Option<nat>   // events the receiver takes before it hangs up, if it ever does
    var sent: seq<Event<R>>

    ghost predicate Valid()
      reads this
    {
      accepts.Some? ==> |sent| <= accepts.value
    }

    constructor (accepts: Option<nat>)
      ensures Valid() && sent == [] && this.accepts == accepts
    {
      this.accepts := accepts;
      sent := [];
    }

    /** `false` means the receiver is gone; nothing sent later can arrive either. */
    method Send(event: Event<R>) returns (ok: bool)
      requires Valid()
      modifies this
      ensures Valid()
      ensures ok <==> accepts.None? || |old(sent)| < accepts.value
      ensures sent == if ok then old(sent) + [event] else old(sent)
    {
      ok := accepts.None? || |sent| < accepts.value;
      if ok {
        sent := sent + [event];
      }
    }
  }

  /**
   Send the next event of a stream of which `tx` already took everything before `rest`.
   Once the receiver is gone, or this was the last event, the delivered part is final.
   */
  method SendNext<R>(tx: EventChannel<R>, event: Event<R>, ghost trace: seq<Event<R>>, ghost rest: seq<Event<R>>)
    returns (ok: bool)
    requires tx.Valid() && trace == tx.sent + rest
    requires rest != [] && rest[0] == event
    modifies tx
    ensures tx.Valid()
    ensures ok ==> trace == tx.sent + rest[1..]
    ensures !ok || |rest| == 1 ==> tx.sent == Delivered(trace, tx.accepts)
  {
    ghost var sent := tx.sent;
    ok := tx.Send(event);
    assert rest == [event] + rest[1..];
    assert sent + rest == (sent + [event]) + rest[1..];
  }

  /**
   Of the stream `trace`, `sent` has been sent, which were `index` batches with `received` rows; the
   batches `left` and the terminal they lead to are still to come.
   */
  ghost predicate OnTrack<R>(trace: seq<Event<R>>, sent: seq<Event<R>>, left: seq<seq<R>>, index: nat, received: nat,
                             failure: Option<string>, codec: Codec<R>)
  {
    trace == sent + Emissions(left, index, Terminal(left, index, received, failure), codec)
  }

  /** Serialize and send the schema, or send the serialization error.  `ok` means the stream goes on. */
  method SendSchema<R>(tx: EventChannel<R>, columns: seq<ColumnInfo>, totalRows: Option<int>, codec: Codec<R>,
                       ghost batches: seq<seq<R>>, ghost failure: Option<string>) returns (ok: bool)
    requires tx.Valid() && tx.sent == []
    modifies tx
    ensures tx.Valid()
    ensures var trace := StreamOf(columns, totalRows, batches, failure, codec);
            && (ok ==> OnTrack(trace, tx.sent, batches, 0, 0, failure, codec))
            && (!ok ==> tx.sent == Delivered(trace, tx.accepts))
  {
    ghost var trace := StreamOf(columns, totalRows, batches, failure, codec);
    if codec.schemaOk(columns) {
      ok := SendNext(tx, Schema(columns, totalRows), trace, trace);
    } else {
      ok := SendNext(tx, Failed(SCHEMA_ERROR), trace, trace);
      ok := false;
    }
  }

  /** Serialize and send one batch, or send the serialization error.  `ok` means the stream goes on. */
  method SendBatch<R>(tx: EventChannel<R>, rows: seq<R>, chunkIndex: nat, codec: Codec<R>, ghost trace: seq<Event<R>>,
                      ghost more: seq<seq<R>>, ghost index: nat, ghost received: nat,
                      ghost failure: Option<string>) returns (ok: bool)
    requires tx.Valid() && chunkIndex == U32(index)
    requires OnTrack(trace, tx.sent, [rows] + more, index, received, failure, codec)
    modifies tx
    ensures tx.Valid()
    ensures ok ==> OnTrack(trace, tx.sent, more, index + 1, received + |rows|, failure, codec)
    ensures !ok ==> tx.sent == Delivered(trace, tx.accepts)
  {
    ghost var terminal := Terminal([rows] + more, index, received, failure);
    ghost var rest := Emissions([rows] + more, index, terminal, codec);
    assert ([rows] + more)[1..] == more;
    assert terminal == Terminal(more, index + 1, received + |rows|, failure);
    if codec.batchOk(rows) {
      ok := SendNext(tx, Batch(rows, chunkIndex), trace, rest);
    } else {
      ok := SendNext(tx, Failed(BATCH_ERROR), trace, rest);
      ok := false;
    }
  }

  /** Send a page's rows as the next batch unless there are none, and count them. */
  method SendRows<R>(tx: EventChannel<R>, rows: seq<R>, chunkIndex: nat, total: nat, codec: Codec<R>,
                     ghost trace: seq<Event<R>>, ghost more: seq<seq<R>>, ghost index: nat, ghost received: nat,
                     ghost failure: Option<string>)
    returns (ok: bool, nextIndex: nat, newTotal: nat)
    requires tx.Valid() && chunkIndex == U32(index) && total == U64(received)
    requires OnTrack(trace, tx.sent, NonEmpty(rows) + more, index, received, failure, codec)
    modifies tx
    ensures tx.Valid()
    ensures nextIndex == U32(index + |NonEmpty(rows)|) && newTotal == U64(received + |rows|)
    ensures ok ==> OnTrack(trace, tx.sent, more, index + |NonEmpty(rows)|, received + |rows|, failure, codec)
    ensures !ok ==> tx.sent == Delivered(trace, tx.accepts)
  {
    ok, nextIndex, newTotal := true, chunkIndex, total;
    if |rows| > 0 {
      ok := SendBatch(tx, rows, chunkIndex, codec, trace, more, index, received, failure);
      nextIndex := Succ32(chunkIndex);
      AddRows(received, |rows|);
      newTotal := Add64(total, |rows|);
    } else {
      assert NonEmpty(rows) + more == more;
    }
  }

  /** Send the terminal event: the error, or the totals. */
  method SendTerminal<R>(tx: EventChannel<R>, event: Event<R>, ghost trace: seq<Event<R>>, ghost index: nat,
                         ghost received: nat, ghost failure: Option<string>, ghost codec: Codec<R>)
    requires tx.Valid() && OnTrack(trace, tx.sent, [], index, received, failure, codec)
    requires event == if failure.Some? then Failed(failure.value) else Complete(U32(index), U64(received))
    modifies tx
    ensures tx.sent == Delivered(trace, tx.accepts)
  {
    assert Flatten<R>([]) == [];
    var _ := SendNext(tx, event, trace, [event]);
  }

  // ----- an independent recogniser of well-formed streams -----

  datatype Progress = Start | Streaming(chunks: nat, rows: nat) | Closed | Broken

  function Advance<R>(p: Progress, e: Event<R>): Progress {
    match (p, e)
    case (Start, Schema(_, _)) => Streaming(0, 0)
    case (Start, Failed(_)) => Closed
    case (Streaming(k, n), Batch(rows, i)) => if i == U32(k) then Streaming(k + 1, n + |rows|) else Broken
    case (Streaming(k, n), Complete(c, t)) => if c == U32(k) && t == U64(n) then Closed else Broken
    case (Streaming(_, _), Failed(_)) => Closed
    case _ => Broken
  }

  function Observe<R>(p: Progress, events: seq<Event<R>>): Progress
    decreases |events|
  {
    if events == [] then p else Observe(Advance(p, events[0]), events[1..])
  }

  lemma {:induction false} ObserveAppend<R>(p: Progress, a: seq<Event<R>>, b: seq<Event<R>>)
    ensures Observe(p, a + b) == Observe(Observe(p, a), b)
    decreases |a|
  {
    if a == [] {
      assert a + b == b;
    } else {
      assert a + b == [a[0]] + (a[1..] + b);
      ObserveAppend(Advance(p, a[0]), a[1..], b);
    }
  }

  lemma {:induction false} BrokenForGood<R>(events: seq<Event<R>>)
    ensures Observe(Broken, events) == Broken
  {
    if events != [] {
      BrokenForGood(events[1..]);
    }
  }

  lemma {:induction false} EmissionsClose<R>(batches: seq<seq<R>>, index: nat, rows: nat, terminal: Event<R>,
                                             codec: Codec<R>)
    requires terminal.Failed? || terminal == Complete(U32(index + |batches|), U64(rows + |Flatten(batches)|))
    ensures Observe(Streaming(index, rows), Emissions(batches, index, terminal, codec)) == Closed
    decreases |batches|
  {
    if batches == [] {
      assert Observe<R>(Advance(Streaming(index, rows), terminal), []) == Closed;
    } else if !codec.batchOk(batches[0]) {
      var e: Event<R> := Failed(BATCH_ERROR);
      assert Observe<R>(Advance(Streaming(index, rows), e), []) == Closed;
    } else {
      EmissionsClose(batches[1..], index + 1, rows + |batches[0]|, terminal, codec);
      var es := Emissions(batches, index, terminal, codec);
      assert es[1..] == Emissions(batches[1..], index + 1, terminal, codec);
    }
  }

  /** Every stream of the common shape is recognised as complete and well formed. */
  lemma StreamOfCloses<R>(columns: seq<ColumnInfo>, totalRows: Option<int>, batches: seq<seq<R>>,
                          failure: Option<string>, codec: Codec<R>)
    ensures Observe(Start, StreamOf(columns, totalRows, batches, failure, codec)) == Closed
  {
    var es := StreamOf(columns, totalRows, batches, failure, codec);
    if codec.schemaOk(columns) {
      EmissionsClose(batches, 0, 0, Terminal(batches, 0, 0, failure), codec);
      assert es[1..] == Emissions(batches, 0, Terminal(batches, 0, 0, failure), codec);
    } else {
      LoneFailureCloses<R>(SCHEMA_ERROR);
    }
  }

  lemma LoneFailureCloses<R>(message: string)
    ensures Observe<R>(Start, [Failed(message)]) == Closed
  {
    var e: Event<R> := Failed(message);
    assert Observe<R>(Advance(Start, e), []) == Closed;
    assert [e][1..] == [];
  }

  /** At whatever point the receiver hangs up, what it got is the beginning of a well-formed stream. */
  lemma DeliveredNeverBroken<R>(trace: seq<Event<R>>, accepts: Option<nat>)
    requires Observe(Start, trace) == Closed
    ensures Delivered(trace, accepts) <= trace
    ensures Observe(Start, Delivered(trace, accepts)) != Broken
  {
    var got := Delivered(trace, accepts);
    var lost := trace[|got|..];
    assert got + lost == trace;
    ObserveAppend(Start, got, lost);
    BrokenForGood(lost);
  }

  // ----- what the recogniser accepts, spelt out -----

  function RowsOf<R>(events: seq<Event<R>>): seq<R> {
    if events == [] then []
    else (if events[0].Batch? then events[0].rows else []) + RowsOf(events[1..])
  }

  /** A lone error, or: schema, batches numbered from 0, and one terminal whose totals are those of the batches. */
  ghost predicate StreamShape<R>(events: seq<Event<R>>) {
    && |events| >= 1
    && (events[0].Failed? ==> |events| == 1)
    && (!events[0].Failed? ==>
          && |events| >= 2
          && events[0].Schema?
          && BodyShape(events[1..], 0, 0))
  }

  ghost predicate BodyShape<R>(body: seq<Event<R>>, index: nat, rows: nat) {
    |body| >= 1 && NumberedFrom(body, index) && EndsWith(body[|body| - 1], index + |body| - 1, rows + |RowsOf(body)|)
  }

  /** Every event but the last is a batch, numbered from `index`. */
  ghost predicate NumberedFrom<R>(body: seq<Event<R>>, index: nat) {
    forall i :: 0 <= i < |body| - 1 ==> body[i].Batch? && body[i].chunkIndex == U32(index + i)
  }

  /** One terminal event, whose totals, if it is Complete, are these. */
  predicate EndsWith<R>(last: Event<R>, chunks: nat, rows: nat) {
    last.Failed? || (last.Complete? && last.totalChunks == U32(chunks) && last.totalRowsReturned == U64(rows))
  }

  /** The recogniser accepts exactly the streams of that shape. */
  lemma ClosedIffShape<R>(events: seq<Event<R>>)
    ensures Observe(Start, events) == Closed <==> StreamShape(events)
  {
    if |events| >= 1 {
      if events[0].Failed? {
        ClosedIsFinal(events[1..]);
      } else if events[0].Schema? {
        BodyIffShape(events[1..], 0, 0);
      } else {
        BrokenForGood(events[1..]);
      }
    }
  }

  lemma ClosedIsFinal<R>(events: seq<Event<R>>)
    ensures Observe(Closed, events) == Closed <==> events == []
  {
    if events != [] {
      assert Advance(Closed, events[0]) == Broken;
      BrokenForGood(events[1..]);
    }
  }

  lemma {:induction false} BodyIffShape<R>(body: seq<Event<R>>, index: nat, rows: nat)
    ensures Observe(Streaming(index, rows), body) == Closed <==> BodyShape(body, index, rows)
    decreases |body|
  {
    if body != [] {
      var e, rest := body[0], body[1..];
      var next := Advance(Streaming(index, rows), e);
      if next.Streaming? {
        BodyIffShape(rest, index + 1, rows + |e.rows|);
        BodyShapeStep(body, index, rows);
      } else if next.Closed? {
        ClosedIsFinal(rest);
        if rest != [] { assert !body[0].Batch?; }
        assert rest == [] ==> RowsOf(body) == [];
      } else {
        BrokenForGood(rest);
        if |body| == 1 { assert RowsOf(body[1..]) == []; }
      }
    }
  }

  lemma BodyShapeStep<R>(body: seq<Event<R>>, index: nat, rows: nat)
    requires body != [] && body[0].Batch? && body[0].chunkIndex == U32(index)
    ensures BodyShape(body, index, rows) <==> BodyShape(body[1..], index + 1, rows + |body[0].rows|)
  {
    if |body| >= 2 {
      NumberedStep(body, index);
      assert body[1..][|body| - 2] == body[|body| - 1];
      assert RowsOf(body) == body[0].rows + RowsOf(body[1..]);
    }
  }

  lemma NumberedStep<R>(body: seq<Event<R>>, index: nat)
    requires |body| >= 2 && body[0].Batch? && body[0].chunkIndex == U32(index)
    ensures NumberedFrom(body, index) <==> NumberedFrom(body[1..], index + 1)
  {
    var rest := body[1..];
    if NumberedFrom(rest, index + 1) {
      forall i | 0 <= i < |body| - 1
        ensures body[i].Batch? && body[i].chunkIndex == U32(index + i)
      {
        if i > 0 { assert rest[i - 1] == body[i] && rest[i - 1].chunkIndex == U32(index + 1 + (i - 1)); }
      }
    }
    if NumberedFrom(body, index) {
      forall i | 0 <= i < |rest| - 1
        ensures rest[i].Batch? && rest[i].chunkIndex == U32(index + 1 + i)
      {
        assert rest[i] == body[i + 1] && body[i + 1].chunkIndex == U32(index + (i + 1));
      }
    }
  }

  // ----- row conservation -----

  lemma {:induction false} EmissionsPrefix<R>(batches: seq<seq<R>>, index: nat, terminal: Event<R>, codec: Codec<R>)
    requires !terminal.Batch?
    ensures RowsOf(Emissions(batches, index, terminal, codec)) <= Flatten(batches)
    decreases |batches|
  {
    if batches == [] || !codec.batchOk(batches[0]) {
      assert RowsOf(Emissions(batches, index, terminal, codec)[1..]) == [];
    } else {
      EmissionsPrefix(batches[1..], index + 1, terminal, codec);
      assert Emissions(batches, index, terminal, codec)[1..] == Emissions(batches[1..], index + 1, terminal, codec);
      PrefixUnder(batches[0], RowsOf(Emissions(batches[1..], index + 1, terminal, codec)), Flatten(batches[1..]));
    }
  }

  lemma PrefixUnder<T>(head: seq<T>, a: seq<T>, b: seq<T>)
    requires a <= b
    ensures head + a <= head + b
  {
    assert b == a + b[|a|..];
    assert head + b == (head + a) + b[|a|..];
  }

  lemma {:induction false} EmissionsExact<R>(batches: seq<seq<R>>, index: nat, terminal: Event<R>, codec: Codec<R>)
    requires AllEncode(batches, codec)
    ensures var es := Emissions(batches, index, terminal, codec);
            && |es| == |batches| + 1
            && es[|batches|] == terminal
            && (forall i :: 0 <= i < |batches| ==> es[i] == Batch(batches[i], U32(index + i)))
    decreases |batches|
  {
    if batches != [] {
      var es, rest := Emissions(batches, index, terminal, codec), Emissions(batches[1..], index + 1, terminal, codec);
      EmissionsExact(batches[1..], index + 1, terminal, codec);
      assert es == [Batch(batches[0], U32(index))] + rest;
      forall i | 0 <= i < |batches|
        ensures es[i] == Batch(batches[i], U32(index + i))
      {
        if i > 0 {
          assert es[i] == rest[i - 1] == Batch(batches[1..][i - 1], U32(index + 1 + (i - 1)));
        }
      }
    }
  }

  lemma {:induction false} EmissionsAllRows<R>(batches: seq<seq<R>>, index: nat, terminal: Event<R>, codec: Codec<R>)
    requires !terminal.Batch? && AllEncode(batches, codec)
    ensures RowsOf(Emissions(batches, index, terminal, codec)) == Flatten(batches)
    decreases |batches|
  {
    var es := Emissions(batches, index, terminal, codec);
    if batches == [] {
      assert RowsOf(es[1..]) == [];
    } else {
      EmissionsAllRows(batches[1..], index + 1, terminal, codec);
      assert es[1..] == Emissions(batches[1..], index + 1, terminal, codec);
    }
  }

  /** Whatever fails to encode, the rows that did arrive are a prefix of the source's. */
  lemma StreamRowsPrefix<R>(columns: seq<ColumnInfo>, totalRows: Option<int>, batches: seq<seq<R>>,
                            failure: Option<string>, codec: Codec<R>)
    ensures RowsOf(StreamOf(columns, totalRows, batches, failure, codec)) <= Flatten(batches)
  {
    var es := StreamOf(columns, totalRows, batches, failure, codec);
    if codec.schemaOk(columns) {
      var terminal := Terminal(batches, 0, 0, failure);
      EmissionsPrefix(batches, 0, terminal, codec);
      RowsBehindSchema(columns, totalRows, Emissions(batches, 0, terminal, codec));
    } else {
      assert RowsOf(es[1..]) == [];
    }
  }

  lemma RowsBehindSchema<R>(columns: seq<ColumnInfo>, totalRows: Option<int>, body: seq<Event<R>>)
    ensures RowsOf([Schema(columns, totalRows)] + body) == RowsOf(body)
  {
    assert ([Schema(columns, totalRows)] + body)[1..] == body;
  }

  /**
   When everything encodes, the stream is exactly: the schema, the batches in order with
   their indices, the terminal; and no row is lost, repeated or reordered.
   */
  lemma StreamRowsExact<R>(columns: seq<ColumnInfo>, totalRows: Option<int>, batches: seq<seq<R>>,
                           failure: Option<string>, codec: Codec<R>)
    requires codec.schemaOk(columns) && AllEncode(batches, codec)
    ensures var es := StreamOf(columns, totalRows, batches, failure, codec);
            && |es| == |batches| + 2
            && es[0] == Schema(columns, totalRows)
            && (forall i :: 1 <= i <= |batches| ==> es[i] == Batch(batches[i - 1], U32(i - 1)))
            && es[|batches| + 1] == (if failure.Some? then Failed(failure.value)
                                     else Complete(U32(|batches|), U64(|Flatten(batches)|)))
            && RowsOf(es) == Flatten(batches)
  {
    var terminal := Terminal(batches, 0, 0, failure);
    var body := Emissions(batches, 0, terminal, codec);
    EmissionsExact(batches, 0, terminal, codec);
    EmissionsAllRows(batches, 0, terminal, codec);
    RowsBehindSchema(columns, totalRows, body);
    var es := [Schema(columns, totalRows)] + body;
    forall i | 1 <= i <= |batches|
      ensures es[i] == Batch(batches[i - 1], U32(i - 1))
    {
      assert es[i] == body[i - 1] == Batch(batches[i - 1], U32(0 + (i - 1)));
    }
  }

  /** Both together. */
  lemma StreamOfRows<R>(columns: seq<ColumnInfo>, totalRows: Option<int>, batches: seq<seq<R>>, failure: Option<string>,
                        codec: Codec<R>)
    ensures RowsOf(StreamOf(columns, totalRows, batches, failure, codec)) <= Flatten(batches)
    ensures codec.schemaOk(columns) && AllEncode(batches, codec) ==>
              var es := StreamOf(columns, totalRows, batches, failure, codec);
              && |es| == |batches| + 2
              && es[0] == Schema(columns, totalRows)
              && (forall i :: 1 <= i <= |batches| ==> es[i] == Batch(batches[i - 1], U32(i - 1)))
              && es[|batches| + 1] == (if failure.Some? then Failed(failure.value)
                                       else Complete(U32(|batches|), U64(|Flatten(batches)|)))
              && RowsOf(es) == Flatten(batches)
  {
    StreamRowsPrefix(columns, totalRows, batches, failure, codec);
    if codec.schemaOk(columns) && AllEncode(batches, codec) {
      StreamRowsExact(columns, totalRows, batches, failure, codec);
    }
  }

  /**
   A stream ends in Complete exactly when its source did not fail and everything encoded; then it carries
   every row.
   */
  lemma CompleteIff<R>(columns: seq<ColumnInfo>, totalRows: Option<int>, batches: seq<seq<R>>, failure: Option<string>,
                       codec: Codec<R>)
    ensures var es := StreamOf(columns, totalRows, batches, failure, codec);
            && es != []
            && (es[|es| - 1].Complete? <==> failure.None? && codec.schemaOk(columns) && AllEncode(batches, codec))
            && (es[|es| - 1].Complete? ==> RowsOf(es) == Flatten(batches))
  {
    if codec.schemaOk(columns) {
      EmissionsEnd(batches, 0, Terminal(batches, 0, 0, failure), codec);
      if AllEncode(batches, codec) {
        StreamRowsExact(columns, totalRows, batches, failure, codec);
      }
    }
  }

  lemma {:induction false} EmissionsEnd<R>(batches: seq<seq<R>>, index: nat, terminal: Event<R>, codec: Codec<R>)
    ensures var es := Emissions(batches, index, terminal, codec);
            && es != []
            && es[|es| - 1] == if AllEncode(batches, codec) then terminal else Failed(BATCH_ERROR)
    decreases |batches|
  {
    if batches != [] && codec.batchOk(batches[0]) {
      EmissionsEnd(batches[1..], index + 1, terminal, codec);
      assert AllEncode(batches, codec) <==> AllEncode(batches[1..], codec) by {
        assert forall i :: 1 <= i < |batches| ==> batches[i] == batches[1..][i - 1];
      }
    }
  }

  /**
   If the batches are a prefix of a result, and all of it unless the source failed, then so are the stream's
   rows, and a stream that ends in Complete carries the whole result.
   */
  lemma StreamWithin<R>(columns: seq<ColumnInfo>, totalRows: Option<int>, batches: seq<seq<R>>, failure: Option<string>,
                        codec: Codec<R>, table: seq<R>)
    requires Flatten(batches) <= table && (failure.None? ==> Flatten(batches) == table)
    ensures var es := StreamOf(columns, totalRows, batches, failure, codec);
            es != [] && RowsOf(es) <= table && (es[|es| - 1].Complete? ==> failure.None? && RowsOf(es) == table)
  {
    var es := StreamOf(columns, totalRows, batches, failure, codec);
    StreamRowsPrefix(columns, totalRows, batches, failure, codec);
    CompleteIff(columns, totalRows, batches, failure, codec);
    PrefixTransitive(RowsOf(es), Flatten(batches), table);
  }

  lemma PrefixTransitive<T>(a: seq<T>, b: seq<T>, c: seq<T>)
    requires a <= b <= c
    ensures a <= c
  {
  }

  /**
   When the schema does not encode, the stream is that error alone.  When exactly the first `k` batches encode,
   it is the schema, those batches in order, and that error.
   */
  lemma StreamCutShort<R>(columns: seq<ColumnInfo>, totalRows: Option<int>, batches: seq<seq<R>>,
                          failure: Option<string>, codec: Codec<R>, k: nat)
    requires k < |batches| && AllEncode(batches[..k], codec) && !codec.batchOk(batches[k])
    ensures var es := StreamOf(columns, totalRows, batches, failure, codec);
            && (!codec.schemaOk(columns) ==> es == [Failed("Arrow schema serialization error")])
            && (codec.schemaOk(columns) ==>
                  && |es| == k + 2 && es[0] == Schema(columns, totalRows)
                  && (forall i :: 1 <= i <= k ==> es[i] == Batch(batches[i - 1], U32(i - 1)))
                  && es[k + 1] == Failed("Arrow IPC serialization error"))
  {
    if codec.schemaOk(columns) {
      var terminal := Terminal(batches, 0, 0, failure);
      var body := Emissions(batches, 0, terminal, codec);
      EmissionsCut(batches, 0, terminal, codec, k);
      var es := [Schema(columns, totalRows)] + body;
      forall i | 1 <= i <= k
        ensures es[i] == Batch(batches[i - 1], U32(i - 1))
      {
        assert es[i] == body[i - 1] == Batch(batches[i - 1], U32(0 + (i - 1)));
      }
    }
  }

  lemma {:induction false} EmissionsCut<R>(batches: seq<seq<R>>, index: nat, terminal: Event<R>, codec: Codec<R>,
                                           k: nat)
    requires k < |batches| && AllEncode(batches[..k], codec) && !codec.batchOk(batches[k])
    ensures var es := Emissions(batches, index, terminal, codec);
            && |es| == k + 1 && es[k] == Failed(BATCH_ERROR)
            && (forall i :: 0 <= i < k ==> es[i] == Batch(batches[i], U32(index + i)))
    decreases |batches|
  {
    if k > 0 {
      var rest := Emissions(batches[1..], index + 1, terminal, codec);
      assert codec.batchOk(batches[..k][0]);
      var shorter := batches[1..][..k - 1];
      forall i | 0 <= i < |shorter|
        ensures codec.batchOk(shorter[i])
      {
        assert shorter[i] == batches[..k][i + 1];
      }
      EmissionsCut(batches[1..], index + 1, terminal, codec, k - 1);
      var es := [Batch(batches[0], U32(index))] + rest;
      forall i | 0 <= i < k
        ensures es[i] == Batch(batches[i], U32(index + i))
      {
        if i > 0 {
          assert es[i] == rest[i - 1] == Batch(batches[1..][i - 1], U32(index + 1 + (i - 1)));
        }
      }
    }
  }
}
