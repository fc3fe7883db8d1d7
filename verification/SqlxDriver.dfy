/**
 The chunking driver shared by the PostgreSQL, MySQL and Redshift providers: it pulls rows
 one at a time, cuts them into batches of `chunkSize`, and sends schema, batches, totals.
 */
module SqlxDriver {
  import opened Arithmetic
  import opened Options
  import opened StreamEvents

  /** What the row stream does after its last row. */
  datatype SourceEnd = Exhausted | QueryError(detail: string) | TimedOut

  const TIMEOUT_ERROR := "Query timed out"

  function FailureOf(end: SourceEnd): Option<string> {
    match end
    case Exhausted => None
    case QueryError(detail) => Some("Query error: " + detail)
    case TimedOut => Some(TIMEOUT_ERROR)
  }

  /** The flush test is `row_count >= chunk_size` after a row was added, so 0 acts as 1. */
  function EffectiveSize(chunkSize: nat): (c: nat)
    ensures c >= 1
  {
    if chunkSize == 0 then 1 else chunkSize
  }

  // ----- cutting rows into batches -----

  /** All rows, `c` at a time, the last batch possibly shorter. */
  function Chunks<R>(rows: seq<R>, c: nat): seq<seq<R>>
    requires c >= 1
    decreases |rows|
  {
    if rows == [] then []
    else if |rows| <= c then [rows]
    else [rows[..c]] + Chunks(rows[c..], c)
  }

  /** Only the full batches: what has been flushed when the source fails after `rows`. */
  function FullChunks<R>(rows: seq<R>, c: nat): seq<seq<R>>
    requires c >= 1
    decreases |rows|
  {
    if |rows| < c then [] else [rows[..c]] + FullChunks(rows[c..], c)
  }

  function BatchesOf<R>(rows: seq<R>, end: SourceEnd, c: nat): seq<seq<R>>
    requires c >= 1
  {
    if end.Exhausted? then Chunks(rows, c) else FullChunks(rows, c)
  }

  /** The whole stream the driver is meant to produce from `rows` followed by `end`. */
  function SqlxStream<R>(rows: seq<R>, end: SourceEnd, totalRows: Option<int>, chunkSize: nat,
                         extractColumns: R -> seq<ColumnInfo>, codec: Codec<R>): seq<Event<R>>
  {
    if rows == [] && !end.Exhausted? then [Failed(FailureOf(end).value)]
    else
      var columns := if rows == [] then [] else extractColumns(rows[0]);
      StreamOf(columns, totalRows, BatchesOf(rows, end, EffectiveSize(chunkSize)), FailureOf(end), codec)
  }

  /**
   The driver.  `expect("builder initialized with first row")` is the assertion below.
   */
  method DriveSqlxStream<R>(tx: EventChannel<R>, rows: seq<R>, end: SourceEnd, totalRows: Option<int>, chunkSize: nat,
                            extractColumns: R -> seq<ColumnInfo>, codec: Codec<R>)
    requires tx.Valid() && tx.sent == []
    modifies tx
    ensures tx.sent == Delivered(SqlxStream(rows, end, totalRows, chunkSize, extractColumns, codec), tx.accepts)
  {
    ghost var trace := SqlxStream(rows, end, totalRows, chunkSize, extractColumns, codec);
    ghost var c := EffectiveSize(chunkSize);
    ghost var failure := FailureOf(end);
    ghost var left := BatchesOf(rows, end, c);   // the batches still to be sent
    ghost var flushed: nat := 0;
    ghost var received: nat := 0;

    var columns: seq<ColumnInfo> := [];
    var columnsReady := false;
    var builder: Option<seq<R>> := None;
    var chunkIndex: nat := 0;
    var totalRowsReturned: nat := 0;
    var next := 0;
    var ok: bool;

    while next < |rows|
      invariant tx.Valid() && 0 <= next <= |rows|
      invariant totalRowsReturned == U64(next)
      invariant chunkIndex == U32(flushed)
      invariant columnsReady <==> next > 0
      invariant !columnsReady ==>
                builder.None? && tx.sent == [] && flushed == 0 && received == 0 && left == BatchesOf(rows, end, c)
      invariant columnsReady ==> Holding(builder, rows[next..], left, end, c) && received + |builder.value| == next
      invariant columnsReady ==> OnTrack(trace, tx.sent, left, flushed, received, failure, codec)
      decreases |rows| - next
    {
      var row := rows[next];
      if !columnsReady {
        columns := extractColumns(row);
        columnsReady := true;
        ok := SendSchema(tx, columns, totalRows, codec, left, failure);
        if !ok {
          return;
        }
        builder := Some([]);
        assert Holding(builder, rows[next..], left, end, c) by {
          assert [] + rows[0..] == rows;
        }
      }

      assert builder.Some?;
      assert rows[next..] == [row] + rows[next + 1..];
      totalRowsReturned := Succ64(totalRowsReturned);
      next := next + 1;
      ok, builder, chunkIndex, left, flushed, received :=
        TakeRow(tx, row, builder.value, chunkSize, chunkIndex, codec, rows[next..], end, left, flushed, received,
                trace);
      if !ok {
        return;
      }
    }
    assert rows[next..] == [];
    EndStream(tx, end, columnsReady, builder, chunkIndex, totalRowsReturned, totalRows, codec, flushed, received,
              trace);
  }

  /** Convert one row into the builder and, when that fills it, send it as the next batch and start an empty one. */
  method TakeRow<R>(tx: EventChannel<R>, row: R, held: seq<R>, chunkSize: nat, chunkIndex: nat, codec: Codec<R>,
                    ghost upcoming: seq<R>, ghost end: SourceEnd, ghost left: seq<seq<R>>, ghost flushed: nat,
                    ghost received: nat, ghost trace: seq<Event<R>>)
    returns (ok: bool, builder: Option<seq<R>>, nextIndex: nat, ghost stillLeft: seq<seq<R>>, ghost nowFlushed: nat,
      ghost nowReceived: nat)
    requires tx.Valid() && chunkIndex == U32(flushed)
    requires Holding(Some(held), [row] + upcoming, left, end, EffectiveSize(chunkSize))
    requires OnTrack(trace, tx.sent, left, flushed, received, FailureOf(end), codec)
    modifies tx
    ensures tx.Valid() && nextIndex == U32(nowFlushed)
    ensures ok ==> Holding(builder, upcoming, stillLeft, end, EffectiveSize(chunkSize))
    ensures ok ==> nowReceived + |builder.value| == received + |held| + 1
    ensures ok ==> OnTrack(trace, tx.sent, stillLeft, nowFlushed, nowReceived, FailureOf(end), codec)
    ensures !ok ==> tx.sent == Delivered(trace, tx.accepts)
  {
    ghost var c := EffectiveSize(chunkSize);
    HoldingRow(held, row, upcoming, left, end, c);
    ok, builder, nextIndex := true, Some(held + [row]), chunkIndex;
    stillLeft, nowFlushed, nowReceived := left, flushed, received;
    if |builder.value| >= chunkSize {
      FlushStep(builder.value, upcoming, end, c);
      stillLeft := BatchesOf(upcoming, end, c);
      ok := SendBatch(tx, builder.value, chunkIndex, codec, trace, stillLeft, flushed, received, FailureOf(end));
      nextIndex := Succ32(chunkIndex);
      nowFlushed, nowReceived := flushed + 1, received + |builder.value|;
      builder := Some([]);
      assert [] + upcoming == upcoming;
    }
  }

  /** The builder holds fewer than `c` rows, and they and the rows to come make up exactly the batches left. */
  ghost predicate Holding<R>(builder: Option<seq<R>>, upcoming: seq<R>, left: seq<seq<R>>, end: SourceEnd, c: nat)
    requires c >= 1
  {
    && builder.Some? && |builder.value| < c
    && left == BatchesOf(builder.value + upcoming, end, c)
    && (upcoming == [] ==> left == if end.Exhausted? then NonEmpty(builder.value) else [])
  }

  lemma HoldingRow<R>(held: seq<R>, row: R, upcoming: seq<R>, left: seq<seq<R>>, end: SourceEnd, c: nat)
    requires c >= 1 && Holding(Some(held), [row] + upcoming, left, end, c)
    ensures left == BatchesOf(held + [row] + upcoming, end, c)
    ensures |held| + 1 < c ==> Holding(Some(held + [row]), upcoming, left, end, c)
  {
    assert held + ([row] + upcoming) == held + [row] + upcoming;
    if upcoming == [] {
      assert held + [row] + upcoming == held + [row];
    }
  }

  /**
   The driver's last step: report the source's error, or send an empty schema if there never was a
   row, flush what is left in the builder, and send the totals.
   */
  method EndStream<R>(tx: EventChannel<R>, end: SourceEnd, columnsReady: bool, builder: Option<seq<R>>, chunkIndex: nat,
                      totalRowsReturned: nat, totalRows: Option<int>, codec: Codec<R>, ghost flushed: nat,
                      ghost received: nat, ghost trace: seq<Event<R>>)
    requires tx.Valid() && chunkIndex == U32(flushed)
    requires columnsReady ==>
               && builder.Some? && totalRowsReturned == U64(received + |builder.value|)
               && var left := if end.Exhausted? then NonEmpty(builder.value) else [];
                  OnTrack(trace, tx.sent, left, flushed, received, FailureOf(end), codec)
    requires !columnsReady ==>
               && tx.sent == [] && builder.None? && flushed == 0 && received == 0 && totalRowsReturned == 0
               && trace == if end.Exhausted? then StreamOf([], totalRows, [], None, codec)
                 else [Failed(FailureOf(end).value)]
    modifies tx
    ensures tx.sent == Delivered(trace, tx.accepts)
  {
    var ok: bool;
    if !end.Exhausted? {
      assert columnsReady ==> trace == tx.sent + [Failed(FailureOf(end).value)];
      ok := SendNext(tx, Failed(FailureOf(end).value), trace, [Failed(FailureOf(end).value)]);
      return;
    }
    var chunks := chunkIndex;
    if !columnsReady {
      ok := SendSchema(tx, [], totalRows, codec, [], None);
      if !ok {
        return;
      }
      SendTerminal(tx, Complete(chunks, totalRowsReturned), trace, 0, 0, None, codec);
    } else if |builder.value| > 0 {
      assert NonEmpty(builder.value) == [builder.value] + [];
      ok := SendBatch(tx, builder.value, chunks, codec, trace, [], flushed, received, None);
      if !ok {
        return;
      }
      chunks := Succ32(chunks);
      SendTerminal(tx, Complete(chunks, totalRowsReturned), trace, flushed + 1, received + |builder.value|, None,
                   codec);
    } else {
      SendTerminal(tx, Complete(chunks, totalRowsReturned), trace, flushed, received, None, codec);
    }
  }

  lemma FlushStep<R>(full: seq<R>, rest: seq<R>, end: SourceEnd, c: nat)
    requires c >= 1 && |full| == c
    ensures BatchesOf(full + rest, end, c) == [full] + BatchesOf(rest, end, c)
  {
    assert (full + rest)[..c] == full && (full + rest)[c..] == rest;
    if rest == [] {
      assert full + rest == full;
    }
  }

  // ----- what the cutting means -----

  lemma {:induction false} ChunkTotals<R>(rows: seq<R>, c: nat)
    requires c >= 1
    ensures Flatten(Chunks(rows, c)) == rows
    decreases |rows|
  {
    if |rows| > c {
      ChunkTotals(rows[c..], c);
    } else if rows != [] {
      assert Flatten([rows]) == rows + Flatten<R>([]);
    }
  }

  /** Every batch but the last has exactly `c` rows, the last 1 to `c`, and there are ceil(n/c). */
  lemma {:induction false} ChunkSizes<R>(rows: seq<R>, c: nat)
    requires c >= 1
    ensures |Chunks(rows, c)| == (|rows| + c - 1) / c
    ensures forall i :: 0 <= i < |Chunks(rows, c)| ==>
              1 <= |Chunks(rows, c)[i]| <= c && (i < |Chunks(rows, c)| - 1 ==> |Chunks(rows, c)[i]| == c)
    decreases |rows|
  {
    if rows == [] {
      DivUnique(c - 1, c, 0);
    } else if |rows| <= c {
      DivUnique(|rows| + c - 1, c, 1);
    } else {
      ChunkSizes(rows[c..], c);
      DivStep(|rows| + c - 1, c);
    }
  }

  /** After `n` rows exactly floor(n/c) batches of `c` rows each have been flushed: the first floor(n/c)*c rows. */
  lemma {:induction false} FullChunkSizes<R>(rows: seq<R>, c: nat)
    requires c >= 1
    ensures |FullChunks(rows, c)| == |rows| / c
    ensures forall i :: 0 <= i < |FullChunks(rows, c)| ==> |FullChunks(rows, c)[i]| == c
    ensures Flatten(FullChunks(rows, c)) <= rows
    ensures |Flatten(FullChunks(rows, c))| == |rows| / c * c
    decreases |rows|
  {
    if |rows| < c {
      DivUnique(|rows|, c, 0);
    } else {
      FullChunkSizes(rows[c..], c);
      assert rows == rows[..c] + rows[c..];
      PrefixUnder(rows[..c], Flatten(FullChunks(rows[c..], c)), rows[c..]);
      DivStep(|rows|, c);
    }
  }

  // ----- the driver's stream -----

  /** For every source, every failure point and every hang-up, the driver's stream is well formed. */
  lemma SqlxStreamWellFormed<R>(rows: seq<R>, end: SourceEnd, totalRows: Option<int>, chunkSize: nat,
                                extractColumns: R -> seq<ColumnInfo>, codec: Codec<R>, accepts: Option<nat>)
    ensures var trace := SqlxStream(rows, end, totalRows, chunkSize, extractColumns, codec);
            && StreamShape(trace)
            && Delivered(trace, accepts) <= trace
            && Observe(Start, Delivered(trace, accepts)) != Broken
            && RowsOf(trace) <= rows
  {
    var trace := SqlxStream(rows, end, totalRows, chunkSize, extractColumns, codec);
    var c := EffectiveSize(chunkSize);
    if rows == [] && !end.Exhausted? {
      LoneFailureCloses<R>(FailureOf(end).value);
      assert RowsOf(trace[1..]) == [];
    } else {
      var columns := if rows == [] then [] else extractColumns(rows[0]);
      StreamOfCloses(columns, totalRows, BatchesOf(rows, end, c), FailureOf(end), codec);
      StreamOfRows(columns, totalRows, BatchesOf(rows, end, c), FailureOf(end), codec);
      ChunkTotals(rows, c);
      FullChunkSizes(rows, c);
    }
    ClosedIffShape(trace);
    DeliveredNeverBroken(trace, accepts);
  }

  /** A stream of `k` chunks, whatever it comes from. */
  lemma ChunkedStream<R>(columns: seq<ColumnInfo>, totalRows: Option<int>, rows: seq<R>, c: nat, codec: Codec<R>,
                         k: nat)
    requires c >= 1 && codec.schemaOk(columns) && AllEncode(Chunks(rows, c), codec) && k == |Chunks(rows, c)|
    ensures var es := StreamOf(columns, totalRows, Chunks(rows, c), None, codec);
            && |es| == k + 2
            && es[0] == Schema(columns, totalRows)
            && (forall i :: 1 <= i <= k ==> BatchNumbered(es[i], i - 1) && 1 <= |es[i].rows| <= c)
            && (forall i :: 1 <= i < k ==> |es[i].rows| == c)
            && es[k + 1] == Complete(U32(k), U64(|rows|))
            && RowsOf(es) == rows
  {
    ChunkTotals(rows, c);
    ChunkSizes(rows, c);
    StreamRowsExact(columns, totalRows, Chunks(rows, c), None, codec);
  }

  /**
   A source that runs to its end: the stream is the schema, ceil(n/c) batches that concatenate to the source
   rows, all of `c` rows but the last, and a Complete with exactly those totals, where `c` is the caller's chunk
   size, or 1 if that is 0.
   */
  lemma ExhaustedSource<R>(rows: seq<R>, totalRows: Option<int>, chunkSize: nat, extractColumns: R -> seq<ColumnInfo>,
                           codec: Codec<R>, c: nat)
    requires c == if chunkSize == 0 then 1 else chunkSize
    requires codec.schemaOk(if rows == [] then [] else extractColumns(rows[0]))
    requires AllEncode(Chunks(rows, c), codec)
    ensures var trace := SqlxStream(rows, Exhausted, totalRows, chunkSize, extractColumns, codec);
            var k := (|rows| + c - 1) / c;
            && |trace| == k + 2
            && trace[0] == Schema(if rows == [] then [] else extractColumns(rows[0]), totalRows)
            && (forall i :: 1 <= i <= k ==> BatchNumbered(trace[i], i - 1) && 1 <= |trace[i].rows| <= c)
            && (forall i :: 1 <= i < k ==> |trace[i].rows| == c)
            && trace[k + 1] == Complete(U32(k), U64(|rows|))
            && RowsOf(trace) == rows
  {
    var k := |Chunks(rows, c)|;
    ChunkSizes(rows, c);
    assert k == (|rows| + c - 1) / c;
    ChunkedStream(if rows == [] then [] else extractColumns(rows[0]), totalRows, rows, c, codec, k);
  }

  ghost predicate BatchNumbered<R>(e: Event<R>, i: nat) {
    e.Batch? && e.chunkIndex == U32(i)
  }

  /**
   A source that fails after k rows: exactly floor(k/c) full batches, then its error and nothing else, with `c`
   as above.  Before the first row there is no schema either.
   */
  lemma FailingSource<R>(rows: seq<R>, end: SourceEnd, totalRows: Option<int>, chunkSize: nat,
                         extractColumns: R -> seq<ColumnInfo>, codec: Codec<R>, c: nat)
    requires !end.Exhausted? && c == if chunkSize == 0 then 1 else chunkSize
    requires rows != [] ==> codec.schemaOk(extractColumns(rows[0]))
    requires AllEncode(FullChunks(rows, c), codec)
    ensures var trace := SqlxStream(rows, end, totalRows, chunkSize, extractColumns, codec);
            var k := |rows| / c;
            var opening := if rows == [] then [] else [Schema(extractColumns(rows[0]), totalRows)];
            && |trace| == |opening| + k + 1
            && trace[..|opening|] == opening
            && (forall i :: |opening| <= i < |opening| + k ==>
                  BatchNumbered(trace[i], i - |opening|) && |trace[i].rows| == c)
            && trace[|opening| + k] == Failed(if end.QueryError? then "Query error: " + end.detail else TIMEOUT_ERROR)
            && RowsOf(trace) <= rows && |RowsOf(trace)| == k * c
  {
    var batches := FullChunks(rows, c);
    FullChunkSizes(rows, c);
    var trace := SqlxStream(rows, end, totalRows, chunkSize, extractColumns, codec);
    if rows == [] {
      assert RowsOf(trace[1..]) == [];
    } else {
      StreamRowsExact(extractColumns(rows[0]), totalRows, batches, FailureOf(end), codec);
      assert trace == StreamOf(extractColumns(rows[0]), totalRows, batches, FailureOf(end), codec);
    }
  }

  /**
   Whatever fails: the stream's rows are a prefix of the source's; it ends in Complete only if the source
   did, with all of them.
   */
  lemma SqlxRows<R>(rows: seq<R>, end: SourceEnd, totalRows: Option<int>, chunkSize: nat,
                    extractColumns: R -> seq<ColumnInfo>, codec: Codec<R>)
    ensures var trace := SqlxStream(rows, end, totalRows, chunkSize, extractColumns, codec);
            && RowsOf(trace) <= rows
            && trace != []
            && (trace[|trace| - 1].Complete? ==> end.Exhausted? && RowsOf(trace) == rows)
  {
    var trace := SqlxStream(rows, end, totalRows, chunkSize, extractColumns, codec);
    var c := EffectiveSize(chunkSize);
    if rows == [] && !end.Exhausted? {
      assert RowsOf(trace[1..]) == [];
    } else {
      var columns := if rows == [] then [] else extractColumns(rows[0]);
      ChunkTotals(rows, c);
      FullChunkSizes(rows, c);
      StreamWithin(columns, totalRows, BatchesOf(rows, end, c), FailureOf(end), codec, rows);
    }
  }
}
