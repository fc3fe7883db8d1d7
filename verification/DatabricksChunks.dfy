/**
 Databricks results: rows inline in the statement's answer, then a chain of chunks linked by
 `next_chunk_index`.  The buffered path gathers them into one list; the streaming path sends
 one batch per non-empty chunk.
 */
module DatabricksChunks {
  import opened Options
  import opened Splitting
  import opened StreamEvents

  /** One answer to a chunk request: lost on the way, or a body with its status and what it carries. */
  datatype ChunkReply<+R> =
    | Lost(message: string)
    | Body(errorStatus: bool, message: string, rows: seq<R>, next: Option<nat>)

  /** `server(k, index)` answers the k-th chunk request, which asks for chunk `index`. */
  type ChunkServer<!R> = (nat, nat) -> ChunkReply<R>

  const LINK_LOST := "chunk fetch failed"

  /** The outcome of submitting the statement and polling it to completion. */
  datatype Statement<+R> =
    | Rejected(message: string)
    | Succeeded(columns: seq<ColumnInfo>, inlineRows: seq<R>, firstChunk: Option<nat>)

  function Answer<R>(server: ChunkServer<R>, attempts: nat, k: nat, index: nat): ChunkReply<R> {
    if k < attempts then server(k, index) else Lost(LINK_LOST)
  }

  // ----- streaming -----

  datatype ChainRun<+R> = ChainRun(batches: seq<seq<R>>, failure: Option<string>)

  /** What following the chain from `next` streams. */
  function ChainFrom<R>(server: ChunkServer<R>, attempts: nat, k: nat, next: Option<nat>): ChainRun<R>
    decreases attempts - k
  {
    if next.None? then ChainRun([], None)
    else match Answer(server, attempts, k, next.value)
      case Lost(message) => ChainRun([], Some(message))
      case Body(errorStatus, message, rows, after) =>
        if errorStatus then ChainRun([], Some(message))
        else
          var rest := ChainFrom(server, attempts, k + 1, after);
          ChainRun(NonEmpty(rows) + rest.batches, rest.failure)
  }

  function DatabricksStream<R>(statement: Statement<R>, server: ChunkServer<R>, attempts: nat,
                               codec: Codec<R>): seq<Event<R>>
  {
    match statement
    case Rejected(message) => [Failed(message)]
    case Succeeded(columns, inlineRows, firstChunk) =>
      var rest := ChainFrom(server, attempts, 0, firstChunk);
      StreamOf(columns, None, NonEmpty(inlineRows) + rest.batches, rest.failure, codec)
  }

  /**
   When `received` rows have gone out in `flushed` batches, exactly what following the chain from `next`
   brings is to come.
   */
  ghost predicate Ready<R>(trace: seq<Event<R>>, sent: seq<Event<R>>, server: ChunkServer<R>, attempts: nat,
                           codec: Codec<R>, k: nat, next: Option<nat>, flushed: nat, received: nat)
  {
    var chain := ChainFrom(server, attempts, k, next);
    OnTrack(trace, sent, chain.batches, flushed, received, chain.failure, codec)
  }

  /** The streaming task. */
  method StreamChunks<R>(tx: EventChannel<R>, statement: Statement<R>, server: ChunkServer<R>, attempts: nat,
                         codec: Codec<R>)
    requires tx.Valid() && tx.sent == []
    modifies tx
    ensures tx.sent == Delivered(DatabricksStream(statement, server, attempts, codec), tx.accepts)
  {
    ghost var trace := DatabricksStream(statement, server, attempts, codec);
    var ok: bool;
    if statement.Rejected? {
      ok := SendNext(tx, Failed(statement.message), trace, trace);
      return;
    }
    ghost var chain := ChainFrom(server, attempts, 0, statement.firstChunk);
    ok := SendSchema(tx, statement.columns, None, codec, NonEmpty(statement.inlineRows) + chain.batches, chain.failure);
    if !ok {
      return;
    }

    var chunkIndex: nat, totalRowsReturned: nat;
    ok, chunkIndex, totalRowsReturned :=
      SendRows(tx, statement.inlineRows, 0, 0, codec, trace, chain.batches, 0, 0, chain.failure);
    if !ok {
      return;
    }
    FollowChain(tx, statement.firstChunk, server, attempts, chunkIndex, totalRowsReturned, codec,
                |NonEmpty(statement.inlineRows)|, |statement.inlineRows|, trace);
  }

  /** The streaming task's loop over the chunk chain, and its final event. */
  method FollowChain<R>(tx: EventChannel<R>, firstChunk: Option<nat>, server: ChunkServer<R>, attempts: nat,
                        firstIndex: nat, firstTotal: nat, codec: Codec<R>, ghost sentBefore: nat, ghost rowsBefore: nat,
                        ghost trace: seq<Event<R>>)
    requires tx.Valid() && firstIndex == U32(sentBefore) && firstTotal == U64(rowsBefore)
    requires Ready(trace, tx.sent, server, attempts, codec, 0, firstChunk, sentBefore, rowsBefore)
    modifies tx
    ensures tx.sent == Delivered(trace, tx.accepts)
  {
    ghost var flushed: nat, received: nat := sentBefore, rowsBefore;
    var chunkIndex, totalRowsReturned := firstIndex, firstTotal;
    var nextChunk := firstChunk;
    var k: nat := 0;
    while nextChunk.Some?
      invariant tx.Valid() && k <= attempts
      invariant chunkIndex == U32(flushed) && totalRowsReturned == U64(received)
      invariant Ready(trace, tx.sent, server, attempts, codec, k, nextChunk, flushed, received)
      decreases attempts - k, nextChunk.Some?
    {
      var reply := Answer(server, attempts, k, nextChunk.value);
      var ok: bool;
      ok, chunkIndex, totalRowsReturned, flushed, received :=
        TakeChunk(tx, reply, chunkIndex, totalRowsReturned, codec, server, attempts, k, nextChunk.value, flushed,
          received, trace);
      if !ok {
        return;
      }
      nextChunk := reply.next;
      k := k + 1;
    }
    SendTerminal(tx, Complete(chunkIndex, totalRowsReturned), trace, flushed, received, None, codec);
  }

  /** Refuse a lost or failed answer; otherwise send the chunk's rows and count them. */
  method TakeChunk<R>(tx: EventChannel<R>, reply: ChunkReply<R>, chunkIndex: nat, total: nat, codec: Codec<R>,
                      ghost server: ChunkServer<R>, ghost attempts: nat, ghost k: nat, ghost index: nat,
                      ghost flushed: nat, ghost received: nat, ghost trace: seq<Event<R>>)
    returns (ok: bool, nextIndex: nat, newTotal: nat, ghost nowFlushed: nat, ghost nowReceived: nat)
    requires tx.Valid() && reply == Answer(server, attempts, k, index) && chunkIndex == U32(flushed)
             && total == U64(received)
    requires Ready(trace, tx.sent, server, attempts, codec, k, Some(index), flushed, received)
    modifies tx
    ensures tx.Valid() && nextIndex == U32(nowFlushed) && newTotal == U64(nowReceived)
    ensures ok ==>
            reply.Body? && Ready(trace, tx.sent, server, attempts, codec, k + 1, reply.next, nowFlushed, nowReceived)
    ensures !ok ==> tx.sent == Delivered(trace, tx.accepts)
  {
    ok, nextIndex, newTotal, nowFlushed, nowReceived := false, chunkIndex, total, flushed, received;
    if reply.Lost? || reply.errorStatus {
      SendTerminal(tx, Failed(reply.message), trace, flushed, received, Some(reply.message), codec);
      return;
    }
    ghost var rest := ChainFrom(server, attempts, k + 1, reply.next);
    ok, nextIndex, newTotal :=
      SendRows(tx, reply.rows, chunkIndex, total, codec, trace, rest.batches, flushed, received, rest.failure);
    nowFlushed, nowReceived := flushed + |NonEmpty(reply.rows)|, received + |reply.rows|;
  }

  /** Whatever the chain does, including running in a circle until the link is lost, the stream is well formed. */
  lemma DatabricksStreamWellFormed<R>(statement: Statement<R>, server: ChunkServer<R>, attempts: nat, codec: Codec<R>,
                                      accepts: Option<nat>)
    ensures var trace := DatabricksStream(statement, server, attempts, codec);
            && StreamShape(trace)
            && Delivered(trace, accepts) <= trace
            && Observe(Start, Delivered(trace, accepts)) != Broken
  {
    var trace := DatabricksStream(statement, server, attempts, codec);
    match statement {
      case Rejected(message) =>
        LoneFailureCloses<R>(message);
      case Succeeded(columns, inlineRows, firstChunk) =>
        var rest := ChainFrom(server, attempts, 0, firstChunk);
        StreamOfCloses(columns, None, NonEmpty(inlineRows) + rest.batches, rest.failure, codec);
    }
    ClosedIffShape(trace);
    DeliveredNeverBroken(trace, accepts);
  }

  // ----- buffered -----

  /** The rows the buffered fetch gathers from `next` on: it ignores the status and stops at the first lost answer. */
  function GatheredFrom<R>(server: ChunkServer<R>, attempts: nat, k: nat, next: Option<nat>): seq<R>
    decreases attempts - k
  {
    if next.None? then []
    else match Answer(server, attempts, k, next.value)
      case Lost(_) => []
      case Body(_, _, rows, after) => rows + GatheredFrom(server, attempts, k + 1, after)
  }

  /** `fetch_all_chunks` */
  method FetchAllChunks<R>(inlineRows: seq<R>, firstChunk: Option<nat>, server: ChunkServer<R>, attempts: nat)
    returns (allRows: seq<R>)
    ensures allRows == inlineRows + GatheredFrom(server, attempts, 0, firstChunk)
  {
    allRows := inlineRows;
    var nextChunk := firstChunk;
    var k: nat := 0;
    while nextChunk.Some?
      invariant k <= attempts
      invariant allRows + GatheredFrom(server, attempts, k, nextChunk)
                == inlineRows + GatheredFrom(server, attempts, 0, firstChunk)
      decreases attempts - k, nextChunk.Some?
    {
      var reply := Answer(server, attempts, k, nextChunk.value);
      if reply.Lost? {
        break;
      }
      assert allRows + (reply.rows + GatheredFrom(server, attempts, k + 1, reply.next))
          == (allRows + reply.rows) + GatheredFrom(server, attempts, k + 1, reply.next);
      allRows := allRows + reply.rows;
      nextChunk := reply.next;
      k := k + 1;
    }
  }

  // ----- both paths see the same rows -----

  /** What the buffered path still gathers from the first error answer on, which the streaming path stops at. */
  function PastError<R>(server: ChunkServer<R>, attempts: nat, k: nat, next: Option<nat>): seq<R>
    decreases attempts - k
  {
    if next.None? then []
    else match Answer(server, attempts, k, next.value)
      case Lost(_) => []
      case Body(errorStatus, _, _, after) =>
        if errorStatus then GatheredFrom(server, attempts, k, next) else PastError(server, attempts, k + 1, after)
  }

  /** For every chain: the gathered rows are the streamed rows, and then whatever lies past an error answer. */
  lemma {:induction false} GatheredIsStreamed<R>(server: ChunkServer<R>, attempts: nat, k: nat, next: Option<nat>)
    ensures GatheredFrom(server, attempts, k, next)
         == Flatten(ChainFrom(server, attempts, k, next).batches) + PastError(server, attempts, k, next)
    decreases attempts - k
  {
    if next.Some? && k < attempts {
      var reply := server(k, next.value);
      if reply.Body? && !reply.errorStatus {
        GatheredIsStreamed(server, attempts, k + 1, reply.next);
        var rest := ChainFrom(server, attempts, k + 1, reply.next);
        var past := PastError(server, attempts, k + 1, reply.next);
        FlattenNonEmpty(reply.rows, rest.batches);
        Associative(reply.rows, Flatten(rest.batches), past);
      }
    }
  }

  /**
   The streamed rows are a prefix of the buffered rows; they are the same rows, empty chunks included and
   even when an answer is lost, exactly when nothing lies past an error answer.
   */
  lemma BufferedEqualsStreamed<R>(columns: seq<ColumnInfo>, inlineRows: seq<R>, firstChunk: Option<nat>,
                                  server: ChunkServer<R>, attempts: nat, codec: Codec<R>)
    requires codec.schemaOk(columns)
    requires AllEncode(NonEmpty(inlineRows) + ChainFrom(server, attempts, 0, firstChunk).batches, codec)
    ensures var streamed :=
            RowsOf(DatabricksStream(Succeeded(columns, inlineRows, firstChunk), server, attempts, codec));
            var buffered := inlineRows + GatheredFrom(server, attempts, 0, firstChunk);
            && streamed <= buffered
            && (streamed == buffered <==> PastError(server, attempts, 0, firstChunk) == [])
  {
    var rest := ChainFrom(server, attempts, 0, firstChunk);
    var past := PastError(server, attempts, 0, firstChunk);
    GatheredIsStreamed(server, attempts, 0, firstChunk);
    FlattenNonEmpty(inlineRows, rest.batches);
    StreamRowsExact(columns, None, NonEmpty(inlineRows) + rest.batches, rest.failure, codec);
    Associative(inlineRows, Flatten(rest.batches), past);
    SameIffNothingBehind(inlineRows + Flatten(rest.batches), past);
  }

  /** The chunks reached from `next` are `indices`, and each is answered with a good status. */
  ghost predicate GoodChain<R>(server: ChunkServer<R>, k: nat, next: Option<nat>, indices: seq<nat>)
    decreases |indices|
  {
    if indices == [] then next.None?
    else
      && next == Some(indices[0])
      && server(k, indices[0]).Body? && !server(k, indices[0]).errorStatus
      && GoodChain(server, k + 1, server(k, indices[0]).next, indices[1..])
  }

  /** On a finite, failure-free chain the stream completes, and both paths deliver the whole result. */
  lemma {:induction false} GoodChainCompletes<R>(server: ChunkServer<R>, attempts: nat, k: nat, next: Option<nat>,
                                                 indices: seq<nat>)
    requires GoodChain(server, k, next, indices) && k + |indices| <= attempts
    ensures ChainFrom(server, attempts, k, next).failure.None?
    ensures GatheredFrom(server, attempts, k, next) == Flatten(ChainFrom(server, attempts, k, next).batches)
    decreases |indices|
  {
    if indices != [] {
      var reply := server(k, indices[0]);
      GoodChainCompletes(server, attempts, k + 1, reply.next, indices[1..]);
      FlattenNonEmpty(reply.rows, ChainFrom(server, attempts, k + 1, reply.next).batches);
    }
  }

  /** And only then: a stream without a failure has followed such a chain to its end. */
  lemma {:induction false} CompletedChain<R>(server: ChunkServer<R>, attempts: nat, k: nat, next: Option<nat>)
    returns (indices: seq<nat>)
    requires ChainFrom(server, attempts, k, next).failure.None? && k <= attempts
    ensures GoodChain(server, k, next, indices) && k + |indices| <= attempts
    decreases attempts - k
  {
    indices := [];
    if next.Some? {
      var reply := server(k, next.value);
      indices := CompletedChain(server, attempts, k + 1, reply.next);
      assert ([next.value] + indices)[1..] == indices;
      indices := [next.value] + indices;
    }
  }

  /**
   Whatever fails: the stream's rows are a prefix of what the buffered path returns, and all of it if it
   ends in Complete.
   */
  lemma DatabricksRows<R>(columns: seq<ColumnInfo>, inlineRows: seq<R>, firstChunk: Option<nat>, server: ChunkServer<R>,
                          attempts: nat, codec: Codec<R>)
    ensures var trace := DatabricksStream(Succeeded(columns, inlineRows, firstChunk), server, attempts, codec);
            var buffered := inlineRows + GatheredFrom(server, attempts, 0, firstChunk);
            && RowsOf(trace) <= buffered
            && trace != []
            && (trace[|trace| - 1].Complete? ==> RowsOf(trace) == buffered)
  {
    var rest := ChainFrom(server, attempts, 0, firstChunk);
    var past := PastError(server, attempts, 0, firstChunk);
    var batches := NonEmpty(inlineRows) + rest.batches;
    GatheredIsStreamed(server, attempts, 0, firstChunk);
    FlattenNonEmpty(inlineRows, rest.batches);
    Associative(inlineRows, Flatten(rest.batches), past);
    SameIffNothingBehind(Flatten(batches), past);
    if rest.failure.None? {
      var indices := CompletedChain(server, attempts, 0, firstChunk);
      GoodChainCompletes(server, attempts, 0, firstChunk, indices);
    }
    StreamWithin(columns, None, batches, rest.failure, codec, Flatten(batches) + past);
  }

  // ----- against the result the server holds -----

  /** One stored chunk. */
  datatype Chunk<+R> = Chunk(index: nat, rows: seq<R>)

  function LinkAt<R>(stored: seq<Chunk<R>>, j: nat): Option<nat> {
    if j < |stored| then Some(stored[j].index) else None
  }

  /** The rows of the stored chunks from the j-th on. */
  function StoredRows<R>(stored: seq<Chunk<R>>, j: nat): seq<R>
    decreases |stored| - j
  {
    if j < |stored| then stored[j].rows + StoredRows(stored, j + 1) else []
  }

  /** Whenever an answer arrives with a good status, it is the stored chunk and the link to the next one. */
  ghost predicate Repeats<R>(server: ChunkServer<R>, stored: seq<Chunk<R>>) {
    forall k: nat, j: nat :: j < |stored| ==> Repeated(server(k, stored[j].index), stored, j)
  }

  ghost predicate Repeated<R>(reply: ChunkReply<R>, stored: seq<Chunk<R>>, j: nat)
    requires j < |stored|
  {
    reply.Body? && !reply.errorStatus ==> reply.rows == stored[j].rows && reply.next == LinkAt(stored, j + 1)
  }

  /**
   Whatever is lost or refused, the streamed rows are a prefix of the stored ones, and all of them if
   nothing failed.
   */
  lemma {:induction false} StreamedFromStored<R>(server: ChunkServer<R>, attempts: nat, stored: seq<Chunk<R>>, k: nat,
                                                 j: nat)
    requires Repeats(server, stored)
    ensures var run := ChainFrom(server, attempts, k, LinkAt(stored, j));
            && Flatten(run.batches) <= StoredRows(stored, j)
            && (run.failure.None? ==> Flatten(run.batches) == StoredRows(stored, j))
    decreases attempts - k
  {
    if j < |stored| && k < attempts {
      var reply := server(k, stored[j].index);
      assert Repeated(reply, stored, j);
      if reply.Body? && !reply.errorStatus {
        StreamedFromStored(server, attempts, stored, k + 1, j + 1);
        var rest := ChainFrom(server, attempts, k + 1, LinkAt(stored, j + 1));
        FlattenNonEmpty(reply.rows, rest.batches);
        PrefixUnder(reply.rows, Flatten(rest.batches), StoredRows(stored, j + 1));
      }
    }
  }

  /** The same of the whole stream: all of the stored result whenever the stream ends in Complete. */
  lemma StreamedResult<R>(columns: seq<ColumnInfo>, inlineRows: seq<R>, stored: seq<Chunk<R>>, server: ChunkServer<R>,
                          attempts: nat, codec: Codec<R>)
    requires Repeats(server, stored)
    ensures var trace := DatabricksStream(Succeeded(columns, inlineRows, LinkAt(stored, 0)), server, attempts, codec);
            var result := inlineRows + StoredRows(stored, 0);
            && RowsOf(trace) <= result
            && trace != []
            && (trace[|trace| - 1].Complete? ==> RowsOf(trace) == result)
  {
    var rest := ChainFrom(server, attempts, 0, LinkAt(stored, 0));
    var batches := NonEmpty(inlineRows) + rest.batches;
    StreamedFromStored(server, attempts, stored, 0, 0);
    FlattenNonEmpty(inlineRows, rest.batches);
    PrefixUnder(inlineRows, Flatten(rest.batches), StoredRows(stored, 0));
    StreamWithin(columns, None, batches, rest.failure, codec, inlineRows + StoredRows(stored, 0));
  }

  /** The stored rows that did not arrive before the first answer that was lost or refused. */
  function Missing<R>(server: ChunkServer<R>, attempts: nat, stored: seq<Chunk<R>>, k: nat, j: nat): seq<R>
    decreases attempts - k
  {
    if j >= |stored| then []
    else
      var reply := Answer(server, attempts, k, stored[j].index);
      if reply.Lost? || reply.errorStatus then StoredRows(stored, j)
      else Missing(server, attempts, stored, k + 1, j + 1)
  }

  /**
   The buffered path gathers the stored rows that arrived and then whatever lies past an error answer; so it has
   the whole stored result exactly when what lies past an error answer is what is missing, which after a lost
   answer, where nothing lies, means that no row is missing.
   */
  lemma {:induction false} GatheredWholeIff<R>(server: ChunkServer<R>, attempts: nat, stored: seq<Chunk<R>>, k: nat,
                                               j: nat)
    requires Repeats(server, stored)
    ensures GatheredFrom(server, attempts, k, LinkAt(stored, j)) == StoredRows(stored, j)
       <==> PastError(server, attempts, k, LinkAt(stored, j)) == Missing(server, attempts, stored, k, j)
    decreases attempts - k
  {
    if j < |stored| && k < attempts {
      var reply := server(k, stored[j].index);
      assert Repeated(reply, stored, j);
      if reply.Body? && !reply.errorStatus {
        GatheredWholeIff(server, attempts, stored, k + 1, j + 1);
        var gathered := GatheredFrom(server, attempts, k + 1, LinkAt(stored, j + 1));
        SameBehind(reply.rows, gathered, StoredRows(stored, j + 1));
      }
    }
  }

  /**
   A result that is silently cut short: whatever is stored, if the first chunk's answer is lost the buffered
   path returns the inline rows alone, without an error.
   */
  lemma LostChunkTruncates<R>(inlineRows: seq<R>, stored: seq<Chunk<R>>, server: ChunkServer<R>, attempts: nat)
    requires stored != [] && StoredRows(stored, 0) != [] && server(0, stored[0].index).Lost?
    ensures inlineRows + GatheredFrom(server, attempts, 0, LinkAt(stored, 0)) == inlineRows
    ensures inlineRows != inlineRows + StoredRows(stored, 0)
  {
    SameIffNothingBehind(inlineRows, StoredRows(stored, 0));
  }

  // ----- single answers -----

  /** A rejected statement is the whole stream. */
  lemma RejectedAtOnce<R>(message: string, server: ChunkServer<R>, attempts: nat, codec: Codec<R>)
    ensures DatabricksStream(Rejected(message), server, attempts, codec) == [Failed(message)]
  {
  }

  /**
   What one chunk request brings: the streaming path ends at a lost answer or an error status with its message, and
   otherwise sends the rows; the buffered path ends at a lost answer only and takes the rows of every other.
   */
  lemma NextChunk<R>(server: ChunkServer<R>, attempts: nat, k: nat, index: nat)
    requires k < attempts
    ensures var reply, run := server(k, index), ChainFrom(server, attempts, k, Some(index));
            var gathered := GatheredFrom(server, attempts, k, Some(index));
            && (reply.Lost? ==> run == ChainRun([], Some(reply.message)) && gathered == [])
            && (reply.Body? && reply.errorStatus ==> run == ChainRun([], Some(reply.message)))
            && (reply.Body? && !reply.errorStatus && reply.rows != [] ==>
              run.batches != [] && run.batches[0] == reply.rows)
            && (reply.Body? ==> reply.rows <= gathered)
  {
  }
}
