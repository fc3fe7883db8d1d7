/** The whole path of one request: database, provider, executor, task, queue, writer, socket. */
module WireProtocol {
  import opened Options
  import opened StreamEvents
  import opened Executor
  import opened Session
  import opened SqlxDriver
  import Paging
  import DatabricksChunks
  import BufferedStream

  // ----- the providers' streams -----

  /** A provider at work on one query, with everything its database, server and link will do. */
  datatype Producer<!R> =
    | Sqlx(rows: seq<R>, end: SourceEnd, totalRows: Option<int>, chunkSize: nat, extractColumns: R -> seq<ColumnInfo>,
           codec: Codec<R>)
    | Paged(server: Paging.Server<R>, attempts: nat, rule: Paging.StopRule, codec: Codec<R>)
    | Databricks(statement: DatabricksChunks.Statement<R>, chunks: DatabricksChunks.ChunkServer<R>, attempts: nat,
                 codec: Codec<R>)
    | Wrapped(result: BufferedStream.QueryResult<R>, codec: Codec<R>)

  /** The stream it starts, or the error it answers instead. */
  function Started<R>(p: Producer<R>): Attempt<seq<Event<R>>> {
    match p
    case Sqlx(rows, end, totalRows, chunkSize, extractColumns, codec) =>
      Ok(SqlxStream(rows, end, totalRows, chunkSize, extractColumns, codec))
    case Paged(server, attempts, rule, codec) => Ok(Paging.PagedStream(server, attempts, rule, codec))
    case Databricks(statement, chunks, attempts, codec) =>
      Ok(DatabricksChunks.DatabricksStream(statement, chunks, attempts, codec))
    case Wrapped(result, codec) =>
      match BufferedStream.QueryResultToArrowStream(result, codec)
      case Stream(events) => Ok(events)
      case NoStream(message) => Err(message)
  }

  /** Every producer's stream is well formed. */
  lemma StartedIsWellFormed<R>(p: Producer<R>)
    ensures Started(p).Ok? ==> StreamShape(Started(p).value)
  {
    match p
    case Sqlx(rows, end, totalRows, chunkSize, extractColumns, codec) =>
      SqlxStreamWellFormed(rows, end, totalRows, chunkSize, extractColumns, codec, None);
    case Paged(server, attempts, rule, codec) =>
      Paging.PagedStreamWellFormed(server, attempts, rule, codec, None);
    case Databricks(statement, chunks, attempts, codec) =>
      DatabricksChunks.DatabricksStreamWellFormed(statement, chunks, attempts, codec, None);
    case Wrapped(result, codec) =>
      if Started(p).Ok? {
        BufferedStream.WrapperRefinesStreamOf(result, codec);
      }
  }

  /** The query's full result in the database is `table`, whether or not all of it reaches the provider. */
  ghost predicate Yields<R(!new)>(p: Producer<R>, table: seq<R>) {
    match p
    case Sqlx(rows, end, _, _, _, _) => rows <= table && (end.Exhausted? ==> rows == table)
    case Paged(server, _, rule, _) => |table| < 0x1_0000_0000_0000_0000 && Paging.Pages(server, rule, table)
    case Databricks(statement, chunks, _, _) =>
      statement.Succeeded? ==> exists stored: seq<DatabricksChunks.Chunk<R>> :: Holds(statement, chunks, stored, table)
    case Wrapped(result, _) => table == if result.recordBatch.Some? then result.recordBatch.value else []
  }

  /** The statement's inline rows and the chunks stored behind them are the result. */
  ghost predicate Holds<R(!new)>(statement: DatabricksChunks.Statement<R>, server: DatabricksChunks.ChunkServer<R>,
                          stored: seq<DatabricksChunks.Chunk<R>>, table: seq<R>)
    requires statement.Succeeded?
  {
    && statement.firstChunk == DatabricksChunks.LinkAt(stored, 0)
    && DatabricksChunks.Repeats(server, stored)
    && table == statement.inlineRows + DatabricksChunks.StoredRows(stored, 0)
  }

  /** The servers the pagers were made for have such a result: exact slices, or any non-empty prefix of the rest. */
  lemma PagersYield<R(!new)>(server: Paging.Server<R>, attempts: nat, table: seq<R>, p: nat, columns: seq<ColumnInfo>,
                      codec: Codec<R>)
    requires |table| < 0x1_0000_0000_0000_0000
    ensures Paging.ExactSlices(server, table, p, columns) && p >= 1 ==>
              Yields(Paged(server, attempts, Paging.ShortPage(p, true), codec), table)
    ensures Paging.SomePrefix(server, table, p, columns) ==>
              Yields(Paged(server, attempts, Paging.NoToken, codec), table)
  {
    Paging.ServersPage(server, table, p, columns);
  }

  /** What a provider streams is a prefix of that result, and all of it when the stream ends in Complete. */
  lemma StartedRows<R(!new)>(p: Producer<R>, table: seq<R>)
    requires Yields(p, table) && Started(p).Ok?
    ensures var trace := Started(p).value;
            trace != [] && RowsOf(trace) <= table && (trace[|trace| - 1].Complete? ==> RowsOf(trace) == table)
  {
    match p
    case Sqlx(rows, end, totalRows, chunkSize, extractColumns, codec) =>
      SqlxRows(rows, end, totalRows, chunkSize, extractColumns, codec);
    case Paged(server, attempts, rule, codec) =>
      Paging.PagedRows(server, attempts, rule, codec, table);
    case Databricks(statement, chunks, attempts, codec) =>
      match statement {
        case Rejected(message) =>
          assert RowsOf<R>([Failed(message)][1..]) == [];
        case Succeeded(columns, inlineRows, _) =>
          var stored: seq<DatabricksChunks.Chunk<R>> :| Holds(statement, chunks, stored, table);
          DatabricksChunks.StreamedResult(columns, inlineRows, stored, chunks, attempts, codec);
      }
    case Wrapped(result, codec) =>
      BufferedStream.WrapperRefinesStreamOf(result, codec);
      if result.recordBatch.Some? {
        assert Flatten([table]) == table + Flatten<R>([]);
      }
  }

  // ----- the executor as the session's handler -----

  ghost predicate FromProducer<R(!new)>(answers: Answers<R>) {
    exists p: Producer<R> :: answers.stream == Started(p)
  }

  /** Handlers answer what the executor answers, over any of the producers and whatever its collaborators do. */
  ghost predicate IsExecuted<R(!new)>(id: string, output: seq<Response<R>>) {
    exists op, answers: Answers<R>, codec: Codec<R> :: FromProducer(answers) && output == Output(id, op, answers, codec)
  }

  ghost function HandlerOutputs<R(!new)>(): Permitted<Response<R>> {
    (id: string, output: seq<Response<R>>) => IsExecuted(id, output)
  }

  lemma ExecutedIsPermitted<R(!new)>(id: string, output: seq<Response<R>>)
    requires IsExecuted(id, output)
    ensures IsHandlerOutput(output, id)
  {
    var op, answers: Answers<R>, codec: Codec<R> :| FromProducer(answers) && output == Output(id, op, answers, codec);
    var p: Producer<R> :| answers.stream == Started(p);
    StartedIsWellFormed(p);
    SoundOutputPermitted(id, op, answers, codec);
  }

  /**
   In every interleaving, what a task has written to its connection's socket is the beginning of one
   of: Result, Error, Header Batch* Complete, Header Batch* Error, every response bearing the id of the
   request it answers; and nothing of it is on any other connection's socket.
   */
  lemma SocketCarriesPermittedPrefix<R(!new)>(s: Client<Response<R>>, steps: seq<Step<Response<R>>>, t: nat, i: nat)
    requires Reachable(HandlerOutputs<R>(), s, steps) && t < |s.tasks| && i < |s.conns|
    ensures s.tasks[t].conn != i || s.tasks[t].output.None? ==> Texts(s.conns[i].socket, t) == []
    ensures s.tasks[t].conn == i && s.tasks[t].output.Some? ==>
              && IsHandlerOutput(s.tasks[t].output.value, s.tasks[t].id)
              && Texts(s.conns[i].socket, t) <= s.tasks[t].output.value
              && forall k :: 0 <= k < |Texts(s.conns[i].socket, t)| ==>
                   Texts(s.conns[i].socket, t)[k].id == s.tasks[t].id
  {
    ResponsesInOrder(HandlerOutputs<R>(), s, steps, t, i);
    if s.tasks[t].conn == i && s.tasks[t].output.Some? {
      ExecutedIsPermitted(s.tasks[t].id, s.tasks[t].output.value);
    }
  }

  // ----- rows, end to end -----

  /**
   A streamed query, in every interleaving: the rows on the socket are a prefix of the query's result, so
   nothing is invented, repeated or reordered between the database and the wire; and a client that
   has been sent the completion has been sent the whole result.
   */
  lemma SocketRowsArePrefix<R(!new)>(s: Client<Response<R>>, steps: seq<Step<Response<R>>>, t: nat, p: Producer<R>,
                              table: seq<R>, answers: Answers<R>, codec: Codec<R>)
    requires Reachable(HandlerOutputs<R>(), s, steps) && t < |s.tasks| && s.tasks[t].conn < |s.conns|
    requires Streams(ExecuteQuery, answers) && answers.stream == Started(p) && Yields(p, table)
    requires s.tasks[t].output == Some(Output(s.tasks[t].id, ExecuteQuery, answers, codec))
    ensures var written := Texts(s.conns[s.tasks[t].conn].socket, t);
            && IsStreamed(written)
            && RowsOf(EventsOf(written)) <= table
            && (forall k :: 0 <= k < |written| && written[k].body.ArrowComplete? ==> RowsOf(EventsOf(written)) == table)
  {
    var written := Texts(s.conns[s.tasks[t].conn].socket, t);
    ResponsesInOrder(HandlerOutputs<R>(), s, steps, t, s.tasks[t].conn);
    StartedIsWellFormed(p);
    StartedRows(p, table);
    WrittenRows(s.tasks[t].id, written, Started(p).value, table);
  }

  /** Any beginning of a translated stream, against the result the stream is a prefix of. */
  lemma WrittenRows<R>(id: string, written: seq<Response<R>>, trace: seq<Event<R>>, table: seq<R>)
    requires StreamShape(trace) && written <= Translate(id, trace)
    requires RowsOf(trace) <= table && (trace[|trace| - 1].Complete? ==> RowsOf(trace) == table)
    ensures IsStreamed(written)
    ensures RowsOf(EventsOf(written)) <= table
    ensures forall k :: 0 <= k < |written| && written[k].body.ArrowComplete? ==> RowsOf(EventsOf(written)) == table
  {
    TranslateFaithful(id, trace);
    PrefixReadsBack(written, Translate(id, trace), trace);
    forall k | 0 <= k < |written| && written[k].body.ArrowComplete?
      ensures RowsOf(EventsOf(written)) == table
    {
      assert EventsOf(written)[k] == trace[k];
      CompleteIsLast(trace, k);
      assert trace[..|written|] == trace;
    }
  }

  lemma PrefixReadsBack<R>(written: seq<Response<R>>, output: seq<Response<R>>, trace: seq<Event<R>>)
    requires written <= output && IsStreamed(output) && EventsOf(output) == trace
    ensures IsStreamed(written) && |written| <= |trace| && EventsOf(written) == trace[..|written|]
    ensures RowsOf(EventsOf(written)) <= RowsOf(trace)
  {
    assert written == output[..|written|];
    RowsOfPrefix(EventsOf(written), trace);
  }

  /** Nothing follows a Complete. */
  lemma CompleteIsLast<R>(trace: seq<Event<R>>, k: nat)
    requires StreamShape(trace) && k < |trace| && trace[k].Complete?
    ensures k == |trace| - 1
  {
    assert k > 0 ==> trace[1..][k - 1] == trace[k];
  }

  lemma {:induction false} RowsOfPrefix<R>(a: seq<Event<R>>, b: seq<Event<R>>)
    requires a <= b
    ensures RowsOf(a) <= RowsOf(b)
    decreases |a|
  {
    if a != [] {
      assert a[0] == b[0];
      RowsOfPrefix(a[1..], b[1..]);
      PrefixUnder(if a[0].Batch? then a[0].rows else [], RowsOf(a[1..]), RowsOf(b[1..]));
    }
  }
}
