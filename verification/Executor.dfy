/**
 The command executor: every request is answered by a list of wire responses.  `ExecuteQuery`
 either buffers the result or drains the provider's event stream into one response per event.
 */
module Executor {
  import opened Options
  import opened StreamEvents

  datatype Body<+R> =
    | ResultBody(value: string)
    | ErrorBody(error: string)
    | ArrowHeader(columns: seq<ColumnInfo>, totalRows: Option<int>)
    | ArrowBatch(rows: seq<R>, chunkIndex: nat)
    | ArrowComplete(totalChunks: nat, totalRowsReturned: nat)

  datatype Response<+R> = Response(id: string, body: Body<R>)

  datatype Op = ExecuteQuery | DryRun | TestConnection | DiscoverCatalog

  datatype Attempt<+T> = Ok(value: T) | Err(message: string)

  datatype QueryParams = QueryParams(limit: Option<nat>, wantsArrow: bool)

  datatype Buffered<+R> = Buffered(columns: Option<seq<ColumnInfo>>, totalRows: Option<int>,
                                   recordBatch: Option<seq<R>>)

  /** What the collaborators answer while one request is handled. */
  datatype Answers<+R> = Answers(
    params: Attempt<QueryParams>,        // absent or undecodable parameters are an error
    buffered: Attempt<Buffered<R>>,      // provider.execute_query
    stream: Attempt<seq<Event<R>>>,      // provider.execute_query_stream_arrow and the events it yields
    resultJson: Attempt<string>,         // the buffered result as JSON
    other: Attempt<string>)              // test_connection, dry_run and discover_catalog

  const STREAMING_THRESHOLD: nat := 1000
  const NO_SCHEMA := "Arrow schema serialization failed"
  const NO_BATCH := "Arrow batch serialization failed"

  // ----- the streaming path -----

  function ResponseTo<R>(id: string, e: Event<R>): Response<R> {
    Response(id, match e
      case Schema(columns, totalRows) => ArrowHeader(columns, totalRows)
      case Batch(rows, chunkIndex) => ArrowBatch(rows, chunkIndex)
      case Complete(totalChunks, totalRowsReturned) => ArrowComplete(totalChunks, totalRowsReturned)
      case Failed(message) => ErrorBody(message))
  }

  /** One response per event, up to and including the first error. */
  function Translate<R>(id: string, events: seq<Event<R>>): seq<Response<R>> {
    if events == [] then []
    else if events[0].Failed? then [ResponseTo(id, events[0])]
    else [ResponseTo(id, events[0])] + Translate(id, events[1..])
  }

  /** `execute_query_streaming_arrow` */
  method ExecuteQueryStreamingArrow<R>(id: string, stream: Attempt<seq<Event<R>>>) returns (responses: seq<Response<R>>)
    ensures stream.Ok? ==> responses == Translate(id, stream.value)
    ensures stream.Err? ==> responses == [Response(id, ErrorBody(stream.message))]
  {
    if stream.Err? {
      return [Response(id, ErrorBody(stream.message))];
    }
    var events := stream.value;
    responses := [];
    var i := 0;
    while i < |events|
      invariant 0 <= i <= |events|
      invariant responses + Translate(id, events[i..]) == Translate(id, events)
    {
      var event := events[i];
      assert events[i..][1..] == events[i + 1..];
      if event.Failed? {
        responses := responses + [Response(id, ErrorBody(event.message))];
        return;
      }
      assert responses + ([ResponseTo(id, event)] + Translate(id, events[i + 1..]))
          == (responses + [ResponseTo(id, event)]) + Translate(id, events[i + 1..]);
      responses := responses + [ResponseTo(id, event)];
      i := i + 1;
    }
  }

  /** `handle_execute_query_maybe_stream` */
  method HandleExecuteQueryMaybeStream<R>(id: string, answers: Answers<R>, codec: Codec<R>)
    returns (responses: seq<Response<R>>)
    ensures responses == QueryOutput(id, answers, codec)
    ensures QueryAnswered(responses, answers, codec)
  {
    QueryOutputAnswers(id, answers, codec);
    if answers.params.Err? {
      return [Response(id, ErrorBody(answers.params.message))];
    }
    var params := answers.params.value;
    if UsesStreaming(params) {
      responses := ExecuteQueryStreamingArrow(id, answers.stream);
      return;
    }
    if answers.buffered.Err? {
      return [Response(id, ErrorBody(answers.buffered.message))];
    }
    var result := answers.buffered.value;
    if params.wantsArrow && result.recordBatch.Some? {
      var batch := result.recordBatch.value;
      var columns := if result.columns.Some? then result.columns.value else [];
      if !codec.schemaOk(columns) {
        return [Response(id, ErrorBody(NO_SCHEMA))];
      }
      if !codec.batchOk(batch) {
        return [Response(id, ErrorBody(NO_BATCH))];
      }
      return [Response(id, ArrowHeader(columns, result.totalRows)), Response(id, ArrowBatch(batch, 0)),
              Response(id, ArrowComplete(1, U64(|batch|)))];
    }
    if answers.resultJson.Err? {
      return [Response(id, ErrorBody(answers.resultJson.message))];
    }
    return [Response(id, ResultBody(answers.resultJson.value))];
  }

  /** `execute` */
  method Execute<R>(id: string, op: Op, answers: Answers<R>, codec: Codec<R>) returns (responses: seq<Response<R>>)
    ensures responses == Output(id, op, answers, codec)
    ensures IsHandlerOutput(responses, id)
            <==> (Streams(op, answers) ==> StreamShape(UpToFailure(answers.stream.value)))
    ensures op.ExecuteQuery? ==> QueryAnswered(responses, answers, codec)
    ensures !op.ExecuteQuery? && answers.other.Ok? ==>
            |responses| == 1 && responses[0].body == ResultBody(answers.other.value)
    ensures !op.ExecuteQuery? && answers.other.Err? ==> Reports(responses, answers.other.message)
  {
    OutputPermittedIff(id, op, answers, codec);
    if op.ExecuteQuery? {
      responses := HandleExecuteQueryMaybeStream(id, answers, codec);
    } else {
      match answers.other
      case Ok(value) =>
        responses := [Response(id, ResultBody(value))];
      case Err(message) =>
        responses := [Response(id, ErrorBody(message))];
    }
  }

  // ----- the output as a value -----

  /** Everything a request is answered with. */
  function Output<R>(id: string, op: Op, answers: Answers<R>, codec: Codec<R>): seq<Response<R>> {
    if op.ExecuteQuery? then QueryOutput(id, answers, codec) else [Response(id, BodyOf(answers.other))]
  }

  function BodyOf<R>(attempt: Attempt<string>): Body<R> {
    match attempt
    case Ok(value) => ResultBody(value)
    case Err(message) => ErrorBody(message)
  }

  /** What a query is answered from. */
  datatype Choice<+R> =
    | Draining(events: seq<Event<R>>)
    | OneBatch(columns: seq<ColumnInfo>, totalRows: Option<int>, batch: seq<R>)
    | Plain(outcome: Attempt<string>)      // the JSON of the result, or the first thing that failed

  /** An unlimited or large query drains the provider's stream; another is answered from the buffered result. */
  function Chosen<R>(answers: Answers<R>, codec: Codec<R>): Choice<R> {
    match answers.params
    case Err(message) => Plain(Err(message))
    case Ok(params) =>
      if UsesStreaming(params) then
        match answers.stream
        case Ok(events) => Draining(events)
        case Err(message) => Plain(Err(message))
      else
        match answers.buffered
        case Err(message) => Plain(Err(message))
        case Ok(result) =>
          if !params.wantsArrow || result.recordBatch.None? then Plain(answers.resultJson)
          else
            var columns := if result.columns.Some? then result.columns.value else [];
            if !codec.schemaOk(columns) then Plain(Err(NO_SCHEMA))
            else if !codec.batchOk(result.recordBatch.value) then Plain(Err(NO_BATCH))
            else OneBatch(columns, result.totalRows, result.recordBatch.value)
  }

  function QueryOutput<R>(id: string, answers: Answers<R>, codec: Codec<R>): seq<Response<R>> {
    match Chosen(answers, codec)
    case Draining(events) => Translate(id, events)
    case OneBatch(columns, totalRows, batch) => ThreeMessageOutput(id, columns, totalRows, batch)
    case Plain(outcome) => [Response(id, BodyOf(outcome))]
  }

  /** Does the request drain a provider's stream? */
  predicate Streams<R>(op: Op, answers: Answers<R>) {
    op.ExecuteQuery? && answers.params.Ok? && UsesStreaming(answers.params.value) && answers.stream.Ok?
  }

  /**
   What the client can read from the responses: the provider's events up to its first error, the provider's one
   batch, its JSON, or the message of the first thing that failed.
   */
  ghost predicate QueryAnswered<R>(responses: seq<Response<R>>, answers: Answers<R>, codec: Codec<R>) {
    match Chosen(answers, codec)
    case Draining(events) => IsStreamed(responses) && EventsOf(responses) == UpToFailure(events)
    case OneBatch(columns, totalRows, batch) =>
      && IsStreamed(responses)
      && EventsOf(responses) == [Schema(columns, totalRows), Batch(batch, 0), Complete(1, U64(|batch|))]
    case Plain(Ok(value)) => |responses| == 1 && responses[0].body == ResultBody(value)
    case Plain(Err(message)) => Reports(responses, message)
  }

  /** The provider's stream, if it starts one, is well formed, as every modelled producer's is. */
  ghost predicate SoundStream<R>(answers: Answers<R>) {
    answers.stream.Ok? ==> StreamShape(answers.stream.value)
  }

  function UpToFailure<R>(events: seq<Event<R>>): seq<Event<R>> {
    if events == [] then [] else if events[0].Failed? then [events[0]] else [events[0]] + UpToFailure(events[1..])
  }

  ghost predicate Reports<R>(responses: seq<Response<R>>, message: string) {
    |responses| == 1 && responses[0].body == ErrorBody(message)
  }

  /** No limit, or a limit above the threshold. */
  predicate UsesStreaming(params: QueryParams) {
    params.limit.None? || params.limit.value > STREAMING_THRESHOLD
  }

  function ThreeMessageOutput<R>(id: string, columns: seq<ColumnInfo>, totalRows: Option<int>,
                                 batch: seq<R>): seq<Response<R>>
  {
    [Response(id, ArrowHeader(columns, totalRows)), Response(id, ArrowBatch(batch, 0)),
      Response(id, ArrowComplete(1, U64(|batch|)))]
  }

  // ----- the permitted outputs -----

  /** The stream event a response stands for. */
  function EventOf<R>(body: Body<R>): Event<R>
    requires !body.ResultBody?
  {
    match body
    case ErrorBody(error) => Failed(error)
    case ArrowHeader(columns, totalRows) => Schema(columns, totalRows)
    case ArrowBatch(rows, chunkIndex) => Batch(rows, chunkIndex)
    case ArrowComplete(totalChunks, totalRowsReturned) => Complete(totalChunks, totalRowsReturned)
  }

  ghost predicate IsStreamed<R>(responses: seq<Response<R>>) {
    forall i :: 0 <= i < |responses| ==> !responses[i].body.ResultBody?
  }

  /** The events a receiver reads back from the responses. */
  ghost function EventsOf<R>(responses: seq<Response<R>>): seq<Event<R>>
    requires IsStreamed(responses)
  {
    seq(|responses|, i requires 0 <= i < |responses| => EventOf(responses[i].body))
  }

  /**
   Result; Error; Header Batch* Complete; or Header Batch* Error, with batches numbered from 0,
   true totals, and the request's own id on every response.
   */
  ghost predicate IsHandlerOutput<R>(responses: seq<Response<R>>, id: string) {
    && (forall i :: 0 <= i < |responses| ==> responses[i].id == id)
    && ((|responses| == 1 && responses[0].body.ResultBody?)
      || (IsStreamed(responses) && StreamShape(EventsOf(responses))))
  }

  /** Whatever the stream, the responses read back as its events up to the first error, each under the request's id. */
  lemma {:induction false} TranslateReadsBack<R>(id: string, events: seq<Event<R>>)
    ensures IsStreamed(Translate(id, events)) && EventsOf(Translate(id, events)) == UpToFailure(events)
    ensures forall i :: 0 <= i < |Translate(id, events)| ==> Translate(id, events)[i].id == id
  {
    if events != [] {
      var rest := Translate(id, events[1..]);
      TranslateReadsBack(id, events[1..]);
      if !events[0].Failed? {
        assert EventsOf([ResponseTo(id, events[0])] + rest) == [events[0]] + EventsOf(rest);
      }
    }
  }

  /** On a well-formed stream the executor drops, adds and reorders nothing: the responses read back as the events. */
  lemma TranslateFaithful<R>(id: string, events: seq<Event<R>>)
    requires StreamShape(events)
    ensures IsStreamed(Translate(id, events)) && EventsOf(Translate(id, events)) == events
    ensures IsHandlerOutput(Translate(id, events), id)
  {
    TranslateReadsBack(id, events);
    ShapeHasNoEarlyFailure(events);
  }

  lemma ShapeHasNoEarlyFailure<R>(events: seq<Event<R>>)
    requires StreamShape(events)
    ensures UpToFailure(events) == events
  {
    forall i | 0 <= i < |events| - 1
      ensures !events[i].Failed?
    {
      if i > 0 {
        assert events[1..][i - 1] == events[i];
      }
    }
    NoEarlyFailure(events);
  }

  lemma {:induction false} NoEarlyFailure<R>(events: seq<Event<R>>)
    requires forall i :: 0 <= i < |events| - 1 ==> !events[i].Failed?
    ensures UpToFailure(events) == events
  {
    if events != [] {
      assert events == [events[0]] + events[1..];
      NoEarlyFailure(events[1..]);
    }
  }

  lemma LoneError<R>(id: string, message: string)
    ensures IsHandlerOutput<R>([Response(id, ErrorBody(message))], id)
  {
    var responses: seq<Response<R>> := [Response(id, ErrorBody(message))];
    assert EventsOf(responses) == [Failed(message)];
  }

  lemma ThreeMessages<R>(id: string, columns: seq<ColumnInfo>, totalRows: Option<int>, batch: seq<R>)
    ensures IsHandlerOutput(ThreeMessageOutput(id, columns, totalRows, batch), id)
    ensures var out := ThreeMessageOutput(id, columns, totalRows, batch);
            && IsStreamed(out) && RowsOf(EventsOf(out)) == batch
            && EventsOf(out) == [Schema(columns, totalRows), Batch(batch, 0), Complete(1, U64(|batch|))]
  {
    var events: seq<Event<R>> := [Schema(columns, totalRows), Batch(batch, 0), Complete(1, U64(|batch|))];
    var body := events[1..];
    assert RowsOf(body) == batch + RowsOf(body[1..]);
    assert RowsOf(body[1..]) == [] + RowsOf(body[1..][1..]);
    assert RowsOf(body) == batch;
    assert U32(1) == 1;
    assert BodyShape(body, 0, 0);
    assert EventsOf(ThreeMessageOutput(id, columns, totalRows, batch)) == events;
    assert RowsOf(events) == [] + RowsOf(body);
  }

  /** A query's output reads back as what the provider answered, or the message of the first thing that failed. */
  lemma QueryOutputAnswers<R>(id: string, answers: Answers<R>, codec: Codec<R>)
    ensures QueryAnswered(QueryOutput(id, answers, codec), answers, codec)
  {
    match Chosen(answers, codec)
    case Draining(events) => TranslateReadsBack(id, events);
    case OneBatch(columns, totalRows, batch) => ThreeMessages(id, columns, totalRows, batch);
    case Plain(_) =>
  }

  /**
   Every output is one of the four permitted forms, whatever the operation and whatever fails, except
   that a drained stream must be well formed up to its first error.
   */
  lemma OutputPermittedIff<R>(id: string, op: Op, answers: Answers<R>, codec: Codec<R>)
    ensures IsHandlerOutput(Output(id, op, answers, codec), id)
       <==> (Streams(op, answers) ==> StreamShape(UpToFailure(answers.stream.value)))
  {
    if !op.ExecuteQuery? {
      LonePermitted<R>(id, BodyOf(answers.other));
    } else {
      match Chosen(answers, codec)
      case Draining(events) => TranslateReadsBack(id, events);
      case OneBatch(columns, totalRows, batch) => ThreeMessages(id, columns, totalRows, batch);
      case Plain(outcome) => LonePermitted<R>(id, BodyOf(outcome));
    }
  }

  lemma LonePermitted<R>(id: string, body: Body<R>)
    requires body.ResultBody? || body.ErrorBody?
    ensures IsHandlerOutput([Response(id, body)], id)
  {
    if body.ErrorBody? {
      LoneError<R>(id, body.error);
    }
  }

  /** In particular every output is permitted when the provider's stream, if it starts one, is well formed. */
  lemma SoundOutputPermitted<R>(id: string, op: Op, answers: Answers<R>, codec: Codec<R>)
    requires SoundStream(answers)
    ensures IsHandlerOutput(Output(id, op, answers, codec), id)
  {
    OutputPermittedIff(id, op, answers, codec);
    if Streams(op, answers) {
      ShapeHasNoEarlyFailure(answers.stream.value);
    }
  }

  // ----- which route a query takes, and what goes over the wire -----

  /**
   One response per event, with the request's id and the event's own fields, up to and including the first
   error, and none behind it.
   */
  lemma {:induction false} TranslateFields<R>(id: string, events: seq<Event<R>>, k: nat)
    requires k < |events| && forall j :: 0 <= j < k ==> !events[j].Failed?
    ensures var out := Translate(id, events);
            && k < |out| && out[k].id == id
            && (events[k].Schema? ==> out[k].body == ArrowHeader(events[k].columns, events[k].totalRows))
            && (events[k].Batch? ==> out[k].body == ArrowBatch(events[k].rows, events[k].chunkIndex))
            && (events[k].Complete? ==>
                  out[k].body == ArrowComplete(events[k].totalChunks, events[k].totalRowsReturned))
            && (events[k].Failed? ==> out[k].body == ErrorBody(events[k].message) && |out| == k + 1)
            && (k == |events| - 1 ==> |out| == |events|)
  {
    if k > 0 {
      forall j | 0 <= j < k - 1
        ensures !events[1..][j].Failed?
      {
        assert events[1..][j] == events[j + 1];
      }
      TranslateFields(id, events[1..], k - 1);
    } else if |events| == 1 {
      assert Translate(id, events[1..]) == [];
    }
  }

  /** A query without a limit, or with one above a thousand, drains the provider's stream. */
  lemma StreamedQuery<R>(id: string, answers: Answers<R>, codec: Codec<R>)
    requires answers.params.Ok? && (answers.params.value.limit.None? || answers.params.value.limit.value > 1000)
    ensures answers.stream.Ok? ==> Output(id, ExecuteQuery, answers, codec) == Translate(id, answers.stream.value)
    ensures answers.stream.Err? ==>
              Output(id, ExecuteQuery, answers, codec) == [Response(id, ErrorBody(answers.stream.message))]
  {
  }

  /**
   A query with a limit up to a thousand is answered from the buffered result: as one Arrow batch if that was
   wanted and there is one, with the provider's columns and total in the header, and as JSON otherwise.
   */
  lemma BufferedQuery<R>(id: string, answers: Answers<R>, codec: Codec<R>)
    requires answers.params.Ok? && answers.params.value.limit.Some? && answers.params.value.limit.value <= 1000
    ensures var out := Output(id, ExecuteQuery, answers, codec);
            match answers.buffered
            case Err(message) => out == [Response(id, ErrorBody(message))]
            case Ok(result) =>
              var columns := if result.columns.Some? then result.columns.value else [];
              if answers.params.value.wantsArrow && result.recordBatch.Some? then
                var batch := result.recordBatch.value;
                && (codec.schemaOk(columns) && codec.batchOk(batch) ==>
                      out == [Response(id, ArrowHeader(columns, result.totalRows)), Response(id, ArrowBatch(batch, 0)),
                              Response(id, ArrowComplete(1, U64(|batch|)))])
                && (!codec.schemaOk(columns) ==> out == [Response(id, ErrorBody("Arrow schema serialization failed"))])
                && (codec.schemaOk(columns) && !codec.batchOk(batch) ==>
                      out == [Response(id, ErrorBody("Arrow batch serialization failed"))])
              else match answers.resultJson
                case Ok(json) => out == [Response(id, ResultBody(json))]
                case Err(message) => out == [Response(id, ErrorBody(message))]
  {
  }

  /** Without usable parameters a query is answered with that error; every other operation with its result or error. */
  lemma OtherAnswers<R>(id: string, op: Op, answers: Answers<R>, codec: Codec<R>)
    ensures op.ExecuteQuery? && answers.params.Err? ==>
              Output(id, op, answers, codec) == [Response(id, ErrorBody(answers.params.message))]
    ensures !op.ExecuteQuery? && answers.other.Ok? ==>
              Output(id, op, answers, codec) == [Response(id, ResultBody(answers.other.value))]
    ensures !op.ExecuteQuery? && answers.other.Err? ==>
              Output(id, op, answers, codec) == [Response(id, ErrorBody(answers.other.message))]
  {
  }
}
