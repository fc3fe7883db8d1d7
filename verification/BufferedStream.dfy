/** The simple producer: a buffered query result wrapped as a stream of at most one batch. */
module BufferedStream {
  import opened Options
  import opened StreamEvents

  datatype QueryResult<+R> = QueryResult(isError: bool, error: Option<string>, columns: Option<seq<ColumnInfo>>,
                                         totalRows: Option<int>, recordBatch: Option<seq<R>>)

  datatype Outcome<+R> = Stream(events: seq<Event<R>>) | NoStream(message: string)

  const QUERY_FAILED := "Query execution failed"

  /** `query_result_to_arrow_stream`: serialization happens up front, so its errors yield no stream at all. */
  function QueryResultToArrowStream<R>(result: QueryResult<R>, codec: Codec<R>): Outcome<R> {
    if result.isError then NoStream(if result.error.Some? then result.error.value else QUERY_FAILED)
    else
      var columns := if result.columns.Some? then result.columns.value else [];
      if !codec.schemaOk(columns) then NoStream(SCHEMA_ERROR)
      else match result.recordBatch
        case Some(batch) =>
          if !codec.batchOk(batch) then NoStream(BATCH_ERROR)
          else Stream([Schema(columns, result.totalRows), Batch(batch, 0), Complete(1, U64(|batch|))])
        case None => Stream([Schema(columns, result.totalRows), Complete(0, 0)])
  }

  /** The wrapper refines the common specification: the batch, if there is one, is the stream's only batch. */
  lemma WrapperRefinesStreamOf<R>(result: QueryResult<R>, codec: Codec<R>)
    requires QueryResultToArrowStream(result, codec).Stream?
    ensures var es := QueryResultToArrowStream(result, codec).events;
            var columns := if result.columns.Some? then result.columns.value else [];
            var batches := if result.recordBatch.Some? then [result.recordBatch.value] else [];
            && es == StreamOf(columns, result.totalRows, batches, None, codec)
            && StreamShape(es)
            && RowsOf(es) == Flatten(batches)
  {
    var columns := if result.columns.Some? then result.columns.value else [];
    var batches := if result.recordBatch.Some? then [result.recordBatch.value] else [];
    var es := QueryResultToArrowStream(result, codec).events;
    CountersExact(1);
    if result.recordBatch.Some? {
      var batch := result.recordBatch.value;
      assert Flatten(batches) == batch + Flatten<R>([]);
      assert Emissions(batches, 0, Terminal(batches, 0, 0, None), codec)
        == [Batch(batch, 0)] + Emissions([], 1, Terminal(batches, 0, 0, None), codec);
    }
    StreamOfCloses(columns, result.totalRows, batches, None, codec);
    ClosedIffShape(es);
    StreamOfRows(columns, result.totalRows, batches, None, codec);
  }

  /**
   There is no stream exactly for an error result or something that does not encode, and then the message says
   which: the result's own, the standing one when it has none, or that of the step that failed.
   */
  lemma NoStreamIff<R>(result: QueryResult<R>, codec: Codec<R>)
    ensures var columns := if result.columns.Some? then result.columns.value else [];
            var outcome := QueryResultToArrowStream(result, codec);
            && (outcome.NoStream? <==> || result.isError || !codec.schemaOk(columns)
                                       || (result.recordBatch.Some? && !codec.batchOk(result.recordBatch.value)))
            && (result.isError && result.error.Some? ==> outcome == NoStream(result.error.value))
            && (result.isError && result.error.None? ==> outcome == NoStream("Query execution failed"))
            && (!result.isError && !codec.schemaOk(columns) ==> outcome == NoStream(SCHEMA_ERROR))
            && (!result.isError && codec.schemaOk(columns) && outcome.NoStream? ==> outcome == NoStream(BATCH_ERROR))
  {
  }
}
