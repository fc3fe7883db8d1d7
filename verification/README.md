# Kyomi Connect: a model of the result pipeline and its neighbours

Kyomi Connect runs beside a customer's database.  It turns query results into a stream of events
(`Schema`, `Batch`*, `Complete`, or an error), turns those into wire responses, and pushes the responses
of many concurrent requests through one bounded queue to a WebSocket.  This project models that path from
the database rows to the socket, the code that shapes the rows, and the repository's script that archives
abandoned branches, and proves what they promise over every input, every run and every interleaving.

`dafny verify dfyconfig.toml` checks the whole project.

| part | modules |
|---|---|
| the event stream: one specification, a recogniser of its grammar, exact counters | `StreamEvents` |
| the five producers that refine it | `SqlxDriver`, `Paging` (ClickHouse, BigQuery), `DatabricksChunks`, `BufferedStream` |
| requests to responses to socket | `Executor`, `Catalog`, `Session`, `SessionProgress`, `WireProtocol`, `Reconnect` |
| rows to typed columns | `ArrowBuilder`, `JsonRows`, `ClickHouseRows`, `CellMeaning` |
| archiving a branch, and checking that nothing claims its ticket | `TicketMatch`, `TicketCheck`, `BranchArchive` |
| printers and parsers | `ProxyHeader`, `ProxyDetails`, `SigV4`, `PgInterval` |
| shared | `Options`, `Splitting`, `Bytes`, `Chars`, `Arithmetic` |

How the pieces fit:

- Every producer is a method that sends to an `EventChannel` whose receiver may hang up after any number of
  events.  Its `ensures` says that what was delivered is exactly the delivered part of a specification
  stream; every specification stream is `StreamOf(columns, totalRows, batches, failure, codec)` for some
  list of batches.  The grammar, the totals and row conservation are then proved once, of `StreamOf`, and the
  lists of batches are characterised producer by producer.
- `u32` and `u64` counters wrap (`U32`, `U64`), and `CountersExact` says when they are exact.  Rust's `/` and
  `%`, which truncate toward zero, are `Quot` and `Rem` in `PgInterval`.
- The session and the branch protocol are state machines: a run is any sequence of enabled steps, so a
  lemma over runs covers every interleaving.
- Servers, databases, the Arrow codec, chrono, the URL parser and number parsing are function parameters.
  Where a result rests on a fact about one of them, the fact is a named predicate in the `requires`.

## Findings

Six promises do not hold of the code as it stands.  The model keeps the code; each entry names the lemma with
the failing input and the lemma with the exact condition.

- `mark_branch` pushes the archive and the deletion under two leases.  Git leaves an update out, lease and
  all, when the advertised ref already has the wanted value.  The script refuses when its listing shows an
  archive, but another writer can create the archive with the same commit after the listing and delete it
  again before the server applies the push: then the branch is deleted and the commit has no name
  (`RaceLosesCommit`).  `StepIsSafeIff` states exactly when a step of that client is safe, in every state;
  `NamedIfArchiveLeftAlone` and `CommitsConserved` are what it keeps over whole runs; `EveryStepIsSafe` proves
  all promises for a client that sends every update.
- A `check` after a successful `mark_branch` can still report the branch: a pull request opened after the second look
  at the pull requests survives the run (`LatePullRequestIsReported`).  `MarkedThenClear` says exactly when a hit
  names the branch, and that it takes a disturbance of that branch after the last look.
- The proxy strips a CR from the last field line even though the blank line's CRLF has already been cut off, so
  a last field line that itself ends in a bare CR is not forwarded byte for byte (`BareCrIsLost`,
  `ByteForByteIff`), and a last line that is a lone CR becomes an empty line that ends the forwarded block early
  (`LoneCrIff`).  Field lines are cut at every LF, so a field with two bare LFs in a row does the same
  (`DoubledLfEndsEarly`); `OneBlockIff` is the exact condition for every header.
- A proxy request without any field line makes the slice of the field lines end before it begins, which panics
  (`PanicIffNoFields`).
- ClickHouse paging with a page size of 0 never finishes (`ZeroPageSizeNeverFinishes`); it completes exactly when the
  page size is positive (`ClickHouseCompletesIff`).  The executor always passes no page size, which means 10000, so
  only another caller of the provider can send 0.
- The buffered Databricks path returns a result without an error although a chunk was lost, and follows error answers
  (`LostChunkTruncates`); it has the whole result exactly under `GatheredWholeIff`.  The streaming path reports both.

`build_canonical_query_string` is documented as sorting by key; the code sorts the encoded pairs, key first and then
value, and the model follows the code.

## Model

| member | source | states |
|---|---|---|
| `StreamEvents.StreamOfCloses` | crates/kyomi-datasource/src/providers/sqlx_common.rs:165-353 | every specification stream, for every failure point, is accepted by the recogniser of `Schema Batch* (Complete or Err)` or a lone `Err` |
| `StreamEvents.ClosedIffShape` | crates/kyomi-datasource/src/stream.rs:33-117 | the recogniser accepts exactly the streams with a schema, batches numbered 0, 1, 2, ..., one terminal, and a Complete whose totals are the number and row sum of the batches actually sent |
| `StreamEvents.DeliveredNeverBroken` | crates/kyomi-datasource/src/providers/sqlx_common.rs:165-353 | wherever the receiver hangs up, what it got is a prefix that the recogniser has not rejected |
| `StreamEvents.StreamOfRows` | crates/kyomi-datasource/src/providers/sqlx_common.rs:165-353 | the rows sent are a prefix of the source's rows whatever fails to encode, and all of them, once each and in order, when nothing does |
| `StreamEvents.CompleteIff` | crates/kyomi-datasource/src/providers/sqlx_common.rs:165-353 | a stream ends in Complete exactly when its source did not fail and everything encoded, and then it carries every row |
| `StreamEvents.StreamCutShort` | crates/kyomi-datasource/src/providers/sqlx_common.rs:165-353 | a schema that does not encode is reported alone; when the first k batches encode and the next does not, the stream is the schema, those k in order, and that error |
| `StreamEvents.StreamWithin` | crates/kyomi-datasource/src/providers/sqlx_common.rs:165-353 | if the batches are a prefix of a result, and all of it unless the source failed, so are the rows sent, and Complete means the whole result |
| `StreamEvents.CountersExact` | crates/kyomi-datasource/src/providers/sqlx_common.rs:182-215 | wrapped counters are exact below 2^32 batches and 2^64 rows |
| `StreamEvents.CountersWrap` | crates/kyomi-datasource/src/providers/sqlx_common.rs:182-215 | a full turn of 2^32 or 2^64 brings a counter back to where it was |
| `SqlxDriver.DriveSqlxStream` | crates/kyomi-datasource/src/providers/sqlx_common.rs:165-353 | for every source, failure point, chunk size and hang-up, the driver delivers exactly the specification stream, and its `expect` is never hit |
| `SqlxDriver.TakeRow` | crates/kyomi-datasource/src/providers/sqlx_common.rs:248-285 | one row keeps the invariant between the builder's rows, the batches already flushed and those still to come |
| `SqlxDriver.ChunkSizes` | crates/kyomi-datasource/src/providers/sqlx_common.rs:165-353 | ceil(n/c) batches, all of c rows but the last, which has 1 to c |
| `SqlxDriver.FullChunkSizes` | crates/kyomi-datasource/src/providers/sqlx_common.rs:165-353 | floor(k/c) full batches, holding the first floor(k/c)*c rows, are flushed after k rows |
| `SqlxDriver.ExhaustedSource` | crates/kyomi-datasource/src/providers/sqlx_common.rs:165-353 | a source that ends, with c the caller's chunk size or 1 if that is 0: schema, ceil(n/c) numbered batches that concatenate to the rows, all of c rows but the last, Complete with ceil(n/c) and n, nothing else |
| `SqlxDriver.FailingSource` | crates/kyomi-datasource/src/providers/sqlx_common.rs:165-353 | a source that fails after k rows, k = 0 included, with the same c: the schema if there was a row, exactly floor(k/c) batches of c rows, the source's own error, nothing else |
| `SqlxDriver.SqlxRows` | crates/kyomi-datasource/src/providers/sqlx_common.rs:165-353 | whatever fails, the stream's rows are a prefix of the source's; it ends in Complete only if the source did, and then carries all of them |
| `SqlxDriver.SqlxStreamWellFormed` | crates/kyomi-datasource/src/providers/sqlx_common.rs:165-353 | every driver stream has the stream shape, every delivered part is a prefix of it, and its rows are a prefix of the source's |
| `Paging.StreamPages` | crates/kyomi-datasource/src/providers/clickhouse.rs:510-733 | the paging task delivers exactly the specification stream of the pages it is answered, for every server and every hang-up |
| `Paging.AcceptReply` | crates/kyomi-datasource/src/providers/clickhouse.rs:517-658 | a failed answer or a page of another width ends the stream with its error; the first page becomes the schema; otherwise what the remaining requests will bring is still exactly what is to come |
| `Paging.TakePage` | crates/kyomi-datasource/src/providers/clickhouse.rs:660-699 | sending and counting one page keeps that invariant, or, on the last page, leaves only the terminal |
| `Paging.PagedStreamWellFormed` | crates/kyomi-datasource/src/providers/bigquery.rs:968-1170 | whatever the server answers and wherever the link or receiver goes away, the paged stream has the stream shape |
| `Paging.SlicesFrom` | crates/kyomi-datasource/src/providers/clickhouse.rs:496-733 | from any offset, the pages fetched are the chunks the row-by-row driver would cut from the remaining rows |
| `Paging.ClickHouseDeliversAll` | crates/kyomi-datasource/src/providers/clickhouse.rs:496-733 | against LIMIT p OFFSET o slices: exactly floor(n/p)+1 requests, and batches that concatenate to all n rows |
| `Paging.ZeroPageSizeNeverFinishes` | crates/kyomi-datasource/src/providers/clickhouse.rs:510-733 | with p = 0 every request the link allows is spent and no batch comes |
| `Paging.ClickHouseCompletesIff` | crates/kyomi-datasource/src/providers/clickhouse.rs:496-733 | against exact slices and a link that lasts, the pager completes if and only if the page size is at least 1 |
| `Paging.PrefixesFrom` | crates/kyomi-datasource/src/providers/bigquery.rs:968-1170 | from any start index the pager emits exactly the remaining rows, in at most as many requests as rows remain |
| `Paging.BigQueryDeliversAll` | crates/kyomi-datasource/src/providers/bigquery.rs:968-1170 | against a server that returns any non-empty prefix of the rest, with a token exactly when rows remain: it terminates within max(n, 1) requests and emits every row once, in order |
| `Paging.FetchedFrom` | crates/kyomi-datasource/src/providers/bigquery.rs:968-1170 | of any server that pages through one result and may fail at any request, what was fetched is a prefix of the result, and all of it if nothing failed |
| `Paging.PagedRows` | crates/kyomi-datasource/src/providers/clickhouse.rs:510-733 | the paged stream's rows are a prefix of the result, and all of it if the stream ends in Complete |
| `Paging.ServersPage` | crates/kyomi-datasource/src/providers/clickhouse.rs:510-733 | a server of exact slices with p >= 1, and one that returns any non-empty prefix of the rest, are such servers |
| `Paging.NextAnswer` | crates/kyomi-datasource/src/providers/clickhouse.rs:517-699 | a refusal or a page of another width ends the run with that error and no further request; any other page with rows is the next batch |
| `Paging.RefusedAtOnce` | crates/kyomi-datasource/src/providers/clickhouse.rs:517-606 | a refused first request is the whole stream |
| `Paging.OneRequestIff` | crates/kyomi-datasource/src/providers/clickhouse.rs:695-697 | a query that is no SELECT or has its own LIMIT takes one request whatever comes back; a paginated one asks again exactly after a full page |
| `Paging.TokenAndRowsIff` | crates/kyomi-datasource/src/providers/bigquery.rs:1118-1129 | BigQuery asks again exactly after a page with rows and a token; a token without rows ends the run |
| `DatabricksChunks.StreamChunks` | crates/kyomi-datasource/src/providers/databricks.rs:567-971 | the streaming task delivers exactly the specification stream of its chunk chain |
| `DatabricksChunks.FetchAllChunks` | crates/kyomi-datasource/src/providers/databricks.rs:337-407 | the buffered fetch returns the inline rows and then the rows of the chain up to the first chunk it cannot get |
| `DatabricksChunks.GatheredIsStreamed` | crates/kyomi-datasource/src/providers/databricks.rs:337-407 | from any chunk on, for every chain: the gathered rows are the concatenated streaming batches and then whatever lies past an error answer |
| `DatabricksChunks.BufferedEqualsStreamed` | crates/kyomi-datasource/src/providers/databricks.rs:799-970 | for every chain the streamed rows are a prefix of the buffered rows, and the same exactly when nothing lies past an error answer, empty chunks and lost answers included |
| `DatabricksChunks.GoodChainCompletes` | crates/kyomi-datasource/src/providers/databricks.rs:799-970 | if the chunks actually reached form a finite chain of good answers, the stream has no failure and both paths deliver the whole result |
| `DatabricksChunks.CompletedChain` | crates/kyomi-datasource/src/providers/databricks.rs:858-970 | and only then: a stream without a failure has followed such a chain to its end |
| `DatabricksChunks.DatabricksRows` | crates/kyomi-datasource/src/providers/databricks.rs:567-971 | whatever fails, the stream's rows are a prefix of what the buffered path returns, and all of it if the stream ends in Complete |
| `DatabricksChunks.StreamedResult` | crates/kyomi-datasource/src/providers/databricks.rs:567-971 | against the result the server stores, whatever is lost or refused: the streamed rows are a prefix of it, and all of it if the stream ends in Complete |
| `DatabricksChunks.GatheredWholeIff` | crates/kyomi-datasource/src/providers/databricks.rs:337-407 | the buffered path has the whole stored result exactly when what it gathers past an error answer is what is missing; after a lost answer, when no row is missing |
| `DatabricksChunks.LostChunkTruncates` | crates/kyomi-datasource/src/providers/databricks.rs:359-393 | whatever is stored, if the first chunk is lost the buffered path returns the inline rows alone, without an error |
| `DatabricksChunks.NextChunk` | crates/kyomi-datasource/src/providers/databricks.rs:359-405 | the streaming path ends at a lost answer or an error status with its message; the buffered path ends at a lost answer only and takes the rows of every other |
| `DatabricksChunks.RejectedAtOnce` | crates/kyomi-datasource/src/providers/databricks.rs:567-800 | a statement that is rejected is the whole stream |
| `DatabricksChunks.DatabricksStreamWellFormed` | crates/kyomi-datasource/src/providers/databricks.rs:567-971 | whatever the chain does, the stream has the stream shape |
| `BufferedStream.WrapperRefinesStreamOf` | crates/kyomi-datasource/src/stream.rs:33-117 | the one-batch wrapper yields a specification stream whose rows are the buffered batch |
| `BufferedStream.NoStreamIff` | crates/kyomi-datasource/src/stream.rs:33-66 | there is no stream exactly for an error result or something that does not encode, with the result's own message, the standing one, or that of the step that failed |
| `Executor.ExecuteQueryStreamingArrow` | crates/kyomi-connect/src/executor.rs:251-339 | the drained stream becomes one response per event up to the first error; a stream that cannot start becomes one error |
| `Executor.HandleExecuteQueryMaybeStream` | crates/kyomi-connect/src/executor.rs:103-249 | in every case of limit, format and failure, the responses read back as the provider's events up to its first error, exactly header, batch and totals of its one batch, its JSON, or the message of the first failure |
| `Executor.Execute` | crates/kyomi-connect/src/executor.rs:58-87 | every operation answers Result, Error, Header Batch* Complete or Header Batch* Error, all under the request's id, if and only if a stream it drained was well formed up to its first error |
| `Executor.OutputPermittedIff` | crates/kyomi-connect/src/executor.rs:58-339 | the same of the output as a value, for every operation and every behaviour of the collaborators |
| `Executor.QueryOutputAnswers` | crates/kyomi-connect/src/executor.rs:103-339 | the output of a query reads back as what the provider answered |
| `Executor.BufferedQuery` | crates/kyomi-connect/src/executor.rs:130-239 | a limit up to 1000: the buffered error; or, if Arrow is wanted and there is a batch, the provider's columns and total in the header, its rows, and their count; or the JSON |
| `Executor.StreamedQuery` | crates/kyomi-connect/src/executor.rs:123-126 | no limit or one above 1000: the stream drained, or the one error that kept it from starting |
| `Executor.OtherAnswers` | crates/kyomi-connect/src/executor.rs:58-122 | unusable parameters are answered with that error, and every other operation with its result or error |
| `Executor.TranslateReadsBack` | crates/kyomi-connect/src/executor.rs:251-339 | for every event sequence, mapping the responses back gives the events up to and including the first error |
| `Executor.TranslateFields` | crates/kyomi-connect/src/executor.rs:278-339 | each response carries its event's own fields under the request's id, and nothing follows the first error |
| `Executor.TranslateFaithful` | crates/kyomi-connect/src/executor.rs:251-339 | on a well-formed stream nothing is dropped, added or reordered |
| `Executor.ThreeMessages` | crates/kyomi-connect/src/executor.rs:155-249 | a buffered Arrow result is a permitted output whose events are exactly its header, its batch and the totals 1 and its row count |
| `Session.StepKeepsInv` | crates/kyomi-connect/src/ws_client.rs:123-270 | every step of every reader, task and writer keeps the invariant: slots conserved, queue order kept, each task's messages a prefix of its output, pongs answering pings |
| `Session.RunKeepsInv` | crates/kyomi-connect/src/ws_client.rs:123-270 | so does every run |
| `Session.ResponsesInOrder` | crates/kyomi-connect/src/ws_client.rs:146-270 | in every interleaving, what a request's task has on its connection's socket is an in-order prefix of one permitted output, and no other connection's socket carries any of it |
| `Session.OneTaskPerRequest` | crates/kyomi-connect/src/ws_client.rs:184-221 | each connection spawned exactly one task per request it read, in order |
| `Session.QueueBounded` | crates/kyomi-connect/src/ws_client.rs:146-270 | queued messages and reserved slots together never exceed 64, and while the writer lives nothing accepted is lost |
| `Session.PongsAnswerPings` | crates/kyomi-connect/src/ws_client.rs:222-252 | each ping read was enqueued as a pong or was the last frame read; the pongs on the socket are an in-order prefix of the pings, payloads included (section 5.5.3 of RFC 6455) |
| `Session.ReaderNeverBlocked` | crates/kyomi-connect/src/ws_client.rs:222-252 | with every task and the writer stalled and whatever the queue holds, any list of requests, ignored frames and as many pings as there are free slots forms a run in which all of it is received and every ping has its pong queued |
| `Session.OneSessionAtATime` | crates/kyomi-connect/src/ws_client.rs:54-77 | in every reachable state at most one connection reads |
| `Session.FrameEffects` | crates/kyomi-connect/src/ws_client.rs:183-243 | what each kind of frame does: a close or a read error ends the reading, a request starts one task, a ping is queued if a slot is free and ends the reading otherwise, anything else is passed over |
| `Session.EndsForGood` | crates/kyomi-connect/src/ws_client.rs:238-270 | in every run a connection that has stopped reading never reads again, and nothing is written once its writer has stopped |
| `SessionProgress.ResponsesCanMove` | crates/kyomi-connect/src/ws_client.rs:197-270 | from every reachable state, even with every slot held by other tasks, some run puts the whole output of a running task that has its answer on the socket of its connection, if the writer lives |
| `WireProtocol.StartedIsWellFormed` | crates/kyomi-datasource/src/providers/sqlx_common.rs:165-353 | every stream any of the producers starts has the stream shape |
| `WireProtocol.StartedRows` | crates/kyomi-datasource/src/stream.rs:33-117 | every such stream is a prefix of the result the database holds, whether or not all of it reached the provider, and all of it if the stream ends in Complete |
| `WireProtocol.PagersYield` | crates/kyomi-datasource/src/providers/bigquery.rs:968-1170 | the ClickHouse and BigQuery servers hold such a result |
| `WireProtocol.ExecutedIsPermitted` | crates/kyomi-connect/src/executor.rs:58-339 | whatever the executor answers over any of the producers is one of the four permitted forms |
| `WireProtocol.SocketCarriesPermittedPrefix` | crates/kyomi-connect/src/ws_client.rs:146-270 | with the executor as handler over any of the producers, in every interleaving: each request's part of the socket is a prefix of one of the four permitted forms, under its own id, and on no other connection's socket |
| `WireProtocol.SocketRowsArePrefix` | crates/kyomi-connect/src/ws_client.rs:184-221 | end to end, in every interleaving, for every producer and every failure: the rows on the socket are a prefix of the result the database holds, and a client that has been sent ArrowComplete has been sent the whole result |
| `Reconnect.WsClient.RunForever` | crates/kyomi-connect/src/ws_client.rs:45-78 | the loop performs exactly the acts of the specification rounds and ends each with the flag false |
| `Reconnect.RoundsLawful` | crates/kyomi-connect/src/ws_client.rs:45-78 | continuing any lawful history keeps it lawful |
| `Reconnect.SleepLaw` | crates/kyomi-connect/src/ws_client.rs:45-78 | each sleep is min(2^k, 60) seconds, k the sleeps since the start or last connect; the flag is true while a session runs and false while connecting or sleeping |
| `Reconnect.EveryConnectionIsServed` | crates/kyomi-connect/src/ws_client.rs:54-77 | every attempt is made with the flag down, is followed by a session with the flag up if and only if it succeeds, and then by a sleep |
| `Reconnect.RoundCounts` | crates/kyomi-connect/src/ws_client.rs:54-77 | there are as many attempts and as many sleeps as rounds, and as many sessions as successful attempts |
| `Catalog.DiscoverCatalog` | crates/kyomi-connect/src/executor.rs:368-467 | the crawl fails as a whole exactly when some container was in scope and all failed; otherwise it returns the survivors and every error |
| `Catalog.FilterKeepsRequested` | crates/kyomi-connect/src/executor.rs:776-784 | a container survives the scope filter exactly when there is no scope, the scope is empty, or some name in it equals its own ignoring case |
| `Catalog.FilterAppend` | crates/kyomi-connect/src/executor.rs:776-784 | the filter treats containers one by one and keeps their order |
| `Chars.EqIgnoreCaseIff` | crates/kyomi-connect/src/executor.rs:776-784 | ignoring case means: position by position the same character or the two forms of one letter |
| `Catalog.AllFailedIffEmpty` | crates/kyomi-connect/src/executor.rs:430-467 | no container survives exactly when every listing failed |
| `Catalog.TableAccounts` | crates/kyomi-connect/src/executor.rs:400-450 | listed tables are kept or failed, one error per failed table |
| `Catalog.ContainerAccounts` | crates/kyomi-connect/src/executor.rs:378-467 | containers in scope are kept or failed; the error count is failed containers plus failed tables of the others |
| `Catalog.ContainerInPlace` | crates/kyomi-connect/src/executor.rs:378-467 | a surviving container stands in the result in crawl order, with its name and tables |
| `Catalog.TableInPlace` | crates/kyomi-connect/src/executor.rs:378-467 | a surviving table stands in its container in listing order, with its columns |
| `Catalog.ContainerErrorInPlace` | crates/kyomi-connect/src/executor.rs:378-467 | a failed container contributes exactly one error, in crawl order |
| `Catalog.TableErrorInPlace` | crates/kyomi-connect/src/executor.rs:378-467 | a failed table of a surviving container contributes exactly one error, in its place |
| `ArrowBuilder.ArrowResultBuilder.AppendString` | crates/kyomi-datasource/src/arrow_builder.rs:180-200 | one cell is added to that column and to no other, and a builder whose cells fit their columns stays so |
| `ArrowBuilder.ArrowResultBuilder.AppendDateDays` | crates/kyomi-datasource/src/arrow_builder.rs:203-216 | one cell is added to that column and to no other, with the wrapped day shift for text columns, and a builder whose cells fit their columns stays so |
| `ArrowBuilder.ArrowResultBuilder.AppendTimestampMicros` | crates/kyomi-datasource/src/arrow_builder.rs:263-272 | one cell is added to that column and to no other for microseconds, and a builder whose cells fit their columns stays so |
| `ArrowBuilder.ArrowResultBuilder.Finish` | crates/kyomi-datasource/src/arrow_builder.rs:291-294 | between rows the batch is refused only when there are no columns, never for lengths or types |
| `JsonRows.JsonValueToArrow` | crates/kyomi-datasource/src/arrow_builder.rs:365-485 | for every JSON value and type, one cell that fits is added to its own column and none elsewhere |
| `JsonRows.DatabricksRowToArrow` | crates/kyomi-datasource/src/providers/databricks.rs:1172-1182 | a row of any length adds exactly one fitting cell to every column and keeps the builder rectangular |
| `JsonRows.BigQueryRowToArrow` | crates/kyomi-datasource/src/providers/bigquery.rs:1397-1413 | the same for a BigQuery row of any shape |
| `JsonRows.RowKeepsValid` | crates/kyomi-datasource/src/arrow_builder.rs:109-294 | one fitting cell per column makes a rectangular table of n rows one of n+1 |
| `JsonRows.BuildBatch` | crates/kyomi-datasource/src/arrow_builder.rs:109-294 | for every sequence of Databricks rows the batch holds row by row and column by column the cells of those rows; it fails only without columns |
| `JsonRows.BuildBigQueryBatch` | crates/kyomi-datasource/src/providers/bigquery.rs:1397-1413 | the same for BigQuery rows of any shape |
| `CellMeaning.DatabricksBatchHolds` | crates/kyomi-datasource/src/arrow_builder.rs:365-485 | every cell of a Databricks batch stands for the value in its row and column by an independent reference: truth values, numbers, texts, dates, times and timestamps, with every fallback; null beyond a short row |
| `CellMeaning.BigQueryBatchHolds` | crates/kyomi-datasource/src/providers/bigquery.rs:1397-1413 | the same for the nested values of BigQuery rows, null where the nesting is missing |
| `CellMeaning.ConvertedHolds` | crates/kyomi-datasource/src/arrow_builder.rs:365-485 | for every JSON value and column type the converter stores the cell that stands for it |
| `CellMeaning.DifferentValuesDiffer` | crates/kyomi-datasource/src/arrow_builder.rs:365-485 | different truth values, different strings in text columns and different floats have different cells |
| `CellMeaning.ColumnKinds` | crates/kyomi-datasource/src/arrow_builder.rs:25-50 | which Arrow type each column has |
| `CellMeaning.NativeCells` | crates/kyomi-datasource/src/arrow_builder.rs:143-200 | what a float, an integer, a truth value and a string become in every kind of column |
| `CellMeaning.NativeTimes` | crates/kyomi-datasource/src/arrow_builder.rs:203-272 | what days, dates, times, timestamps and instants become in their own and in text columns |
| `ClickHouseRows.ClickHouseRowToArrow` | crates/kyomi-datasource/src/providers/clickhouse.rs:867-902 | a row of any length adds exactly its ClickHouse cells and keeps the builder rectangular |
| `ClickHouseRows.NumbersAgree` | crates/kyomi-datasource/src/providers/clickhouse.rs:810-860 | coercing a value of a number column first does not change its cell |
| `ClickHouseRows.UtcTimestampsAgree` | crates/kyomi-datasource/src/providers/clickhouse.rs:810-902 | on a UTC server every timestamp string, well formed or not, gives the same cell with and without coercion |
| `ClickHouseRows.OtherTimestampsAgree` | crates/kyomi-datasource/src/providers/clickhouse.rs:810-902 | on another server every `YYYY-MM-DD HH:MM:SS[.f]` string does |
| `ClickHouseRows.RoutesAgree` | crates/kyomi-datasource/src/providers/clickhouse.rs:398-435 | the buffered and the streaming route store the same cell in every column of every row |
| `ClickHouseRows.ResultsAgree` | crates/kyomi-datasource/src/providers/clickhouse.rs:607-666 | so the two routes build the same table from every result |
| `ClickHouseRows.BuildBufferedBatch` | crates/kyomi-datasource/src/providers/clickhouse.rs:398-435 | sanitizing, coercing and converting every row builds exactly the table of the buffered cells; it fails only without columns |
| `ClickHouseRows.BuildStreamedBatch` | crates/kyomi-datasource/src/providers/clickhouse.rs:607-672 | sanitizing and converting every row builds exactly the table of the streamed cells; it fails only without columns |
| `ClickHouseRows.PagesStack` | crates/kyomi-datasource/src/providers/clickhouse.rs:607-699 | however the rows are cut into pages, the streamed pages' cells, stacked, are the buffered batch's |
| `CellMeaning.StreamedBatchHolds` | crates/kyomi-datasource/src/providers/clickhouse.rs:867-902 | every cell of a streamed ClickHouse batch stands for its sanitized value; on a UTC server a bare timestamp is read as an instant with `T` and `Z` put in |
| `CellMeaning.BufferedBatchHolds` | crates/kyomi-datasource/src/providers/clickhouse.rs:398-435 | and so does every cell of a buffered one |
| `CellMeaning.SanitizeAppend` | crates/kyomi-datasource/src/providers/clickhouse.rs:909-914 | sanitizing works character by character, in order |
| `CellMeaning.SanitizeOne` | crates/kyomi-datasource/src/providers/clickhouse.rs:909-914 | it drops the NUL and no other character, and leaves other values alone |
| `CellMeaning.CoercedValues` | crates/kyomi-datasource/src/providers/clickhouse.rs:810-860 | what a string becomes: the number it spells unless it is not finite, the truth value of six spellings, a bare timestamp with `T`, and `Z` on a UTC server; otherwise itself |
| `TicketMatch.PrefixInert` | scripts/lib/ticket_worktrees.py:59-61 | prefixing `stranded/` never changes which tickets a branch matches |
| `TicketMatch.MatchesIff` | scripts/lib/ticket_worktrees.py:59-61 | a branch matches exactly when somewhere in it stand the team key in any case, a hyphen or nothing, and the number, with no letter or digit before and no digit behind |
| `TicketMatch.MatchIsBehindPrefix` | scripts/lib/ticket_worktrees.py:59-61 | no match can begin inside the prefix |
| `TicketCheck.Check` | scripts/lib/ticket_worktrees.py:156-216 | the report holds exactly the hits, preserved entries and errors of whatever could be listed; 3 if anything was unreadable, else 1 if there are hits, else 0 |
| `TicketCheck.FailuresReported` | scripts/lib/ticket_worktrees.py:156-216 | every listing that failed is reported with its own error |
| `TicketCheck.CheckTrees` | scripts/lib/ticket_worktrees.py:179-192 | the worktree loop classifies every tree up to the first unreadable marker and reports exactly that marker's error |
| `TicketCheck.HitIffClaimed` | scripts/lib/ticket_worktrees.py:156-216 | a complete report names a branch as in flight exactly when it matches, is not excluded, and a pull request, a remote ref, an unmarked worktree or an untombstoned local branch claims it |
| `TicketCheck.PrEntryIff` | scripts/lib/ticket_worktrees.py:163-169 | which pull requests a complete report holds, by number and branch |
| `TicketCheck.RemoteEntryIff` | scripts/lib/ticket_worktrees.py:170-178 | which remote branches are hits and which are preserved |
| `TicketCheck.TreeEntryIff` | scripts/lib/ticket_worktrees.py:179-192 | which worktrees are hits and which are preserved, by path and branch |
| `TicketCheck.LocalEntryIff` | scripts/lib/ticket_worktrees.py:193-202 | which local branches are hits, which are preserved, and which a preserved worktree already stands for |
| `BranchArchive.StepNeverOverwrites` | scripts/lib/ticket_worktrees.py:271-326 | in every world no step overwrites an existing archive or touches a third ref |
| `BranchArchive.FullPushIsSafe` | scripts/lib/ticket_worktrees.py:303-308 | the push of both updates moves the commit to the archive exactly when both leases hold, changes nothing otherwise, and conserves the set of named commits |
| `BranchArchive.EveryStepIsSafe` | scripts/lib/ticket_worktrees.py:271-326 | of a client that sends every update, with any number of runs, any other writers, every interleaving, lost answers included: the commit stays named, archives are kept, no third ref is touched, a failed lease changes nothing, and the set of named commits is conserved |
| `BranchArchive.CommitsConserved` | scripts/lib/ticket_worktrees.py:271-326 | of git's client as well as of one that sends every update: any number of concurrent runs, on the same or different branches or on each other's archives, left to themselves neither lose nor invent a named commit |
| `BranchArchive.PushKeepsNamedBeyond` | scripts/lib/ticket_worktrees.py:303-308 | a push of either kind leaves a commit that is named by an archive, or an archive of an archive, so named |
| `BranchArchive.StepIsSafeIff` | scripts/lib/ticket_worktrees.py:292-308 | of git's client, which leaves up-to-date updates out, in every state and whether or not the answer arrives: a step keeps all promises exactly when it is no push, sends the creation, or finds the branch moved; it keeps the commit named exactly then or when the archive names it; archives and third refs are always kept |
| `BranchArchive.RaceLosesCommit` | scripts/lib/ticket_worktrees.py:292-308 | for every ticket, branch and commit there is a run from the start in which such a client leaves the commit without a name |
| `BranchArchive.NamedIfArchiveLeftAlone` | scripts/lib/ticket_worktrees.py:292-308 | among any number of runs and other writers that leave this branch's archive alone once it exists, git's client too keeps the commit named at every step of this run, lost answers included |
| `BranchArchive.NamedIffArchiveStands` | scripts/lib/ticket_worktrees.py:303-308 | the exact condition over runs: from the negotiation of a push without a creation to its application, whatever everyone else does in between, the commit stays named if and only if by then the branch has moved or the archive is as it was advertised |
| `BranchArchive.AloneSucceedsIff` | scripts/lib/ticket_worktrees.py:271-326 | undisturbed, `mark_branch` succeeds if and only if the branch, given by its own name or its archive's, matches, is not the default one, heads no pull request, is on marked worktrees only, is on the remote under exactly one of its names, and can be renamed locally; then the archive names its commit, it is gone, an unused local branch is renamed, and nothing else has changed |
| `BranchArchive.OthersDoNotMatter` | scripts/lib/ticket_worktrees.py:240-286 | a pull request on another branch or a worktree on another branch never changes whether it succeeds |
| `BranchArchive.StopsIff` | scripts/lib/ticket_worktrees.py:271-326 | in any world, whatever has changed since the last command, exactly when the run stops at each command |
| `BranchArchive.AloneIdempotent` | scripts/lib/ticket_worktrees.py:309-325 | archiving again succeeds and changes nothing |
| `BranchArchive.MarkedThenClear` | scripts/lib/ticket_worktrees.py:156-326 | in every run, after success a readable check names the branch as in flight only if that branch was disturbed after the last look, and reports a standing archive as preserved |
| `BranchArchive.LatePullRequestIsReported` | scripts/lib/ticket_worktrees.py:299-326 | for every ticket, branch and commit there is a run from the start, with a pull request opened after the second look, that succeeds and that a check then reports as in flight |
| `BranchArchive.ArchiveThenCheck` | scripts/lib/ticket_worktrees.py:156-326 | on a quiet repository: archive, then check, and no hit names the branch while the archive is reported preserved |
| `ProxyHeader.ReadHeader` | crates/kyomi-datasource/src/ssh_tunnel.rs:608-621 | reads exactly through the first blank line if that fits in 16 KiB; too large and closed early exactly otherwise |
| `ProxyHeader.RewriteHeader` | crates/kyomi-datasource/src/ssh_tunnel.rs:622-664 | the bytes written to the upstream are those of the specified rewrite, including every refusal and, at the panic, what had been written by then |
| `ProxyHeader.BlockIsFirstHeader` | crates/kyomi-datasource/src/ssh_tunnel.rs:608-621 | of a block of CRLF-ended lines, followed by anything, exactly the block is consumed |
| `ProxyHeader.ForwardedBlock` | crates/kyomi-datasource/src/ssh_tunnel.rs:629-664 | a block with fields is forwarded as one block: origin-form line, `Connection: close`, and the other field lines in order (section 3.2.1 of RFC 9112, section 7.6.1 of RFC 9110) |
| `ProxyHeader.OriginLineIsOneLine` | crates/kyomi-datasource/src/ssh_tunnel.rs:637-648 | the new request line has no LF, and its target starts with a slash exactly when the parsed URL's path does (section 3.2.1 of RFC 9112) |
| `ProxyDetails.OriginLineIs` | crates/kyomi-datasource/src/ssh_tunnel.rs:635-650 | it is the first word, the target of the second as a URL, and the third, with single spaces; there is one exactly when the line is UTF-8 and the second word is a URL |
| `ProxyDetails.TargetIs` | crates/kyomi-datasource/src/ssh_tunnel.rs:642-646 | the target is the path and the query; splitting it at its first question mark gives both back |
| `ProxyDetails.OutcomeIs` | crates/kyomi-datasource/src/ssh_tunnel.rs:622-640 | a header that begins with `CONNECT ` becomes a tunnel, and any other is refused exactly when there is no such line |
| `ProxyDetails.ConnectionFieldIff` | crates/kyomi-datasource/src/ssh_tunnel.rs:655-658 | the dropped fields are those whose name, up to the first colon, spells `connection` or `proxy-connection` in any case |
| `ProxyDetails.KeptIs` | crates/kyomi-datasource/src/ssh_tunnel.rs:653-663 | every other field line survives as often as it came |
| `ProxyDetails.CloseFieldIs` | crates/kyomi-datasource/src/ssh_tunnel.rs:652-652 | the added field is `Connection: close` |
| `ProxyDetails.EndsBlankIff` | crates/kyomi-datasource/src/ssh_tunnel.rs:610-610 | a header ends with CR LF CR LF |
| `ProxyHeader.ByteForByteIff` | crates/kyomi-datasource/src/ssh_tunnel.rs:653-663 | the forwarded bytes are the block with exactly the surviving field lines, unchanged, if and only if the last field line does not end in a bare CR or is dropped |
| `ProxyHeader.SameBlockIff` | crates/kyomi-datasource/src/ssh_tunnel.rs:629-664 | header blocks of lines without LF are the same bytes only if they are the same lines |
| `ProxyHeader.BareCrIsLost` | crates/kyomi-datasource/src/ssh_tunnel.rs:653-654 | behind every request line the proxy understands, the forwarded bytes lack the CR of a last field line such as `X` CR |
| `ProxyHeader.OneBlockIff` | crates/kyomi-datasource/src/ssh_tunnel.rs:646-664 | of every header that is forwarded, whatever bytes it consists of: the forwarded bytes have no blank line before their end if and only if none of the pieces it is cut into at LF is empty once its CR is stripped |
| `ProxyHeader.ForwardedLines` | crates/kyomi-datasource/src/ssh_tunnel.rs:629-664 | every forwarded header becomes one block: origin-form line, `Connection: close`, and the pieces it was cut into that are no connection fields, in order |
| `ProxyHeader.LoneCrIff` | crates/kyomi-datasource/src/ssh_tunnel.rs:653-663 | for a block of lines without bare LF: one block if and only if the last field line is not a lone CR |
| `ProxyHeader.DoubledLfEndsEarly` | crates/kyomi-datasource/src/ssh_tunnel.rs:653-663 | behind every request line the proxy understands, a field with two bare LFs in a row is forwarded with a blank line inside |
| `ProxyHeader.PanicIffNoFields` | crates/kyomi-datasource/src/ssh_tunnel.rs:653-653 | cutting out the field lines panics exactly when there are none, after the request line and `Connection: close` have been written |
| `SigV4.AwsUrlEncode` | crates/kyomi-datasource/src/providers/aws_sigv4.rs:136-149 | the encoding loop computes the specified encoding |
| `SigV4.DecodeEncode` | crates/kyomi-datasource/src/providers/aws_sigv4.rs:136-149 | percent-decoding undoes the encoding, which is therefore injective (section 2.1 of RFC 3986) |
| `SigV4.EncodeAlphabet` | crates/kyomi-datasource/src/providers/aws_sigv4.rs:136-149 | only unreserved characters come out, and percent signs with two upper-case hexadecimal digits behind each (sections 2.1 and 2.3 of RFC 3986) |
| `SigV4.UnreservedIff` | crates/kyomi-datasource/src/providers/aws_sigv4.rs:139-142 | the unreserved characters are letters, digits, hyphen, period, underscore and tilde; the slash is encoded |
| `SigV4.EncodedByteIs` | crates/kyomi-datasource/src/providers/aws_sigv4.rs:143-145 | an encoded byte is a percent sign and the two digits of its value from 0123456789ABCDEF |
| `SigV4.BuildCanonicalQueryString` | crates/kyomi-datasource/src/providers/aws_sigv4.rs:155-166 | encoding, sorting, assigning and joining give the canonical string |
| `SigV4.CanonicalIs` | crates/kyomi-datasource/src/providers/aws_sigv4.rs:155-166 | the canonical string is an arrangement of the encoded pairs, smaller first differing byte first, by key and then value, written with `=` and joined with `&` |
| `SigV4.OrderIrrelevant` | crates/kyomi-datasource/src/providers/aws_sigv4.rs:155-166 | every ordering of the parameters has the same canonical string |
| `SigV4.ParseCanonical` | crates/kyomi-datasource/src/providers/aws_sigv4.rs:155-166 | splitting on `&` and `=` and decoding recovers the sorted pairs |
| `SigV4.CanonicalInjective` | crates/kyomi-datasource/src/providers/aws_sigv4.rs:155-166 | different parameter multisets have different canonical strings |
| `PgInterval.FormatPgInterval` | crates/kyomi-datasource/src/providers/postgres.rs:605-644 | the pushed parts, joined, are the specified text |
| `PgInterval.RoundTrip` | crates/kyomi-datasource/src/providers/postgres.rs:605-644 | parsing the text gives back months, days and microseconds truncated toward zero to seconds |
| `PgInterval.TextInjective` | crates/kyomi-datasource/src/providers/postgres.rs:605-644 | intervals that differ in any of these print differently |
| `PgInterval.TextIs` | crates/kyomi-datasource/src/providers/postgres.rs:605-644 | the text is the non-zero years, mons and days, singular for 1 and -1, and the clock, in that order, with single spaces |
| `PgInterval.ClockIs` | crates/kyomi-datasource/src/providers/postgres.rs:629-637 | the clock shows hours, minutes and seconds of the whole seconds, unless there are no microseconds |
| `PgInterval.TwoDigits` | crates/kyomi-datasource/src/providers/postgres.rs:636-636 | each field has two digits below a hundred |
| `PgInterval.QuotTruncates` | crates/kyomi-datasource/src/providers/postgres.rs:609-633 | division truncates toward zero and the remainder has the dividend's sign |
| `PgInterval.DocumentedExample` | crates/kyomi-datasource/src/providers/postgres.rs:601-605 | the example in the documentation, `1 year 2 mons 3 days 04:05:06` |

## Left out

- NamedIfArchiveLeftAlone: gives a sufficient condition on the other writers over a whole run; the exact conditions are `StepIsSafeIff` and `NamedIffArchiveStands`.
- EveryStepIsSafe: is about a client that sends every update, which git's is not; `StepIsSafeIff` is the result for git's.
- MarkedThenClear: speaks of the branch itself; a pull request opened on the archive's own name is still reported, as the code does.
- Execute: a provider task that dies without a terminal event leaves a stream cut short, whose output is no permitted form; `OutputPermittedIff` says so and `TranslateReadsBack` says what is sent then.
- OtherTimestampsAgree: strings with a space at byte 10 that are not of the stamp's form depend on chrono's leniency and are not compared on non-UTC servers.
- RoutesAgree: the same restriction, through `Comparable`; none on UTC servers or on other columns.
- ResultsAgree: the same restriction, for every row.
- ResponsesCanMove: says that some run delivers; which waiting task the runtime gives a free slot first, and when, is not modelled.
- FormatPgInterval: a day count of `i32::MIN`, whose absolute value overflows in Rust, is treated as an ordinary number.
- Network, TLS, SSH, JWT, OAuth and HTTP clients; servers are functions from requests to answers, and a link that is lost is one of the answers.
- Arrow IPC bytes, JSON text, base64 and SHA/HMAC: a batch is its rows, and encoding either works or fails.  Serializing a response is taken as total.
- Polling a BigQuery job or a Databricks statement, and its cancellation: folded into the first answer, since it sends no event.
- chrono's calendar and float parsing are uninterpreted; the facts used are `ZIsNotNaive` and `SeparatorsAgree`.
- The URL parser and the split into words are parameters of `ProxyHeader`, of which only `NoLfFromLibrary` is used; that an `http` URL's path starts with a slash is the parser's affair; connecting upstream and copying bytes after the header are not modelled.
- `prepare_query` and the SQL text with its LIMIT: rewriting tests for a substring, so meaning preservation is not claimed; `limit` and `offset` are ignored by the modelled streaming paths.
- Cancellation in tokio is asynchronous, so tasks and writers of an old session may still step after it ends; nothing is claimed about when they stop.
- A runtime that panics on counter overflow (a debug build) instead of wrapping.
- `--self` validation in `check`, `mark_worktree`, `check-ref-format`, the extra refusals of `checked_tree`, and parsing the worktree listing: modelled as a command that may fail, or as data already read.
- `factory.rs`, `types.rs`, `wire.rs`, `type_mapping.rs`, `oauth_refresh.rs` and the MySQL, SQL Server, FlareDB and DataFusion providers: lookup tables, HTTP, or the shapes already modelled.
- Locating a query error by line and column, the wizard, configuration, health and deployment: they would only add easy members.
