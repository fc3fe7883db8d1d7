/**
 The offset-driven result pagers: ClickHouse (LIMIT/OFFSET) and BigQuery (startIndex/maxResults).
 Both run the same loop and differ in the test that ends it, which is the `StopRule`.
 */
module Paging {
  import opened Arithmetic
  import opened Options
  import opened StreamEvents
  import SqlxDriver

  /** One answer of the server: a page, or any failure (transport, status, malformed body) with its message. */
  datatype Reply<+R> =
    | Refused(message: string)
    | Page(columns: seq<ColumnInfo>, rows: seq<R>, hasToken: bool)

  /** `server(k, offset)` answers the k-th request, so a server may change its mind between requests. */
  type Server<!R> = (nat, nat) -> Reply<R>

  datatype StopRule =
    | ShortPage(pageSize: nat, paginated: bool)   // ClickHouse; not paginated: not a SELECT, or has its own LIMIT
    | NoToken                                     // BigQuery

  const LINK_LOST := "request failed"
  const SCHEMA_CHANGED := "schema changed between result pages"

  /** Does the loop ask for another page after this one? */
  predicate AsksAgain<R>(rule: StopRule, rows: seq<R>, hasToken: bool) {
    match rule
    case ShortPage(pageSize, paginated) => paginated && |rows| >= pageSize
    case NoToken => |rows| > 0 && hasToken
  }

  /** The outcome of a run: its batches, the error that ended it if any, and the requests made. */
  datatype Run<+R> = Run(batches: seq<seq<R>>, failure: Option<string>, requests: nat)

  /** The k-th answer; the link is lost after `attempts` answers. */
  function Answer<R>(server: Server<R>, attempts: nat, k: nat, offset: nat): Reply<R> {
    if k < attempts then server(k, offset) else Refused(LINK_LOST)
  }

  /** Requests k, k+1, ... of a run that has already received `total` rows of `width` columns. */
  function PagesFrom<R>(server: Server<R>, attempts: nat, rule: StopRule, k: nat, total: nat, width: nat): Run<R>
    decreases attempts - k
  {
    match Answer(server, attempts, k, U64(total))
    case Refused(message) => Run([], Some(message), 1)
    case Page(columns, rows, hasToken) =>
      if |columns| != width then Run([], Some(SCHEMA_CHANGED), 1)
      else
        if AsksAgain(rule, rows, hasToken) then
          var more := PagesFrom(server, attempts, rule, k + 1, total + |rows|, width);
          Run(NonEmpty(rows) + more.batches, more.failure, more.requests + 1)
        else Run(NonEmpty(rows), None, 1)
  }

  /** The whole stream: the first page fixes the schema. */
  function PagedStream<R>(server: Server<R>, attempts: nat, rule: StopRule, codec: Codec<R>): seq<Event<R>> {
    match Answer(server, attempts, 0, 0)
    case Refused(message) => [Failed(message)]
    case Page(columns, _, _) =>
      var run := PagesFrom(server, attempts, rule, 0, 0, |columns|);
      StreamOf(columns, None, run.batches, run.failure, codec)
  }

  /**
   Before request `k`, when `received` rows have gone out in `flushed` batches: nothing at all has been
   sent, or exactly what the remaining requests will bring is still to come.
   */
  ghost predicate Ready<R>(trace: seq<Event<R>>, sent: seq<Event<R>>, server: Server<R>, attempts: nat, rule: StopRule,
                           codec: Codec<R>, columns: Option<seq<ColumnInfo>>, k: nat, flushed: nat, received: nat)
  {
    match columns
    case None => k == 0 && flushed == 0 && received == 0 && sent == []
      && trace == PagedStream(server, attempts, rule, codec)
    case Some(cs) =>
      var run := PagesFrom(server, attempts, rule, k, received, |cs|);
      OnTrack(trace, sent, run.batches, flushed, received, run.failure, codec)
  }

  /**
   The paging task.  After the loop the schema has always been sent, so the source's fallback
   that would send an empty one is never reached.
   */
  method StreamPages<R>(tx: EventChannel<R>, server: Server<R>, attempts: nat, rule: StopRule, codec: Codec<R>)
    requires tx.Valid() && tx.sent == []
    modifies tx
    ensures tx.sent == Delivered(PagedStream(server, attempts, rule, codec), tx.accepts)
  {
    ghost var trace := PagedStream(server, attempts, rule, codec);
    ghost var flushed: nat, received: nat := 0, 0;
    var columns: Option<seq<ColumnInfo>> := None;   // present once the schema has been sent
    var offset: nat, chunkIndex: nat, totalRowsReturned: nat := 0, 0, 0;
    var k: nat := 0;
    var ok, more := true, true;

    while more
      invariant tx.Valid() && k <= attempts
      invariant offset == U64(received) && totalRowsReturned == U64(received) && chunkIndex == U32(flushed)
      invariant Between(trace, tx.sent, server, attempts, rule, codec, more, columns, k, flushed, received)
      decreases attempts - k, more
    {
      var reply := Answer(server, attempts, k, offset);
      ok, more, columns, offset, chunkIndex, totalRowsReturned, flushed, received :=
        HandleReply(tx, reply, columns, rule, offset, chunkIndex, totalRowsReturned, codec, server, attempts, k,
                    flushed, received, trace);
      if !ok {
        return;
      }
      k := k + 1;
    }
    SendTerminal(tx, Complete(chunkIndex, totalRowsReturned), trace, flushed, received, None, codec);
  }

  /** Between requests: either another one is to be made, or only the terminal is still to come. */
  ghost predicate Between<R>(trace: seq<Event<R>>, sent: seq<Event<R>>, server: Server<R>, attempts: nat,
                             rule: StopRule, codec: Codec<R>, more: bool, columns: Option<seq<ColumnInfo>>, k: nat,
                             flushed: nat, received: nat)
  {
    if more then Ready(trace, sent, server, attempts, rule, codec, columns, k, flushed, received)
    else OnTrack(trace, sent, [], flushed, received, None, codec)
  }

  /** One iteration of the loop. */
  method HandleReply<R>(tx: EventChannel<R>, reply: Reply<R>, columns: Option<seq<ColumnInfo>>, rule: StopRule,
                        offset: nat, chunkIndex: nat, total: nat, codec: Codec<R>, ghost server: Server<R>,
                        ghost attempts: nat, ghost k: nat, ghost flushed: nat, ghost received: nat,
                        ghost trace: seq<Event<R>>)
    returns (ok: bool, more: bool, known: Option<seq<ColumnInfo>>, nextOffset: nat, nextIndex: nat, newTotal: nat,
             ghost nowFlushed: nat, ghost nowReceived: nat)
    requires tx.Valid() && reply == Answer(server, attempts, k, U64(received))
    requires offset == U64(received) && chunkIndex == U32(flushed) && total == U64(received)
    requires Ready(trace, tx.sent, server, attempts, rule, codec, columns, k, flushed, received)
    modifies tx
    ensures tx.Valid()
    ensures ok ==> && k < attempts
                   && nextOffset == U64(nowReceived) && nextIndex == U32(nowFlushed) && newTotal == U64(nowReceived)
                   && Between(trace, tx.sent, server, attempts, rule, codec, more, known, k + 1, nowFlushed,
                              nowReceived)
    ensures !ok ==> tx.sent == Delivered(trace, tx.accepts)
  {
    more, nextOffset, nextIndex, newTotal := false, offset, chunkIndex, total;
    nowFlushed, nowReceived := flushed, received;
    ok, known := AcceptReply(tx, reply, columns, rule, codec, server, attempts, k, flushed, received, trace);
    if !ok {
      return;
    }
    ok, nextIndex, newTotal, nowFlushed, nowReceived :=
      TakePage(tx, reply, known.value, rule, chunkIndex, total, codec, server, attempts, k, flushed, received, trace);
    nextOffset := Add64(offset, |reply.rows|);
    more := AsksAgain(rule, reply.rows, reply.hasToken);
  }

  /** Refuse a failed answer or a page of another width; the first page's columns become the schema. */
  method AcceptReply<R>(tx: EventChannel<R>, reply: Reply<R>, columns: Option<seq<ColumnInfo>>, rule: StopRule,
                        codec: Codec<R>, ghost server: Server<R>, ghost attempts: nat, ghost k: nat, ghost flushed: nat,
                        ghost received: nat, ghost trace: seq<Event<R>>)
    returns (ok: bool, known: Option<seq<ColumnInfo>>)
    requires tx.Valid() && reply == Answer(server, attempts, k, U64(received))
    requires Ready(trace, tx.sent, server, attempts, rule, codec, columns, k, flushed, received)
    modifies tx
    ensures tx.Valid()
    ensures ok ==> && reply.Page? && known.Some? && |reply.columns| == |known.value|
                   && Ready(trace, tx.sent, server, attempts, rule, codec, known, k, flushed, received)
    ensures !ok ==> tx.sent == Delivered(trace, tx.accepts)
  {
    ok, known := true, columns;
    if reply.Refused? {
      if columns.Some? {
        SendTerminal(tx, Failed(reply.message), trace, flushed, received, Some(reply.message), codec);
      } else {
        ok := SendNext(tx, Failed(reply.message), trace, trace);
      }
      ok := false;
    } else if columns.None? {
      known := Some(reply.columns);
      ghost var run := PagesFrom(server, attempts, rule, 0, 0, |reply.columns|);
      ok := SendSchema(tx, reply.columns, None, codec, run.batches, run.failure);
    } else if |reply.columns| != |columns.value| {
      SendTerminal(tx, Failed(SCHEMA_CHANGED), trace, flushed, received, Some(SCHEMA_CHANGED), codec);
      ok := false;
    }
  }

  /** Send an accepted page's rows and count them. */
  method TakePage<R>(tx: EventChannel<R>, reply: Reply<R>, columns: seq<ColumnInfo>, rule: StopRule, chunkIndex: nat,
                     total: nat, codec: Codec<R>, ghost server: Server<R>, ghost attempts: nat, ghost k: nat,
                     ghost flushed: nat, ghost received: nat, ghost trace: seq<Event<R>>)
    returns (ok: bool, nextIndex: nat, newTotal: nat, ghost nowFlushed: nat, ghost nowReceived: nat)
    requires tx.Valid() && reply == Answer(server, attempts, k, U64(received)) && chunkIndex == U32(flushed)
             && total == U64(received)
    requires reply.Page? && |reply.columns| == |columns|
    requires Ready(trace, tx.sent, server, attempts, rule, codec, Some(columns), k, flushed, received)
    modifies tx
    ensures tx.Valid() && nextIndex == U32(nowFlushed) && newTotal == U64(nowReceived)
    ensures nowReceived == received + |reply.rows| && Add64(U64(received), |reply.rows|) == U64(nowReceived)
    ensures ok ==>
              if AsksAgain(rule, reply.rows, reply.hasToken) then
                Ready(trace, tx.sent, server, attempts, rule, codec, Some(columns), k + 1, nowFlushed, nowReceived)
              else OnTrack(trace, tx.sent, [], nowFlushed, nowReceived, None, codec)
    ensures !ok ==> tx.sent == Delivered(trace, tx.accepts)
  {
    ghost var upcoming := PagesAfter(server, attempts, rule, k, received, |columns|, reply);
    nowFlushed, nowReceived := flushed + |NonEmpty(reply.rows)|, received + |reply.rows|;
    AddRows(received, |reply.rows|);
    assert OnTrack(trace, tx.sent, NonEmpty(reply.rows) + upcoming.batches, flushed, received, upcoming.failure, codec);
    ok, nextIndex, newTotal :=
      SendRows(tx, reply.rows, chunkIndex, total, codec, trace, upcoming.batches, flushed, received, upcoming.failure);
  }

  /** What the requests after this page's will bring. */
  ghost function PagesAfter<R>(server: Server<R>, attempts: nat, rule: StopRule, k: nat, total: nat, width: nat,
                               reply: Reply<R>): (r: Run<R>)
    requires reply.Page? && reply == Answer(server, attempts, k, U64(total)) && |reply.columns| == width
    ensures PagesFrom(server, attempts, rule, k, total, width)
            == Run(NonEmpty(reply.rows) + r.batches, r.failure, r.requests + 1)
    ensures if AsksAgain(rule, reply.rows, reply.hasToken) then
            r == PagesFrom(server, attempts, rule, k + 1, total + |reply.rows|, width)
            else r == Run([], None, 0)
  {
    assert NonEmpty(reply.rows) + [] == NonEmpty(reply.rows);
    if AsksAgain(rule, reply.rows, reply.hasToken) then
      PagesFrom(server, attempts, rule, k + 1, total + |reply.rows|, width)
    else Run([], None, 0)
  }

  // ----- every server, every failure point -----

  /** Whatever the server answers and whenever the link or the receiver goes away, the stream is well formed. */
  lemma PagedStreamWellFormed<R>(server: Server<R>, attempts: nat, rule: StopRule, codec: Codec<R>,
                                 accepts: Option<nat>)
    ensures var trace := PagedStream(server, attempts, rule, codec);
            && StreamShape(trace)
            && Delivered(trace, accepts) <= trace
            && Observe(Start, Delivered(trace, accepts)) != Broken
  {
    var trace := PagedStream(server, attempts, rule, codec);
    match Answer(server, attempts, 0, 0) {
      case Refused(message) =>
        LoneFailureCloses<R>(message);
      case Page(columns, _, _) =>
        var run := PagesFrom(server, attempts, rule, 0, 0, |columns|);
        StreamOfCloses(columns, None, run.batches, run.failure, codec);
    }
    ClosedIffShape(trace);
    DeliveredNeverBroken(trace, accepts);
  }

  // ----- ClickHouse against a server that returns the exact slice -----

  /** `LIMIT p OFFSET o` over a fixed result. */
  ghost predicate ExactSlices<R>(server: Server<R>, table: seq<R>, p: nat, columns: seq<ColumnInfo>) {
    forall k: nat, o: nat :: o <= |table| ==>
      server(k, o).Page? && server(k, o).columns == columns && server(k, o).rows == table[o..Min(o + p, |table|)]
  }

  /** The requests that `n` remaining rows take: one per full page, and one that comes back short. */
  function PagesNeeded(n: nat, p: nat): (r: nat)
    requires p >= 1
    ensures r >= 1
  {
    if n < p then 1 else 1 + PagesNeeded(n - p, p)
  }

  lemma {:induction false} PagesNeededCount(n: nat, p: nat)
    requires p >= 1
    ensures PagesNeeded(n, p) == n / p + 1
  {
    if n < p {
      DivUnique(n, p, 0);
    } else {
      PagesNeededCount(n - p, p);
      DivStep(n, p);
    }
  }

  /**
   From any offset the pager fetches exactly the batches the row-by-row driver would cut,
   in floor(remaining/p)+1 requests, and completes.
   */
  lemma {:induction false} SlicesFrom<R>(server: Server<R>, attempts: nat, table: seq<R>, p: nat,
                                         columns: seq<ColumnInfo>, k: nat, o: nat)
    requires p >= 1 && o <= |table| < 0x1_0000_0000_0000_0000
    requires ExactSlices(server, table, p, columns)
    requires k + PagesNeeded(|table| - o, p) <= attempts
    ensures PagesFrom(server, attempts, ShortPage(p, true), k, o, |columns|)
         == Run(SqlxDriver.Chunks(table[o..], p), None, PagesNeeded(|table| - o, p))
    decreases |table| - o
  {
    CountersExact(o);
    var reply := server(k, o);
    assert reply.Page? && reply.columns == columns && reply.rows == table[o..Min(o + p, |table|)];
    var rest := PagesAfter(server, attempts, ShortPage(p, true), k, o, |columns|, reply);
    ChunksStep(table, o, p);
    if o + p <= |table| {
      assert |table| - (o + p) == |table| - o - p;
      SlicesFrom(server, attempts, table, p, columns, k + 1, o + p);
    }
  }

  /** Cutting the rows from `o` on: the page at `o` first, then, unless it was short, the rows behind it. */
  lemma ChunksStep<R>(table: seq<R>, o: nat, p: nat)
    requires p >= 1 && o <= |table|
    ensures SqlxDriver.Chunks(table[o..], p)
         == NonEmpty(table[o..Min(o + p, |table|)])
            + if o + p <= |table| then SqlxDriver.Chunks(table[o + p..], p) else []
  {
    var rest := table[o..];
    var page := table[o..Min(o + p, |table|)];
    if o + p < |table| {
      assert rest[..p] == page && rest[p..] == table[o + p..];
    } else {
      assert rest == page;
      if o + p == |table| {
        assert table[o + p..] == [];
      }
    }
  }

  /**
   ClickHouse: all n rows once each and in order, in batches of p, with exactly floor(n/p)+1 requests,
   however long the link would have lasted beyond that.
   */
  lemma ClickHouseDeliversAll<R>(server: Server<R>, attempts: nat, table: seq<R>, p: nat, columns: seq<ColumnInfo>,
                                 codec: Codec<R>)
    requires p >= 1 && |table| < 0x1_0000_0000_0000_0000
    requires ExactSlices(server, table, p, columns)
    requires |table| / p < attempts
    ensures PagesFrom(server, attempts, ShortPage(p, true), 0, 0, |columns|).requests == |table| / p + 1
    ensures PagedStream(server, attempts, ShortPage(p, true), codec)
         == StreamOf(columns, None, SqlxDriver.Chunks(table, p), None, codec)
    ensures Flatten(SqlxDriver.Chunks(table, p)) == table
  {
    assert table[0..] == table;
    PagesNeededCount(|table|, p);
    assert server(0, 0).Page?;
    SlicesFrom(server, attempts, table, p, columns, 0, 0);
    SqlxDriver.ChunkTotals(table, p);
  }

  /** With a page size of 0 the pager never finishes: it repeats the request for as long as the link lasts. */
  lemma {:induction false} ZeroPageSizeNeverFinishes<R>(server: Server<R>, attempts: nat, table: seq<R>,
                                                        columns: seq<ColumnInfo>, k: nat)
    requires ExactSlices(server, table, 0, columns) && k <= attempts
    ensures PagesFrom(server, attempts, ShortPage(0, true), k, 0, |columns|)
            == Run([], Some(LINK_LOST), attempts - k + 1)
    decreases attempts - k
  {
    if k < attempts {
      assert server(k, 0).rows == table[0..0];
      ZeroPageSizeNeverFinishes(server, attempts, table, columns, k + 1);
    }
  }

  /**
   Against exact slices and a link that lasts long enough, the pager completes exactly when the page size
   is positive.
   */
  lemma ClickHouseCompletesIff<R>(server: Server<R>, attempts: nat, table: seq<R>, p: nat, columns: seq<ColumnInfo>)
    requires |table| < 0x1_0000_0000_0000_0000
    requires ExactSlices(server, table, p, columns)
    requires p >= 1 ==> |table| / p < attempts
    ensures PagesFrom(server, attempts, ShortPage(p, true), 0, 0, |columns|).failure.None? <==> p >= 1
  {
    if p >= 1 {
      PagesNeededCount(|table|, p);
      SlicesFrom(server, attempts, table, p, columns, 0, 0);
    } else {
      ZeroPageSizeNeverFinishes(server, attempts, table, columns, 0);
    }
  }

  // ----- BigQuery against a server that returns any non-empty prefix of what remains -----

  /** Up to `maxResults` and at least one of the remaining rows, and a page token exactly when rows remain. */
  ghost predicate SomePrefix<R>(server: Server<R>, table: seq<R>, maxResults: nat, columns: seq<ColumnInfo>) {
    forall k: nat, o: nat :: o <= |table| ==>
      && server(k, o).Page? && server(k, o).columns == columns
      && server(k, o).rows <= table[o..]
      && |server(k, o).rows| <= maxResults
      && (o < |table| ==> server(k, o).rows != [])
      && (server(k, o).hasToken <==> o + |server(k, o).rows| < |table|)
  }

  lemma {:induction false} PrefixesFrom<R>(server: Server<R>, attempts: nat, table: seq<R>, maxResults: nat,
                                           columns: seq<ColumnInfo>, k: nat, o: nat)
    requires o <= |table| < 0x1_0000_0000_0000_0000
    requires SomePrefix(server, table, maxResults, columns)
    requires k + 1 <= attempts && k + (|table| - o) <= attempts
    ensures var run := PagesFrom(server, attempts, NoToken, k, o, |columns|);
            && run.failure.None?
            && Flatten(run.batches) == table[o..]
            && (forall i :: 0 <= i < |run.batches| ==> 1 <= |run.batches[i]| <= maxResults)
            && run.requests <= 1 + (if o < |table| then |table| - o - 1 else 0)
    decreases |table| - o
  {
    CountersExact(o);
    var reply := server(k, o);
    assert reply.Page? && reply.columns == columns && reply.rows <= table[o..];
    var page := reply.rows;
    var next := o + |page|;
    SplitRest(table, o, page);
    var rest := PagesAfter(server, attempts, NoToken, k, o, |columns|, reply);
    FlattenNonEmpty(page, rest.batches);
    if page != [] && next < |table| {
      PrefixesFrom(server, attempts, table, maxResults, columns, k + 1, next);
    } else {
      assert next == |table| && table[next..] == [];
    }
  }

  /** BigQuery: terminates after at most max(n, 1) requests with every row exactly once, in order. */
  lemma BigQueryDeliversAll<R>(server: Server<R>, attempts: nat, table: seq<R>, maxResults: nat,
                               columns: seq<ColumnInfo>, codec: Codec<R>)
    requires |table| < 0x1_0000_0000_0000_0000
    requires SomePrefix(server, table, maxResults, columns)
    requires 1 <= attempts && |table| <= attempts
    ensures var run := PagesFrom(server, attempts, NoToken, 0, 0, |columns|);
            && run.requests <= (if table == [] then 1 else |table|)
            && PagedStream(server, attempts, NoToken, codec) == StreamOf(columns, None, run.batches, None, codec)
            && Flatten(run.batches) == table
            && (codec.schemaOk(columns) && AllEncode(run.batches, codec) ==>
                  RowsOf(PagedStream(server, attempts, NoToken, codec)) == table)
  {
    assert table[0..] == table;
    assert server(0, 0).Page?;
    PrefixesFrom(server, attempts, table, maxResults, columns, 0, 0);
    var run := PagesFrom(server, attempts, NoToken, 0, 0, |columns|);
    StreamOfRows(columns, None, run.batches, None, codec);
  }

  // ----- any server that pages through one result -----

  /**
   Each page it does answer holds the next rows of `table`, as many as it likes, and all of them if it ends
   the loop.
   */
  ghost predicate Pages<R>(server: Server<R>, rule: StopRule, table: seq<R>) {
    forall k: nat, o: nat :: o <= |table| && server(k, o).Page? ==> PageOf(server(k, o), rule, table[o..])
  }

  ghost predicate PageOf<R>(reply: Reply<R>, rule: StopRule, rest: seq<R>)
    requires reply.Page?
  {
    reply.rows <= rest && (!AsksAgain(rule, reply.rows, reply.hasToken) ==> reply.rows == rest)
  }

  /** Both servers above are of this kind. */
  lemma ServersPage<R>(server: Server<R>, table: seq<R>, p: nat, columns: seq<ColumnInfo>)
    ensures ExactSlices(server, table, p, columns) && p >= 1 ==> Pages(server, ShortPage(p, true), table)
    ensures SomePrefix(server, table, p, columns) ==> Pages(server, NoToken, table)
  {
    if ExactSlices(server, table, p, columns) && p >= 1 {
      forall k: nat, o: nat | o <= |table| && server(k, o).Page?
        ensures PageOf(server(k, o), ShortPage(p, true), table[o..])
      {
        var page := table[o..Min(o + p, |table|)];
        assert server(k, o).rows == page;
        assert page == table[o..][..|page|];
      }
    }
  }

  /**
   Such a server may fail at any request: what was fetched is a prefix of the table, and all of it if
   nothing failed.
   */
  lemma {:induction false} FetchedFrom<R>(server: Server<R>, attempts: nat, rule: StopRule, table: seq<R>, k: nat,
                                          o: nat, width: nat)
    requires o <= |table| < 0x1_0000_0000_0000_0000 && Pages(server, rule, table)
    ensures var run := PagesFrom(server, attempts, rule, k, o, width);
            && Flatten(run.batches) <= table[o..]
            && (run.failure.None? ==> Flatten(run.batches) == table[o..])
    decreases attempts - k
  {
    CountersExact(o);
    var reply := Answer(server, attempts, k, o);
    if reply.Page? && |reply.columns| == width {
      var rows := reply.rows;
      assert PageOf(reply, rule, table[o..]);
      var rest := PagesAfter(server, attempts, rule, k, o, width, reply);
      FlattenNonEmpty(rows, rest.batches);
      SplitRest(table, o, rows);
      if AsksAgain(rule, rows, reply.hasToken) {
        FetchedFrom(server, attempts, rule, table, k + 1, o + |rows|, width);
        PrefixUnder(rows, Flatten(rest.batches), table[o + |rows|..]);
      }
    }
  }

  lemma SplitRest<R>(table: seq<R>, o: nat, rows: seq<R>)
    requires o <= |table| && rows <= table[o..]
    ensures o + |rows| <= |table| && table[o..] == rows + table[o + |rows|..]
  {
  }

  /** So the stream's rows are a prefix of the table, and the whole table if the stream ends in Complete. */
  lemma PagedRows<R>(server: Server<R>, attempts: nat, rule: StopRule, codec: Codec<R>, table: seq<R>)
    requires |table| < 0x1_0000_0000_0000_0000 && Pages(server, rule, table)
    ensures var trace := PagedStream(server, attempts, rule, codec);
            && RowsOf(trace) <= table
            && trace != []
            && (trace[|trace| - 1].Complete? ==> RowsOf(trace) == table)
  {
    match Answer(server, attempts, 0, 0) {
      case Refused(message) =>
        assert RowsOf<R>([Failed(message)][1..]) == [];
      case Page(columns, _, _) =>
        var run := PagesFrom(server, attempts, rule, 0, 0, |columns|);
        assert table[0..] == table;
        FetchedFrom(server, attempts, rule, table, 0, 0, |columns|);
        StreamWithin(columns, None, run.batches, run.failure, codec, table);
    }
  }

  // ----- single answers -----

  /** A refused first request is the whole stream. */
  lemma RefusedAtOnce<R>(server: Server<R>, attempts: nat, rule: StopRule, codec: Codec<R>)
    requires attempts > 0 && server(0, 0).Refused?
    ensures PagedStream(server, attempts, rule, codec) == [Failed(server(0, 0).message)]
  {
  }

  /**
   After `received` rows of `width` columns, what one more answer brings: a refusal or a page of another width
   ends the run with that error and no further request; any other page is one batch, if it has rows.
   */
  lemma NextAnswer<R>(server: Server<R>, attempts: nat, rule: StopRule, k: nat, received: nat, width: nat)
    requires k < attempts && received < 0x1_0000_0000_0000_0000
    ensures var reply, run := server(k, received), PagesFrom(server, attempts, rule, k, received, width);
            && (reply.Refused? ==> run == Run([], Some(reply.message), 1))
            && (reply.Page? && |reply.columns| != width ==>
                  run == Run([], Some("schema changed between result pages"), 1))
            && (reply.Page? && |reply.columns| == width && reply.rows == [] && (rule.NoToken? || rule.pageSize > 0) ==>
                  run == Run([], None, 1))
            && (reply.Page? && |reply.columns| == width && reply.rows != [] ==>
                  run.batches != [] && run.batches[0] == reply.rows)
  {
    CountersExact(received);
  }

  /**
   A ClickHouse query that is not paginated, because it is no SELECT or has a LIMIT of its own, takes exactly one
   request, whatever the page holds; a paginated one asks again exactly after a page that is full.
   */
  lemma OneRequestIff<R>(server: Server<R>, attempts: nat, p: nat, paginated: bool, k: nat, received: nat, width: nat)
    requires k < attempts && received < 0x1_0000_0000_0000_0000
    requires server(k, received).Page? && |server(k, received).columns| == width
    ensures PagesFrom(server, attempts, ShortPage(p, paginated), k, received, width).requests == 1
       <==> !paginated || |server(k, received).rows| < p
  {
    CountersExact(received);
    if paginated && |server(k, received).rows| >= p {
      var next := received + |server(k, received).rows|;
      RequestsPositive(server, attempts, ShortPage(p, paginated), k + 1, next, width);
    }
  }

  lemma RequestsPositive<R>(server: Server<R>, attempts: nat, rule: StopRule, k: nat, received: nat, width: nat)
    ensures PagesFrom(server, attempts, rule, k, received, width).requests >= 1
  {
  }

  /** BigQuery asks again exactly after a page that has rows and a token: a token without rows ends the run. */
  lemma TokenAndRowsIff<R>(server: Server<R>, attempts: nat, k: nat, received: nat, width: nat)
    requires k < attempts && received < 0x1_0000_0000_0000_0000
    requires server(k, received).Page? && |server(k, received).columns| == width
    ensures PagesFrom(server, attempts, NoToken, k, received, width).requests == 1
       <==> server(k, received).rows == [] || !server(k, received).hasToken
  {
    CountersExact(received);
    RequestsPositive(server, attempts, NoToken, k + 1, received + |server(k, received).rows|, width);
  }
}
