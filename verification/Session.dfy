/**
 The WebSocket client as a state machine.  Each connection has a reader, a bounded queue and one
 writer that owns the socket; every request read spawns a task that runs the handler and pushes its
 responses into the queue of the connection that read it.  A run is any sequence of enabled steps,
 so it covers every interleaving of readers, tasks and writers, and tasks or writers of an old
 connection that outlive it because cancellation is asynchronous.  `permitted(id, output)` says what
 a handler may answer to the request `id`.
 */
module Session {
  import opened Options
  import opened StreamEvents

  const CAPACITY: nat := 64

  type Permitted<!T> = (string, seq<T>) -> bool

  /** What the reader takes from the socket; `Ignored` is unparseable text or another frame kind. */
  datatype Frame = Request(id: string) | Ping(data: string) | Close | ReadError | Ignored

  /** What goes through the queue: a response, tagged with the task that sends it, or a pong. */
  datatype Message<+T> = Text(task: nat, response: T) | Pong(data: string)

  datatype Writer<+T> = Idle | Writing(message: Message<T>) | Stopped

  datatype Conn<+T> = Conn(
    reading: bool,
    received: seq<Frame>,          // everything the reader has read
    permits: nat,                  // queue slots neither used nor reserved
    queue: seq<Message<T>>,
    writer: Writer<T>,
    socket: seq<Message<T>>,       // everything written to this connection's socket
    accepted: seq<Message<T>>)     // everything ever put into the queue

  /** `output` is absent while the handler runs; `permit` says that a slot is reserved for the next response. */
  datatype Task<+T> = Task(conn: nat, id: string, output: Option<seq<T>>, sent: nat, permit: bool, running: bool)

  datatype Client<+T> = Client(conns: seq<Conn<T>>, tasks: seq<Task<T>>)

  datatype Step<+T> =
    | Connect
    | Read(conn: nat, frame: Frame)
    | StopReading(conn: nat)                              // silence, end of stream, or the writer is gone
    | HandlerDone(task: nat, output: seq<T>)
    | Reserve(task: nat)
    | Put(task: nat)
    | EndTask(task: nat)                                  // all sent, the queue closed, cancelled or crashed
    | Take(conn: nat)
    | Written(conn: nat)
    | WriteFailed(conn: nat)
    | StopWriter(conn: nat)

  function Initial<T>(): Client<T> { Client([], []) }

  function Fresh<T>(): Conn<T> { Conn(true, [], CAPACITY, [], Idle, [], []) }

  ghost predicate Enabled<T>(permitted: Permitted<T>, s: Client<T>, step: Step<T>) {
    match step
    case Connect => forall i :: 0 <= i < |s.conns| ==> !s.conns[i].reading
    case Read(i, _) => i < |s.conns| && s.conns[i].reading
    case StopReading(i) => i < |s.conns| && s.conns[i].reading
    case HandlerDone(t, output) =>
      t < |s.tasks| && s.tasks[t].running && s.tasks[t].output.None? && permitted(s.tasks[t].id, output)
    case Reserve(t) =>
      && t < |s.tasks| && s.tasks[t].conn < |s.conns| && s.tasks[t].running && s.tasks[t].output.Some?
      && s.tasks[t].sent < |s.tasks[t].output.value| && !s.tasks[t].permit
      && s.conns[s.tasks[t].conn].permits > 0 && !s.conns[s.tasks[t].conn].writer.Stopped?
    case Put(t) =>
      && t < |s.tasks| && s.tasks[t].conn < |s.conns| && s.tasks[t].running && s.tasks[t].permit
      && s.tasks[t].output.Some? && s.tasks[t].sent < |s.tasks[t].output.value|
    case EndTask(t) => t < |s.tasks| && s.tasks[t].conn < |s.conns| && s.tasks[t].running
    case Take(i) => i < |s.conns| && s.conns[i].writer.Idle? && s.conns[i].queue != []
    case Written(i) => i < |s.conns| && s.conns[i].writer.Writing?
    case WriteFailed(i) => i < |s.conns| && s.conns[i].writer.Writing?
    case StopWriter(i) => i < |s.conns| && !s.conns[i].reading
  }

  /** The reader takes one frame.  A pong is enqueued with `try_send`: no slot, or no writer, ends the session. */
  function ReadFrame<T>(c: Conn<T>, frame: Frame): Conn<T> {
    var c := c.(received := c.received + [frame]);
    match frame
    case Request(_) => c
    case Ping(data) =>
      if c.permits > 0 && !c.writer.Stopped? then Enqueue(c, Pong(data)).(permits := c.permits - 1)
      else c.(reading := false)
    case Close => c.(reading := false)
    case ReadError => c.(reading := false)
    case Ignored => c
  }

  function Enqueue<T>(c: Conn<T>, m: Message<T>): Conn<T> {
    c.(queue := c.queue + [m], accepted := c.accepted + [m])
  }

  /** The writer receives the head of the queue, which frees its slot. */
  function TakeHead<T>(c: Conn<T>): Conn<T>
    requires c.queue != []
  {
    c.(writer := Writing(c.queue[0]), queue := c.queue[1..], permits := c.permits + 1)
  }

  function FinishWrite<T>(c: Conn<T>): Conn<T>
    requires c.writer.Writing?
  {
    c.(writer := Idle, socket := c.socket + [c.writer.message])
  }

  /** The message task `t` puts next, and the task once it has. */
  function NextText<T>(t: nat, task: Task<T>): (m: Message<T>)
    requires task.output.Some? && task.sent < |task.output.value|
    ensures m.Text?
  {
    Text(t, task.output.value[task.sent])
  }

  function Advanced<T>(task: Task<T>): Task<T> { task.(sent := task.sent + 1, permit := false) }

  ghost function Apply<T>(permitted: Permitted<T>, s: Client<T>, step: Step<T>): Client<T>
    requires Enabled(permitted, s, step)
  {
    match step
    case Connect => s.(conns := s.conns + [Fresh()])
    case Read(i, frame) =>
      var conns := s.conns[i := ReadFrame(s.conns[i], frame)];
      Client(conns, if frame.Request? then s.tasks + [Task(i, frame.id, None, 0, false, true)] else s.tasks)
    case StopReading(i) => s.(conns := s.conns[i := s.conns[i].(reading := false)])
    case HandlerDone(t, output) => s.(tasks := s.tasks[t := s.tasks[t].(output := Some(output))])
    case Reserve(t) =>
      var i := s.tasks[t].conn;
      Client(s.conns[i := s.conns[i].(permits := s.conns[i].permits - 1)], s.tasks[t := s.tasks[t].(permit := true)])
    case Put(t) =>
      var task := s.tasks[t];
      Client(s.conns[task.conn := Enqueue(s.conns[task.conn], NextText(t, task))], s.tasks[t := Advanced(task)])
    case EndTask(t) =>
      var task := s.tasks[t];
      var c := s.conns[task.conn];
      Client(if task.permit then s.conns[task.conn := c.(permits := c.permits + 1)] else s.conns,
             s.tasks[t := task.(running := false, permit := false)])
    case Take(i) =>
      s.(conns := s.conns[i := TakeHead(s.conns[i])])
    case Written(i) =>
      s.(conns := s.conns[i := FinishWrite(s.conns[i])])
    case WriteFailed(i) => s.(conns := s.conns[i := s.conns[i].(writer := Stopped)])
    case StopWriter(i) => s.(conns := s.conns[i := s.conns[i].(writer := Stopped)])
  }

  /** A run: steps each enabled where it happens. */
  ghost predicate IsRun<T>(permitted: Permitted<T>, s: Client<T>, steps: seq<Step<T>>)
    decreases |steps|
  {
    steps == [] || (Enabled(permitted, s, steps[0]) && IsRun(permitted, Apply(permitted, s, steps[0]), steps[1..]))
  }

  ghost function After<T>(permitted: Permitted<T>, s: Client<T>, steps: seq<Step<T>>): Client<T>
    requires IsRun(permitted, s, steps)
    decreases |steps|
  {
    if steps == [] then s else After(permitted, Apply(permitted, s, steps[0]), steps[1..])
  }

  // ----- what is read off the histories -----

  /** The responses task `t` contributed to `ms`, in order. */
  function Texts<T>(ms: seq<Message<T>>, t: nat): seq<T> {
    if ms == [] then []
    else
      var m := ms[|ms| - 1];
      Texts(ms[..|ms| - 1], t) + if m.Text? && m.task == t then [m.response] else []
  }

  function Pongs<T>(ms: seq<Message<T>>): seq<string> {
    if ms == [] then []
    else
      var m := ms[|ms| - 1];
      Pongs(ms[..|ms| - 1]) + if m.Pong? then [m.data] else []
  }

  function Pings(frames: seq<Frame>): seq<string> {
    if frames == [] then []
    else
      var f := frames[|frames| - 1];
      Pings(frames[..|frames| - 1]) + if f.Ping? then [f.data] else []
  }

  function Requests(frames: seq<Frame>): seq<string> {
    if frames == [] then []
    else
      var f := frames[|frames| - 1];
      Requests(frames[..|frames| - 1]) + if f.Request? then [f.id] else []
  }

  /** The request ids of the tasks connection `i` spawned, in order. */
  function Spawned<T>(tasks: seq<Task<T>>, i: nat): seq<string> {
    if tasks == [] then []
    else
      var task := tasks[|tasks| - 1];
      Spawned(tasks[..|tasks| - 1], i) + if task.conn == i then [task.id] else []
  }

  /** Slots of connection `i`'s queue reserved by tasks. */
  function Held<T>(tasks: seq<Task<T>>, i: nat): nat {
    if tasks == [] then 0
    else
      var task := tasks[|tasks| - 1];
      Held(tasks[..|tasks| - 1], i) + if task.conn == i && task.permit then 1 else 0
  }

  function InFlight<T>(w: Writer<T>): seq<Message<T>> {
    if w.Writing? then [w.message] else []
  }

  // ----- the invariant -----

  /**
   Every slot is free, used or reserved; nothing between queue and socket is lost or reordered while the
   writer lives.
   */
  ghost predicate QueueOk<T>(c: Conn<T>, held: nat) {
    && c.permits + |c.queue| + held == CAPACITY
    && (!c.writer.Stopped? ==> c.accepted == c.socket + (InFlight(c.writer) + c.queue))
    && c.socket <= c.accepted
  }

  /** Every ping read was answered into the queue, or it was the last frame this reader read. */
  ghost predicate PingsOk<T>(c: Conn<T>) {
    || Pongs(c.accepted) == Pings(c.received)
    || (&& !c.reading && c.received != [] && c.received[|c.received| - 1].Ping?
        && Pongs(c.accepted) == Pings(c.received[..|c.received| - 1]))
  }

  ghost predicate TaskOk<T>(permitted: Permitted<T>, conns: seq<Conn<T>>, task: Task<T>, t: nat) {
    && task.conn < |conns|
    && (task.output.Some? ==> permitted(task.id, task.output.value) && task.sent <= |task.output.value|)
    && (task.output.None? ==> task.sent == 0)
    && (task.permit ==> task.running && task.output.Some? && task.sent < |task.output.value|)
    && Texts(conns[task.conn].accepted, t) == SentBy(task)
  }

  ghost function SentBy<T>(task: Task<T>): seq<T> {
    if task.output.Some? && task.sent <= |task.output.value| then task.output.value[..task.sent] else []
  }

  /** Every text in connection `i`'s queue came from a task that connection `i` spawned. */
  ghost predicate OriginsOk<T>(ms: seq<Message<T>>, tasks: seq<Task<T>>, i: nat) {
    forall j :: 0 <= j < |ms| && ms[j].Text? ==> ms[j].task < |tasks| && tasks[ms[j].task].conn == i
  }

  ghost predicate ConnOk<T>(c: Conn<T>, tasks: seq<Task<T>>, i: nat) {
    && QueueOk(c, Held(tasks, i))
    && PingsOk(c)
    && OriginsOk(c.accepted, tasks, i)
    && Spawned(tasks, i) == Requests(c.received)
  }

  ghost predicate Inv<T>(permitted: Permitted<T>, s: Client<T>) {
    && (forall i :: 0 <= i < |s.conns| ==> ConnOk(s.conns[i], s.tasks, i))
    && (forall t :: 0 <= t < |s.tasks| ==> TaskOk(permitted, s.conns, s.tasks[t], t))
  }

  // ----- small facts about the readings -----

  lemma AppendedMessage<T>(ms: seq<Message<T>>, m: Message<T>, t: nat)
    ensures Texts(ms + [m], t) == Texts(ms, t) + if m.Text? && m.task == t then [m.response] else []
    ensures Pongs(ms + [m]) == Pongs(ms) + if m.Pong? then [m.data] else []
  {
    assert (ms + [m])[..|ms|] == ms;
  }

  lemma AppendedFrame(frames: seq<Frame>, f: Frame)
    ensures Pings(frames + [f]) == Pings(frames) + if f.Ping? then [f.data] else []
    ensures Requests(frames + [f]) == Requests(frames) + if f.Request? then [f.id] else []
  {
    assert (frames + [f])[..|frames|] == frames;
  }

  lemma AppendedTask<T>(tasks: seq<Task<T>>, task: Task<T>, i: nat)
    ensures Spawned(tasks + [task], i) == Spawned(tasks, i) + if task.conn == i then [task.id] else []
    ensures Held(tasks + [task], i) == Held(tasks, i) + if task.conn == i && task.permit then 1 else 0
  {
    assert (tasks + [task])[..|tasks|] == tasks;
  }

  /** Changing a task's progress changes neither who spawned it nor the slots others hold. */
  lemma {:induction false} UpdatedTask<T>(tasks: seq<Task<T>>, t: nat, task: Task<T>, i: nat)
    requires t < |tasks| && task.conn == tasks[t].conn && task.id == tasks[t].id
    ensures Spawned(tasks[t := task], i) == Spawned(tasks, i)
    ensures Held(tasks[t := task], i) + (if task.conn == i && tasks[t].permit then 1 else 0)
         == Held(tasks, i) + (if task.conn == i && task.permit then 1 else 0)
  {
    var n := |tasks| - 1;
    if t < n {
      UpdatedTask(tasks[..n], t, task, i);
      assert tasks[t := task][..n] == tasks[..n][t := task];
    } else {
      assert tasks[t := task][..n] == tasks[..n];
    }
  }

  lemma {:induction false} NoTextsFrom<T>(ms: seq<Message<T>>, t: nat)
    requires forall j :: 0 <= j < |ms| && ms[j].Text? ==> ms[j].task != t
    ensures Texts(ms, t) == []
  {
    if ms != [] {
      NoTextsFrom(ms[..|ms| - 1], t);
    }
  }

  // ----- every step keeps the invariant -----

  /** A step that changes one connection, and puts at most a pong into its queue. */
  lemma ReplacedConn<T>(permitted: Permitted<T>, s: Client<T>, i: nat, c: Conn<T>, pong: Option<string>)
    requires Inv(permitted, s) && i < |s.conns|
    requires c.accepted == if pong.None? then s.conns[i].accepted else s.conns[i].accepted + [Pong(pong.value)]
    requires ConnOk(c, s.tasks, i)
    ensures Inv(permitted, s.(conns := s.conns[i := c]))
  {
    var s' := s.(conns := s.conns[i := c]);
    forall t | 0 <= t < |s'.tasks|
      ensures TaskOk(permitted, s'.conns, s'.tasks[t], t)
    {
      ReplacedForTask(permitted, s, i, c, pong, t);
    }
  }

  lemma ReplacedForTask<T>(permitted: Permitted<T>, s: Client<T>, i: nat, c: Conn<T>, pong: Option<string>, t: nat)
    requires Inv(permitted, s) && i < |s.conns| && t < |s.tasks|
    requires c.accepted == if pong.None? then s.conns[i].accepted else s.conns[i].accepted + [Pong(pong.value)]
    requires ConnOk(c, s.tasks, i)
    ensures TaskOk(permitted, s.conns[i := c], s.tasks[t], t)
  {
    assert TaskOk(permitted, s.conns, s.tasks[t], t);
    if pong.Some? {
      AppendedMessage(s.conns[i].accepted, Pong(pong.value), t);
    }
  }

  lemma TakeOk<T>(c: Conn<T>, held: nat)
    requires QueueOk(c, held) && c.writer.Idle? && c.queue != []
    ensures QueueOk(TakeHead(c), held)
  {
    assert [] + c.queue == [c.queue[0]] + c.queue[1..];
  }

  lemma WrittenOk<T>(c: Conn<T>, held: nat)
    requires QueueOk(c, held) && c.writer.Writing?
    ensures QueueOk(FinishWrite(c), held)
  {
    var m := c.writer.message;
    assert c.accepted == (c.socket + [m]) + ([] + c.queue);
  }

  lemma TakeKeepsInv<T>(permitted: Permitted<T>, s: Client<T>, i: nat)
    requires Inv(permitted, s) && Enabled(permitted, s, Take(i))
    ensures Inv(permitted, Apply(permitted, s, Take(i)))
  {
    var c := s.conns[i];
    assert ConnOk(c, s.tasks, i);
    TakeOk(c, Held(s.tasks, i));
    ReplacedConn(permitted, s, i, TakeHead(c), None);
  }

  lemma WrittenKeepsInv<T>(permitted: Permitted<T>, s: Client<T>, i: nat)
    requires Inv(permitted, s) && Enabled(permitted, s, Written(i))
    ensures Inv(permitted, Apply(permitted, s, Written(i)))
  {
    var c := s.conns[i];
    assert ConnOk(c, s.tasks, i);
    WrittenOk(c, Held(s.tasks, i));
    ReplacedConn(permitted, s, i, FinishWrite(c), None);
  }

  lemma StopKeepsInv<T>(permitted: Permitted<T>, s: Client<T>, i: nat, c: Conn<T>)
    requires Inv(permitted, s) && i < |s.conns|
    requires c == s.conns[i].(writer := Stopped) || c == s.conns[i].(reading := false)
    ensures Inv(permitted, s.(conns := s.conns[i := c]))
  {
    assert ConnOk(s.conns[i], s.tasks, i);
    ReplacedConn(permitted, s, i, c, None);
  }

  lemma ConnectKeepsInv<T>(permitted: Permitted<T>, s: Client<T>)
    requires Inv(permitted, s) && Enabled(permitted, s, Connect)
    ensures Inv(permitted, Apply(permitted, s, Connect))
  {
    var s' := Apply(permitted, s, Connect);
    var n := |s.conns|;
    forall t | 0 <= t < |s'.tasks|
      ensures TaskOk(permitted, s'.conns, s'.tasks[t], t)
    {
      assert TaskOk(permitted, s.conns, s.tasks[t], t);
      assert s'.conns[s.tasks[t].conn] == s.conns[s.tasks[t].conn];
    }
    NothingAt(s.tasks, n);
    forall i | 0 <= i < |s'.conns|
      ensures ConnOk(s'.conns[i], s'.tasks, i)
    {
      if i < n {
        assert s'.conns[i] == s.conns[i];
      }
    }
  }

  lemma {:induction false} NothingAt<T>(tasks: seq<Task<T>>, i: nat)
    requires forall t :: 0 <= t < |tasks| ==> tasks[t].conn < i
    ensures Held(tasks, i) == 0 && Spawned(tasks, i) == []
  {
    if tasks != [] {
      NothingAt(tasks[..|tasks| - 1], i);
    }
  }

  lemma ReadFrameOk<T>(c: Conn<T>, frame: Frame, held: nat)
    requires c.reading && QueueOk(c, held) && PingsOk(c)
    ensures QueueOk(ReadFrame(c, frame), held) && PingsOk(ReadFrame(c, frame))
  {
    AppendedFrame(c.received, frame);
    assert (c.received + [frame])[..|c.received|] == c.received;
    if frame.Ping? && c.permits > 0 && !c.writer.Stopped? {
      var m: Message<T> := Pong(frame.data);
      var c' := c.(received := c.received + [frame], permits := c.permits - 1);
      EnqueueOk(c', m, held);
      AppendedMessage(c.accepted, m, 0);
      assert ReadFrame(c, frame) == Enqueue(c', m);
    }
  }

  /** The pong a frame puts into the queue, if it is a ping and there is room. */
  function PongFor<T>(c: Conn<T>, frame: Frame): Option<string> {
    if frame.Ping? && c.permits > 0 && !c.writer.Stopped? then Some(frame.data) else None
  }

  lemma ReadConnOk<T>(c: Conn<T>, frame: Frame, tasks: seq<Task<T>>, i: nat)
    requires c.reading && ConnOk(c, tasks, i) && !frame.Request?
    ensures ConnOk(ReadFrame(c, frame), tasks, i)
    ensures ReadFrame(c, frame).accepted
         == if PongFor(c, frame).None? then c.accepted else c.accepted + [Pong(PongFor(c, frame).value)]
  {
    ReadFrameOk(c, frame, Held(tasks, i));
    AppendedFrame(c.received, frame);
    OriginsPong(c.accepted, tasks, i, frame);
  }

  lemma OriginsPong<T>(ms: seq<Message<T>>, tasks: seq<Task<T>>, i: nat, frame: Frame)
    requires OriginsOk(ms, tasks, i)
    ensures frame.Ping? ==> OriginsOk(ms + [Pong(frame.data)], tasks, i)
  {
  }

  lemma ReadKeepsInv<T>(permitted: Permitted<T>, s: Client<T>, i: nat, frame: Frame)
    requires Inv(permitted, s) && Enabled(permitted, s, Read(i, frame)) && !frame.Request?
    ensures Inv(permitted, Apply(permitted, s, Read(i, frame)))
  {
    var c := s.conns[i];
    assert ConnOk(c, s.tasks, i);
    ReadConnOk(c, frame, s.tasks, i);
    ReplacedConn(permitted, s, i, ReadFrame(c, frame), PongFor(c, frame));
  }

  lemma RequestKeepsInv<T>(permitted: Permitted<T>, s: Client<T>, i: nat, frame: Frame)
    requires Inv(permitted, s) && Enabled(permitted, s, Read(i, frame)) && frame.Request?
    ensures Inv(permitted, Apply(permitted, s, Read(i, frame)))
  {
    var c := s.conns[i];
    var s' := Apply(permitted, s, Read(i, frame));
    var n := |s.tasks|;
    var task: Task<T> := Task(i, frame.id, None, 0, false, true);
    AppendedFrame(c.received, frame);
    forall j | 0 <= j < |s'.conns|
      ensures ConnOk(s'.conns[j], s'.tasks, j)
    {
      assert ConnOk(s.conns[j], s.tasks, j);
      AppendedTask(s.tasks, task, j);
      OriginsGrow(s.conns[j].accepted, s.tasks, task, j);
    }
    forall t | 0 <= t < |s'.tasks|
      ensures TaskOk(permitted, s'.conns, s'.tasks[t], t)
    {
      if t < n {
        assert TaskOk(permitted, s.conns, s.tasks[t], t);
      } else {
        assert ConnOk(c, s.tasks, i);
        NoTextsFrom(c.accepted, n);
      }
    }
  }

  lemma OriginsGrow<T>(ms: seq<Message<T>>, tasks: seq<Task<T>>, task: Task<T>, i: nat)
    requires OriginsOk(ms, tasks, i)
    ensures OriginsOk(ms, tasks + [task], i)
  {
  }

  /** Task `t` of connection `i` takes a step that may change the two of them. */
  lemma ReplacedTask<T>(permitted: Permitted<T>, s: Client<T>, t: nat, i: nat, c: Conn<T>, task: Task<T>,
                        extra: Option<T>)
    requires Inv(permitted, s) && t < |s.tasks| && i < |s.conns| && s.tasks[t].conn == i
    requires task.conn == i && task.id == s.tasks[t].id
    requires ConnOk(c, s.tasks[t := task], i)
    requires TaskOk(permitted, s.conns[i := c], task, t)
    requires c.accepted == if extra.None? then s.conns[i].accepted else s.conns[i].accepted + [Text(t, extra.value)]
    ensures Inv(permitted, Client(s.conns[i := c], s.tasks[t := task]))
  {
    var s' := Client(s.conns[i := c], s.tasks[t := task]);
    forall j | 0 <= j < |s'.conns|
      ensures ConnOk(s'.conns[j], s'.tasks, j)
    {
      if j != i {
        assert ConnOk(s.conns[j], s.tasks, j);
        UpdatedTask(s.tasks, t, task, j);
        OriginsUpdated(s.conns[j].accepted, s.tasks, t, task, j);
      }
    }
    forall u | 0 <= u < |s'.tasks|
      ensures TaskOk(permitted, s'.conns, s'.tasks[u], u)
    {
      if u != t {
        UntouchedTask(permitted, s, t, i, c, extra, u);
      }
    }
  }

  /** A message of task `t` makes no difference to another task. */
  lemma UntouchedTask<T>(permitted: Permitted<T>, s: Client<T>, t: nat, i: nat, c: Conn<T>, extra: Option<T>, u: nat)
    requires Inv(permitted, s) && u < |s.tasks| && u != t && i < |s.conns|
    requires c.accepted == if extra.None? then s.conns[i].accepted else s.conns[i].accepted + [Text(t, extra.value)]
    ensures TaskOk(permitted, s.conns[i := c], s.tasks[u], u)
  {
    assert TaskOk(permitted, s.conns, s.tasks[u], u);
    if extra.Some? {
      AppendedMessage(s.conns[i].accepted, Text(t, extra.value), u);
    }
  }

  lemma OriginsUpdated<T>(ms: seq<Message<T>>, tasks: seq<Task<T>>, t: nat, task: Task<T>, i: nat)
    requires t < |tasks| && task.conn == tasks[t].conn && OriginsOk(ms, tasks, i)
    ensures OriginsOk(ms, tasks[t := task], i)
  {
  }

  /** A step of task `t` that puts nothing into the queue, but may take or return a slot. */
  lemma TaskKeepsInv<T>(permitted: Permitted<T>, s: Client<T>, t: nat, c: Conn<T>, task: Task<T>)
    requires Inv(permitted, s) && t < |s.tasks| && s.tasks[t].conn < |s.conns|
    requires task.conn == s.tasks[t].conn && task.id == s.tasks[t].id
    requires c == s.conns[task.conn].(permits := c.permits)
    requires c.permits + (if task.permit then 1 else 0)
             == s.conns[task.conn].permits + (if s.tasks[t].permit then 1 else 0)
    requires task.output.Some? ==> permitted(task.id, task.output.value) && task.sent <= |task.output.value|
    requires task.output.None? ==> task.sent == 0
    requires task.permit ==> task.running && task.output.Some? && task.sent < |task.output.value|
    requires SentBy(task) == SentBy(s.tasks[t])
    ensures Inv(permitted, Client(s.conns[task.conn := c], s.tasks[t := task]))
  {
    var i := task.conn;
    assert TaskOk(permitted, s.conns, s.tasks[t], t) && ConnOk(s.conns[i], s.tasks, i);
    UpdatedTask(s.tasks, t, task, i);
    OriginsUpdated(c.accepted, s.tasks, t, task, i);
    ReplacedTask(permitted, s, t, i, c, task, None);
  }

  lemma PutKeepsInv<T>(permitted: Permitted<T>, s: Client<T>, t: nat)
    requires Inv(permitted, s) && Enabled(permitted, s, Put(t))
    ensures Inv(permitted, Apply(permitted, s, Put(t)))
  {
    var task := s.tasks[t];
    var c := s.conns[task.conn];
    assert TaskOk(permitted, s.conns, task, t) && ConnOk(c, s.tasks, task.conn);
    PutTaskOk(permitted, s.conns, t, task);
    PutConnOk(c, s.tasks, t, Advanced(task), NextText(t, task), task.conn);
    ReplacedTask(permitted, s, t, task.conn, Enqueue(c, NextText(t, task)), Advanced(task),
      Some(NextText(t, task).response));
  }

  lemma PutTaskOk<T>(permitted: Permitted<T>, conns: seq<Conn<T>>, t: nat, task: Task<T>)
    requires TaskOk(permitted, conns, task, t) && task.output.Some? && task.sent < |task.output.value|
    ensures TaskOk(permitted, conns[task.conn := Enqueue(conns[task.conn], NextText(t, task))], Advanced(task), t)
  {
    AppendedMessage(conns[task.conn].accepted, NextText(t, task), t);
    assert task.output.value[..task.sent + 1] == task.output.value[..task.sent] + [task.output.value[task.sent]];
  }

  lemma PutConnOk<T>(c: Conn<T>, tasks: seq<Task<T>>, t: nat, task: Task<T>, m: Message<T>, i: nat)
    requires ConnOk(c, tasks, i) && t < |tasks| && tasks[t].conn == i && tasks[t].permit
    requires task.conn == i && task.id == tasks[t].id && !task.permit
    requires m.Text? && m.task == t
    ensures ConnOk(Enqueue(c, m), tasks[t := task], i)
  {
    UpdatedTask(tasks, t, task, i);
    OriginsUpdated(c.accepted, tasks, t, task, i);
    EnqueueOk(c, m, Held(tasks[t := task], i));
  }

  /** A reserved slot becomes a used one. */
  lemma EnqueueOk<T>(c: Conn<T>, m: Message<T>, held: nat)
    requires QueueOk(c, held + 1)
    ensures QueueOk(Enqueue(c, m), held)
    ensures m.Text? && PingsOk(c) ==> PingsOk(Enqueue(c, m))
  {
    AppendedMessage(c.accepted, m, 0);
    assert c.socket + (InFlight(c.writer) + c.queue) + [m] == c.socket + (InFlight(c.writer) + (c.queue + [m]));
  }

  lemma HandlerDoneKeepsInv<T>(permitted: Permitted<T>, s: Client<T>, t: nat, output: seq<T>)
    requires Inv(permitted, s) && Enabled(permitted, s, HandlerDone(t, output))
    ensures Inv(permitted, Apply(permitted, s, HandlerDone(t, output)))
  {
    assert TaskOk(permitted, s.conns, s.tasks[t], t);
    var i := s.tasks[t].conn;
    assert s.conns[i := s.conns[i]] == s.conns;
    TaskKeepsInv(permitted, s, t, s.conns[i], s.tasks[t].(output := Some(output)));
  }

  lemma ReserveKeepsInv<T>(permitted: Permitted<T>, s: Client<T>, t: nat)
    requires Inv(permitted, s) && Enabled(permitted, s, Reserve(t))
    ensures Inv(permitted, Apply(permitted, s, Reserve(t)))
  {
    assert TaskOk(permitted, s.conns, s.tasks[t], t);
    var c := s.conns[s.tasks[t].conn];
    TaskKeepsInv(permitted, s, t, c.(permits := c.permits - 1), s.tasks[t].(permit := true));
  }

  lemma EndTaskKeepsInv<T>(permitted: Permitted<T>, s: Client<T>, t: nat)
    requires Inv(permitted, s) && Enabled(permitted, s, EndTask(t))
    ensures Inv(permitted, Apply(permitted, s, EndTask(t)))
  {
    assert TaskOk(permitted, s.conns, s.tasks[t], t);
    var i := s.tasks[t].conn;
    var c := s.conns[i];
    assert s.conns[i := c] == s.conns;
    var c' := if s.tasks[t].permit then c.(permits := c.permits + 1) else c;
    TaskKeepsInv(permitted, s, t, c', s.tasks[t].(running := false, permit := false));
  }

  lemma StepKeepsInv<T>(permitted: Permitted<T>, s: Client<T>, step: Step<T>)
    requires Inv(permitted, s) && Enabled(permitted, s, step)
    ensures Inv(permitted, Apply(permitted, s, step))
  {
    match step
    case Connect => ConnectKeepsInv(permitted, s);
    case Read(i, frame) =>
      if frame.Request? { RequestKeepsInv(permitted, s, i, frame); } else { ReadKeepsInv(permitted, s, i, frame); }
    case HandlerDone(t, output) => HandlerDoneKeepsInv(permitted, s, t, output);
    case Reserve(t) => ReserveKeepsInv(permitted, s, t);
    case EndTask(t) => EndTaskKeepsInv(permitted, s, t);
    case Put(t) => PutKeepsInv(permitted, s, t);
    case Take(i) => TakeKeepsInv(permitted, s, i);
    case Written(i) => WrittenKeepsInv(permitted, s, i);
    case StopReading(i) => StopKeepsInv(permitted, s, i, s.conns[i].(reading := false));
    case WriteFailed(i) => StopKeepsInv(permitted, s, i, s.conns[i].(writer := Stopped));
    case StopWriter(i) => StopKeepsInv(permitted, s, i, s.conns[i].(writer := Stopped));
  }

  lemma {:induction false} RunKeepsInv<T>(permitted: Permitted<T>, s: Client<T>, steps: seq<Step<T>>)
    requires Inv(permitted, s) && IsRun(permitted, s, steps)
    ensures Inv(permitted, After(permitted, s, steps))
    decreases |steps|
  {
    if steps != [] {
      StepKeepsInv(permitted, s, steps[0]);
      RunKeepsInv(permitted, Apply(permitted, s, steps[0]), steps[1..]);
    }
  }

  // ----- what holds in every reachable state -----

  ghost predicate Reachable<T>(permitted: Permitted<T>, s: Client<T>, steps: seq<Step<T>>) {
    IsRun(permitted, Initial(), steps) && After(permitted, Initial(), steps) == s
  }

  lemma ReachableInv<T>(permitted: Permitted<T>, s: Client<T>, steps: seq<Step<T>>)
    requires Reachable(permitted, s, steps)
    ensures Inv(permitted, s)
  {
    assert Inv(permitted, Initial<T>());
    RunKeepsInv(permitted, Initial(), steps);
  }

  lemma {:induction false} TextsOfPrefix<T>(a: seq<Message<T>>, b: seq<Message<T>>, t: nat)
    requires a <= b
    ensures Texts(a, t) <= Texts(b, t)
    ensures Pongs(a) <= Pongs(b)
    decreases |b|
  {
    if |a| < |b| {
      var front := b[..|b| - 1];
      TextsOfPrefix(a, front, t);
      assert b == front + [b[|b| - 1]];
    } else {
      assert a == b;
    }
  }

  /**
   In every interleaving: what a request's task has put on its connection's socket is an in-order
   prefix of one permitted handler output for that request, and no other socket carries any of it.
   */
  lemma ResponsesInOrder<T>(permitted: Permitted<T>, s: Client<T>, steps: seq<Step<T>>, t: nat, i: nat)
    requires Reachable(permitted, s, steps) && t < |s.tasks| && i < |s.conns|
    ensures s.tasks[t].conn != i ==> Texts(s.conns[i].socket, t) == []
    ensures s.tasks[t].conn == i && s.tasks[t].output.None? ==> Texts(s.conns[i].socket, t) == []
    ensures s.tasks[t].conn == i && s.tasks[t].output.Some? ==>
              && permitted(s.tasks[t].id, s.tasks[t].output.value)
              && Texts(s.conns[i].socket, t) <= s.tasks[t].output.value
  {
    ReachableInv(permitted, s, steps);
    var c := s.conns[i];
    assert ConnOk(c, s.tasks, i) && TaskOk(permitted, s.conns, s.tasks[t], t);
    TextsOfPrefix(c.socket, c.accepted, t);
    if s.tasks[t].conn != i {
      NoTextsFrom(c.accepted, t);
    }
  }

  /** Each connection spawned exactly one task per request it read, in the order it read them. */
  lemma OneTaskPerRequest<T>(permitted: Permitted<T>, s: Client<T>, steps: seq<Step<T>>, i: nat)
    requires Reachable(permitted, s, steps) && i < |s.conns|
    ensures Spawned(s.tasks, i) == Requests(s.conns[i].received)
  {
    ReachableInv(permitted, s, steps);
    assert ConnOk(s.conns[i], s.tasks, i);
  }

  /**
   The queue never exceeds its capacity, counting the slots reserved for senders, and while the writer
   lives nothing is lost.
   */
  lemma QueueBounded<T>(permitted: Permitted<T>, s: Client<T>, steps: seq<Step<T>>, i: nat)
    requires Reachable(permitted, s, steps) && i < |s.conns|
    ensures |s.conns[i].queue| + Held(s.tasks, i) <= 64
    ensures !s.conns[i].writer.Stopped? ==>
              s.conns[i].accepted == s.conns[i].socket + (InFlight(s.conns[i].writer) + s.conns[i].queue)
  {
    ReachableInv(permitted, s, steps);
    assert ConnOk(s.conns[i], s.tasks, i);
  }

  /**
   Every ping was enqueued as a pong with its payload, or it was the last frame the reader read; so the
   pongs on the socket are an in-order prefix of the pings.
   */
  lemma PongsAnswerPings<T>(permitted: Permitted<T>, s: Client<T>, steps: seq<Step<T>>, i: nat)
    requires Reachable(permitted, s, steps) && i < |s.conns|
    ensures var c := s.conns[i];
            && Pongs(c.socket) <= Pings(c.received)
            && (c.reading ==> Pongs(c.accepted) == Pings(c.received))
            && (Pongs(c.accepted) != Pings(c.received) ==>
                  && c.received != [] && c.received[|c.received| - 1].Ping?
                  && Pongs(c.accepted) == Pings(c.received[..|c.received| - 1]))
  {
    ReachableInv(permitted, s, steps);
    assert ConnOk(s.conns[i], s.tasks, i);
    PongsOfConn(s.conns[i], Held(s.tasks, i));
  }

  lemma PongsOfConn<T>(c: Conn<T>, held: nat)
    requires QueueOk(c, held) && PingsOk(c)
    ensures Pongs(c.socket) <= Pings(c.received)
  {
    TextsOfPrefix(c.socket, c.accepted, 0);
    if c.received != [] {
      var n := |c.received| - 1;
      assert c.received == c.received[..n] + [c.received[n]];
      AppendedFrame(c.received[..n], c.received[n]);
    }
  }

  // ----- reading while nothing else moves -----

  /** The steps in which connection `i` reads these frames and nobody else does anything. */
  function Reads<T>(i: nat, frames: seq<Frame>): seq<Step<T>> {
    seq(|frames|, j requires 0 <= j < |frames| => Read(i, frames[j]))
  }

  /** Frames that leave the session open: requests, frames to ignore, and no more pings than there are free slots. */
  ghost predicate Readable<T>(c: Conn<T>, frames: seq<Frame>) {
    && (forall j :: 0 <= j < |frames| ==> frames[j].Request? || frames[j].Ignored? || frames[j].Ping?)
    && |Pings(frames)| <= c.permits
    && (c.writer.Stopped? ==> Pings(frames) == [])
  }

  lemma {:induction false} PingsFront(frames: seq<Frame>)
    requires frames != []
    ensures Pings(frames) == (if frames[0].Ping? then [frames[0].data] else []) + Pings(frames[1..])
  {
    var n := |frames| - 1;
    if n > 0 {
      PingsFront(frames[..n]);
      assert frames[..n][1..] == frames[1..][..n - 1];
    }
  }

  /**
   What reading these frames makes of a connection: all received, every ping answered into the queue, still
   reading.
   */
  ghost predicate HasRead<T>(before: Conn<T>, after: Conn<T>, frames: seq<Frame>) {
    && after.reading && after.received == before.received + frames
    && Pongs(after.accepted) == Pongs(before.accepted) + Pings(frames)
  }

  lemma ReadOne<T>(c: Conn<T>, frames: seq<Frame>)
    requires c.reading && frames != [] && Readable(c, frames)
    ensures HasRead(c, ReadFrame(c, frames[0]), [frames[0]])
    ensures Readable(ReadFrame(c, frames[0]), frames[1..])
  {
    PingsFront(frames);
    AppendedFrame([], frames[0]);
    assert [] + [frames[0]] == [frames[0]];
    if frames[0].Ping? {
      AppendedMessage(c.accepted, Pong(frames[0].data), 0);
    }
  }

  lemma ReadMore<T>(a: Conn<T>, b: Conn<T>, c: Conn<T>, frames: seq<Frame>)
    requires frames != [] && HasRead(a, b, [frames[0]]) && HasRead(b, c, frames[1..])
    ensures HasRead(a, c, frames)
  {
    PingsFront(frames);
    PingsFront([frames[0]]);
    assert frames == [frames[0]] + frames[1..];
    assert a.received + frames == (a.received + [frames[0]]) + frames[1..];
  }

  /**
   Reading never waits for the queue.  With every task and the writer stalled, whatever the queue holds, any
   list of requests, ignored frames and as many pings as there are free slots can be read to its
   end: all of it is received and every ping has its pong in the queue.
   */
  lemma {:induction false} ReaderNeverBlocked<T>(permitted: Permitted<T>, s: Client<T>, i: nat, frames: seq<Frame>)
    requires i < |s.conns| && s.conns[i].reading && Readable(s.conns[i], frames)
    ensures IsRun(permitted, s, Reads(i, frames))
    ensures var now := After(permitted, s, Reads(i, frames));
            i < |now.conns| && HasRead(s.conns[i], now.conns[i], frames)
    decreases |frames|
  {
    if frames == [] {
      var none: seq<Step<T>> := Reads(i, frames);
      assert none == [];
    } else {
      var c, c' := s.conns[i], ReadFrame(s.conns[i], frames[0]);
      ReadOne(c, frames);
      var next := Apply(permitted, s, Read(i, frames[0]));
      assert next.conns[i] == c';
      ReaderNeverBlocked(permitted, next, i, frames[1..]);
      ReadsFront(permitted, s, i, frames);
      ReadMore(c, c', After(permitted, next, Reads(i, frames[1..])).conns[i], frames);
    }
  }

  /** The first frame, and then the others. */
  lemma ReadsFront<T>(permitted: Permitted<T>, s: Client<T>, i: nat, frames: seq<Frame>)
    requires frames != [] && Enabled(permitted, s, Read(i, frames[0]))
    requires IsRun(permitted, Apply(permitted, s, Read(i, frames[0])), Reads(i, frames[1..]))
    ensures IsRun(permitted, s, Reads(i, frames))
    ensures After(permitted, s, Reads(i, frames))
         == After(permitted, Apply(permitted, s, Read(i, frames[0])), Reads(i, frames[1..]))
  {
    var steps: seq<Step<T>> := Reads(i, frames);
    assert steps[0] == Read(i, frames[0]) && steps[1..] == Reads(i, frames[1..]);
  }

  // ----- how reading and writing end -----

  /**
   What the reader does with each frame: a close or a read error ends the reading, a request starts one task for
   its id on this connection, and none of these touches the queue; a ping is answered into the queue if there
   is a free slot and a writer, and ends the reading otherwise; anything else is passed over.
   */
  lemma FrameEffects<T>(permitted: Permitted<T>, s: Client<T>, i: nat, frame: Frame)
    requires i < |s.conns| && s.conns[i].reading
    ensures var c, now := s.conns[i], Apply(permitted, s, Read(i, frame));
            var c' := now.conns[i];
            && c'.received == c.received + [frame] && c'.writer == c.writer && c'.socket == c.socket
            && (frame.Close? || frame.ReadError? ==> !c'.reading)
            && (frame.Request? || frame.Ignored? ==> c'.reading)
            && (!frame.Ping? ==> c'.queue == c.queue && c'.accepted == c.accepted)
            && (frame.Request? ==> now.tasks == s.tasks + [Task(i, frame.id, None, 0, false, true)])
            && (!frame.Request? ==> now.tasks == s.tasks)
            && (frame.Ping? && c.permits > 0 && !c.writer.Stopped? ==>
                  c'.reading && c'.queue == c.queue + [Pong(frame.data)])
            && (frame.Ping? && (c.permits == 0 || c.writer.Stopped?) ==> !c'.reading && c'.queue == c.queue)
  {
  }

  /** Once a connection no longer reads, it never reads again; once its writer has stopped, nothing more is written. */
  lemma {:induction false} EndsForGood<T>(permitted: Permitted<T>, s: Client<T>, steps: seq<Step<T>>, i: nat)
    requires IsRun(permitted, s, steps) && i < |s.conns|
    ensures var now := After(permitted, s, steps);
            && i < |now.conns|
            && (!s.conns[i].reading ==> !now.conns[i].reading && now.conns[i].received == s.conns[i].received)
            && (s.conns[i].writer.Stopped? ==> now.conns[i].writer.Stopped? && now.conns[i].socket == s.conns[i].socket)
    decreases |steps|
  {
    if steps != [] {
      StepEndsForGood(permitted, s, steps[0], i);
      EndsForGood(permitted, Apply(permitted, s, steps[0]), steps[1..], i);
    }
  }

  lemma StepEndsForGood<T>(permitted: Permitted<T>, s: Client<T>, step: Step<T>, i: nat)
    requires Enabled(permitted, s, step) && i < |s.conns|
    ensures var now := Apply(permitted, s, step);
            && i < |now.conns|
            && (!s.conns[i].reading ==> !now.conns[i].reading && now.conns[i].received == s.conns[i].received)
            && (s.conns[i].writer.Stopped? ==> now.conns[i].writer.Stopped? && now.conns[i].socket == s.conns[i].socket)
  {
  }

  /** At most one connection reads: the client connects again only when the last session is over. */
  ghost predicate OneReader<T>(s: Client<T>) {
    forall i, j :: 0 <= i < |s.conns| && 0 <= j < |s.conns| && s.conns[i].reading && s.conns[j].reading ==> i == j
  }

  lemma StepKeepsOneReader<T>(permitted: Permitted<T>, s: Client<T>, step: Step<T>)
    requires OneReader(s) && Enabled(permitted, s, step)
    ensures OneReader(Apply(permitted, s, step))
  {
    var now := Apply(permitted, s, step);
    forall i | 0 <= i < |s.conns| && now.conns[i].reading
      ensures s.conns[i].reading
    {
      StepEndsForGood(permitted, s, step, i);
    }
  }

  lemma {:induction false} RunKeepsOneReader<T>(permitted: Permitted<T>, s: Client<T>, steps: seq<Step<T>>)
    requires OneReader(s) && IsRun(permitted, s, steps)
    ensures OneReader(After(permitted, s, steps))
    decreases |steps|
  {
    if steps != [] {
      StepKeepsOneReader(permitted, s, steps[0]);
      RunKeepsOneReader(permitted, Apply(permitted, s, steps[0]), steps[1..]);
    }
  }

  lemma OneSessionAtATime<T>(permitted: Permitted<T>, s: Client<T>, steps: seq<Step<T>>)
    requires Reachable(permitted, s, steps)
    ensures OneReader(s)
  {
    RunKeepsOneReader(permitted, Initial(), steps);
  }
}
