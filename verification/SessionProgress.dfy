/**
 Responses can always move: while a connection's writer lives, no state of the session is a dead end for a
 running task, not even when other tasks hold every slot of the queue.
 */
module SessionProgress {
  import opened Options
  import opened Session

  /** From `s` these steps form a run that ends in `final`. */
  ghost predicate Leads<T>(permitted: Permitted<T>, s: Client<T>, steps: seq<Step<T>>, final: Client<T>) {
    IsRun(permitted, s, steps) && After(permitted, s, steps) == final
  }

  lemma {:induction false} Concat<T>(permitted: Permitted<T>, s: Client<T>, a: seq<Step<T>>, mid: Client<T>,
                                     b: seq<Step<T>>, final: Client<T>)
    requires Leads(permitted, s, a, mid) && Leads(permitted, mid, b, final)
    ensures Leads(permitted, s, a + b, final)
    decreases |a|
  {
    if a == [] {
      assert a + b == b;
    } else {
      Concat(permitted, Apply(permitted, s, a[0]), a[1..], mid, b, final);
      assert (a + b)[0] == a[0] && (a + b)[1..] == a[1..] + b;
    }
  }

  /** One step, and what it keeps. */
  lemma OneStep<T>(permitted: Permitted<T>, s: Client<T>, step: Step<T>)
    requires Inv(permitted, s) && Enabled(permitted, s, step)
    ensures Leads(permitted, s, [step], Apply(permitted, s, step)) && Inv(permitted, Apply(permitted, s, step))
  {
    StepKeepsInv(permitted, s, step);
    assert [step][1..] == [];
    assert IsRun(permitted, Apply(permitted, s, step), []);
  }

  /** Connection `i` has nothing queued or in flight, and its writer is ready. */
  predicate Drained<T>(s: Client<T>, i: nat) {
    i < |s.conns| && s.conns[i].queue == [] && s.conns[i].writer.Idle?
  }

  /** The writer alone empties the queue onto the socket. */
  lemma Drain<T>(permitted: Permitted<T>, s: Client<T>, i: nat) returns (steps: seq<Step<T>>, final: Client<T>)
    requires Inv(permitted, s) && i < |s.conns| && !s.conns[i].writer.Stopped?
    ensures Leads(permitted, s, steps, final) && Inv(permitted, final)
    ensures Drained(final, i) && final.tasks == s.tasks
    decreases 2 * |s.conns[i].queue| + if s.conns[i].writer.Writing? then 1 else 0
  {
    var c := s.conns[i];
    if c.writer.Idle? && c.queue == [] {
      steps, final := [], s;
    } else {
      var step := if c.writer.Writing? then Written(i) else Take(i);
      OneStep(permitted, s, step);
      var mid := Apply(permitted, s, step);
      var rest;
      rest, final := Drain(permitted, mid, i);
      Concat(permitted, s, [step], mid, rest, final);
      steps := [step] + rest;
    }
  }

  /** If slots are held, some task of that connection holds one. */
  lemma {:induction false} HolderExists<T>(tasks: seq<Task<T>>, i: nat) returns (u: nat)
    requires Held(tasks, i) > 0
    ensures u < |tasks| && tasks[u].conn == i && tasks[u].permit
  {
    var n := |tasks| - 1;
    if tasks[n].conn == i && tasks[n].permit {
      u := n;
    } else {
      u := HolderExists(tasks[..n], i);
    }
  }

  /** A task that holds a slot uses it, and the writer gives it back. */
  lemma PutAndDrain<T>(permitted: Permitted<T>, s: Client<T>, u: nat) returns (steps: seq<Step<T>>, final: Client<T>)
    requires Inv(permitted, s) && u < |s.tasks| && s.tasks[u].permit && Drained(s, s.tasks[u].conn)
    ensures Leads(permitted, s, steps, final) && Inv(permitted, final) && Drained(final, s.tasks[u].conn)
    ensures final.tasks == s.tasks[u := Advanced(s.tasks[u])]
  {
    assert TaskOk(permitted, s.conns, s.tasks[u], u);
    OneStep(permitted, s, Put(u));
    var mid := Apply(permitted, s, Put(u));
    var rest;
    rest, final := Drain(permitted, mid, s.tasks[u].conn);
    Concat(permitted, s, [Put(u)], mid, rest, final);
    steps := [Put(u)] + rest;
  }

  /** A task of a drained connection can always get a slot: there is one, or another task gives one up by using it. */
  lemma GetSlot<T>(permitted: Permitted<T>, s: Client<T>, t: nat) returns (steps: seq<Step<T>>, final: Client<T>)
    requires Inv(permitted, s) && t < |s.tasks| && !s.tasks[t].permit && Drained(s, s.tasks[t].conn)
    ensures Leads(permitted, s, steps, final) && Inv(permitted, final) && Drained(final, s.tasks[t].conn)
    ensures |final.tasks| == |s.tasks| && final.tasks[t] == s.tasks[t] && final.conns[s.tasks[t].conn].permits > 0
  {
    var i := s.tasks[t].conn;
    assert ConnOk(s.conns[i], s.tasks, i);
    if s.conns[i].permits > 0 {
      steps, final := [], s;
    } else {
      var u := HolderExists(s.tasks, i);
      steps, final := PutAndDrain(permitted, s, u);
      UpdatedTask(s.tasks, u, Advanced(s.tasks[u]), i);
      assert ConnOk(final.conns[i], final.tasks, i);
    }
  }

  /** So the task's next response can be put and written. */
  lemma SendOne<T>(permitted: Permitted<T>, s: Client<T>, t: nat) returns (steps: seq<Step<T>>, final: Client<T>)
    requires Inv(permitted, s) && t < |s.tasks| && s.tasks[t].running && Drained(s, s.tasks[t].conn)
    requires s.tasks[t].output.Some? && s.tasks[t].sent < |s.tasks[t].output.value|
    ensures Leads(permitted, s, steps, final) && Inv(permitted, final) && Drained(final, s.tasks[t].conn)
    ensures |final.tasks| == |s.tasks| && final.tasks[t] == Advanced(s.tasks[t])
  {
    if s.tasks[t].permit {
      steps, final := PutAndDrain(permitted, s, t);
    } else {
      var mid;
      steps, mid := GetSlot(permitted, s, t);
      OneStep(permitted, mid, Reserve(t));
      var held := Apply(permitted, mid, Reserve(t));
      Concat(permitted, s, steps, mid, [Reserve(t)], held);
      steps := steps + [Reserve(t)];
      var rest;
      rest, final := PutAndDrain(permitted, held, t);
      Concat(permitted, s, steps, held, rest, final);
      steps := steps + rest;
    }
  }

  lemma {:induction false} SendAll<T>(permitted: Permitted<T>, s: Client<T>, t: nat)
    returns (steps: seq<Step<T>>, final: Client<T>)
    requires Inv(permitted, s) && t < |s.tasks| && s.tasks[t].running && Drained(s, s.tasks[t].conn)
    requires s.tasks[t].output.Some? && s.tasks[t].sent <= |s.tasks[t].output.value|
    ensures Leads(permitted, s, steps, final) && Inv(permitted, final) && Drained(final, s.tasks[t].conn)
    ensures |final.tasks| == |s.tasks| && final.tasks[t].conn == s.tasks[t].conn
    ensures final.tasks[t].output == s.tasks[t].output && final.tasks[t].sent == |s.tasks[t].output.value|
    decreases |s.tasks[t].output.value| - s.tasks[t].sent
  {
    if s.tasks[t].sent == |s.tasks[t].output.value| {
      steps, final := [], s;
    } else {
      var mid, rest;
      steps, mid := SendOne(permitted, s, t);
      rest, final := SendAll(permitted, mid, t);
      Concat(permitted, s, steps, mid, rest, final);
      steps := steps + rest;
    }
  }

  /**
   From every reachable state, for every running task whose handler has answered and whose connection's writer
   lives, some run puts the task's whole output on that connection's socket.
   */
  lemma ResponsesCanMove<T>(permitted: Permitted<T>, s: Client<T>, history: seq<Step<T>>, t: nat)
    returns (steps: seq<Step<T>>, final: Client<T>)
    requires Reachable(permitted, s, history) && t < |s.tasks| && s.tasks[t].conn < |s.conns|
    requires s.tasks[t].running && s.tasks[t].output.Some? && !s.conns[s.tasks[t].conn].writer.Stopped?
    ensures Leads(permitted, s, steps, final) && s.tasks[t].conn < |final.conns|
    ensures Texts(final.conns[s.tasks[t].conn].socket, t) == s.tasks[t].output.value
  {
    var i := s.tasks[t].conn;
    ReachableInv(permitted, s, history);
    assert TaskOk(permitted, s.conns, s.tasks[t], t);
    var mid, rest;
    steps, mid := Drain(permitted, s, i);
    rest, final := SendAll(permitted, mid, t);
    Concat(permitted, s, steps, mid, rest, final);
    steps := steps + rest;
    WrittenOut(permitted, final, t);
  }

  /** Once everything is put and the connection is drained, the socket carries the whole output. */
  lemma WrittenOut<T>(permitted: Permitted<T>, s: Client<T>, t: nat)
    requires Inv(permitted, s) && t < |s.tasks| && Drained(s, s.tasks[t].conn)
    requires s.tasks[t].output.Some? && s.tasks[t].sent == |s.tasks[t].output.value|
    ensures Texts(s.conns[s.tasks[t].conn].socket, t) == s.tasks[t].output.value
  {
    var task := s.tasks[t];
    var c := s.conns[task.conn];
    assert TaskOk(permitted, s.conns, task, t) && ConnOk(c, s.tasks, task.conn);
    assert c.socket + ([] + []) == c.socket;
    assert task.output.value[..task.sent] == task.output.value;
  }
}
