/**
 One connection on its event loop: another thread calls send() and shutDown(), which go through the
 loop's pending functors and its wakeup protocol; the loop thread runs them among other functors, and
 handles the connection's write events.  EventLoopModel says what the loop does and GracefulClose
 what the calls do; here the queue of GracefulClose is shown to be the connection's part of the
 loop's batch and pending functors, and the results of both are put together.

 The peer stays connected and no write fails.
 */
module ConnectionOnLoop {
  import opened ConnectionModel
  import opened Seqs
  import E = EventLoopModel
  import T = EventLoopTheorems
  import G = GracefulClose

  // The thread that calls send() and shutDown().
  const CALLER := 0

  // A functor in the loop: one of this connection's, or any other.
  datatype Functor = Mine(task: G.Task) | Others(id: nat)

  datatype Whole = Whole(loop: E.State<Functor>, conn: Conn, asking: bool, accepted: seq<Byte>)

  datatype Step =
    | LoopStep(l: E.Label<Functor>, w: WriteResult) // any step of the protocol; w answers a send it runs
    | WriteEvent(w: WriteResult)                    // a handler of the loop: the connection's handleWrite
    | CallSend(msg: Message)
    | CallShutDown                                  // shutDown() changes the state
    | PushShutDown                                  // and pushes

  predicate PushesMine(l: E.Label<Functor>) {
    (l.Push? || l.LoopPush?) && l.f.Mine?
  }

  predicate ByCaller(l: E.Label<Functor>) {
    (l.Push? || l.SetQuit? || l.Wake?) && l.tid == CALLER
  }

  // The functor a loop step calls is one of this connection's.
  predicate RunsMine(s: E.State<Functor>, l: E.Label<Functor>) {
    E.Enabled(s, l) && l.RunNext? && s.pc.rest[0].Mine?
  }

  predicate TaskSucceeds(c: Conn, task: G.Task, w: WriteResult) {
    task.SendTask? ==> G.SendSucceeds(c, task.msg, w)
  }

  predicate CanStep(x: Whole, t: Step) {
    match t
    case LoopStep(l, w) =>
      && E.Enabled(x.loop, l) && !PushesMine(l)
      && (x.asking ==> !ByCaller(l))
      && (RunsMine(x.loop, l) ==> TaskSucceeds(x.conn, x.loop.pc.rest[0].task, w))
    case WriteEvent(w) =>
      E.Enabled(x.loop, E.HandleOther) && Writing(x.conn) && LegalWrite(x.conn, |x.conn.out|, w) && w.Wrote? && w.n > 0
    case CallSend(_) => !E.Owes(x.loop, CALLER) && !x.asking
    case CallShutDown => !E.Owes(x.loop, CALLER) && !x.asking
    case PushShutDown => !E.Owes(x.loop, CALLER) && x.asking
  }

  function RunTask(c: Conn, task: G.Task, w: WriteResult): Conn
    requires TaskSucceeds(c, task, w)
  {
    match task
    case SendTask(msg) => SendInLoop(Intended, c, msg, w).c
    case ShutTask => ShutDownInLoop(c)
  }

  function TakeStep(x: Whole, t: Step): Whole
    requires CanStep(x, t)
  {
    match t
    case LoopStep(l, w) =>
      x.(loop := E.Next(x.loop, l),
         conn := if RunsMine(x.loop, l) then RunTask(x.conn, x.loop.pc.rest[0].task, w) else x.conn)
    case WriteEvent(w) => x.(loop := E.Next(x.loop, E.HandleOther), conn := HandleWrite(Intended, x.conn, w))
    case CallSend(msg) =>
      if !x.conn.state.Connected? then x
      else x.(loop := E.Next(x.loop, E.Push(CALLER, Mine(G.SendTask(msg)))), accepted := x.accepted + msg)
    case CallShutDown =>
      if !x.conn.state.Connected? then x
      else x.(conn := x.conn.(state := Disconnecting), asking := true)
    case PushShutDown => x.(loop := E.Next(x.loop, E.Push(CALLER, Mine(G.ShutTask))), asking := false)
  }

  predicate Runs(x: Whole, ts: seq<Step>)
    decreases |ts|
  {
    ts == [] || (CanStep(x, ts[0]) && Runs(TakeStep(x, ts[0]), ts[1..]))
  }

  function After(x: Whole, ts: seq<Step>): Whole
    requires Runs(x, ts)
    decreases |ts|
  {
    if ts == [] then x else After(TakeStep(x, ts[0]), ts[1..])
  }

  // ---------- the connection's part of the loop's queue ----------

  function TaskOf(f: Functor): seq<G.Task> {
    if f.Mine? then [f.task] else []
  }

  function Tasks(fs: seq<Functor>): seq<G.Task> {
    if fs == [] then [] else TaskOf(fs[0]) + Tasks(fs[1..])
  }

  lemma {:induction false} TasksSnoc(fs: seq<Functor>, f: Functor)
    ensures Tasks(fs + [f]) == Tasks(fs) + TaskOf(f)
  {
    if fs == [] {
      assert fs + [f] == [f] && [f][1..] == [];
    } else {
      assert (fs + [f])[1..] == fs[1..] + [f];
      TasksSnoc(fs[1..], f);
      Regroup(TaskOf(fs[0]), Tasks(fs[1..]), TaskOf(f));
    }
  }

  function Queue(s: E.State<Functor>): seq<Functor> {
    E.Batch(s) + s.pending
  }

  function View(x: Whole): G.Sys {
    G.Sys(x.conn, false, x.asking, Tasks(Queue(x.loop)), x.accepted)
  }

  // What a step of the loop and its threads is to the connection.
  function Seen(x: Whole, t: Step): seq<G.Label>
    requires CanStep(x, t)
  {
    match t
    case LoopStep(l, w) => if RunsMine(x.loop, l) then [G.RunTask(w)] else []
    case WriteEvent(w) => [G.Writable(w)]
    case CallSend(msg) => [G.CallSend(msg, WouldBlock)]
    case CallShutDown => [G.CallShutDown]
    case PushShutDown => [G.PushShutDown]
  }

  function AllSeen(x: Whole, ts: seq<Step>): seq<G.Label>
    requires Runs(x, ts)
    decreases |ts|
  {
    if ts == [] then [] else Seen(x, ts[0]) + AllSeen(TakeStep(x, ts[0]), ts[1..])
  }

  // The queue after a step of the protocol: a push is at its end, a call takes its first.
  lemma QueueStep(s: E.State<Functor>, l: E.Label<Functor>)
    requires E.Enabled(s, l) && (l.EndBatch? ==> s.pc.rest == [])
    ensures Queue(E.Next(s, l)) == if l.Push? || l.LoopPush? then Queue(s) + [l.f]
                                   else if l.RunNext? then Queue(s)[1..]
                                   else Queue(s)
    ensures l.RunNext? ==> Queue(s) != [] && Queue(s)[0] == s.pc.rest[0]
  {
    assert [] + s.pending == s.pending && s.pending + [] == s.pending;
    if l.Push? || l.LoopPush? {
      Regroup(E.Batch(s), s.pending, [l.f]);
    } else if l.RunNext? {
      assert (s.pc.rest + s.pending)[1..] == s.pc.rest[1..] + s.pending;
    }
  }

  lemma PushRefines(x: Whole, f: Functor, r: Whole)
    requires !E.Owes(x.loop, CALLER) && r.loop == E.Next(x.loop, E.Push(CALLER, f))
    ensures Tasks(Queue(r.loop)) == Tasks(Queue(x.loop)) + TaskOf(f)
  {
    QueueStep(x.loop, E.Push(CALLER, f));
    TasksSnoc(Queue(x.loop), f);
  }

  lemma CallTakesFirst(x: Whole, l: E.Label<Functor>, w: WriteResult)
    requires CanStep(x, LoopStep(l, w)) && l.RunNext?
    ensures var q := Queue(x.loop);
            q != [] && q[0] == x.loop.pc.rest[0] && Tasks(q) == TaskOf(q[0]) + Tasks(q[1..])
    ensures Tasks(Queue(TakeStep(x, LoopStep(l, w)).loop)) == Tasks(Queue(x.loop)[1..])
  {
    QueueStep(x.loop, l);
  }

  lemma LoopStepRefines(x: Whole, l: E.Label<Functor>, w: WriteResult)
    requires CanStep(x, LoopStep(l, w))
    ensures G.Runs(Intended, View(x), Seen(x, LoopStep(l, w)))
    ensures G.After(Intended, View(x), Seen(x, LoopStep(l, w))) == View(TakeStep(x, LoopStep(l, w)))
  {
    if l.RunNext? {
      CallRefines(x, l, w);
    } else {
      QueueStep(x.loop, l);
      if l.Push? || l.LoopPush? {
        TasksSnoc(Queue(x.loop), l.f);
      }
    }
  }

  lemma CallRefines(x: Whole, l: E.Label<Functor>, w: WriteResult)
    requires CanStep(x, LoopStep(l, w)) && l.RunNext?
    ensures G.Runs(Intended, View(x), Seen(x, LoopStep(l, w)))
    ensures G.After(Intended, View(x), Seen(x, LoopStep(l, w))) == View(TakeStep(x, LoopStep(l, w)))
  {
    CallTakesFirst(x, l, w);
    if RunsMine(x.loop, l) {
      assert View(x).queue[1..] == Tasks(Queue(x.loop)[1..]);
      OneLabel(View(x), G.RunTask(w), View(TakeStep(x, LoopStep(l, w))));
    }
  }

  // Every step is the connection's step of the same kind, or nothing to it.
  lemma StepRefines(x: Whole, t: Step)
    requires CanStep(x, t)
    ensures G.Runs(Intended, View(x), Seen(x, t))
    ensures G.After(Intended, View(x), Seen(x, t)) == View(TakeStep(x, t))
  {
    var s, r := View(x), TakeStep(x, t);
    match t
    case LoopStep(l, w) => LoopStepRefines(x, l, w);
    case WriteEvent(w) =>
      QueueStep(x.loop, E.HandleOther);
      OneLabel(s, G.Writable(w), View(r));
    case CallSend(msg) =>
      if x.conn.state.Connected? { PushRefines(x, Mine(G.SendTask(msg)), r); }
      OneLabel(s, G.CallSend(msg, WouldBlock), View(r));
    case CallShutDown => OneLabel(s, G.CallShutDown, View(r));
    case PushShutDown =>
      PushRefines(x, Mine(G.ShutTask), r);
      OneLabel(s, G.PushShutDown, View(r));
  }

  lemma OneLabel(s: G.Sys, l: G.Label, r: G.Sys)
    requires G.Enabled(Intended, s, l) && G.Next(Intended, s, l) == r
    ensures G.Runs(Intended, s, [l]) && G.After(Intended, s, [l]) == r
  {
    assert [l][1..] == [];
    assert G.Runs(Intended, r, []) && G.After(Intended, r, []) == r;
  }

  lemma {:induction false} LabelsAppend(s: G.Sys, a: seq<G.Label>, b: seq<G.Label>)
    requires G.Runs(Intended, s, a) && G.Runs(Intended, G.After(Intended, s, a), b)
    ensures G.Runs(Intended, s, a + b)
    ensures G.After(Intended, s, a + b) == G.After(Intended, G.After(Intended, s, a), b)
    decreases |a|
  {
    if a == [] {
      assert a + b == b;
    } else {
      assert (a + b)[1..] == a[1..] + b;
      LabelsAppend(G.Next(Intended, s, a[0]), a[1..], b);
    }
  }

  // Every run of the loop, its threads and the connection is a run of GracefulClose whose functor
  // queue is the connection's part of the loop's batch and pending functors.
  lemma {:induction false} RunRefines(x: Whole, ts: seq<Step>)
    requires Runs(x, ts)
    ensures G.Runs(Intended, View(x), AllSeen(x, ts))
    ensures G.After(Intended, View(x), AllSeen(x, ts)) == View(After(x, ts))
    decreases |ts|
  {
    if ts != [] {
      var m := TakeStep(x, ts[0]);
      StepRefines(x, ts[0]);
      RunRefines(m, ts[1..]);
      LabelsAppend(View(x), Seen(x, ts[0]), AllSeen(m, ts[1..]));
    }
  }

  // ---------- what has been sent is taken, unless a step closes early ----------

  // The messages the other thread sends before it calls shutDown().
  function Sent(ts: seq<Step>): seq<Byte> {
    if ts == [] || ts[0].CallShutDown? then []
    else (if ts[0].CallSend? then ts[0].msg else []) + Sent(ts[1..])
  }

  predicate ShutDownCalled(ts: seq<Step>) {
    ts != [] && (ts[0].CallShutDown? || ShutDownCalled(ts[1..]))
  }

  // The connection sees the same messages and the same shutDown().
  lemma {:induction false} SentIsSeen(x: Whole, ts: seq<Step>)
    requires Runs(x, ts)
    ensures G.Sent(AllSeen(x, ts)) == Sent(ts) && G.ShutDownCalled(AllSeen(x, ts)) == ShutDownCalled(ts)
    decreases |ts|
  {
    if ts != [] {
      var first, rest := Seen(x, ts[0]), AllSeen(TakeStep(x, ts[0]), ts[1..]);
      SentIsSeen(TakeStep(x, ts[0]), ts[1..]);
      if first == [] {
        assert first + rest == rest;
        assert [] + Sent(ts[1..]) == Sent(ts[1..]);
      } else {
        FirstSeen(first[0], rest);
        assert first + rest == [first[0]] + rest;
      }
    }
  }

  lemma FirstSeen(l: G.Label, rest: seq<G.Label>)
    ensures G.Sent([l] + rest) ==
            if l.CallShutDown? then [] else (if l.CallSend? then l.msg else []) + G.Sent(rest)
    ensures G.ShutDownCalled([l] + rest) <==> l.CallShutDown? || G.ShutDownCalled(rest)
  {
    assert ([l] + rest)[1..] == rest;
  }

  lemma SentIsAccepted(x: Whole, ts: seq<Step>)
    requires Established(x) && Runs(x, ts)
    ensures After(x, ts).accepted == Sent(ts)
    ensures After(x, ts).conn.state == if ShutDownCalled(ts) then Disconnecting else Connected
  {
    RunRefines(x, ts);
    SentIsSeen(x, ts);
    G.SentIsAccepted(Intended, View(x), AllSeen(x, ts));
    assert [] + Sent(ts) == Sent(ts);
  }

  ghost predicate Inv(x: Whole) {
    E.Inv(x.loop) && G.Inv(View(x))
  }

  // A connection just established, on a loop in any state.
  ghost predicate Established(x: Whole) {
    E.Inv(x.loop) && G.Fresh(View(x))
  }

  // handleWrite drains the buffer and closes the write side although sends that came before
  // shutDown() are still among the loop's functors.
  predicate ClosesEarly(x: Whole, t: Step) {
    && t.WriteEvent? && x.conn.state.Disconnecting? && t.w == Wrote(|x.conn.out|)
    && G.Payload(Tasks(Queue(x.loop))) != []
  }

  predicate NeverClosesEarly(x: Whole, ts: seq<Step>)
    requires Runs(x, ts)
    decreases |ts|
  {
    ts == [] || (!ClosesEarly(x, ts[0]) && NeverClosesEarly(TakeStep(x, ts[0]), ts[1..]))
  }

  lemma LoopKeepsInv(x: Whole, t: Step)
    requires E.Inv(x.loop) && CanStep(x, t)
    ensures E.Inv(TakeStep(x, t).loop)
  {
    match t
    case LoopStep(l, _) => E.StepKeepsInv(x.loop, l);
    case WriteEvent(_) => E.StepKeepsInv(x.loop, E.HandleOther);
    case CallSend(msg) =>
      if x.conn.state.Connected? { E.StepKeepsInv(x.loop, E.Push(CALLER, Mine(G.SendTask(msg)))); }
    case CallShutDown =>
    case PushShutDown => E.StepKeepsInv(x.loop, E.Push(CALLER, Mine(G.ShutTask)));
  }

  lemma StepFlushes(x: Whole, t: Step)
    requires Inv(x) && CanStep(x, t)
    ensures Inv(TakeStep(x, t))
    ensures G.Flushed(View(x)) ==> (G.Flushed(View(TakeStep(x, t))) <==> !ClosesEarly(x, t))
    ensures !G.Flushed(View(x)) ==> !G.Flushed(View(TakeStep(x, t)))
  {
    LoopKeepsInv(x, t);
    StepRefines(x, t);
    var labels := Seen(x, t);
    if labels != [] {
      G.StepKeepsInv(View(x), labels[0]);
      G.StepFlushes(View(x), labels[0]);
      assert G.After(Intended, View(x), labels) == G.Next(Intended, View(x), labels[0]);
    }
  }

  lemma {:induction false} FlushesIff(x: Whole, ts: seq<Step>)
    requires Inv(x) && Runs(x, ts)
    ensures Inv(After(x, ts))
    ensures G.Flushed(View(After(x, ts))) <==> G.Flushed(View(x)) && NeverClosesEarly(x, ts)
    decreases |ts|
  {
    if ts != [] {
      StepFlushes(x, ts[0]);
      FlushesIff(TakeStep(x, ts[0]), ts[1..]);
    }
  }

  lemma NothingQueued(s: E.State<Functor>)
    requires E.Inv(s) && s.executed == s.pushed
    ensures E.Batch(s) == [] && s.pending == [] && Queue(s) == []
  {
    assert |s.executed + E.Batch(s) + s.pending| == |s.pushed|;
  }

  // Over any run, whatever the threads, the loop's other functors and the socket do: a closed write
  // side means that every byte sent before shutDown() was taken, if and only if no step closed early;
  // and once shutDown() has returned and the loop has executed everything pushed, the write side is
  // closed exactly when nothing is left to write.
  lemma SentIsTaken(x: Whole, ts: seq<Step>)
    requires Established(x) && Runs(x, ts)
    ensures var r := After(x, ts);
            && ((r.conn.wrClosed ==> r.conn.wire == Sent(ts)) <==> NeverClosesEarly(x, ts))
            && (ShutDownCalled(ts) && !r.asking && r.loop.executed == r.loop.pushed ==>
                  (r.conn.wrClosed <==> r.conn.out == []) && r.conn.wire + r.conn.out == Sent(ts))
  {
    G.FreshInv(View(x));
    FlushesIff(x, ts);
    SentIsAccepted(x, ts);
    var r := After(x, ts);
    if ShutDownCalled(ts) && !r.asking && r.loop.executed == r.loop.pushed {
      NothingQueued(r.loop);
      G.HalfCloseHappens(View(r), []);
      assert G.After(Intended, View(r), []) == View(r);
    }
  }

  // ---------- and the loop thread gets there by itself ----------

  // A move of the loop thread that no callback has chosen.
  predicate Alone(t: Step) {
    (t.LoopStep? && T.Control(t.l)) || t.WriteEvent?
  }

  predicate AllAlone(ts: seq<Step>) {
    ts == [] || (Alone(ts[0]) && AllAlone(ts[1..]))
  }

  // How many of n bytes offered to it the socket takes.
  ghost predicate TakesSome(take: nat -> nat) {
    forall n :: n > 0 ==> 0 < take(n) <= n
  }

  function AnswerTo(task: G.Task, take: nat -> nat): WriteResult {
    if task.SendTask? && |task.msg| > 0 then Wrote(take(|task.msg|)) else Wrote(0)
  }

  // Once the write side is closed, none of the connection's functors is left.
  predicate ClosedLast(x: Whole) {
    x.conn.wrClosed ==> Tasks(Queue(x.loop)) == []
  }

  lemma WorkStep(x: Whole, l: E.Label<Functor>, take: nat -> nat) returns (t: Step)
    requires Inv(x) && G.Flushed(View(x)) && ClosedLast(x) && TakesSome(take)
    requires E.Enabled(x.loop, l) && T.Control(l)
    ensures CanStep(x, t) && Alone(t)
    ensures var r := TakeStep(x, t);
            && r.loop == E.Next(x.loop, l) && r.accepted == x.accepted && r.asking == x.asking
            && r.conn.state == x.conn.state
            && Inv(r) && G.Flushed(View(r)) && ClosedLast(r)
  {
    if RunsMine(x.loop, l) {
      t := TaskStep(x, l, take);
    } else {
      t := LoopStep(l, WouldBlock);
      QueueStep(x.loop, l);
      if l.RunNext? {
        CallTakesFirst(x, l, WouldBlock);
      }
    }
    StepFlushes(x, t);
  }

  // One of the connection's functors: while it is in the queue the write side is open.
  lemma TaskStep(x: Whole, l: E.Label<Functor>, take: nat -> nat) returns (t: Step)
    requires Inv(x) && ClosedLast(x) && TakesSome(take) && RunsMine(x.loop, l)
    ensures t.LoopStep? && t.l == l && CanStep(x, t)
    ensures TakeStep(x, t).conn.state == x.conn.state && ClosedLast(TakeStep(x, t))
  {
    var task := x.loop.pc.rest[0].task;
    t := LoopStep(l, AnswerTo(task, take));
    QueueStep(x.loop, l);
    assert Tasks(Queue(x.loop)) == [task] + Tasks(Queue(x.loop)[1..]);
    assert View(x).queue[0] == task;
    CallTakesFirst(x, l, t.w);
  }

  lemma {:induction false} WorkIsDone(x: Whole, ls: seq<E.Label<Functor>>, take: nat -> nat) returns (ts: seq<Step>)
    requires Inv(x) && G.Flushed(View(x)) && ClosedLast(x) && TakesSome(take)
    requires E.Runs(x.loop, ls) && T.AllControl(ls)
    ensures Runs(x, ts) && AllAlone(ts)
    ensures var r := After(x, ts);
            && r.loop == E.Exec(x.loop, ls) && r.accepted == x.accepted && r.asking == x.asking
            && r.conn.state == x.conn.state
            && Inv(r) && G.Flushed(View(r))
    decreases |ls|
  {
    if ls == [] {
      ts := [];
    } else {
      var t := WorkStep(x, ls[0], take);
      var rest := WorkIsDone(TakeStep(x, t), ls[1..], take);
      ts := [t] + rest;
      assert ts[1..] == rest;
    }
  }

  // How far the loop thread is from handling the next write event.
  function DrainPhase(s: E.State<Functor>): nat {
    match s.pc
    case Handling(woken, left) => if left > 0 then 0 else if woken then 8 else 7
    case Running(_) => if s.loopOwes then 6 else 5
    case NotStarted => 4
    case QuitCheck => 3
    case InPoll => 2
    case Exited => 0
  }

  // The loop serves, and has nothing to do but the connection's write events.
  ghost predicate OnlyDrains(x: Whole) {
    && Inv(x) && G.Flushed(View(x)) && x.conn.state.Disconnecting? && !x.asking
    && E.Batch(x.loop) == [] && x.loop.pending == [] && !x.loop.quit && !x.loop.pc.Exited?
  }

  lemma DrainStep(x: Whole, take: nat -> nat) returns (t: Step)
    requires OnlyDrains(x) && x.conn.out != [] && TakesSome(take)
    ensures CanStep(x, t) && Alone(t)
    ensures var r := TakeStep(x, t);
            && OnlyDrains(r) && r.accepted == x.accepted
            && (|r.conn.out| < |x.conn.out| || (r.conn.out == x.conn.out && DrainPhase(r.loop) < DrainPhase(x.loop)))
  {
    if x.loop.pc.Handling? && x.loop.pc.left > 0 {
      t := WriteEvent(Wrote(take(|x.conn.out|)));
      assert Queue(x.loop) == [];
    } else {
      var l := ToNextEvent(x.loop);
      t := LoopStep(l, WouldBlock);
    }
    StepFlushes(x, t);
  }

  lemma ToNextEvent(s: E.State<Functor>) returns (l: E.Label<Functor>)
    requires E.Inv(s) && E.Batch(s) == [] && s.pending == [] && !s.quit && !s.pc.Exited?
    requires !(s.pc.Handling? && s.pc.left > 0)
    ensures E.Enabled(s, l) && T.Control(l) && !l.RunNext?
    ensures var r := E.Next(s, l);
            && E.Batch(r) == [] && r.pending == [] && !r.quit && !r.pc.Exited?
            && DrainPhase(r) < DrainPhase(s)
  {
    match s.pc
    case NotStarted => l := E.Start;
    case QuitCheck => l := E.Check;
    case InPoll => l := E.PollReturn(false, 1);
    case Handling(woken, _) => l := if woken then E.HandleWakeup else E.Swap;
    case Running(_) => l := if s.loopOwes then E.LoopWake else E.EndBatch;
  }

  lemma {:induction false} BufferDrains(x: Whole, take: nat -> nat) returns (ts: seq<Step>)
    requires OnlyDrains(x) && TakesSome(take)
    ensures Runs(x, ts) && AllAlone(ts)
    ensures After(x, ts).conn.wrClosed && After(x, ts).conn.wire == x.accepted
    decreases |x.conn.out|, DrainPhase(x.loop)
  {
    if x.conn.out == [] {
      ts := [];
      assert Queue(x.loop) == [];
    } else {
      var t := DrainStep(x, take);
      var rest := BufferDrains(TakeStep(x, t), take);
      ts := [t] + rest;
      assert ts[1..] == rest;
    }
  }

  lemma {:induction false} RunsAppend(x: Whole, a: seq<Step>, b: seq<Step>)
    requires Runs(x, a) && Runs(After(x, a), b) && AllAlone(a) && AllAlone(b)
    ensures Runs(x, a + b) && After(x, a + b) == After(After(x, a), b) && AllAlone(a + b)
    decreases |a|
  {
    if a == [] {
      assert a + b == b;
    } else {
      assert (a + b)[1..] == a[1..] + b;
      RunsAppend(TakeStep(x, a[0]), a[1..], b);
    }
  }

  // After any run from an established connection in which shutDown() has returned and no step has
  // closed early: once the eventfd says that there is work, and unless the loop is asked to quit, the
  // loop thread by itself can have the socket take every byte that was sent, however little it takes
  // at a time, and close the write side after the last.
  lemma GracefulCloseCompletes(x: Whole, ts: seq<Step>, take: nat -> nat) returns (more: seq<Step>)
    requires Established(x) && Runs(x, ts) && NeverClosesEarly(x, ts) && TakesSome(take)
    requires var r := After(x, ts);
             ShutDownCalled(ts) && !r.asking && T.WorkIsSeen(r.loop) && !r.loop.quit && !r.loop.pc.Exited?
    ensures Runs(After(x, ts), more) && AllAlone(more)
    ensures var z := After(After(x, ts), more); z.conn.wrClosed && z.conn.wire == Sent(ts)
  {
    var r := After(x, ts);
    G.FreshInv(View(x));
    FlushesIff(x, ts);
    SentIsAccepted(x, ts);
    if r.conn.wrClosed {
      more := [];
    } else {
      var ls := T.EverythingIsExecuted(r.loop);
      var first := WorkIsDone(r, ls, take);
      NothingQueued(After(r, first).loop);
      var last := BufferDrains(After(r, first), take);
      RunsAppend(r, first, last);
      more := first + last;
    }
  }
}
