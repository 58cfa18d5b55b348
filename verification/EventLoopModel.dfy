/**
 The event loop and the threads that hand it work, as one interleaved step relation.

 Each label is one atomic action: a foreign thread's push under the mutex and its later write to
 the eventfd are separate, and so are the loop thread's own push and write.  Memory is sequentially
 consistent.  A functor is an opaque value of type F: what it does when it runs is any sequence of
 the loop thread's own pushes and quits, interleaved with anything the other threads do.
 */
module EventLoopModel {

  // Write to the eventfd: the counter saturates (the write fails with EAGAIN) but stays positive.
  const MAX_COUNTER: nat := 0xFFFF_FFFF_FFFF_FFFE

  function Signal(counter: nat): nat {
    if counter < MAX_COUNTER then counter + 1 else counter
  }

  // Where the loop thread is.  InPoll is anywhere between a quit check that found nothing and the
  // return of epoll_wait; Handling carries whether the wakeup channel is still to be handled and how
  // many other active channels are; Running carries the rest of the swapped-out batch.
  datatype Pc<F> =
    | NotStarted
    | QuitCheck
    | InPoll
    | Handling(woken: bool, left: nat)
    | Running(rest: seq<F>)
    | Exited

  datatype State<F> = State(
    pc: Pc<F>,
    pending: seq<F>,
    counter: nat,          // eventfd
    quit: bool,            // m_quit
    calling: bool,         // m_callingPendingFunctors
    loopOwes: bool,        // the loop thread is between its own push and its wakeup
    pushing: set<nat>,     // foreign threads between their push and their wakeup
    quitting: set<nat>,    // foreign threads between their store of the quit flag and their wakeup
    pushed: seq<F>,        // every functor, in the order the mutex let them in
    executed: seq<F>,      // every functor that has been called
    early: nat,            // pending functors the loop thread queued before loop()
    iterations: nat)       // how often the quit check let an iteration begin

  datatype Label<F> =
    // the loop thread
    | Start
    | Check
    | PollReturn(woken: bool, left: nat)
    | HandleWakeup
    | HandleOther
    | Swap
    | RunNext
    | EndBatch
    | LoopPush(f: F)
    | LoopWake
    | LoopQuit
    // other threads
    | Push(tid: nat, f: F)
    | SetQuit(tid: nat)
    | Wake(tid: nat)

  ghost function Init<F>(): State<F> {
    State(NotStarted, [], 0, false, false, false, {}, {}, [], [], 0, 0)
  }

  predicate InUserCode<F>(s: State<F>) {
    s.pc.NotStarted? || s.pc.Handling? || s.pc.Running?
  }

  // The thread is inside queueInLoop or quit() and has not yet written the eventfd.
  predicate Owes<F>(s: State<F>, tid: nat) {
    tid in s.pushing || tid in s.quitting
  }

  predicate Enabled<F>(s: State<F>, l: Label<F>) {
    match l
    case Start => s.pc.NotStarted?
    case Check => s.pc.QuitCheck?
    case PollReturn(woken, _) => s.pc.InPoll? && (woken ==> s.counter > 0)
    case HandleWakeup => s.pc.Handling? && s.pc.woken
    case HandleOther => s.pc.Handling? && s.pc.left > 0
    case Swap => s.pc.Handling? && !s.pc.woken && s.pc.left == 0
    case RunNext => s.pc.Running? && s.pc.rest != [] && !s.loopOwes
    case EndBatch => s.pc.Running? && s.pc.rest == [] && !s.loopOwes
    case LoopPush(_) => InUserCode(s) && !s.loopOwes
    case LoopWake => s.loopOwes
    case LoopQuit => InUserCode(s) && !s.loopOwes
    case Push(tid, _) => !Owes(s, tid)
    case SetQuit(tid) => !Owes(s, tid)
    case Wake(tid) => Owes(s, tid)
  }

  function Next<F>(s: State<F>, l: Label<F>): State<F>
    requires Enabled(s, l)
  {
    match l
    case Start => s.(pc := QuitCheck)
    case Check => if s.quit then s.(pc := Exited) else s.(pc := InPoll, iterations := s.iterations + 1)
    case PollReturn(woken, left) => s.(pc := Handling(woken, left))
    case HandleWakeup => s.(pc := Handling(false, s.pc.left), counter := 0)
    case HandleOther => s.(pc := Handling(s.pc.woken, s.pc.left - 1))
    case Swap => s.(pc := Running(s.pending), pending := [], calling := true, early := 0)
    case RunNext => s.(pc := Running(s.pc.rest[1..]), executed := s.executed + [s.pc.rest[0]])
    case EndBatch => s.(pc := QuitCheck, calling := false)
    // queueInLoop on the loop thread: it owes a wakeup only while a batch is running
    case LoopPush(f) =>
      s.(pending := s.pending + [f], pushed := s.pushed + [f], loopOwes := s.calling,
         early := if s.pc.NotStarted? then s.early + 1 else s.early)
    case LoopWake => s.(loopOwes := false, counter := Signal(s.counter))
    case LoopQuit => s.(quit := true)
    // queueInLoop and quit() on another thread always owe a wakeup
    case Push(tid, f) => s.(pending := s.pending + [f], pushed := s.pushed + [f], pushing := s.pushing + {tid})
    case SetQuit(tid) => s.(quit := true, quitting := s.quitting + {tid})
    case Wake(tid) =>
      s.(pushing := s.pushing - {tid}, quitting := s.quitting - {tid}, counter := Signal(s.counter))
  }

  predicate Runs<F>(s: State<F>, ls: seq<Label<F>>)
    decreases |ls|
  {
    ls == [] || (Enabled(s, ls[0]) && Runs(Next(s, ls[0]), ls[1..]))
  }

  function Exec<F>(s: State<F>, ls: seq<Label<F>>): State<F>
    requires Runs(s, ls)
    decreases |ls|
  {
    if ls == [] then s else Exec(Next(s, ls[0]), ls[1..])
  }

  ghost predicate Reachable<F(!new)>(s: State<F>) {
    exists ls: seq<Label<F>> :: Runs(Init<F>(), ls) && Exec(Init<F>(), ls) == s
  }

  // ---------- the inductive invariant ----------

  function Batch<F>(s: State<F>): seq<F> {
    if s.pc.Running? then s.pc.rest else []
  }

  // exactly once, in the order of the pushes
  ghost predicate InOrder<F>(s: State<F>) {
    s.executed + Batch(s) + s.pending == s.pushed
  }

  ghost predicate Awake<F>(s: State<F>) {
    && (s.calling <==> s.pc.Running?)
    && (s.loopOwes ==> s.pc.Running?)
    && (s.pc.Running? ==> s.early == 0)
    && s.early <= |s.pending|
    // no lost wakeup
    && (!s.pc.Handling? && |s.pending| > s.early ==> s.counter > 0 || s.pushing != {} || s.loopOwes)
    // no lost quit
    && (s.pc.InPoll? && s.quit ==> s.counter > 0 || s.quitting != {})
  }

  ghost predicate Inv<F>(s: State<F>) {
    InOrder(s) && Awake(s)
  }

  lemma StepKeepsOrder<F>(s: State<F>, l: Label<F>)
    requires InOrder(s) && Enabled(s, l)
    ensures InOrder(Next(s, l))
  {
    match l
    case RunNext => FirstMoves(s.executed, s.pc.rest);
    case LoopPush(f) => PushKeepsOrder(s, f);
    case Push(tid, f) => PushKeepsOrder(s, f);
    case Swap => SwapKeepsOrder(s.executed, s.pending);
    case _ =>
  }

  lemma FirstMoves<F>(a: seq<F>, b: seq<F>)
    requires b != []
    ensures a + [b[0]] + b[1..] == a + b
  {
  }

  lemma SwapKeepsOrder<F>(a: seq<F>, b: seq<F>)
    ensures a + [] + b == a + b + []
  {
  }

  lemma PushKeepsOrder<F>(s: State<F>, f: F)
    requires InOrder(s)
    ensures s.executed + Batch(s) + (s.pending + [f]) == s.pushed + [f]
  {
  }

  lemma StepKeepsAwake<F>(s: State<F>, l: Label<F>)
    requires Awake(s) && Enabled(s, l)
    ensures Awake(Next(s, l))
  {
  }

  lemma StepKeepsInv<F>(s: State<F>, l: Label<F>)
    requires Inv(s) && Enabled(s, l)
    ensures Inv(Next(s, l))
  {
    StepKeepsOrder(s, l);
    StepKeepsAwake(s, l);
  }

  lemma {:induction false} RunKeepsInv<F>(s: State<F>, ls: seq<Label<F>>)
    requires Inv(s) && Runs(s, ls)
    ensures Inv(Exec(s, ls))
    decreases |ls|
  {
    if ls != [] {
      StepKeepsInv(s, ls[0]);
      RunKeepsInv(Next(s, ls[0]), ls[1..]);
    }
  }

  lemma ReachableInv<F(!new)>(s: State<F>)
    requires Reachable(s)
    ensures Inv(s)
  {
    var ls: seq<Label<F>> :| Runs(Init<F>(), ls) && Exec(Init<F>(), ls) == s;
    RunKeepsInv(Init<F>(), ls);
  }

  lemma {:induction false} ExecAppend<F>(s: State<F>, a: seq<Label<F>>, b: seq<Label<F>>)
    requires Runs(s, a)
    ensures Runs(s, a + b) <==> Runs(Exec(s, a), b)
    ensures Runs(s, a + b) ==> Exec(s, a + b) == Exec(Exec(s, a), b)
    decreases |a|
  {
    if a == [] {
      assert a + b == b;
    } else {
      assert (a + b)[1..] == a[1..] + b;
      ExecAppend(Next(s, a[0]), a[1..], b);
    }
  }
}
