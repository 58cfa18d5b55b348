/**
 EventLoop.cpp as an object: the pending vector, the quit and calling flags and the eventfd are
 fields that its methods update, and each method is proved to take exactly the steps of
 EventLoopModel that its function here lists.
 */
module EventLoops {
  import opened M = EventLoopModel

  // A step another thread takes.
  type Foreign<F> = l: Label<F> | l.Push? || l.SetQuit? || l.Wake? witness Wake(0)

  // Something that happens while a callback runs on the loop thread: the callback calls
  // queueInLoop, with what other threads do between its push and its wakeup, or quit; or another
  // thread takes a step.  A step that cannot be taken is skipped.
  // runInLoop on the loop thread calls its functor at once, so it adds nothing of its own.
  datatype Act<F> = QueueInLoop(f: F, meanwhile: seq<Foreign<F>>) | Quit | Other(step: Foreign<F>)

  // One trip round the loop: whether epoll_wait's answer has room for the wakeup channel, what the
  // handlers before and after it do, what the functors of the batch do, and what other threads do
  // while the loop is in poll, before the first handler, after the read of the eventfd, before
  // the first functor, and before the next quit check.
  datatype Trip<F> = Trip(
    inPoll: seq<Foreign<F>>,
    room: bool,
    returned: seq<Foreign<F>>,
    before: seq<seq<Act<F>>>,
    read: seq<Foreign<F>>,
    after: seq<seq<Act<F>>>,
    swapped: seq<Foreign<F>>,
    batch: seq<seq<Act<F>>>,
    ended: seq<Foreign<F>>)

  function Try<F>(s: State<F>, l: Label<F>): State<F> {
    if Enabled(s, l) then Next(s, l) else s
  }

  // Steps of other threads, while the loop thread stays where it is.
  function Meanwhile<F>(s: State<F>, steps: seq<Foreign<F>>): (r: State<F>)
    ensures r.pc == s.pc && r.calling == s.calling && r.loopOwes == s.loopOwes
    decreases |steps|
  {
    if steps == [] then s else Meanwhile(Try(s, steps[0]), steps[1..])
  }

  function Perform<F>(s: State<F>, a: Act<F>): (r: State<F>)
    ensures !s.loopOwes ==> !r.loopOwes
    ensures r.pc == s.pc && r.calling == s.calling
  {
    match a
    case QueueInLoop(f, meanwhile) => Try(Meanwhile(Try(s, LoopPush(f)), meanwhile), LoopWake)
    case Quit => Try(s, LoopQuit)
    case Other(step) => Try(s, step)
  }

  // queueInLoop or quit() on another thread: its first step, what further threads do before it
  // writes the eventfd, and that write.
  function PerformForeign<F>(s: State<F>, first: Foreign<F>, meanwhile: seq<Foreign<F>>): State<F> {
    Try(Meanwhile(Try(s, first), meanwhile), Wake(first.tid))
  }

  function PerformAll<F>(s: State<F>, acts: seq<Act<F>>): (r: State<F>)
    ensures !s.loopOwes ==> !r.loopOwes
    ensures r.pc == s.pc
    decreases |acts|
  {
    if acts == [] then s else PerformAll(Perform(s, acts[0]), acts[1..])
  }

  function Nth<T>(scripts: seq<seq<T>>, i: nat): seq<T> {
    if i < |scripts| then scripts[i] else []
  }

  // The functors of a swapped-out batch from the i-th on; functor i does scripts[i].
  function RunBatch<F>(s: State<F>, scripts: seq<seq<Act<F>>>, i: nat): (r: State<F>)
    requires s.pc.Running? && !s.loopOwes
    ensures r.pc.QuitCheck? && !r.loopOwes && !r.calling
    decreases |s.pc.rest|
  {
    if s.pc.rest == [] then Next(s, EndBatch)
    else RunBatch(PerformAll(Next(s, RunNext), Nth(scripts, i)), scripts, i + 1)
  }

  function RunPending<F>(s: State<F>, t: Trip<F>): (r: State<F>)
    requires Enabled(s, Swap) && !s.loopOwes
    ensures r.pc.QuitCheck? && !r.loopOwes && !r.calling
  {
    Meanwhile(RunBatch(Meanwhile(Next(s, Swap), t.swapped), t.batch, 0), t.ended)
  }

  // The handlers of a list of active channels.
  function HandleAll<F>(s: State<F>, handlers: seq<seq<Act<F>>>): (r: State<F>)
    requires s.pc.Handling? && |handlers| <= s.pc.left && !s.loopOwes
    ensures r.pc == Handling(s.pc.woken, s.pc.left - |handlers|) && !r.loopOwes
    decreases |handlers|
  {
    if handlers == [] then s
    else HandleAll(PerformAll(Next(s, HandleOther), handlers[0]), handlers[1..])
  }

  function MaybeWakeup<F>(s: State<F>): (r: State<F>)
    requires s.pc.Handling? && !s.loopOwes
    ensures r.pc == Handling(false, s.pc.left) && !r.loopOwes
  {
    if s.pc.woken then Next(s, HandleWakeup) else s
  }

  // What epoll_wait answers: the wakeup channel can be in it only if the eventfd is readable.
  function Answer<F>(s: State<F>, t: Trip<F>): Label<F> {
    PollReturn(t.room && s.counter > 0, |t.before| + |t.after|)
  }

  // From the return of epoll_wait to the end of the handlers.
  function HandleActive<F>(s: State<F>, t: Trip<F>): (r: State<F>)
    requires s.pc.InPoll? && !s.loopOwes
    ensures Enabled(r, Swap) && !r.loopOwes
  {
    var s1 := HandleAll(Meanwhile(Next(s, Answer(s, t)), t.returned), t.before);
    HandleAll(Meanwhile(MaybeWakeup(s1), t.read), t.after)
  }

  function RunTrip<F>(s: State<F>, t: Trip<F>): (r: State<F>)
    requires s.pc.InPoll? && !s.loopOwes
    ensures r.pc.QuitCheck? && !r.loopOwes && !r.calling
  {
    RunPending(HandleActive(Meanwhile(s, t.inPoll), t), t)
  }

  // ---------- what one call does ----------

  // queueInLoop or quit() on another thread, from any state and with any steps of further threads in
  // between: when it returns the functor has been pushed or the flag set, and the eventfd is readable.
  lemma ForeignCallWakes<F>(s: State<F>, first: Foreign<F>, meanwhile: seq<Foreign<F>>)
    requires !first.Wake? && !Owes(s, first.tid) && forall i :: 0 <= i < |meanwhile| ==> meanwhile[i].tid != first.tid
    ensures var r := PerformForeign(s, first, meanwhile);
            && !Owes(r, first.tid) && r.counter > 0
            && (first.Push? ==> s.pushed + [first.f] <= r.pushed && s.pending + [first.f] <= r.pending)
            && (first.SetQuit? ==> r.quit)
  {
    var s1 := Try(s, first);
    StillOwes(s1, meanwhile, first.tid);
    OthersOnlyAdd(s1, meanwhile);
  }

  // queueInLoop on the loop thread: the functor is pushed, and the eventfd is written if and only if a
  // batch is running.
  lemma LoopCallWakesIff<F>(s: State<F>, f: F, meanwhile: seq<Foreign<F>>)
    requires InUserCode(s) && !s.loopOwes
    ensures var r, m := Perform(s, QueueInLoop(f, meanwhile)), Meanwhile(Next(s, LoopPush(f)), meanwhile);
            && s.pushed + [f] <= r.pushed && s.pending + [f] <= r.pending && !r.loopOwes
            && (if s.calling then r.counter > 0 else r.counter == m.counter)
    ensures !s.calling && meanwhile == [] ==> Perform(s, QueueInLoop(f, meanwhile)).counter == s.counter
  {
    OthersOnlyAdd(Next(s, LoopPush(f)), meanwhile);
  }

  // What other threads do takes nothing away.
  lemma {:induction false} OthersOnlyAdd<F>(s: State<F>, steps: seq<Foreign<F>>)
    ensures var r := Meanwhile(s, steps);
            && s.pushed <= r.pushed && s.pending <= r.pending && s.counter <= r.counter && (s.quit ==> r.quit)
    decreases |steps|
  {
    if steps != [] {
      OthersOnlyAdd(Try(s, steps[0]), steps[1..]);
    }
  }

  // A thread that is between its push and its wakeup stays there whatever the others do.
  lemma {:induction false} StillOwes<F>(s: State<F>, steps: seq<Foreign<F>>, tid: nat)
    requires Owes(s, tid) && forall i :: 0 <= i < |steps| ==> steps[i].tid != tid
    ensures Owes(Meanwhile(s, steps), tid)
    decreases |steps|
  {
    if steps != [] {
      StillOwes(Try(s, steps[0]), steps[1..], tid);
    }
  }

  // ---------- all of it is protocol steps, each in its place ----------

  // Labels one after another; one that cannot be taken is skipped.
  function TryAll<F>(s: State<F>, ls: seq<Label<F>>): State<F>
    decreases |ls|
  {
    if ls == [] then s else TryAll(Try(s, ls[0]), ls[1..])
  }

  lemma {:induction false} TryAllAppend<F>(s: State<F>, a: seq<Label<F>>, b: seq<Label<F>>)
    ensures TryAll(s, a + b) == TryAll(TryAll(s, a), b)
    decreases |a|
  {
    if a == [] {
      assert a + b == b;
    } else {
      assert (a + b)[1..] == a[1..] + b;
      TryAllAppend(Try(s, a[0]), a[1..], b);
    }
  }

  lemma TryThen<F>(s: State<F>, a: seq<Label<F>>, m: State<F>, b: seq<Label<F>>)
    requires TryAll(s, a) == m
    ensures TryAll(s, a + b) == TryAll(m, b)
  {
    TryAllAppend(s, a, b);
  }

  lemma TryOne<F>(s: State<F>, l: Label<F>)
    ensures TryAll(s, [l]) == Try(s, l)
  {
    assert [l][1..] == [];
  }

  ghost predicate Leads<F(!new)>(s: State<F>, r: State<F>) {
    exists ls: seq<Label<F>> :: Runs(s, ls) && Exec(s, ls) == r
  }

  lemma {:induction false} TryAllLeads<F(!new)>(s: State<F>, ls: seq<Label<F>>)
    ensures Leads(s, TryAll(s, ls))
    decreases |ls|
  {
    if ls == [] {
      assert Runs(s, []) && Exec(s, []) == s;
    } else {
      TryAllLeads(Try(s, ls[0]), ls[1..]);
      if Enabled(s, ls[0]) {
        var rest: seq<Label<F>> :| Runs(Next(s, ls[0]), rest) && Exec(Next(s, ls[0]), rest) == TryAll(s, ls);
        assert ([ls[0]] + rest)[1..] == rest;
        assert Runs(s, [ls[0]] + rest) && Exec(s, [ls[0]] + rest) == TryAll(s, ls);
      }
    }
  }

  // The labels of a callback, of a list of handlers, of a batch of n functors, and of a whole trip, as
  // the code orders them.  After a push on the loop thread the wakeup is tried: the protocol allows it
  // exactly if it is owed.
  function ActTrace<F>(a: Act<F>): seq<Label<F>> {
    match a
    case QueueInLoop(f, meanwhile) => [LoopPush(f)] + meanwhile + [LoopWake]
    case Quit => [LoopQuit]
    case Other(step) => [step]
  }

  function ActsTrace<F>(acts: seq<Act<F>>): seq<Label<F>> {
    if acts == [] then [] else ActTrace(acts[0]) + ActsTrace(acts[1..])
  }

  function HandlersTrace<F>(handlers: seq<seq<Act<F>>>): seq<Label<F>> {
    if handlers == [] then [] else [HandleOther] + ActsTrace(handlers[0]) + HandlersTrace(handlers[1..])
  }

  function BatchTrace<F>(n: nat, scripts: seq<seq<Act<F>>>, i: nat): seq<Label<F>>
    decreases n
  {
    if n == 0 then [EndBatch] else [RunNext] + ActsTrace(Nth(scripts, i)) + BatchTrace(n - 1, scripts, i + 1)
  }

  function BeforeTrace<F>(t: Trip<F>, woken: bool): seq<Label<F>> {
    [PollReturn(woken, |t.before| + |t.after|)] + t.returned + HandlersTrace(t.before)
  }

  function AfterTrace<F>(t: Trip<F>, woken: bool): seq<Label<F>> {
    (if woken then [HandleWakeup] else []) + t.read + HandlersTrace(t.after)
  }

  function PendingTrace<F>(t: Trip<F>, n: nat): seq<Label<F>> {
    [Swap] + t.swapped + BatchTrace(n, t.batch, 0) + t.ended
  }

  function TripTrace<F>(t: Trip<F>, woken: bool, n: nat): seq<Label<F>> {
    t.inPoll + BeforeTrace(t, woken) + AfterTrace(t, woken) + PendingTrace(t, n)
  }

  lemma {:induction false} MeanwhileTries<F>(s: State<F>, steps: seq<Foreign<F>>)
    ensures Meanwhile(s, steps) == TryAll(s, steps)
    decreases |steps|
  {
    if steps != [] {
      MeanwhileTries(Try(s, steps[0]), steps[1..]);
    }
  }

  lemma PerformTries<F>(s: State<F>, a: Act<F>)
    ensures Perform(s, a) == TryAll(s, ActTrace(a))
  {
    match a
    case QueueInLoop(f, meanwhile) =>
      TryAllAppend(s, [LoopPush(f)] + meanwhile, [LoopWake]);
      TryAllAppend(s, [LoopPush(f)], meanwhile);
      TryOne(s, LoopPush(f));
      MeanwhileTries(Try(s, LoopPush(f)), meanwhile);
      TryOne(Meanwhile(Try(s, LoopPush(f)), meanwhile), LoopWake);
    case Quit => TryOne(s, LoopQuit);
    case Other(step) => TryOne(s, step);
  }

  lemma {:induction false} PerformAllTries<F>(s: State<F>, acts: seq<Act<F>>)
    ensures PerformAll(s, acts) == TryAll(s, ActsTrace(acts))
    decreases |acts|
  {
    if acts != [] {
      PerformTries(s, acts[0]);
      PerformAllTries(Perform(s, acts[0]), acts[1..]);
      TryAllAppend(s, ActTrace(acts[0]), ActsTrace(acts[1..]));
    }
  }

  lemma {:induction false} HandleAllTries<F>(s: State<F>, handlers: seq<seq<Act<F>>>)
    requires s.pc.Handling? && |handlers| <= s.pc.left && !s.loopOwes
    ensures HandleAll(s, handlers) == TryAll(s, HandlersTrace(handlers))
    decreases |handlers|
  {
    if handlers != [] {
      var acts, rest := ActsTrace(handlers[0]), HandlersTrace(handlers[1..]);
      TryOne(s, HandleOther);
      PerformAllTries(Next(s, HandleOther), handlers[0]);
      HandleAllTries(PerformAll(Next(s, HandleOther), handlers[0]), handlers[1..]);
      TryAllAppend(s, [HandleOther] + acts, rest);
      TryAllAppend(s, [HandleOther], acts);
    }
  }

  lemma {:induction false} RunBatchTries<F>(s: State<F>, scripts: seq<seq<Act<F>>>, i: nat)
    requires s.pc.Running? && !s.loopOwes
    ensures RunBatch(s, scripts, i) == TryAll(s, BatchTrace(|s.pc.rest|, scripts, i))
    decreases |s.pc.rest|
  {
    if s.pc.rest == [] {
      TryOne(s, EndBatch);
    } else {
      var m := PerformAll(Next(s, RunNext), Nth(scripts, i));
      var acts, rest := ActsTrace(Nth(scripts, i)), BatchTrace(|s.pc.rest| - 1, scripts, i + 1);
      TryOne(s, RunNext);
      TryThen(s, [RunNext], Next(s, RunNext), acts);
      PerformAllTries(Next(s, RunNext), Nth(scripts, i));
      TryThen(s, [RunNext] + acts, m, rest);
      RunBatchTries(m, scripts, i + 1);
    }
  }

  lemma {:induction false} RunBatchExecutes<F>(s: State<F>, scripts: seq<seq<Act<F>>>, i: nat)
    requires s.pc.Running? && !s.loopOwes
    ensures RunBatch(s, scripts, i).executed == s.executed + s.pc.rest
    decreases |s.pc.rest|
  {
    if s.pc.rest == [] {
      assert s.executed + [] == s.executed;
    } else {
      PerformAllExecutes(Next(s, RunNext), Nth(scripts, i));
      RunBatchExecutes(PerformAll(Next(s, RunNext), Nth(scripts, i)), scripts, i + 1);
      FirstMoves(s.executed, s.pc.rest);
    }
  }

  // Neither the loop thread's own calls nor other threads execute anything.
  lemma {:induction false} MeanwhileExecutes<F>(s: State<F>, steps: seq<Foreign<F>>)
    ensures Meanwhile(s, steps).executed == s.executed
    decreases |steps|
  {
    if steps != [] {
      MeanwhileExecutes(Try(s, steps[0]), steps[1..]);
    }
  }

  lemma PerformExecutes<F>(s: State<F>, a: Act<F>)
    ensures Perform(s, a).executed == s.executed
  {
    if a.QueueInLoop? {
      MeanwhileExecutes(Try(s, LoopPush(a.f)), a.meanwhile);
    }
  }

  lemma {:induction false} PerformAllExecutes<F>(s: State<F>, acts: seq<Act<F>>)
    ensures PerformAll(s, acts).executed == s.executed
    decreases |acts|
  {
    if acts != [] {
      PerformExecutes(s, acts[0]);
      PerformAllExecutes(Perform(s, acts[0]), acts[1..]);
    }
  }

  lemma {:induction false} HandleAllExecutes<F>(s: State<F>, handlers: seq<seq<Act<F>>>)
    requires s.pc.Handling? && |handlers| <= s.pc.left && !s.loopOwes
    ensures HandleAll(s, handlers).executed == s.executed
    decreases |handlers|
  {
    if handlers != [] {
      PerformAllExecutes(Next(s, HandleOther), handlers[0]);
      HandleAllExecutes(PerformAll(Next(s, HandleOther), handlers[0]), handlers[1..]);
    }
  }

  lemma MaybeWakeupTries<F>(s: State<F>)
    requires s.pc.Handling? && !s.loopOwes
    ensures MaybeWakeup(s) == TryAll(s, if s.pc.woken then [HandleWakeup] else [])
  {
    TryOne(s, HandleWakeup);
  }

  // The handlers before the wakeup channel's.
  lemma BeforeWakeupTries<F>(s: State<F>, t: Trip<F>, l: Label<F>)
    requires s.pc.InPoll? && !s.loopOwes && l == Answer(s, t)
    ensures HandleAll(Meanwhile(Next(s, l), t.returned), t.before) == TryAll(s, BeforeTrace(t, l.woken))
  {
    var s1 := Meanwhile(Next(s, l), t.returned);
    TryOne(s, l);
    TryThen(s, [l], Next(s, l), t.returned);
    MeanwhileTries(Next(s, l), t.returned);
    TryThen(s, [l] + t.returned, s1, HandlersTrace(t.before));
    HandleAllTries(s1, t.before);
  }

  // That, and the rest.
  lemma AfterWakeupTries<F>(s: State<F>, t: Trip<F>)
    requires s.pc.Handling? && |t.after| <= s.pc.left && !s.loopOwes
    ensures HandleAll(Meanwhile(MaybeWakeup(s), t.read), t.after) == TryAll(s, AfterTrace(t, s.pc.woken))
  {
    var read := if s.pc.woken then [HandleWakeup] else [];
    var s1 := Meanwhile(MaybeWakeup(s), t.read);
    MaybeWakeupTries(s);
    TryThen(s, read, MaybeWakeup(s), t.read);
    MeanwhileTries(MaybeWakeup(s), t.read);
    TryThen(s, read + t.read, s1, HandlersTrace(t.after));
    HandleAllTries(s1, t.after);
  }

  lemma HandleActiveExecutes<F>(s: State<F>, t: Trip<F>)
    requires s.pc.InPoll? && !s.loopOwes
    ensures HandleActive(s, t).executed == s.executed
  {
    var s1 := Meanwhile(Next(s, Answer(s, t)), t.returned);
    var s3 := MaybeWakeup(HandleAll(s1, t.before));
    MeanwhileExecutes(Next(s, Answer(s, t)), t.returned);
    HandleAllExecutes(s1, t.before);
    MeanwhileExecutes(s3, t.read);
    HandleAllExecutes(Meanwhile(s3, t.read), t.after);
  }

  lemma RunPendingTries<F>(s: State<F>, t: Trip<F>) returns (n: nat)
    requires Enabled(s, Swap) && !s.loopOwes
    ensures RunPending(s, t) == TryAll(s, PendingTrace(t, n))
    ensures n == |s.pending| && RunPending(s, t).executed == s.executed + s.pending
  {
    n := |s.pending|;
    var s1 := Next(s, Swap);
    var s2 := Meanwhile(s1, t.swapped);
    var s3 := RunBatch(s2, t.batch, 0);
    TryOne(s, Swap);
    TryAllAppend(s, [Swap], t.swapped);
    MeanwhileTries(s1, t.swapped);
    MeanwhileExecutes(s1, t.swapped);
    TryAllAppend(s, [Swap] + t.swapped, BatchTrace(n, t.batch, 0));
    RunBatchTries(s2, t.batch, 0);
    RunBatchExecutes(s2, t.batch, 0);
    TryAllAppend(s, [Swap] + t.swapped + BatchTrace(n, t.batch, 0), t.ended);
    MeanwhileTries(s3, t.ended);
    MeanwhileExecutes(s3, t.ended);
  }

  // One iteration of the loop takes exactly the steps of its script, in order: the wakeup channel is
  // handled if epoll_wait could report it, n functors are called, and no step of a callback or of
  // another thread is left out unless it cannot be taken.
  lemma TripIsItsSteps<F>(s: State<F>, t: Trip<F>) returns (woken: bool, n: nat)
    requires s.pc.InPoll? && !s.loopOwes
    ensures RunTrip(s, t) == TryAll(s, TripTrace(t, woken, n))
    ensures RunTrip(s, t).pc.QuitCheck? && |RunTrip(s, t).executed| == |s.executed| + n
    ensures (woken ==> t.room) && (t.room && s.counter > 0 ==> woken)
  {
    var s1 := Meanwhile(s, t.inPoll);
    var s2 := HandleActive(s1, t);
    woken := Answer(s1, t).woken;
    n := RunPendingTries(s2, t);
    MeanwhileTries(s, t.inPoll);
    OthersOnlyAdd(s, t.inPoll);
    MeanwhileExecutes(s, t.inPoll);
    HandleActiveExecutes(s1, t);
    var m := HandleAll(Meanwhile(Next(s1, Answer(s1, t)), t.returned), t.before);
    BeforeWakeupTries(s1, t, Answer(s1, t));
    AfterWakeupTries(m, t);
    TripInOrder(s, s1, m, s2, t, woken, n);
  }

  lemma TripInOrder<F>(s: State<F>, s1: State<F>, m: State<F>, s2: State<F>, t: Trip<F>, woken: bool, n: nat)
    requires s1 == TryAll(s, t.inPoll) && m == TryAll(s1, BeforeTrace(t, woken))
    requires s2 == TryAll(m, AfterTrace(t, woken))
    ensures TryAll(s, TripTrace(t, woken, n)) == TryAll(s2, PendingTrace(t, n))
  {
    var a, b := BeforeTrace(t, woken), AfterTrace(t, woken);
    TryThen(s, t.inPoll, s1, a);
    TryThen(s, t.inPoll + a, m, b);
    TryThen(s, t.inPoll + a + b, s2, PendingTrace(t, n));
  }

  function RunLoop<F>(s: State<F>, trips: seq<Trip<F>>): State<F>
    requires s.pc.QuitCheck? && !s.loopOwes
    decreases |trips|
  {
    var s1 := Next(s, Check);
    if s1.pc.Exited? || trips == [] then s1
    else RunLoop(RunTrip(s1, trips[0]), trips[1..])
  }

  lemma RunLoopStep<F>(s: State<F>, trips: seq<Trip<F>>, k: nat)
    requires s.pc.QuitCheck? && !s.quit && !s.loopOwes && k <= |trips|
    ensures RunLoop(s, trips[k..])
         == if k == |trips| then Next(s, Check) else RunLoop(RunTrip(Next(s, Check), trips[k]), trips[k + 1..])
  {
    assert k < |trips| ==> trips[k..][1..] == trips[k + 1..];
  }

  // How a trip went: whether the wakeup channel was reported, and how many functors were called.
  datatype Course = Course(woken: bool, called: nat)

  // The labels of trips round the loop that went so, and of the quit check after them.
  function LoopTrace<F>(trips: seq<Trip<F>>, courses: seq<Course>): seq<Label<F>>
    requires |courses| <= |trips|
    decreases |courses|
  {
    if courses == [] then [Check]
    else [Check] + TripTrace(trips[0], courses[0].woken, courses[0].called) + LoopTrace(trips[1..], courses[1..])
  }

  lemma OneMoreTrip<F>(s: State<F>, trips: seq<Trip<F>>, rest: seq<Course>) returns (courses: seq<Course>)
    requires s.pc.QuitCheck? && !s.loopOwes && !s.quit && trips != [] && |rest| < |trips|
    ensures |courses| == |rest| + 1
    ensures TryAll(s, LoopTrace(trips, courses))
         == TryAll(RunTrip(Next(s, Check), trips[0]), LoopTrace(trips[1..], rest))
  {
    var woken, n := TripIsItsSteps(Next(s, Check), trips[0]);
    var trip := TripTrace(trips[0], woken, n);
    courses := [Course(woken, n)] + rest;
    assert courses[1..] == rest;
    TryOne(s, Check);
    TryThen(s, [Check], Next(s, Check), trip);
    TryThen(s, [Check] + trip, RunTrip(Next(s, Check), trips[0]), LoopTrace(trips[1..], rest));
  }

  lemma {:induction false} LoopIsItsTrips<F>(s: State<F>, trips: seq<Trip<F>>) returns (courses: seq<Course>)
    requires s.pc.QuitCheck? && !s.loopOwes
    ensures |courses| <= |trips| && RunLoop(s, trips) == TryAll(s, LoopTrace(trips, courses))
    ensures RunLoop(s, trips).pc.Exited? || (|courses| == |trips| && RunLoop(s, trips).pc.InPoll?)
    decreases |trips|
  {
    if s.quit || trips == [] {
      TryOne(s, Check);
      courses := [];
    } else {
      var rest := LoopIsItsTrips(RunTrip(Next(s, Check), trips[0]), trips[1..]);
      courses := OneMoreTrip(s, trips, rest);
    }
  }

  // Every run of loop(), whatever its callbacks and the other threads do, is a run of the protocol, so
  // all its invariants hold throughout; and it is the steps of its trips one after another, all of
  // them unless it ends.
  lemma LoopIsProtocol<F(!new)>(s: State<F>, trips: seq<Trip<F>>) returns (courses: seq<Course>)
    requires s.pc.QuitCheck? && !s.loopOwes
    ensures Leads(s, RunLoop(s, trips))
    ensures |courses| <= |trips| && RunLoop(s, trips) == TryAll(s, LoopTrace(trips, courses))
    ensures RunLoop(s, trips).pc.Exited? || (|courses| == |trips| && RunLoop(s, trips).pc.InPoll?)
  {
    courses := LoopIsItsTrips(s, trips);
    TryAllLeads(s, LoopTrace(trips, courses));
  }

  // An idle loop is woken from poll: another thread queues a functor and writes the eventfd while
  // the loop sleeps, and that trip round the loop runs the functor.
  lemma QueuedInPollIsRun<F>(s: State<F>, tid: nat, f: F)
    requires s.pc.InPoll? && !s.loopOwes && !s.calling && s.pending == [] && !Owes(s, tid)
    ensures var t := Trip([Push(tid, f), Wake(tid)], true, [], [], [], [], [], [], []);
            RunTrip(s, t).executed == s.executed + [f] && RunTrip(s, t).pending == []
  {
    var t := Trip([Push(tid, f), Wake(tid)], true, [], [], [], [], [], [], []);
    var s1 := Try(s, Push(tid, f));
    var s2 := Try(s1, Wake(tid));
    var wake: seq<Foreign<F>> := [Wake(tid)];
    assert t.inPoll[1..] == wake && wake[1..] == [];
    assert Meanwhile(s1, wake) == Meanwhile(s2, []);
    OneFunctorIsRun(HandleActive(s2, t), t, f);
  }

  lemma OneFunctorIsRun<F>(s: State<F>, t: Trip<F>, f: F)
    requires Enabled(s, Swap) && !s.loopOwes && s.pending == [f]
    requires t.swapped == [] && t.batch == [] && t.ended == []
    ensures RunPending(s, t).executed == s.executed + [f] && RunPending(s, t).pending == []
  {
    var s1 := Next(s, Swap);
    var s2 := Next(s1, RunNext);
    assert s2.pc.rest == [];
    assert RunBatch(s2, [], 1) == Next(s2, EndBatch);
    assert RunBatch(s1, [], 0) == RunBatch(PerformAll(s2, Nth([], 0)), [], 1);
  }

  // ---------- the object ----------

  class EventLoop<F> {
    var doPendingFuncVec: seq<F>
    var wakeUpFd: nat
    var quit: bool
    var callingPendingFunctors: bool
    // the other threads that are between a push, or a store of the quit flag, and the wakeup
    var pushing: set<nat>
    var quitting: set<nat>
    // where the loop thread is, and the history
    ghost var pc: Pc<F>
    ghost var loopOwes: bool
    ghost var pushed: seq<F>
    ghost var executed: seq<F>
    ghost var early: nat
    ghost var iterations: nat

    ghost function View(): State<F>
      reads this
    {
      State(pc, doPendingFuncVec, wakeUpFd, quit, callingPendingFunctors, loopOwes, pushing, quitting,
            pushed, executed, early, iterations)
    }

    // Between two actions of the loop thread, the flag says whether a batch is running.
    ghost predicate Steady()
      reads this
    {
      !loopOwes && (callingPendingFunctors <==> pc.Running?)
    }

    constructor ()
      ensures View() == Init<F>() && Steady()
    {
      doPendingFuncVec, wakeUpFd, quit, callingPendingFunctors := [], 0, false, false;
      pushing, quitting := {}, {};
      pc, loopOwes, pushed, executed, early, iterations := NotStarted, false, [], [], 0, 0;
    }

    method Wakeup()
      modifies this`wakeUpFd
      ensures wakeUpFd == Signal(old(wakeUpFd))
      ensures if old(wakeUpFd) < MAX_COUNTER then wakeUpFd == old(wakeUpFd) + 1 else wakeUpFd == old(wakeUpFd)
    {
      wakeUpFd := if wakeUpFd < MAX_COUNTER then wakeUpFd + 1 else wakeUpFd;
    }

    method HandleWakeUpRead()
      requires Enabled(View(), HandleWakeup)
      modifies this`wakeUpFd, this`pc
      ensures View() == Next(old(View()), HandleWakeup)
    {
      wakeUpFd, pc := 0, Handling(false, pc.left);
    }

    // The part of queueInLoop under the mutex.
    method PushPending(f: F)
      modifies this`doPendingFuncVec, this`pushed
      ensures View() == old(View()).(pending := old(doPendingFuncVec) + [f], pushed := old(pushed) + [f])
    {
      doPendingFuncVec, pushed := doPendingFuncVec + [f], pushed + [f];
    }

    predicate IsOwing(tid: nat)
      reads this
    {
      tid in pushing || tid in quitting
    }

    // One step of another thread: a push under the mutex, a store of the quit flag, or a wakeup.
    method TakeForeign(l: Foreign<F>)
      modifies this`doPendingFuncVec, this`pushed, this`quit, this`pushing, this`quitting, this`wakeUpFd
      ensures View() == Try(old(View()), l)
    {
      match l
      case Push(tid, f) =>
        if !IsOwing(tid) {
          PushPending(f);
          pushing := pushing + {tid};
        }
      case SetQuit(tid) =>
        if !IsOwing(tid) {
          quit, quitting := true, quitting + {tid};
        }
      case Wake(tid) =>
        if IsOwing(tid) {
          Wakeup();
          pushing, quitting := pushing - {tid}, quitting - {tid};
        }
    }

    // What other threads do while the loop thread, or the caller, is between two actions.
    method Interleave(steps: seq<Foreign<F>>)
      modifies this`doPendingFuncVec, this`pushed, this`quit, this`pushing, this`quitting, this`wakeUpFd
      ensures View() == Meanwhile(old(View()), steps)
    {
      var i := 0;
      assert steps[0..] == steps;
      while i < |steps|
        invariant i <= |steps|
        invariant Meanwhile(View(), steps[i..]) == Meanwhile(old(View()), steps)
      {
        assert steps[i..][1..] == steps[i + 1..];
        TakeForeign(steps[i]);
        i := i + 1;
      }
    }

    // The first part of queueInLoop: the push, under the mutex.
    method Enqueue(f: F, isInLoopThread: bool, tid: nat)
      requires if isInLoopThread then InUserCode(View()) && Steady() else !IsOwing(tid)
      modifies this
      ensures View() == Next(old(View()), if isInLoopThread then LoopPush(f) else Push(tid, f))
    {
      PushPending(f);
      if isInLoopThread {
        early := if pc.NotStarted? then early + 1 else early;
        loopOwes := callingPendingFunctors;
      } else {
        pushing := pushing + {tid};
      }
    }

    // wakeup() by a thread that owes it.
    method PayWakeup(isInLoopThread: bool, tid: nat)
      requires if isInLoopThread then loopOwes else IsOwing(tid)
      modifies this
      ensures View() == Next(old(View()), if isInLoopThread then LoopWake else Wake(tid))
    {
      Wakeup();
      if isInLoopThread {
        loopOwes := false;
      } else {
        pushing, quitting := pushing - {tid}, quitting - {tid};
      }
    }

    // queueInLoop, from the loop thread or from another one; other threads may act between the push
    // and the wakeup.
    method QueueInLoop(f: F, isInLoopThread: bool, tid: nat, meanwhile: seq<Foreign<F>>)
      requires if isInLoopThread then InUserCode(View()) && Steady()
               else !IsOwing(tid) && forall i :: 0 <= i < |meanwhile| ==> meanwhile[i].tid != tid
      modifies this
      ensures View() == if isInLoopThread then Perform(old(View()), Act.QueueInLoop(f, meanwhile))
                        else PerformForeign(old(View()), Push(tid, f), meanwhile)
      ensures !isInLoopThread || old(callingPendingFunctors) ==> wakeUpFd > 0
    {
      if isInLoopThread {
        LoopCallWakesIff(View(), f, meanwhile);
      } else {
        ForeignCallWakes(View(), Push(tid, f), meanwhile);
      }
      Enqueue(f, isInLoopThread, tid);
      if !isInLoopThread {
        StillOwes(View(), meanwhile, tid);
      }
      Interleave(meanwhile);
      if !isInLoopThread || callingPendingFunctors {
        PayWakeup(isInLoopThread, tid);
      }
    }

    // The first part of quit(): the store of the flag.
    method StoreQuit(isInLoopThread: bool, tid: nat)
      requires if isInLoopThread then InUserCode(View()) && Steady() else !IsOwing(tid)
      modifies this`quit, this`quitting
      ensures View() == Next(old(View()), if isInLoopThread then LoopQuit else SetQuit(tid))
    {
      quit := true;
      if !isInLoopThread {
        quitting := quitting + {tid};
      }
    }

    // quit(), likewise.
    method QuitLoop(isInLoopThread: bool, tid: nat, meanwhile: seq<Foreign<F>>)
      requires if isInLoopThread then InUserCode(View()) && Steady()
               else !IsOwing(tid) && forall i :: 0 <= i < |meanwhile| ==> meanwhile[i].tid != tid
      modifies this
      ensures View() == if isInLoopThread then Meanwhile(Perform(old(View()), Quit), meanwhile)
                        else PerformForeign(old(View()), SetQuit(tid), meanwhile)
      ensures quit && (!isInLoopThread ==> wakeUpFd > 0)
    {
      if isInLoopThread {
        OthersOnlyAdd(Perform(View(), Quit), meanwhile);
      } else {
        ForeignCallWakes(View(), SetQuit(tid), meanwhile);
      }
      StoreQuit(isInLoopThread, tid);
      if !isInLoopThread {
        StillOwes(View(), meanwhile, tid);
      }
      Interleave(meanwhile);
      if !isInLoopThread {
        PayWakeup(false, tid);
      }
    }

    method Do(a: Act<F>)
      requires InUserCode(View()) && Steady()
      modifies this
      ensures View() == Perform(old(View()), a) && Steady()
    {
      match a
      case QueueInLoop(f, meanwhile) => QueueInLoop(f, true, 0, meanwhile);
      case Quit => QuitLoop(true, 0, []);
      case Other(step) => TakeForeign(step);
    }

    // One callback on the loop thread, with what other threads do meanwhile.
    method DoAll(acts: seq<Act<F>>)
      requires InUserCode(View()) && Steady()
      modifies this
      ensures View() == PerformAll(old(View()), acts) && Steady()
    {
      var i := 0;
      assert acts[0..] == acts;
      while i < |acts|
        invariant i <= |acts| && InUserCode(View()) && Steady()
        invariant PerformAll(View(), acts[i..]) == PerformAll(old(View()), acts)
      {
        assert acts[i..][1..] == acts[i + 1..];
        Do(acts[i]);
        i := i + 1;
      }
    }

    method CallFunctor(f: F, acts: seq<Act<F>>)
      requires pc.Running? && pc.rest != [] && pc.rest[0] == f && Steady()
      modifies this
      ensures View() == PerformAll(Next(old(View()), RunNext), acts) && Steady()
      ensures pc == Running(old(pc).rest[1..])
    {
      executed, pc := executed + [f], Running(pc.rest[1..]);
      DoAll(acts);
    }

    method SwapPending() returns (functors: seq<F>)
      requires Enabled(View(), Swap) && Steady()
      modifies this
      ensures functors == old(doPendingFuncVec) && pc == Running(functors)
      ensures View() == Next(old(View()), Swap) && Steady()
    {
      functors := doPendingFuncVec;
      doPendingFuncVec := [];
      callingPendingFunctors := true;
      pc, early := Running(functors), 0;
    }

    // doPendingFunctor: swap the vector out under the mutex, then call what was in it.
    method DoPendingFunctor(t: Trip<F>)
      requires Enabled(View(), Swap) && Steady()
      modifies this
      ensures View() == RunPending(old(View()), t) && Steady()
    {
      var functors := SwapPending();
      Interleave(t.swapped);
      CallAll(functors, t.batch);
      Interleave(t.ended);
    }

    // The loop over the batch, and the flag it ends with.
    method CallAll(functors: seq<F>, scripts: seq<seq<Act<F>>>)
      requires pc == Running(functors) && Steady()
      modifies this
      ensures View() == RunBatch(old(View()), scripts, 0) && Steady()
    {
      var i := 0;
      while i < |functors|
        invariant i <= |functors| && pc == Running(functors[i..]) && Steady()
        invariant RunBatch(View(), scripts, i) == RunBatch(old(View()), scripts, 0)
      {
        assert functors[i..][1..] == functors[i + 1..];
        CallFunctor(functors[i], Nth(scripts, i));
        i := i + 1;
      }
      callingPendingFunctors := false;
      pc := QuitCheck;
    }

    method CallHandler(acts: seq<Act<F>>)
      requires pc.Handling? && pc.left > 0 && Steady()
      modifies this
      ensures View() == PerformAll(Next(old(View()), HandleOther), acts) && Steady()
    {
      pc := Handling(pc.woken, pc.left - 1);
      DoAll(acts);
    }

    method HandleChannels(handlers: seq<seq<Act<F>>>)
      requires pc.Handling? && |handlers| <= pc.left && Steady()
      modifies this
      ensures View() == HandleAll(old(View()), handlers) && Steady()
    {
      var i := 0;
      assert handlers[0..] == handlers;
      while i < |handlers|
        invariant i <= |handlers| && pc.Handling? && |handlers| - i <= pc.left && Steady()
        invariant HandleAll(View(), handlers[i..]) == HandleAll(old(View()), handlers)
      {
        assert handlers[i..][1..] == handlers[i + 1..];
        CallHandler(handlers[i]);
        i := i + 1;
      }
    }

    method EpollReturns(t: Trip<F>) returns (woken: bool)
      requires pc.InPoll? && Steady()
      modifies this`pc
      ensures View() == Next(old(View()), Answer(old(View()), t)) && Steady() && woken == pc.woken
    {
      woken := t.room && wakeUpFd > 0;
      pc := Handling(woken, |t.before| + |t.after|);
    }

    method ReadIfWoken(woken: bool)
      requires pc.Handling? && woken == pc.woken && Steady()
      modifies this
      ensures View() == MaybeWakeup(old(View())) && Steady()
    {
      if woken {
        HandleWakeUpRead();
      }
    }

    method HandleActiveChannels(t: Trip<F>)
      requires pc.InPoll? && Steady()
      modifies this
      ensures View() == HandleActive(old(View()), t) && Steady()
    {
      var woken := EpollReturns(t);
      Interleave(t.returned);
      HandleChannels(t.before);
      ReadIfWoken(woken);
      Interleave(t.read);
      HandleChannels(t.after);
    }

    // From the quit check before epoll_wait to the next one.
    method OneTrip(t: Trip<F>)
      requires pc.InPoll? && Steady()
      modifies this
      ensures View() == RunTrip(old(View()), t) && Steady()
    {
      Interleave(t.inPoll);
      HandleActiveChannels(t);
      DoPendingFunctor(t);
    }

    // The quit check passes and epoll_wait is entered.
    method EnterPoll()
      requires pc.QuitCheck? && !quit && Steady()
      modifies this`pc, this`iterations
      ensures View() == Next(old(View()), Check) && pc.InPoll? && Steady()
    {
      pc, iterations := InPoll, iterations + 1;
    }

    // loop(), as far as the returns of epoll_wait it is given: it ends, or is left in poll.
    method Loop(trips: seq<Trip<F>>)
      requires pc.QuitCheck? && Steady()
      modifies this
      ensures View() == RunLoop(old(View()), trips)
    {
      var k := 0;
      assert trips[0..] == trips;
      while !quit
        invariant k <= |trips| && pc.QuitCheck? && Steady()
        invariant RunLoop(View(), trips[k..]) == RunLoop(old(View()), trips)
        decreases |trips| - k
      {
        RunLoopStep(View(), trips, k);
        EnterPoll();
        if k == |trips| {
          return;
        }
        OneTrip(trips[k]);
        k := k + 1;
      }
      pc := Exited;
    }
  }
}
