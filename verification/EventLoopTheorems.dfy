/**
 What the loop's wakeup protocol guarantees over all interleavings with any number of threads.
 */
module EventLoopTheorems {
  import opened EventLoopModel
  import opened Seqs

  // ---------- exactly once, first in first out ----------

  lemma FunctorsRunOnceInOrder<F(!new)>(s: State<F>)
    requires Reachable(s)
    ensures s.executed + Batch(s) + s.pending == s.pushed
    ensures s.executed <= s.pushed
  {
    ReachableInv(s);
    assert s.pushed == s.executed + (Batch(s) + s.pending);
  }

  // The functors given to queueInLoop, by any thread, in a run.
  function Given<F>(ls: seq<Label<F>>): seq<F> {
    if ls == [] then [] else (if ls[0].Push? || ls[0].LoopPush? then [ls[0].f] else []) + Given(ls[1..])
  }

  lemma {:induction false} GivenIsPushed<F>(s: State<F>, ls: seq<Label<F>>)
    requires Runs(s, ls)
    ensures Exec(s, ls).pushed == s.pushed + Given(ls)
    decreases |ls|
  {
    if ls == [] {
      assert s.pushed + [] == s.pushed;
    } else {
      var first := if ls[0].Push? || ls[0].LoopPush? then [ls[0].f] else [];
      GivenIsPushed(Next(s, ls[0]), ls[1..]);
      assert Next(s, ls[0]).pushed == s.pushed + first;
      Regroup(s.pushed, first, Given(ls[1..]));
    }
  }

  // So over any run, exactly the functors that were given are executed, in the batch or pending, in the
  // order in which they were given.
  lemma GivenRunOnceInOrder<F>(ls: seq<Label<F>>)
    requires Runs(Init<F>(), ls)
    ensures var s := Exec(Init<F>(), ls); s.executed + Batch(s) + s.pending == Given(ls)
  {
    RunKeepsInv(Init<F>(), ls);
    GivenIsPushed(Init<F>(), ls);
    assert [] + Given(ls) == Given(ls);
  }

  // ---------- no lost wakeup ----------

  // The loop thread queued something for itself before calling loop().
  predicate QueuesBeforeStart<F>(ls: seq<Label<F>>) {
    ls != [] && !ls[0].Start? && (ls[0].LoopPush? || QueuesBeforeStart(ls[1..]))
  }

  lemma {:induction false} EarlyOnlyBeforeStart<F>(s: State<F>, ls: seq<Label<F>>)
    requires Runs(s, ls) && s.early == 0
    requires s.pc.NotStarted? ==> !QueuesBeforeStart(ls)
    ensures Exec(s, ls).early == 0
    decreases |ls|
  {
    if ls != [] {
      EarlyOnlyBeforeStart(Next(s, ls[0]), ls[1..]);
    }
  }

  // In every reachable state of any interleaving: if the loop is at its quit check or in poll and
  // functors are pending, the eventfd is readable or some thread is between its push and its wakeup.
  lemma NoLostWakeup<F>(ls: seq<Label<F>>)
    requires Runs(Init<F>(), ls) && !QueuesBeforeStart(ls)
    ensures var s := Exec(Init<F>(), ls);
            (s.pc.QuitCheck? || s.pc.InPoll?) && s.pending != [] ==> s.counter > 0 || s.pushing != {}
  {
    RunKeepsInv(Init<F>(), ls);
    EarlyOnlyBeforeStart(Init<F>(), ls);
  }

  // The loop sleeps although there is work and nobody will wake it.
  predicate Stalled<F>(s: State<F>) {
    s.pc.InPoll? && s.pending != [] && s.counter == 0 && s.pushing == {} && s.quitting == {}
  }

  // What happens before loop() is called.
  predicate NoStart<F>(ls: seq<Label<F>>) {
    ls == [] || (!ls[0].Start? && NoStart(ls[1..]))
  }

  // The loop thread queued something for itself.
  predicate QueuesForItself<F>(ls: seq<Label<F>>) {
    ls != [] && (ls[0].LoopPush? || QueuesForItself(ls[1..]))
  }

  // No other thread queued anything, and no thread asked for a quit.
  predicate LeftAlone<F>(ls: seq<Label<F>>) {
    ls == [] || (!ls[0].Push? && !ls[0].SetQuit? && !ls[0].LoopQuit? && LeftAlone(ls[1..]))
  }

  predicate Silent<F>(s: State<F>) {
    !s.quit && s.counter == 0 && s.pushing == {} && s.quitting == {}
  }

  // Before loop(), nothing but another thread's call or a quit ends the silence.
  lemma {:induction false} SilentIffLeftAlone<F>(s: State<F>, ls: seq<Label<F>>)
    requires s.pc.NotStarted? && !s.calling && !s.loopOwes && Runs(s, ls) && NoStart(ls)
    ensures Exec(s, ls).pc.NotStarted?
    ensures Silent(Exec(s, ls)) <==> Silent(s) && LeftAlone(ls)
    ensures LeftAlone(ls) ==> (Exec(s, ls).pending != [] <==> s.pending != [] || QueuesForItself(ls))
    decreases |ls|
  {
    if ls != [] {
      SilentIffLeftAlone(Next(s, ls[0]), ls[1..]);
    }
  }

  // Whatever was called before it, loop() goes to sleep on work nobody will wake it for if and only if
  // the loop thread had queued something for itself, no other thread had queued anything and nobody
  // had asked for a quit; then every pending functor is one the loop thread queued.
  lemma StartStallsIff<F>(ls: seq<Label<F>>)
    requires Runs(Init<F>(), ls) && NoStart(ls)
    ensures var s := Exec(Init<F>(), ls);
            && Runs(s, [Start, Check])
            && (Stalled(Exec(s, [Start, Check])) <==> QueuesForItself(ls) && LeftAlone(ls))
            && (Stalled(Exec(s, [Start, Check])) ==> s.early == |s.pending|)
  {
    RunKeepsInv(Init<F>(), ls);
    SilentIffLeftAlone(Init<F>(), ls);
    TwoLabels(Exec(Init<F>(), ls), Start, Check);
  }

  lemma TwoLabels<F>(s: State<F>, a: Label<F>, b: Label<F>)
    requires Enabled(s, a) && Enabled(Next(s, a), b)
    ensures Runs(s, [a, b]) && Exec(s, [a, b]) == Next(Next(s, a), b)
  {
    assert [a, b][1..] == [b] && [b][1..] == [];
    assert Runs(Next(s, a), [b]);
    assert Exec(Next(s, a), [b]) == Exec(Next(Next(s, a), b), []);
  }

  // It does happen: queue one functor on the loop thread, then call loop().
  lemma StallExample<F>(f: F)
    ensures Runs(Init<F>(), [LoopPush(f), Start, Check])
    ensures Stalled(Exec(Init<F>(), [LoopPush(f), Start, Check]))
  {
    var ls := [LoopPush(f), Start, Check];
    var s := Next(Init<F>(), LoopPush(f));
    assert ls[1..] == [Start, Check];
    TwoLabels(s, Start, Check);
  }

  // Once a batch has been swapped out no functor is early any more, so the guarantee is unconditional.
  lemma {:induction false} NoStallAfterSwap<F>(s: State<F>, ls: seq<Label<F>>)
    requires Inv(s) && s.early == 0 && !s.pc.NotStarted? && Runs(s, ls)
    ensures !Stalled(Exec(s, ls))
  {
    RunKeepsInv(s, ls);
    EarlyOnlyBeforeStart(s, ls);
  }

  // ---------- no wakeup for nothing ----------

  predicate WritesEventfd<F>(l: Label<F>) {
    l.Wake? || l.LoopWake?
  }

  function Written<F>(ls: seq<Label<F>>): nat {
    if ls == [] then 0 else (if WritesEventfd(ls[0]) then 1 else 0) + Written(ls[1..])
  }

  function Drained<F>(ls: seq<Label<F>>): nat {
    if ls == [] then 0 else (if ls[0].HandleWakeup? then 1 else 0) + Drained(ls[1..])
  }

  // The wakeup channel is active only while its counter is positive, so each read finds something.
  predicate ReadsFindSomething<F>(s: State<F>) {
    s.pc.Handling? && s.pc.woken ==> s.counter > 0
  }

  function Readable<F>(s: State<F>): nat {
    if s.counter > 0 then 1 else 0
  }

  // Over any run the loop thread reads the eventfd at most once for each write.
  lemma {:induction false} WakeupsArePaidFor<F>(s: State<F>, ls: seq<Label<F>>)
    requires ReadsFindSomething(s) && Runs(s, ls)
    ensures ReadsFindSomething(Exec(s, ls))
    ensures Drained(ls) + Readable(Exec(s, ls)) <= Written(ls) + Readable(s)
    decreases |ls|
  {
    if ls != [] {
      WakeupsArePaidFor(Next(s, ls[0]), ls[1..]);
    }
  }

  // ---------- batches are bounded ----------

  predicate NoEndBatch<F>(ls: seq<Label<F>>) {
    ls == [] || (!ls[0].EndBatch? && NoEndBatch(ls[1..]))
  }

  // From s to r the same batch runs on, and what has been queued since is at the end of pending.
  ghost predicate SameBatch<F>(s: State<F>, r: State<F>) {
    && s.pc.Running? && r.pc.Running?
    && r.executed + r.pc.rest == s.executed + s.pc.rest
    && s.pending <= r.pending
    && r.pushed == s.pushed + r.pending[|s.pending|..]
  }

  lemma StepSameBatch<F>(s: State<F>, l: Label<F>)
    requires s.pc.Running? && Enabled(s, l) && !l.EndBatch?
    ensures SameBatch(s, Next(s, l))
  {
    assert s.pushed + [] == s.pushed;
    if l.RunNext? {
      FirstMoves(s.executed, s.pc.rest);
    }
  }

  lemma SameBatchTrans<F>(s: State<F>, m: State<F>, r: State<F>)
    requires SameBatch(s, m) && SameBatch(m, r)
    ensures SameBatch(s, r)
  {
    var a, b, c := |s.pending|, |m.pending|, r.pending;
    assert c[..b] == m.pending && c[a..b] == m.pending[a..];
    assert s.pushed + c[a..b] + c[b..] == s.pushed + (c[a..b] + c[b..]) && c[a..b] + c[b..] == c[a..];
  }

  lemma {:induction false} BatchRunsItsOwn<F>(s: State<F>, ls: seq<Label<F>>)
    requires s.pc.Running? && Runs(s, ls) && NoEndBatch(ls)
    ensures SameBatch(s, Exec(s, ls))
    decreases |ls|
  {
    if ls == [] {
      assert s.pushed + [] == s.pushed;
    } else {
      StepSameBatch(s, ls[0]);
      BatchRunsItsOwn(Next(s, ls[0]), ls[1..]);
      SameBatchTrans(s, Next(s, ls[0]), Exec(s, ls));
    }
  }

  // doPendingFunctor calls exactly the functors that were pending at the swap, in order; whatever
  // is queued meanwhile, by them or by other threads, is exactly what is pending afterwards.
  lemma BatchIsWhatWasPending<F>(s: State<F>, ls: seq<Label<F>>)
    requires Enabled(s, Swap) && Runs(Next(s, Swap), ls) && NoEndBatch(ls)
    requires Enabled(Exec(Next(s, Swap), ls), EndBatch)
    ensures var r := Next(Exec(Next(s, Swap), ls), EndBatch);
            r.executed == s.executed + s.pending && r.pushed == s.pushed + r.pending
  {
    BatchRunsItsOwn(Next(s, Swap), ls);
  }

  // ---------- quit is never lost ----------

  // Once quit is set, in poll the eventfd is readable or a thread is inside quit().
  lemma QuitWakesPoll<F(!new)>(s: State<F>)
    requires Reachable(s) && s.quit && s.pc.InPoll?
    ensures s.counter > 0 || s.quitting != {}
  {
    ReachableInv(s);
  }

  // A quit that has reached the loop: it is not asleep in poll.
  predicate Heard<F>(s: State<F>) {
    s.quit && (s.pc.InPoll? ==> s.counter > 0)
  }

  lemma {:induction false} HeardStays<F>(s: State<F>, ls: seq<Label<F>>)
    requires Heard(s) && Runs(s, ls)
    ensures Heard(Exec(s, ls))
    decreases |ls|
  {
    if ls != [] {
      HeardStays(Next(s, ls[0]), ls[1..]);
    }
  }

  ghost predicate Writes<F>(ls: seq<Label<F>>, tid: nat) {
    exists i :: 0 <= i < |ls| && ls[i] == Wake(tid)
  }

  lemma {:induction false} WakeupIsHeard<F>(s: State<F>, ls: seq<Label<F>>, tid: nat)
    requires s.quit && Runs(s, ls) && Writes(ls, tid)
    ensures Heard(Exec(s, ls))
    decreases |ls|
  {
    if ls[0] == Wake(tid) {
      HeardStays(Next(s, ls[0]), ls[1..]);
    } else {
      var i :| 0 <= i < |ls| && ls[i] == Wake(tid);
      assert ls[1..][i - 1] == Wake(tid);
      WakeupIsHeard(Next(s, ls[0]), ls[1..], tid);
    }
  }

  // Some thread has called quit() and returned from it.
  ghost predicate QuitCompleted<F>(ls: seq<Label<F>>) {
    ls != [] && ((ls[0].SetQuit? && Writes(ls[1..], ls[0].tid)) || QuitCompleted(ls[1..]))
  }

  // Once another thread's quit() has completed, at any time and even before loop(), the loop is never
  // in poll with nothing to read, whatever any other thread is doing.
  lemma {:induction false} QuitIsNeverLost<F>(s: State<F>, ls: seq<Label<F>>)
    requires Runs(s, ls) && QuitCompleted(ls)
    ensures Heard(Exec(s, ls))
    decreases |ls|
  {
    if ls[0].SetQuit? && Writes(ls[1..], ls[0].tid) {
      WakeupIsHeard(Next(s, ls[0]), ls[1..], ls[0].tid);
    } else {
      QuitIsNeverLost(Next(s, ls[0]), ls[1..]);
    }
  }

  // And no further iteration begins, even if quit was called before loop().  One that is already past
  // its quit check is the last.
  lemma {:induction false} QuitEndsIterations<F>(s: State<F>, ls: seq<Label<F>>)
    requires s.quit && Runs(s, ls)
    ensures Exec(s, ls).quit && Exec(s, ls).iterations == s.iterations
    decreases |ls|
  {
    if ls != [] {
      QuitEndsIterations(Next(s, ls[0]), ls[1..]);
    }
  }

  // The loop thread's own moves, apart from what its callbacks choose to do.
  predicate Control<F>(l: Label<F>) {
    !l.LoopPush? && !l.LoopQuit? && !l.Push? && !l.SetQuit? && !l.Wake?
  }

  function Phase<F>(s: State<F>): nat {
    match s.pc
    case NotStarted => 5
    case InPoll => 4
    case Handling(_, _) => 3
    case Running(_) => 2
    case QuitCheck => 1
    case Exited => 0
  }

  function Remaining<F>(s: State<F>): nat {
    match s.pc
    case Handling(woken, left) => left + if woken then 1 else 0
    case Running(rest) => |rest| + if s.loopOwes then 1 else 0
    case _ => 0
  }

  predicate Closer<F>(r: State<F>, s: State<F>) {
    Phase(r) < Phase(s) || (Phase(r) == Phase(s) && Remaining(r) < Remaining(s))
  }

  // After quit, every control move of the loop thread brings it closer to the end of loop(), and
  // nothing other threads do takes it further away.
  lemma QuitGetsCloser<F>(s: State<F>, l: Label<F>)
    requires Inv(s) && s.quit && Enabled(s, l)
    ensures Control(l) ==> Closer(Next(s, l), s)
    ensures l.Push? || l.SetQuit? || l.Wake? ==> Phase(Next(s, l)) == Phase(s) && Remaining(Next(s, l)) == Remaining(s)
  {
  }

  // Once a quit has been heard, the loop thread always has such a move, and in poll it is one the
  // eventfd makes ready, not the timeout.
  lemma QuitNeverBlocks<F>(s: State<F>) returns (l: Label<F>)
    requires Inv(s) && Heard(s) && !s.pc.Exited?
    ensures Control(l) && Enabled(s, l) && (l.PollReturn? ==> l.woken && s.counter > 0)
  {
    match s.pc
    case NotStarted => l := Start;
    case QuitCheck => l := Check;
    case InPoll => l := PollReturn(true, 0);
    case Handling(woken, left) => l := if woken then HandleWakeup else if left > 0 then HandleOther else Swap;
    case Running(rest) => l := if s.loopOwes then LoopWake else if rest != [] then RunNext else EndBatch;
  }

  predicate AllControl<F>(ls: seq<Label<F>>) {
    ls == [] || (Control(ls[0]) && AllControl(ls[1..]))
  }

  // So the loop thread, left to itself, runs to the end of loop().
  lemma {:induction false} QuitReachesExit<F>(s: State<F>) returns (ls: seq<Label<F>>)
    requires Inv(s) && Heard(s)
    ensures Runs(s, ls) && AllControl(ls) && Exec(s, ls).pc.Exited?
    decreases Phase(s), Remaining(s)
  {
    if s.pc.Exited? {
      ls := [];
    } else {
      var l := QuitNeverBlocks(s);
      QuitGetsCloser(s, l);
      StepKeepsInv(s, l);
      var rest := QuitReachesExit(Next(s, l));
      ls := [l] + rest;
      assert ls[1..] == rest;
    }
  }

  // In particular after any run in which some thread's quit() has completed.
  lemma CompletedQuitEndsLoop<F>(ls: seq<Label<F>>) returns (more: seq<Label<F>>)
    requires Runs(Init<F>(), ls) && QuitCompleted(ls)
    ensures var s := Exec(Init<F>(), ls); Runs(s, more) && AllControl(more) && Exec(s, more).pc.Exited?
  {
    RunKeepsInv(Init<F>(), ls);
    QuitIsNeverLost(Init<F>(), ls);
    more := QuitReachesExit(Exec(Init<F>(), ls));
  }

  // A quit() that a callback calls on the loop thread needs no wakeup: from there the loop thread runs to
  // the end of loop() without beginning another iteration.
  lemma OwnQuitEndsLoop<F>(s: State<F>) returns (more: seq<Label<F>>)
    requires Inv(s) && Enabled(s, LoopQuit)
    ensures var q := Next(s, LoopQuit);
            && q.quit && Runs(q, more) && AllControl(more)
            && Exec(q, more).pc.Exited? && Exec(q, more).iterations == s.iterations
  {
    var q := Next(s, LoopQuit);
    StepKeepsInv(s, LoopQuit);
    more := QuitReachesExit(q);
    QuitEndsIterations(q, more);
  }

  // ---------- pending functors are executed ----------

  // How far the loop thread is from a state with nothing pending and no batch running.
  function WorkPhase<F>(s: State<F>): nat {
    match s.pc
    case Running(_) => 4
    case NotStarted => 5
    case QuitCheck => 3
    case InPoll => 2
    case Handling(_, _) => 1
    case Exited => 0
  }

  function Unswapped<F>(s: State<F>): nat {
    if s.pending == [] then 0 else 1
  }

  // If functors are pending, the eventfd is readable or the loop thread itself is about to write it.
  predicate WorkIsSeen<F>(s: State<F>) {
    !s.pc.Handling? && s.pending != [] ==> s.counter > 0 || s.loopOwes
  }

  // The loop thread's next move when there is work.
  lemma WorkMove<F>(s: State<F>) returns (l: Label<F>)
    requires Inv(s) && !s.quit && !s.pc.Exited? && WorkIsSeen(s)
    requires s.pending != [] || (s.pc.Running? && s.pc.rest != [])
    ensures Control(l) && Enabled(s, l) && (l.PollReturn? ==> l.woken && s.counter > 0)
    ensures var r := Next(s, l);
            && !r.quit && !r.pc.Exited? && WorkIsSeen(r) && r.pushed == s.pushed
            && Unswapped(r) <= Unswapped(s)
            && (Unswapped(r) < Unswapped(s) || WorkPhase(r) < WorkPhase(s)
               || (WorkPhase(r) == WorkPhase(s) && Remaining(r) < Remaining(s)))
  {
    match s.pc
    case NotStarted => l := Start;
    case QuitCheck => l := Check;
    case InPoll => l := PollReturn(true, 0);
    case Handling(woken, left) => l := if woken then HandleWakeup else if left > 0 then HandleOther else Swap;
    case Running(rest) => l := if s.loopOwes then LoopWake else if rest != [] then RunNext else EndBatch;
  }

  // Unless the loop is asked to quit, the loop thread, left to itself, executes everything that was
  // ever pushed, without relying on the poll's timeout, as soon as the eventfd says that there is
  // work.  Which it does once the threads that pushed have written it, if nothing was queued before loop().
  lemma {:induction false} EverythingIsExecuted<F>(s: State<F>) returns (ls: seq<Label<F>>)
    requires Inv(s) && !s.quit && !s.pc.Exited? && WorkIsSeen(s)
    ensures Runs(s, ls) && AllControl(ls) && NoTimeouts(ls)
    ensures Exec(s, ls).executed == s.pushed && Exec(s, ls).pushed == s.pushed
    ensures !Exec(s, ls).quit && !Exec(s, ls).pc.Exited?
    decreases Unswapped(s), WorkPhase(s), Remaining(s)
  {
    if s.pending == [] && Batch(s) == [] {
      ls := [];
      assert s.executed + [] + [] == s.executed;
    } else {
      var l := WorkMove(s);
      StepKeepsInv(s, l);
      var rest := EverythingIsExecuted(Next(s, l));
      ls := [l] + rest;
      assert ls[1..] == rest;
    }
  }

  predicate NoTimeouts<F>(ls: seq<Label<F>>) {
    ls == [] || ((ls[0].PollReturn? ==> ls[0].woken) && NoTimeouts(ls[1..]))
  }
}
