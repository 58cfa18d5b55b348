/**
 EventLoopThread.cpp: a thread that builds a loop on its own stack, publishes its address, serves,
 and withdraws it; an owner that waits for the address and later quits the loop and joins.
 */
module EventLoopThreads {
  import opened EventLoopModel
  import T = EventLoopTheorems

  datatype Thread = Unborn | Building | Serving | Finished

  // What the owner is doing: nothing yet, waiting in startLoop, past the wait and the mutex, holding
  // what startLoop returned, inside the destructor's quit(), joining, joined; or it has called quit()
  // through a null pointer, or gone on in quit() with a loop that no longer exists.
  datatype Owner =
    | Before
    | Waiting
    | Woken
    | Holding(nonNull: bool)
    | Quitting
    | Joining
    | Joined
    | NullCall
    | GoneLoop

  datatype System<F> = System(owner: Owner, thread: Thread, loopPtr: bool, loop: State<F>)

  datatype Step<F> =
    | Spawn              // startLoop: create the thread
    | Publish            // threadFunc: the loop is built; m_loop = &loop; notify_one
    | WaitEnds           // startLoop: m_loop is not null; the mutex is released
    | Return             // startLoop: m_loop is read again, and returned
    | Serve(l: Label<F>) // the loop thread, or a thread that has the loop's address
    | Withdraw           // threadFunc: loop() has returned, m_loop = NULL
    | DtorQuit           // ~EventLoopThread: m_loop->quit() stores the flag
    | DtorWake           // and writes the eventfd
    | Join

  // The thread number under which the owner's quit() owes its wakeup.
  const OWNER := 0

  predicate ByOwner<F>(l: Label<F>) {
    (l.Push? || l.SetQuit? || l.Wake?) && l.tid == OWNER
  }

  ghost function InitSystem<F>(): System<F> {
    System(Before, Unborn, false, Init<F>())
  }

  predicate CanStep<F>(s: System<F>, t: Step<F>) {
    match t
    case Spawn => s.owner.Before?
    case Publish => s.thread.Building?
    case WaitEnds => s.owner.Waiting? && s.loopPtr
    case Return => s.owner.Woken?
    case Serve(l) => s.thread.Serving? && Enabled(s.loop, l) && !ByOwner(l)
    case Withdraw => s.thread.Serving? && s.loop.pc.Exited?
    case DtorQuit => s.owner.Holding?
    case DtorWake => s.owner.Quitting?
    case Join => s.owner.Joining? && s.thread.Finished?
  }

  function TakeStep<F>(s: System<F>, t: Step<F>): System<F>
    requires CanStep(s, t)
  {
    match t
    case Spawn => s.(owner := Waiting, thread := Building)
    case Publish => s.(thread := Serving, loopPtr := true)
    case WaitEnds => s.(owner := Woken)
    case Return => s.(owner := Holding(s.loopPtr))
    case Serve(l) => s.(loop := Next(s.loop, l))
    case Withdraw => s.(thread := Finished, loopPtr := false)
    case DtorQuit =>
      if !s.loopPtr then s.(owner := NullCall)
      else s.(owner := Quitting, loop := s.loop.(quit := true, quitting := s.loop.quitting + {OWNER}))
    case DtorWake =>
      if s.thread.Finished? then s.(owner := GoneLoop)
      else s.(owner := Joining,
              loop := s.loop.(quitting := s.loop.quitting - {OWNER}, counter := Signal(s.loop.counter)))
    case Join => s.(owner := Joined)
  }

  predicate Legal<F>(s: System<F>, ts: seq<Step<F>>)
    decreases |ts|
  {
    ts == [] || (CanStep(s, ts[0]) && Legal(TakeStep(s, ts[0]), ts[1..]))
  }

  function RunSystem<F>(s: System<F>, ts: seq<Step<F>>): System<F>
    requires Legal(s, ts)
    decreases |ts|
  {
    if ts == [] then s else RunSystem(TakeStep(s, ts[0]), ts[1..])
  }

  // Nobody but the destructor asks this loop to quit.
  predicate OnlyOwnerQuits<F>(ts: seq<Step<F>>) {
    ts == [] || (!(ts[0].Serve? && (ts[0].l.LoopQuit? || ts[0].l.SetQuit?)) && OnlyOwnerQuits(ts[1..]))
  }

  ghost predicate SystemInv<F>(s: System<F>) {
    && Inv(s.loop)
    && (s.loopPtr <==> s.thread.Serving?)
    && (s.thread.Unborn? || s.thread.Building? ==> s.loop == Init<F>() && (s.owner.Before? || s.owner.Waiting?))
    && (s.thread.Unborn? <==> s.owner.Before?)
    && OWNER !in s.loop.pushing
    && (OWNER in s.loop.quitting <==> s.owner.Quitting? || s.owner.GoneLoop?)
    && (s.owner.Joining? ==> T.Heard(s.loop))
    && (s.owner.Quitting? || s.owner.Joined? ==> s.loop.quit)
    && (s.loop.pc.Exited? ==> s.loop.quit)
    && (s.thread.Finished? ==> s.loop.pc.Exited?)
    && (s.owner.Joined? ==> s.thread.Finished?)
  }

  lemma ServeKeepsSystemInv<F>(s: System<F>, l: Label<F>)
    requires SystemInv(s) && CanStep(s, Serve(l))
    ensures SystemInv(TakeStep(s, Serve(l)))
  {
    StepKeepsInv(s.loop, l);
  }

  lemma DtorKeepsSystemInv<F>(s: System<F>, t: Step<F>)
    requires SystemInv(s) && CanStep(s, t) && (t.DtorQuit? || t.DtorWake?)
    ensures SystemInv(TakeStep(s, t))
  {
    if t.DtorQuit? {
      if s.loopPtr {
        StepKeepsInv(s.loop, SetQuit(OWNER));
      }
    } else {
      StepKeepsInv(s.loop, Wake(OWNER));
      assert s.loop.pushing - {OWNER} == s.loop.pushing;
    }
  }

  lemma StepKeepsSystemInv<F>(s: System<F>, t: Step<F>)
    requires SystemInv(s) && CanStep(s, t)
    ensures SystemInv(TakeStep(s, t))
  {
    match t
    case Serve(l) => ServeKeepsSystemInv(s, l);
    case DtorQuit => DtorKeepsSystemInv(s, t);
    case DtorWake => DtorKeepsSystemInv(s, t);
    case _ =>
  }

  lemma {:induction false} RunKeepsSystemInv<F>(s: System<F>, ts: seq<Step<F>>)
    requires SystemInv(s) && Legal(s, ts)
    ensures SystemInv(RunSystem(s, ts))
    decreases |ts|
  {
    if ts != [] {
      StepKeepsSystemInv(s, ts[0]);
      RunKeepsSystemInv(TakeStep(s, ts[0]), ts[1..]);
    }
  }

  // While only the destructor quits the loop: startLoop returns a loop, and until the destructor
  // runs the loop is alive and has not been asked to stop.
  ghost predicate Unhurried<F>(s: System<F>) {
    && (s.owner.Before? || s.owner.Waiting? || s.owner.Woken? || s.owner.Holding? ==> !s.loop.quit)
    && (s.owner.Holding? ==> s.owner.nonNull)
    && !s.owner.NullCall?
  }

  lemma {:induction false} OwnerNeverFindsNull<F>(s: System<F>, ts: seq<Step<F>>)
    requires SystemInv(s) && Legal(s, ts) && OnlyOwnerQuits(ts) && Unhurried(s)
    ensures Unhurried(RunSystem(s, ts))
    decreases |ts|
  {
    if ts != [] {
      var m := TakeStep(s, ts[0]);
      StepKeepsSystemInv(s, ts[0]);
      OwnerNeverFindsNull(m, ts[1..]);
    }
  }

  lemma OwnerFindsItsLoop<F>(ts: seq<Step<F>>)
    requires Legal(InitSystem<F>(), ts) && OnlyOwnerQuits(ts)
    ensures Unhurried(RunSystem(InitSystem<F>(), ts))
  {
    OwnerNeverFindsNull(InitSystem<F>(), ts);
  }

  // The thread has withdrawn its loop.
  predicate Withdrawn<F>(ts: seq<Step<F>>) {
    ts != [] && (ts[0].Withdraw? || Withdrawn(ts[1..]))
  }

  lemma {:induction false} FinishedIffWithdrawn<F>(s: System<F>, ts: seq<Step<F>>)
    requires SystemInv(s) && Legal(s, ts)
    ensures RunSystem(s, ts).thread.Finished? <==> s.thread.Finished? || Withdrawn(ts)
    decreases |ts|
  {
    if ts != [] {
      StepKeepsSystemInv(s, ts[0]);
      FinishedIffWithdrawn(TakeStep(s, ts[0]), ts[1..]);
    }
  }

  // What startLoop returns: the loop, unless the thread has withdrawn it between the end of the wait
  // and the return.
  lemma ReturnsTheLoopIff<F>(ts: seq<Step<F>>)
    requires Legal(InitSystem<F>(), ts) && CanStep(RunSystem(InitSystem<F>(), ts), Return)
    ensures TakeStep(RunSystem(InitSystem<F>(), ts), Return).owner == Holding(!Withdrawn(ts))
  {
    RunKeepsSystemInv(InitSystem<F>(), ts);
    FinishedIffWithdrawn(InitSystem<F>(), ts);
  }

  // In general, the destructor's quit() goes through a null pointer if and only if the thread
  // had already withdrawn the loop, which it does once loop() has returned.
  lemma NullCallIff<F>(ts: seq<Step<F>>)
    requires Legal(InitSystem<F>(), ts) && CanStep(RunSystem(InitSystem<F>(), ts), DtorQuit)
    ensures TakeStep(RunSystem(InitSystem<F>(), ts), DtorQuit).owner.NullCall?
            <==> Withdrawn(ts)
  {
    RunKeepsSystemInv(InitSystem<F>(), ts);
    FinishedIffWithdrawn(InitSystem<F>(), ts);
  }

  // It happens: a callback that runs at once quits the loop, the thread withdraws it, and only then
  // is the owner's object destroyed.
  lemma NullCallExample<F>() returns (ts: seq<Step<F>>)
    ensures Legal(InitSystem<F>(), ts) && RunSystem(InitSystem<F>(), ts).owner.NullCall?
  {
    var s := InitSystem<F>();
    var s4 := s.(owner := Holding(true), thread := Serving, loopPtr := true);
    var s1 := TakeStep(s, Spawn);
    var s2 := TakeStep(s1, Publish);
    var late := QuitsAtOnce(s4);
    Unfold(TakeStep(s2, WaitEnds), Return, late);
    Unfold(s2, WaitEnds, [Return] + late);
    Unfold(s1, Publish, [WaitEnds] + ([Return] + late));
    Unfold(s, Spawn, [Publish] + ([WaitEnds] + ([Return] + late)));
    ts := [Spawn] + ([Publish] + ([WaitEnds] + ([Return] + late)));
  }

  lemma QuitsAtOnce<F>(s: System<F>) returns (ts: seq<Step<F>>)
    requires s == InitSystem<F>().(owner := Holding(true), thread := Serving, loopPtr := true)
    ensures Legal(s, ts) && RunSystem(s, ts).owner.NullCall?
  {
    var s1 := TakeStep(s, Serve(LoopQuit));
    var s2 := TakeStep(s1, Serve(Start));
    var s3 := TakeStep(s2, Serve(Check));
    Unfold(TakeStep(s3, Withdraw), DtorQuit, []);
    Unfold(s3, Withdraw, [DtorQuit] + []);
    ts := [Withdraw] + ([DtorQuit] + []);
    Unfold(s2, Serve(Check), ts);
    Unfold(s1, Serve(Start), [Serve(Check)] + ts);
    Unfold(s, Serve(LoopQuit), [Serve(Start)] + ([Serve(Check)] + ts));
    ts := [Serve(LoopQuit)] + ([Serve(Start)] + ([Serve(Check)] + ts));
  }

  lemma Unfold<F>(s: System<F>, t: Step<F>, rest: seq<Step<F>>)
    requires CanStep(s, t) && Legal(TakeStep(s, t), rest)
    ensures Legal(s, [t] + rest) && RunSystem(s, [t] + rest) == RunSystem(TakeStep(s, t), rest)
    ensures !(t.Serve? && (t.l.LoopQuit? || t.l.SetQuit?)) ==> (OnlyOwnerQuits([t] + rest) <==> OnlyOwnerQuits(rest))
  {
    assert ([t] + rest)[1..] == rest;
  }

  // The destructor's quit() writes to a loop that is gone if and only if the thread withdraws the loop
  // between its store of the flag and its write.
  lemma GoneLoopIff<F>(before: seq<Step<F>>, between: seq<Step<F>>)
    requires Legal(InitSystem<F>(), before) && CanStep(RunSystem(InitSystem<F>(), before), DtorQuit)
    requires var s := TakeStep(RunSystem(InitSystem<F>(), before), DtorQuit);
             Legal(s, between) && CanStep(RunSystem(s, between), DtorWake)
    ensures var s := TakeStep(RunSystem(InitSystem<F>(), before), DtorQuit);
            TakeStep(RunSystem(s, between), DtorWake).owner.GoneLoop? <==> Withdrawn(between)
  {
    RunKeepsSystemInv(InitSystem<F>(), before);
    var s0 := RunSystem(InitSystem<F>(), before);
    StepKeepsSystemInv(s0, DtorQuit);
    FinishedIffWithdrawn(TakeStep(s0, DtorQuit), between);
    if s0.thread.Finished? {
      NullCallEnds(TakeStep(s0, DtorQuit), between);
    }
  }

  lemma {:induction false} NullCallEnds<F>(s: System<F>, ts: seq<Step<F>>)
    requires s.owner.NullCall? && Legal(s, ts)
    ensures RunSystem(s, ts).owner.NullCall?
    decreases |ts|
  {
    if ts != [] {
      NullCallEnds(TakeStep(s, ts[0]), ts[1..]);
    }
  }

  // It happens although nobody but the destructor quits the loop: the thread reads the flag and is
  // gone before the destructor gets to write.
  lemma GoneLoopExample<F>() returns (ts: seq<Step<F>>)
    ensures Legal(InitSystem<F>(), ts) && OnlyOwnerQuits(ts) && RunSystem(InitSystem<F>(), ts).owner.GoneLoop?
  {
    var s := InitSystem<F>();
    var s1 := TakeStep(s, Spawn);
    var s2 := TakeStep(s1, Publish);
    var late := QuitOvertaken(s.(owner := Holding(true), thread := Serving, loopPtr := true));
    Unfold(TakeStep(s2, WaitEnds), Return, late);
    Unfold(s2, WaitEnds, [Return] + late);
    Unfold(s1, Publish, [WaitEnds] + ([Return] + late));
    Unfold(s, Spawn, [Publish] + ([WaitEnds] + ([Return] + late)));
    ts := [Spawn] + ([Publish] + ([WaitEnds] + ([Return] + late)));
  }

  lemma QuitOvertaken<F>(s: System<F>) returns (ts: seq<Step<F>>)
    requires s == InitSystem<F>().(owner := Holding(true), thread := Serving, loopPtr := true)
    ensures Legal(s, ts) && OnlyOwnerQuits(ts) && RunSystem(s, ts).owner.GoneLoop?
  {
    var s1 := TakeStep(s, Serve(Start));
    var s2 := TakeStep(s1, DtorQuit);
    var s3 := TakeStep(s2, Serve(Check));
    Unfold(TakeStep(s3, Withdraw), DtorWake, []);
    Unfold(s3, Withdraw, [DtorWake] + []);
    ts := [Withdraw] + ([DtorWake] + []);
    Unfold(s2, Serve(Check), ts);
    Unfold(s1, DtorQuit, [Serve(Check)] + ts);
    Unfold(s, Serve(Start), [DtorQuit] + ([Serve(Check)] + ts));
    ts := [Serve(Start)] + ([DtorQuit] + ([Serve(Check)] + ts));
  }

  // Otherwise the join ends if callbacks return: whatever other threads are doing, the loop thread
  // by itself runs to the end of threadFunc.
  lemma JoinEnds<F>(ts: seq<Step<F>>) returns (more: seq<Step<F>>)
    requires Legal(InitSystem<F>(), ts)
    requires RunSystem(InitSystem<F>(), ts).owner.Joining?
    ensures var s := RunSystem(InitSystem<F>(), ts); Legal(s, more) && RunSystem(s, more).owner.Joined?
    ensures forall i :: 0 <= i < |more| ==>
              more[i].Withdraw? || more[i].Join? || (more[i].Serve? && T.Control(more[i].l))
  {
    var s := RunSystem(InitSystem<F>(), ts);
    RunKeepsSystemInv(InitSystem<F>(), ts);
    if s.thread.Finished? {
      more := [Join];
      assert more[1..] == [];
    } else {
      var ls := T.QuitReachesExit(s.loop);
      more := ServeAll(s, ls);
    }
  }

  lemma {:induction false} ServeAll<F>(s: System<F>, ls: seq<Label<F>>) returns (more: seq<Step<F>>)
    requires s.thread.Serving? && s.owner.Joining?
    requires Runs(s.loop, ls) && T.AllControl(ls) && Exec(s.loop, ls).pc.Exited?
    ensures Legal(s, more) && RunSystem(s, more).owner.Joined?
    ensures forall i :: 0 <= i < |more| ==>
              more[i].Withdraw? || more[i].Join? || (more[i].Serve? && T.Control(more[i].l))
    decreases |ls|
  {
    if ls == [] {
      more := [Withdraw, Join];
      var m := TakeStep(s, Withdraw);
      var last: seq<Step<F>> := [Join];
      assert more[1..] == last && last[1..] == [];
      assert Legal(m, last) && RunSystem(m, last) == RunSystem(TakeStep(m, Join), []);
    } else {
      var rest := ServeAll(TakeStep(s, Serve(ls[0])), ls[1..]);
      more := [Serve(ls[0])] + rest;
      assert more[1..] == rest;
    }
  }
}
