/**
 What the timer queue promises over whole runs: no timer is lost, each round runs exactly the due
 timers, and the timerfd covers the earliest one.
 */
module TimerTheorems {
  import opened TimerModel
  import opened TimerInvariant
  import opened Seqs

  // ---------- conservation ----------

  // Through any run, every live timer is in exactly one place between calls, and every entry's
  // key is its timer's expiration; no entry names a deleted timer.
  lemma EveryTimerInOnePlace(steps: seq<Step>, id: nat)
    requires Runs(Empty, steps)
    ensures var q := After(Empty, steps);
            && Count(q.entries, id) + Occurs(q.queued, id) == (if id in q.heap then 1 else 0)
            && KeysAgree(q.heap, q.entries) && Sorted(q.entries)
  {
    NotElsewhere(After(Empty, steps), [], [], id);
  }

  // ~TimerQueue deletes the timers in the set.
  ghost function Destroy(q: Queue): Queue {
    q.(heap := q.heap - (set i | 0 <= i < |q.entries| :: q.entries[i].id), entries := [])
  }

  lemma DestroyKeepsInv(q: Queue)
    requires Inv(q)
    ensures Inv(Destroy(q))
    ensures forall id :: id in q.queued ==> id in Destroy(q).heap
  {
    var r := Destroy(q);
    forall id: nat ensures InOnePlace(r.heap, r.entries, r.queued, [], [], id) {
      DestroyAt(q, id);
    }
    forall id | id in q.queued ensures id in r.heap {
      DestroyAt(q, id);
      OccursIn(q.queued, id);
    }
  }

  // Of the live timers, those in the set are deleted and those queued are not.
  lemma DestroyAt(q: Queue, id: nat)
    requires Inv(q)
    ensures Occurs(q.queued, id) == if id in Destroy(q).heap then 1 else 0
  {
    NotElsewhere(q, [], [], id);
    if Count(q.entries, id) >= 1 {
      var i := CountIndex(q.entries, id);
    }
    if i :| 0 <= i < |q.entries| && q.entries[i].id == id {
      CountAt(q.entries, i);
    }
  }

  // So it frees everything exactly when no add is still queued in the loop: those timers are lost.
  lemma DestroyFreesAllIff(q: Queue)
    requires Inv(q)
    ensures Destroy(q).heap == map[] <==> q.queued == []
    ensures Destroy(q).heap.Keys == set i | 0 <= i < |q.queued| :: q.queued[i]
  {
    var r := Destroy(q);
    forall id: nat ensures id in r.heap <==> id in q.queued {
      DestroyAt(q, id);
      OccursIn(q.queued, id);
    }
    if q.queued != [] {
      assert q.queued[0] in r.heap;
    }
  }

  // The first add, from either side.
  lemma OneAdd(r: Request, inLoop: bool)
    ensures Inv(Empty) && Runs(Empty, [Add(r, inLoop)]) && After(Empty, [Add(r, inLoop)]) == Next(Empty, Add(r, inLoop))
    ensures var q := Next(Empty, Add(r, inLoop));
            && q.heap == map[r.addr := Timer(r.expiration, r.interval)]
            && q.entries == (if inLoop then [Entry(r.expiration, r.addr)] else [])
            && q.queued == (if inLoop then [] else [r.addr])
  {
    var q := Next(Empty, Add(r, inLoop));
    assert [Add(r, inLoop)][1..] == [];
    assert After(q, []) == q;
  }

  // It happens with one add from another thread that the loop never gets to run.
  lemma DestroyLeakExample(r: Request)
    ensures Inv(Empty) && Runs(Empty, [Add(r, false)])
    ensures r.addr in Destroy(After(Empty, [Add(r, false)])).heap
  {
    OneAdd(r, false);
  }

  // ---------- one round ----------

  // One interval after a timer's time.
  function NextTime(t: Timer): int {
    t.expiration + Delta(t.interval)
  }

  // What resetTimerList is to do to a timer of the batch: any positive interval repeats.
  ghost predicate WasReset(heap: map<nat, Timer>, heap': map<nat, Timer>, id: nat) {
    id in heap &&
    if heap[id].interval > 0.0 then
      id in heap' && heap'[id] == Timer(NextTime(heap[id]), heap[id].interval)
    else id !in heap'
  }

  ghost predicate Untouched(heap: map<nat, Timer>, heap': map<nat, Timer>, id: nat) {
    if id in heap then id in heap' && heap'[id] == heap[id] else id !in heap'
  }

  lemma {:induction false} ResetAllHeap(q: Queue, batch: seq<Entry>, id: nat)
    requires AllIn(batch, q.heap)
    ensures Count(batch, id) == 0 ==> Untouched(q.heap, ResetAll(q, batch).heap, id)
    ensures Count(batch, id) > 0 ==> WasReset(q.heap, ResetAll(q, batch).heap, id)
    decreases |batch|
  {
    if batch != [] {
      ResetAllHeap(ResetOne(q, batch[0]), batch[1..], id);
      if id == batch[0].id && Count(batch[1..], id) > 0 {
        var i := CountIndex(batch[1..], id);
        assert false;
      }
    }
  }

  // handleRead runs all and only the timers due at the time getExpired sampled, in order of
  // expiration, each once; nothing a callback adds runs in the same round.
  lemma RoundRunsExactlyTheDue(q: Queue, readAt: int, now: int, scripts: seq<seq<Request>>, end: int)
    requires Inv(q) && MayRound(q, now, scripts)
    ensures var batch := Due(q, now);
            && HandleRead(q, readAt, now, scripts, end).log == q.log + batch
            && (forall e :: e in batch <==> e in q.entries && e.when <= now)
            && Sorted(batch) && AllIn(batch, q.heap)
            && (forall r :: r in AddsOf(scripts, |batch|) ==> Count(batch, r.addr) == 0)
  {
    RunDueHolds(q, readAt, now, scripts);
    ResetAllHolds(RunDue(q, readAt, now, scripts), Due(q, now));
    TakeDueHolds(q, now);
    IdsBelowSentinel(q);
    DueSplit(q, now);
    BatchInHeap(TakeDue(q, now), Due(q, now));
    forall r | r in AddsOf(scripts, |Due(q, now)|) ensures Count(Due(q, now), r.addr) == 0 {
      if Count(Due(q, now), r.addr) >= 1 {
        var i := CountIndex(Due(q, now), r.addr);
      }
    }
  }

  // The adds of a list of callbacks are theirs, one callback after another.
  lemma {:induction false} AddsOfPrefixScripts(a: seq<seq<Request>>, b: seq<seq<Request>>, n: nat)
    requires n <= |a|
    ensures AddsOf(a + b, n) == AddsOf(a, n)
  {
    if n > 0 {
      AddsOfPrefixScripts(a, b, n - 1);
    }
  }

  lemma {:induction false} AddsOfAppend(a: seq<seq<Request>>, b: seq<seq<Request>>, n: nat)
    ensures AddsOf(a + b, |a| + n) == AddsOf(a, |a|) + AddsOf(b, n)
    decreases n
  {
    if n == 0 {
      AddsOfPrefixScripts(a, b, |a|);
    } else {
      AddsOfAppend(a, b, n - 1);
      var last := if n - 1 < |b| then b[n - 1] else [];
      assert n - 1 < |b| ==> (a + b)[|a| + n - 1] == b[n - 1];
      assert AddsOf(a + b, |a| + n) == AddsOf(a + b, |a| + n - 1) + last;
      Regroup(AddsOf(a, |a|), AddsOf(b, n - 1), last);
    }
  }

  lemma {:induction false} AddsOfHas(scripts: seq<seq<Request>>, n: nat, i: nat, r: Request)
    requires i < n && i < |scripts| && r in scripts[i]
    ensures r in AddsOf(scripts, n)
    decreases n
  {
    if i < n - 1 {
      AddsOfHas(scripts, n - 1, i, r);
    }
  }

  lemma OneScript(script: seq<Request>)
    ensures AddsOf([script], 1) == script
  {
    assert AddsOf([script], 1) == AddsOf([script], 0) + script;
  }

  // Every timer that a callback of the round adds is live after it, as it was asked for, and waits in
  // the set.
  lemma CallbackAddsAreLive(q: Queue, readAt: int, now: int, scripts: seq<seq<Request>>, end: int, i: nat, r: Request)
    requires Inv(q) && MayRound(q, now, scripts)
    requires i < |Due(q, now)| && i < |scripts| && r in scripts[i]
    ensures var after := HandleRead(q, readAt, now, scripts, end);
            && r.addr in after.heap && after.heap[r.addr] == Timer(r.expiration, r.interval)
            && Entry(r.expiration, r.addr) in after.entries
  {
    var batch, q1, after := Due(q, now), RunDue(q, readAt, now, scripts), HandleRead(q, readAt, now, scripts, end);
    AddsOfHas(scripts, |batch|, i, r);
    var k :| 0 <= k < |AddsOf(scripts, |batch|)| && AddsOf(scripts, |batch|)[k] == r;
    RunDueHolds(q, readAt, now, scripts);
    RoundRunsExactlyTheDue(q, readAt, now, scripts, end);
    ResetAllHolds(q1, batch);
    ResetAllHeap(q1, batch, r.addr);
    RoundQueue(q, readAt, now, scripts, end);
    NotElsewhere(q, [], [], r.addr);
    NotElsewhere(after, [], [], r.addr);
    var j := CountIndex(after.entries, r.addr);
    assert after.entries[j] == Entry(r.expiration, r.addr);
  }

  // A queued add that the loop runs leaves the queue and puts its timer in the set.
  lemma QueuedAddArrives(q: Queue, clock: int)
    requires Inv(q) && q.queued != []
    ensures q.queued[0] in q.heap
    ensures var r, id := RunQueuedAdd(q, clock), q.queued[0];
            r.queued == q.queued[1..] && Entry(q.heap[id].expiration, id) in r.entries
  {
    RunQueuedAddHolds(q, [], clock);
    var r, id := RunQueuedAdd(q, clock), q.queued[0];
    NotElsewhere(q, [], [], id);
    assert Occurs(q.queued, id) == 1 + Occurs(q.queued[1..], id);
    NotElsewhere(r, [], [], id);
    var j := CountIndex(r.entries, id);
    assert r.entries[j] == Entry(q.heap[id].expiration, id);
  }

  // An add on the loop thread is in the set at once, one from another thread waits last in the queue.
  lemma AddArrives(q: Queue, r: Request, inLoop: bool)
    requires Inv(q) && r.addr !in q.heap
    ensures var after := AddTimer(q, r, inLoop);
            if inLoop then after.queued == q.queued && Entry(r.expiration, r.addr) in after.entries
            else after.queued == q.queued + [r.addr] && after.entries == q.entries && after.fd == q.fd
  {
    var after := AddTimer(q, r, inLoop);
    AddTimerHolds(q, [], r, inLoop);
    if inLoop {
      NotElsewhere(q, [], [], r.addr);
      NotElsewhere(after, [], [], r.addr);
      var j := CountIndex(after.entries, r.addr);
      assert after.entries[j] == Entry(r.expiration, r.addr);
    }
  }

  // What a round leaves of a timer that was live before it: untouched if it was not due, one
  // interval later if it repeats, deleted otherwise.
  lemma RoundOutcome(q: Queue, readAt: int, now: int, scripts: seq<seq<Request>>, end: int, id: nat)
    requires Inv(q) && MayRound(q, now, scripts) && id in q.heap
    ensures var r := HandleRead(q, readAt, now, scripts, end);
            if Count(Due(q, now), id) == 0 then Untouched(q.heap, r.heap, id) else WasReset(q.heap, r.heap, id)
  {
    RunDueHolds(q, readAt, now, scripts);
    ResetAllHolds(RunDue(q, readAt, now, scripts), Due(q, now));
    ResetAllHeap(RunDue(q, readAt, now, scripts), Due(q, now), id);
  }

  // ---------- the timerfd covers the earliest timer ----------

  ghost predicate Covered(q: Queue) {
    q.entries != [] ==>
      q.fd.Armed? && q.fd.deadline == Max(q.entries[0].when, q.fd.at + MIN_DELAY)
  }

  // While a batch is in flight: if the first timer's time is not after the epoch, adding it has
  // armed the descriptor for the shortest delay.
  ghost predicate EarlyIsArmed(q: Queue) {
    q.entries != [] && q.entries[0].when <= 0 ==>
      q.fd.Armed? && q.fd.at > 0 && q.fd.deadline == q.fd.at + MIN_DELAY
  }

  // No repeating timer will be restarted at a time Timestamp::valid() rejects.
  ghost predicate RestartsValid(q: Queue) {
    forall id :: id in q.heap && q.heap[id].interval > 0.0 ==> NextTime(q.heap[id]) > 0
  }

  predicate RequestValid(r: Request) {
    r.interval > 0.0 ==> r.expiration + Delta(r.interval) > 0
  }

  // So the descriptor has expired if and only if the shortest delay since arming has passed and some
  // timer is due: handleRead is not called in vain, and no due timer waits for longer than that.
  lemma FiresIffDue(q: Queue, now: int)
    requires Inv(q) && Covered(q) && q.entries != []
    ensures q.fd.deadline <= now <==> now >= q.fd.at + MIN_DELAY && Due(q, now) != []
  {
    IdsBelowSentinel(q);
    DueSplit(q, now);
  }

  lemma AddCovers(q: Queue, id: nat, clock: Clock)
    requires id in q.heap && Sorted(q.entries) && Count(q.entries, id) == 0
    ensures Covered(q) ==> Covered(AddTimerInLoop(q, id, clock))
  {
    InsertNew(q.entries, Entry(q.heap[id].expiration, id));
    ResetTimerfdIsExact(q.heap[id].expiration, clock);
  }

  lemma AddTimerCovers(q: Queue, batch: seq<Entry>, r: Request)
    requires Holds(q, batch) && r.addr !in q.heap
    ensures Covered(q) ==> Covered(AddTimer(q, r, true))
  {
    NotElsewhere(q, batch, [], r.addr);
    AddCovers(Allocate(q, r), r.addr, r.clock);
  }

  // Of the set and the requests, request i expires first, and it is the first one made of those that do.
  ghost predicate Earliest(s: seq<Entry>, rs: seq<Request>, i: int) {
    && 0 <= i < |rs| && (s != [] ==> rs[i].expiration < s[0].when)
    && (forall j :: 0 <= j < i ==> rs[i].expiration < rs[j].expiration)
    && (forall j :: i < j < |rs| ==> rs[i].expiration <= rs[j].expiration)
  }

  // The descriptor after a run of adds is armed for the earliest of them, if that comes before all
  // that was in the set, and is as before otherwise.
  ghost predicate ArmedFor(q: Queue, rs: seq<Request>, r: Queue, i: int) {
    if i >= 0 then
      && Earliest(q.entries, rs, i)
      && r.entries != [] && r.entries[0].when == rs[i].expiration
      && r.fd == Armed(rs[i].clock, Max(rs[i].expiration, rs[i].clock + MIN_DELAY))
    else
      && r.fd == q.fd && (q.entries == [] ==> rs == [] && r.entries == [])
      && (q.entries != [] ==> r.entries != [] && r.entries[0].when == q.entries[0].when)
      && (q.entries != [] ==> forall j :: 0 <= j < |rs| ==> rs[j].expiration >= q.entries[0].when)
  }

  lemma {:induction false} AddAllArms(q: Queue, batch: seq<Entry>, rs: seq<Request>) returns (i: int)
    requires Holds(q, batch) && Fresh(q.heap.Keys, rs)
    ensures i < |rs| && ArmedFor(q, rs, AddAll(q, rs), i)
  {
    if rs == [] {
      i := -1;
    } else {
      var front, r := rs[..|rs| - 1], rs[|rs| - 1];
      assert rs == front + [r];
      FreshPrefix(q.heap.Keys, front, rs);
      var k := AddAllArms(q, batch, front);
      LastAddHolds(q, batch, front, r);
      i := OneMoreArms(q, front, AddAll(q, front), batch, r, k);
    }
  }

  lemma LastAddHolds(q: Queue, batch: seq<Entry>, front: seq<Request>, r: Request)
    requires Holds(q, batch) && Fresh(q.heap.Keys, front + [r])
    ensures Holds(AddAll(q, front), batch) && r.addr !in AddAll(q, front).heap
  {
    FreshPrefix(q.heap.Keys, front, front + [r]);
    AddAllHolds(q, batch, front);
    ExtendsOne(q.heap, front, AddAll(q, front).heap, r);
  }

  lemma OneMoreArms(q: Queue, front: seq<Request>, m: Queue, batch: seq<Entry>, r: Request, k: int) returns (i: int)
    requires Holds(m, batch) && r.addr !in m.heap && k < |front| && ArmedFor(q, front, m, k)
    ensures i <= |front| && ArmedFor(q, front + [r], AddTimer(m, r, true), i)
  {
    NotElsewhere(m, batch, [], r.addr);
    InsertNew(m.entries, Entry(r.expiration, r.addr));
    ResetTimerfdIsExact(r.expiration, r.clock);
    i := if m.entries == [] || r.expiration < m.entries[0].when then |front| else k;
  }

  lemma AddAllCovers(q: Queue, batch: seq<Entry>, rs: seq<Request>)
    requires Holds(q, batch) && Fresh(q.heap.Keys, rs)
    ensures EarlyIsArmed(q) ==> EarlyIsArmed(AddAll(q, rs))
  {
    var i := AddAllArms(q, batch, rs);
  }

  // Re-inserting timers at valid times never puts a new timer in front at an invalid one.
  lemma {:induction false} ResetAllCovers(q: Queue, batch: seq<Entry>)
    requires Holds(q, batch) && EarlyIsArmed(q)
    requires AllIn(batch, q.heap)
    requires forall e :: e in batch && q.heap[e.id].interval > 0.0 ==> NextTime(q.heap[e.id]) > 0
    ensures EarlyIsArmed(ResetAll(q, batch))
    decreases |batch|
  {
    if batch != [] {
      assert batch[0] in batch;
      ResetOneCovers(q, batch);
      ResetOneHolds(q, batch);
      forall e | e in batch[1..] ensures e in batch && e.id != batch[0].id {
      }
      ResetAllCovers(ResetOne(q, batch[0]), batch[1..]);
    }
  }

  lemma ResetOneCovers(q: Queue, batch: seq<Entry>)
    requires Holds(q, batch) && batch != [] && EarlyIsArmed(q)
    requires q.heap[batch[0].id].interval > 0.0 ==> NextTime(q.heap[batch[0].id]) > 0
    ensures EarlyIsArmed(ResetOne(q, batch[0]))
  {
    var id := batch[0].id;
    NotElsewhere(q, batch, [], id);
    CountAt(batch, 0);
    if q.heap[id].interval > 0.0 {
      InsertNew(q.entries, Entry(NextTime(q.heap[id]), id));
    }
  }

  lemma RunDueEarlyIsArmed(q: Queue, readAt: int, now: Clock, scripts: seq<seq<Request>>)
    requires Inv(q) && MayRound(q, now, scripts)
    ensures EarlyIsArmed(RunDue(q, readAt, now, scripts))
  {
    var q0 := q.(fd := ReadTimerfd(q.fd, readAt));
    TakeDueHolds(q0, now);
    IdsBelowSentinel(q0);
    DueSplit(q0, now);
    AddAllCovers(TakeDue(q0, now), Due(q, now), AddsOf(scripts, |Due(q, now)|));
  }

  lemma RearmCovers(q: Queue, clock: Clock)
    requires Inv(q) && EarlyIsArmed(q)
    ensures Covered(Rearm(q, clock))
  {
    if q.entries != [] {
      ResetTimerfdIsExact(q.heap[q.entries[0].id].expiration, clock);
    }
  }

  // A round leaves the descriptor armed for the earliest timer, whatever the callbacks add, as
  // long as no due repeating timer is restarted at or before the epoch.
  lemma RoundCovers(q: Queue, readAt: int, now: Clock, scripts: seq<seq<Request>>, end: Clock)
    requires Inv(q) && MayRound(q, now, scripts)
    requires forall e :: e in Due(q, now) && q.heap[e.id].interval > 0.0 ==> NextTime(q.heap[e.id]) > 0
    ensures Covered(HandleRead(q, readAt, now, scripts, end))
  {
    var q1, batch := RunDue(q, readAt, now, scripts), Due(q, now);
    RunDueHolds(q, readAt, now, scripts);
    RunDueEarlyIsArmed(q, readAt, now, scripts);
    ResetAllHolds(q1, batch);
    ResetAllCovers(q1, batch);
    RearmCovers(ResetAll(q1, batch), end);
  }

  lemma AddStepCovers(q: Queue, r: Request, inLoop: bool)
    requires Inv(q) && r.addr !in q.heap && Covered(q) && RestartsValid(q) && RequestValid(r)
    ensures Covered(AddTimer(q, r, inLoop)) && RestartsValid(AddTimer(q, r, inLoop))
  {
    AddTimerCovers(q, [], r);
    AddTimerHolds(q, [], r, inLoop);
  }

  lemma RunQueuedStepCovers(q: Queue, clock: Clock)
    requires Inv(q) && q.queued != [] && Covered(q) && RestartsValid(q)
    ensures q.queued[0] in q.heap
    ensures Covered(RunQueuedAdd(q, clock)) && RestartsValid(RunQueuedAdd(q, clock))
  {
    RunQueuedAddHolds(q, [], clock);
    assert q.queued == [q.queued[0]] + q.queued[1..];
    NotElsewhere(q, [], [], q.queued[0]);
    AddCovers(q.(queued := q.queued[1..]), q.queued[0], clock);
  }

  lemma StepCovers(q: Queue, step: Step)
    requires Inv(q) && Enabled(q, step) && Covered(q) && RestartsValid(q)
    requires StepRequestsValid(q, step)
    ensures Covered(Next(q, step)) && RestartsValid(Next(q, step))
  {
    match step
    case Add(r, inLoop) => AddStepCovers(q, r, inLoop);
    case RunQueued(clock) => RunQueuedStepCovers(q, clock);
    case Round(readAt, now, scripts, end) =>
      RoundCovers(q, readAt, now, scripts, end);
      RoundRestartsValid(q, readAt, now, scripts, end);
  }

  ghost predicate StepRequestsValid(q: Queue, step: Step) {
    match step
    case Add(r, _) => RequestValid(r)
    case RunQueued(_) => true
    case Round(_, now, scripts, _) => forall r :: r in AddsOf(scripts, |Due(q, now)|) ==> RequestValid(r)
  }

  lemma RoundRestartsValid(q: Queue, readAt: int, now: int, scripts: seq<seq<Request>>, end: int)
    requires Inv(q) && MayRound(q, now, scripts) && RestartsValid(q)
    requires forall r :: r in AddsOf(scripts, |Due(q, now)|) ==> RequestValid(r)
    ensures RestartsValid(HandleRead(q, readAt, now, scripts, end))
  {
    var q1, batch, r := RunDue(q, readAt, now, scripts), Due(q, now), HandleRead(q, readAt, now, scripts, end);
    var adds := AddsOf(scripts, |batch|);
    RunDueHolds(q, readAt, now, scripts);
    ResetAllHolds(q1, batch);
    forall id | id in r.heap && r.heap[id].interval > 0.0 ensures NextTime(r.heap[id]) > 0 {
      ResetAllHeap(q1, batch, id);
      if id !in q.heap {
        var i :| 0 <= i < |adds| && adds[i].addr == id;
        assert adds[i] in adds;
      }
    }
  }

  ghost predicate RequestsValid(q: Queue, steps: seq<Step>)
    requires Inv(q) && Runs(q, steps)
    decreases |steps|
  {
    steps == [] || (StepRequestsValid(q, steps[0]) && RequestsValid(Next(q, steps[0]), steps[1..]))
  }

  // Outside handleRead the timerfd always covers the earliest timer, through any adds from any
  // thread, re-entrant adds and rounds.
  lemma {:induction false} TimerfdAlwaysCovers(q: Queue, steps: seq<Step>)
    requires Inv(q) && Runs(q, steps) && RequestsValid(q, steps)
    requires Covered(q) && RestartsValid(q)
    ensures Covered(After(q, steps)) && RestartsValid(After(q, steps))
    decreases |steps|
  {
    if steps != [] {
      StepCovers(q, steps[0]);
      TimerfdAlwaysCovers(Next(q, steps[0]), steps[1..]);
    }
  }

  // The calls EventLoop offers: runAt, runAfter and runEvery.
  function RunAt(addr: Addr, time: int, clock: Clock): Request {
    Request(addr, time, 0.0, clock)
  }

  function RunAfter(addr: Addr, delay: real, now: Clock, clock: Clock): Request {
    RunAt(addr, now + Delta(delay), clock)
  }

  function RunEvery(addr: Addr, interval: real, now: Clock, clock: Clock): Request {
    Request(addr, now + Delta(interval), interval, clock)
  }

  // The times they ask for: the given one; and a whole number of microseconds after now that is the
  // delay or the interval cut to microseconds, which repeats exactly if it was runEvery with a positive
  // interval.
  lemma EventLoopRequestTimes(addr: Addr, time: int, x: real, now: Clock, clock: Clock)
    ensures RunAt(addr, time, clock).expiration == time && RunAt(addr, time, clock).interval <= 0.0
    ensures RunAfter(addr, x, now, clock).interval <= 0.0
    ensures x >= 0.0 ==> var t := RunAfter(addr, x, now, clock).expiration - now;
                         t >= 0 && t as real <= x * 1000000.0 < t as real + 1.0
    ensures RunEvery(addr, x, now, clock).interval == x
    ensures RunEvery(addr, x, now, clock).expiration == RunAfter(addr, x, now, clock).expiration
  {
  }

  // None of them can make a request the coverage theorem excludes.
  lemma EventLoopRequestsAreValid(addr: Addr, time: int, x: real, now: Clock, clock: Clock)
    ensures RequestValid(RunAt(addr, time, clock))
    ensures RequestValid(RunAfter(addr, x, now, clock))
    ensures RequestValid(RunEvery(addr, x, now, clock))
  {
  }

  // ---------- exactly when the descriptor is left uncovered ----------

  lemma NoAdds(n: nat)
    ensures AddsOf([], n) == []
  {
  }

  ghost function QuietRound(q: Queue, now: Clock): (r: Queue)
    requires Inv(q)
    ensures Inv(r)
  {
    NoAdds(|Due(q, now)|);
    HandleRead(q, now, now, [], now)
  }

  // The callbacks add a timer that is the earliest when they end, and is due within the shortest
  // delay of being added.
  ghost predicate AddsShortest(s: seq<Entry>, rs: seq<Request>) {
    exists i :: Earliest(s, rs, i) && rs[i].expiration <= rs[i].clock + MIN_DELAY
  }

  lemma OnlyOneEarliest(q: Queue, rs: seq<Request>, r: Queue, i: int)
    requires i < |rs| && ArmedFor(q, rs, r, i)
    ensures AddsShortest(q.entries, rs) <==> i >= 0 && rs[i].expiration <= rs[i].clock + MIN_DELAY
  {
    if k :| Earliest(q.entries, rs, k) {
      assert i >= 0 && k == i;
    }
  }

  // A round entered because the timerfd expired, whatever its callbacks add and whenever it reads
  // the clock, leaves the set covered if and only if no due repeating timer is restarted at or before
  // the epoch, or the callbacks have armed the descriptor for the shortest delay.
  lemma RoundCoversIff(q: Queue, readAt: int, now: Clock, scripts: seq<seq<Request>>, end: Clock)
    requires Inv(q) && MayRound(q, now, scripts) && (q.fd.Armed? ==> q.fd.deadline <= readAt)
    ensures Covered(HandleRead(q, readAt, now, scripts, end)) <==>
              || (forall e :: e in Due(q, now) && q.heap[e.id].interval > 0.0 ==> NextTime(q.heap[e.id]) > 0)
              || AddsShortest(TakeDue(q, now).entries, AddsOf(scripts, |Due(q, now)|))
  {
    if e :| e in Due(q, now) && q.heap[e.id].interval > 0.0 && NextTime(q.heap[e.id]) <= 0 {
      RestartAtEpoch(q, readAt, now, scripts, end, e);
      var q1, adds := TakeDue(q.(fd := Disarmed), now), AddsOf(scripts, |Due(q, now)|);
      TakeDueHolds(q.(fd := Disarmed), now);
      var i := AddAllArms(q1, Due(q, now), adds);
      assert RunDue(q, readAt, now, scripts).fd == AddAll(q1, adds).fd;
      OnlyOneEarliest(q1, adds, AddAll(q1, adds), i);
    } else {
      RoundCovers(q, readAt, now, scripts, end);
    }
  }

  // So, with callbacks that add nothing, if and only if none is restarted at or before the epoch.
  lemma QuietRoundCoversIff(q: Queue, readAt: int, now: Clock, end: Clock)
    requires Inv(q) && MayRound(q, now, []) && (q.fd.Armed? ==> q.fd.deadline <= readAt)
    ensures Covered(HandleRead(q, readAt, now, [], end)) <==>
            forall e :: e in Due(q, now) && q.heap[e.id].interval > 0.0 ==> NextTime(q.heap[e.id]) > 0
  {
    NoAdds(|Due(q, now)|);
    RoundCoversIff(q, readAt, now, [], end);
  }

  // A due timer restarted at or before the epoch: it is in front, and resetTimerList does not re-arm.
  lemma RestartAtEpoch(q: Queue, readAt: int, now: Clock, scripts: seq<seq<Request>>, end: Clock, e: Entry)
    requires Inv(q) && MayRound(q, now, scripts)
    requires e in Due(q, now) && q.heap[e.id].interval > 0.0 && NextTime(q.heap[e.id]) <= 0
    ensures var r := HandleRead(q, readAt, now, scripts, end);
            r.entries != [] && r.entries[0].when <= 0 && r.fd == RunDue(q, readAt, now, scripts).fd
  {
    var r, batch := HandleRead(q, readAt, now, scripts, end), Due(q, now);
    var i :| 0 <= i < |batch| && batch[i] == e;
    CountAt(batch, i);
    RoundOutcome(q, readAt, now, scripts, end, e.id);
    assert r.heap[e.id].expiration == NextTime(q.heap[e.id]);
    TakeDueHolds(q, now);
    NotElsewhere(TakeDue(q, now), batch, [], e.id);
    RoundQueue(q, readAt, now, scripts, end);
    NotElsewhere(r, [], [], e.id);
    var j := CountIndex(r.entries, e.id);
    assert r.entries[0].when <= r.entries[j].when <= 0;
    RunDueHolds(q, readAt, now, scripts);
    ResetAllHolds(RunDue(q, readAt, now, scripts), batch);
  }

  // handleRead takes the one expiry of the timerfd, if it has come, and disturbs a pending one only by
  // arming it again: a round that leaves nothing in the set leaves a pending deadline as it was.
  lemma EmptyRoundTakesExpiry(q: Queue, readAt: int, now: int, end: int)
    requires Inv(q) && MayRound(q, now, []) && HandleRead(q, readAt, now, [], end).entries == []
    ensures HandleRead(q, readAt, now, [], end).fd ==
            if q.fd.Armed? && q.fd.deadline <= readAt then Disarmed else q.fd
  {
    NoAdds(|Due(q, now)|);
    RunDueHolds(q, readAt, now, []);
    ResetAllHolds(RunDue(q, readAt, now, []), Due(q, now));
  }

  // A round does not touch the adds other threads have queued.
  lemma RoundQueue(q: Queue, readAt: int, now: int, scripts: seq<seq<Request>>, end: int)
    requires Inv(q) && MayRound(q, now, scripts)
    ensures HandleRead(q, readAt, now, scripts, end).queued == q.queued
  {
    var q0 := q.(fd := ReadTimerfd(q.fd, readAt));
    TakeDueHolds(q0, now);
    AddAllHolds(TakeDue(q0, now), Due(q, now), AddsOf(scripts, |Due(q, now)|));
    RunDueHolds(q, readAt, now, scripts);
    ResetAllHolds(RunDue(q, readAt, now, scripts), Due(q, now));
  }

  // A timer asked to repeat every second from two seconds before the epoch fires once and is then
  // forgotten by the descriptor, although it stays in the set.
  lemma UncoveredExample() returns (steps: seq<Step>)
    ensures Inv(Empty) && Runs(Empty, steps)
    ensures After(Empty, steps).entries != [] && After(Empty, steps).fd == Disarmed
  {
    var add := Add(Request(8, -2_000_000, 1.0, 1), true);
    var round := Round(200, 200, [], 200);
    steps := [add, round];
    FirstAdd(add.request);
    FirstRound(Next(Empty, add), round, Entry(-2_000_000, 8));
    var q := Next(Empty, add);
    TwoSteps(Empty, add, round);
  }

  lemma TwoSteps(q: Queue, a: Step, b: Step)
    requires Inv(q) && Enabled(q, a) && Enabled(Next(q, a), b)
    ensures Runs(q, [a, b]) && After(q, [a, b]) == Next(Next(q, a), b)
  {
    var m, steps := Next(q, a), [a, b];
    assert steps[1..] == [b] && [b][1..] == [];
    assert Runs(m, [b]);
    assert After(m, [b]) == After(Next(m, b), []);
  }

  lemma FirstRound(q: Queue, round: Step, e: Entry)
    requires Inv(q) && round == Round(200, 200, [], 200)
    requires Due(q, 200) == [e] && q.heap[e.id].interval > 0.0 && NextTime(q.heap[e.id]) <= 0
    requires q.fd.Armed? && q.fd.deadline <= 200
    ensures Enabled(q, round) && Next(q, round).entries != [] && Next(q, round).fd == Disarmed
  {
    NoAdds(1);
    RestartAtEpoch(q, 200, 200, [], 200, e);
  }

  lemma FirstAdd(r: Request)
    requires r.expiration <= 0
    ensures Inv(Empty) && Enabled(Empty, Add(r, true))
    ensures AddTimer(Empty, r, true).entries == [Entry(r.expiration, r.addr)]
    ensures AddTimer(Empty, r, true).fd == Armed(r.clock, r.clock + MIN_DELAY)
    ensures Due(AddTimer(Empty, r, true), 200) == [Entry(r.expiration, r.addr)]
  {
    ResetTimerfdIsExact(r.expiration, r.clock);
  }
}
