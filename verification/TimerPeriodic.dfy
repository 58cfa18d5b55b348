/**
 When timers fire: a repeating one at exactly t0, t0 + d, t0 + 2d, ..., however late the loop is, a
 one-shot once; and overdue firings drain one period per timer per round.
 */
module TimerPeriodic {
  import opened TimerModel
  import opened TimerInvariant
  import opened TimerTheorems

  // The times a timer was due at, for each time it ran.
  ghost function Firings(log: seq<Entry>, id: nat): seq<int> {
    if log == [] then []
    else (if log[0].id == id then [log[0].when] else []) + Firings(log[1..], id)
  }

  // t0, t0 + d, ..., k terms.
  ghost function Progression(t0: int, d: int, k: nat): seq<int>
    decreases k
  {
    if k == 0 then [] else [t0] + Progression(t0 + d, d, k - 1)
  }

  lemma {:induction false} FiringsAppend(a: seq<Entry>, b: seq<Entry>, id: nat)
    ensures Firings(a + b, id) == Firings(a, id) + Firings(b, id)
  {
    if a == [] {
      assert a + b == b;
    } else {
      assert (a + b)[1..] == a[1..] + b && (a + b)[0] == a[0];
      FiringsAppend(a[1..], b, id);
      var head := if a[0].id == id then [a[0].when] else [];
      assert head + (Firings(a[1..], id) + Firings(b, id)) == head + Firings(a[1..], id) + Firings(b, id);
    }
  }

  lemma {:induction false} FiringsOfBatch(heap: map<nat, Timer>, batch: seq<Entry>, id: nat)
    requires KeysAgree(heap, batch) && Count(batch, id) <= 1
    ensures Count(batch, id) == 0 ==> Firings(batch, id) == []
    ensures Count(batch, id) == 1 ==> id in heap && Firings(batch, id) == [heap[id].expiration]
  {
    if batch != [] {
      FiringsOfBatch(heap, batch[1..], id);
    }
  }

  lemma {:induction false} ProgressionAppend(t0: int, d: int, j: nat, k: nat)
    ensures Progression(t0, d, j) + Progression(t0 + j * d, d, k) == Progression(t0, d, j + k)
    decreases j
  {
    if j > 0 {
      ProgressionAppend(t0 + d, d, j - 1, k);
      assert t0 + d + (j - 1) * d == t0 + j * d;
      assert [t0] + Progression(t0 + d, d, j - 1) + Progression(t0 + j * d, d, k)
          == [t0] + (Progression(t0 + d, d, j - 1) + Progression(t0 + j * d, d, k));
    } else {
      assert t0 + j * d == t0;
    }
  }

  lemma {:induction false} ProgressionAt(t0: int, d: int, k: nat, i: nat)
    requires i < k
    ensures |Progression(t0, d, k)| == k && Progression(t0, d, k)[i] == t0 + i * d
    decreases k
  {
    if i > 0 {
      ProgressionAt(t0 + d, d, k - 1, i - 1);
      assert t0 + d + (i - 1) * d == t0 + i * d;
    } else if k > 1 {
      ProgressionAt(t0 + d, d, k - 1, 0);
    }
  }

  // ---------- no drift, no skip, no merge ----------

  // From q on, the timer has fired at the next k terms of its progression, and is stored at the
  // term after them.
  ghost predicate Advanced(q: Queue, r: Queue, id: nat, k: nat)
    requires id in q.heap
  {
    var t := q.heap[id];
    && |q.log| <= |r.log| && r.log[..|q.log|] == q.log
    && Firings(r.log[|q.log|..], id) == Progression(t.expiration, Delta(t.interval), k)
    && id in r.heap && r.heap[id] == Timer(t.expiration + k * Delta(t.interval), t.interval)
  }

  lemma StepAdvances(q: Queue, step: Step, id: nat) returns (k: nat)
    requires Inv(q) && Enabled(q, step) && id in q.heap && q.heap[id].interval > 0.0
    ensures Advanced(q, Next(q, step), id, k)
  {
    match step
    case Add(r, inLoop) =>
      AddTimerHolds(q, [], r, inLoop);
      k := 0;
    case RunQueued(clock) =>
      RunQueuedAddHolds(q, [], clock);
      k := 0;
    case Round(readAt, now, scripts, end) =>
      var batch := Due(q, now);
      TakeDueHolds(q, now);
      NotElsewhere(TakeDue(q, now), batch, [], id);
      FiringsOfBatch(q.heap, batch, id);
      RoundRunsExactlyTheDue(q, readAt, now, scripts, end);
      RoundOutcome(q, readAt, now, scripts, end, id);
      var r := HandleRead(q, readAt, now, scripts, end);
      assert r.log[|q.log|..] == batch;
      k := Count(batch, id);
      assert Progression(q.heap[id].expiration + Delta(q.heap[id].interval), Delta(q.heap[id].interval), 0) == [];
  }

  lemma AdvancedTrans(q: Queue, m: Queue, r: Queue, id: nat, j: nat, k: nat)
    requires id in q.heap && Advanced(q, m, id, j) && Advanced(m, r, id, k)
    ensures Advanced(q, r, id, j + k)
  {
    var t0, d := q.heap[id].expiration, Delta(q.heap[id].interval);
    assert r.log[|q.log|..] == m.log[|q.log|..] + r.log[|m.log|..] by {
      assert r.log == m.log + r.log[|m.log|..];
    }
    FiringsAppend(m.log[|q.log|..], r.log[|m.log|..], id);
    ProgressionAppend(t0, d, j, k);
    assert t0 + j * d + k * d == t0 + (j + k) * d;
    assert r.log[..|q.log|] == m.log[..|q.log|];
  }

  // Over any run, from any state in which the timer is live (queued or in the set): its k firings
  // are due at exactly the first k terms t0, t0 + d, ..., and it is stored at t0 + k*d.
  lemma {:induction false} PeriodicTimerIsExact(q: Queue, steps: seq<Step>, id: nat) returns (k: nat)
    requires Inv(q) && Runs(q, steps) && id in q.heap && q.heap[id].interval > 0.0
    ensures Advanced(q, After(q, steps), id, k)
    decreases |steps|
  {
    if steps == [] {
      k := 0;
      AdvancedNone(q, id);
    } else {
      var j := StepAdvances(q, steps[0], id);
      k := PeriodicTimerIsExact(Next(q, steps[0]), steps[1..], id);
      AdvancedTrans(q, Next(q, steps[0]), After(q, steps), id, j, k);
      k := j + k;
    }
  }

  lemma AdvancedNone(q: Queue, id: nat)
    requires id in q.heap
    ensures Advanced(q, q, id, 0)
  {
    assert q.log[|q.log|..] == [];
    assert Progression(q.heap[id].expiration, Delta(q.heap[id].interval), 0) == [];
  }

  // A timer made by runEvery with any positive interval x fires at exactly now + d, now + 2d, ..., where
  // d is x cut to microseconds, over any run.
  lemma RunEveryIsExact(addr: Addr, x: real, now: Clock, clock: Clock, steps: seq<Step>) returns (k: nat)
    requires x > 0.0 && Runs(Next(Empty, Add(RunEvery(addr, x, now, clock), true)), steps)
    ensures var r := After(Next(Empty, Add(RunEvery(addr, x, now, clock), true)), steps);
            && Firings(r.log, addr) == Progression(now + Delta(x), Delta(x), k)
            && addr in r.heap && r.heap[addr] == Timer(now + Delta(x) + k * Delta(x), x)
  {
    var q := Next(Empty, Add(RunEvery(addr, x, now, clock), true));
    OneAdd(RunEvery(addr, x, now, clock), true);
    k := PeriodicTimerIsExact(q, steps, addr);
    AdvancedFromNothing(q, After(q, steps), addr, k);
  }

  lemma AdvancedFromNothing(q: Queue, r: Queue, id: nat, k: nat)
    requires id in q.heap && Advanced(q, r, id, k) && q.log == []
    ensures Firings(r.log, id) == Progression(q.heap[id].expiration, Delta(q.heap[id].interval), k)
  {
    assert r.log[|q.log|..] == r.log;
  }

  // ---------- a one-shot timer ----------

  // The entries a run has added to the log.
  ghost function NewLog(q: Queue, r: Queue): seq<Entry>
    requires q.log <= r.log
  {
    r.log[|q.log|..]
  }

  // A timer that does not repeat either waits, as it was, or has run once, at its expiration, and is
  // deleted.
  ghost predicate OnceAtMost(q: Queue, r: Queue, id: nat)
    requires id in q.heap
  {
    && q.log <= r.log
    && if id in r.heap then r.heap[id] == q.heap[id] && Firings(NewLog(q, r), id) == []
       else Firings(NewLog(q, r), id) == [q.heap[id].expiration]
  }

  ghost predicate StaysDead(q: Queue, r: Queue, id: nat) {
    q.log <= r.log && id !in r.heap && Firings(NewLog(q, r), id) == []
  }

  // The timers a step creates.
  ghost function Created(q: Queue, step: Step): seq<Request> {
    match step
    case Add(r, _) => [r]
    case RunQueued(_) => []
    case Round(_, now, scripts, _) => AddsOf(scripts, |Due(q, now)|)
  }

  ghost predicate Names(rs: seq<Request>, id: nat) {
    exists i :: 0 <= i < |rs| && rs[i].addr == id
  }

  // `new` gives out this address in the run.
  ghost predicate GivenOut(q: Queue, steps: seq<Step>, id: nat)
    requires Inv(q) && Runs(q, steps)
    decreases |steps|
  {
    steps != [] && (Names(Created(q, steps[0]), id) || GivenOut(Next(q, steps[0]), steps[1..], id))
  }

  lemma StepOnceAtMost(q: Queue, step: Step, id: nat)
    requires Inv(q) && Enabled(q, step) && id in q.heap && q.heap[id].interval <= 0.0
    ensures OnceAtMost(q, Next(q, step), id)
  {
    match step
    case Add(r, inLoop) => AddTimerHolds(q, [], r, inLoop);
    case RunQueued(clock) => RunQueuedAddHolds(q, [], clock);
    case Round(readAt, now, scripts, end) =>
      RoundFirings(q, step, id);
      RoundOutcome(q, readAt, now, scripts, end, id);
  }

  // What a round logs of one timer.
  lemma RoundFirings(q: Queue, step: Step, id: nat)
    requires Inv(q) && step.Round? && Enabled(q, step)
    ensures var batch := Due(q, step.now);
            && Next(q, step).log == q.log + batch && NewLog(q, Next(q, step)) == batch
            && Count(batch, id) <= (if id in q.heap then 1 else 0)
            && (Count(batch, id) == 0 ==> Firings(batch, id) == [])
            && (Count(batch, id) == 1 ==> Firings(batch, id) == [q.heap[id].expiration])
  {
    var batch := Due(q, step.now);
    TakeDueHolds(q, step.now);
    NotElsewhere(TakeDue(q, step.now), batch, [], id);
    FiringsOfBatch(q.heap, batch, id);
    RoundRunsExactlyTheDue(q, step.readAt, step.now, step.scripts, step.end);
  }

  lemma StepStaysDead(q: Queue, step: Step, id: nat)
    requires Inv(q) && Enabled(q, step) && id !in q.heap && !Names(Created(q, step), id)
    ensures StaysDead(q, Next(q, step), id)
  {
    match step
    case Add(r, inLoop) =>
      AddTimerHolds(q, [], r, inLoop);
      assert Created(q, step)[0] == r;
    case RunQueued(clock) => RunQueuedAddHolds(q, [], clock);
    case Round(readAt, now, scripts, end) =>
      var q1 := RunDue(q, readAt, now, scripts);
      RoundFirings(q, step, id);
      RunDueHolds(q, readAt, now, scripts);
      ResetAllHolds(q1, Due(q, now));
      ResetAllHeap(q1, Due(q, now), id);
  }

  lemma LogsJoin(q: Queue, m: Queue, r: Queue, id: nat)
    requires q.log <= m.log && m.log <= r.log
    ensures q.log <= r.log && Firings(NewLog(q, r), id) == Firings(NewLog(q, m), id) + Firings(NewLog(m, r), id)
  {
    assert NewLog(q, r) == NewLog(q, m) + NewLog(m, r);
    FiringsAppend(NewLog(q, m), NewLog(m, r), id);
  }

  lemma {:induction false} DeadTimerStaysDead(q: Queue, steps: seq<Step>, id: nat)
    requires Inv(q) && Runs(q, steps) && id !in q.heap && !GivenOut(q, steps, id)
    ensures StaysDead(q, After(q, steps), id)
    decreases |steps|
  {
    if steps != [] {
      var m := Next(q, steps[0]);
      StepStaysDead(q, steps[0], id);
      DeadTimerStaysDead(m, steps[1..], id);
      LogsJoin(q, m, After(m, steps[1..]), id);
    }
  }

  // Over any run that does not give its address to another timer, a timer that does not repeat runs
  // at most once, at its expiration, and it has run exactly if it is no longer live.
  lemma {:induction false} OneShotRunsOnce(q: Queue, steps: seq<Step>, id: nat)
    requires Inv(q) && Runs(q, steps) && id in q.heap && q.heap[id].interval <= 0.0 && !GivenOut(q, steps, id)
    ensures OnceAtMost(q, After(q, steps), id)
    decreases |steps|
  {
    if steps != [] {
      var m := Next(q, steps[0]);
      StepOnceAtMost(q, steps[0], id);
      if id in m.heap {
        OneShotRunsOnce(m, steps[1..], id);
      } else {
        DeadTimerStaysDead(m, steps[1..], id);
      }
      LogsJoin(q, m, After(m, steps[1..]), id);
    }
  }

  // Every round so far sampled a time no later than now.
  predicate RoundsBy(steps: seq<Step>, now: int) {
    steps == [] || ((steps[0].Round? ==> steps[0].now <= now) && RoundsBy(steps[1..], now))
  }

  predicate AllBy(fired: seq<Entry>, now: int) {
    forall i :: 0 <= i < |fired| ==> fired[i].when <= now
  }

  lemma StepFiresBy(q: Queue, step: Step, now: int) returns (fired: seq<Entry>)
    requires Inv(q) && Enabled(q, step) && (step.Round? ==> step.now <= now)
    ensures Next(q, step).log == q.log + fired
    ensures AllBy(fired, now)
  {
    fired := [];
    if step.Round? {
      RoundRunsExactlyTheDue(q, step.readAt, step.now, step.scripts, step.end);
      fired := Due(q, step.now);
      assert forall i :: 0 <= i < |fired| ==> fired[i] in fired;
    }
  }

  lemma {:induction false} NothingFiresEarly(q: Queue, steps: seq<Step>, now: int) returns (fired: seq<Entry>)
    requires Inv(q) && Runs(q, steps) && RoundsBy(steps, now)
    ensures After(q, steps).log == q.log + fired
    ensures AllBy(fired, now)
    decreases |steps|
  {
    if steps == [] {
      fired := [];
    } else {
      var m, rest := Next(q, steps[0]), steps[1..];
      var first := StepFiresBy(q, steps[0], now);
      var later := NothingFiresEarly(m, rest, now);
      fired := first + later;
      FiredInOrder(q.log, first, later, now);
    }
  }

  lemma FiredInOrder(log: seq<Entry>, first: seq<Entry>, later: seq<Entry>, now: int)
    requires AllBy(first, now) && AllBy(later, now)
    ensures log + first + later == log + (first + later)
    ensures AllBy(first + later, now)
  {
  }

  lemma {:induction false} FiringsFromLog(log: seq<Entry>, id: nat, now: int)
    requires AllBy(log, now)
    ensures forall i :: 0 <= i < |Firings(log, id)| ==> Firings(log, id)[i] <= now
  {
    if log != [] {
      FiringsFromLog(log[1..], id, now);
    }
  }

  // Once nothing is due at now any more, the timer has fired floor((now - t0) / d) + 1 times since
  // t0: late rounds catch up period by period.
  lemma CaughtUpCount(q: Queue, steps: seq<Step>, id: nat, now: int) returns (k: nat)
    requires Inv(q) && Runs(q, steps) && RoundsBy(steps, now)
    requires id in q.heap && q.heap[id].interval > 0.0 && Delta(q.heap[id].interval) >= 1
    requires q.heap[id].expiration <= now
    requires id in After(q, steps).heap && After(q, steps).heap[id].expiration > now
    ensures k == (now - q.heap[id].expiration) / Delta(q.heap[id].interval) + 1
    ensures Advanced(q, After(q, steps), id, k)
  {
    var t0, d, r := q.heap[id].expiration, Delta(q.heap[id].interval), After(q, steps);
    k := PeriodicTimerIsExact(q, steps, id);
    assert k == 0 ==> k * d == 0;
    var fired := NothingFiresEarly(q, steps, now);
    assert r.log[|q.log|..] == fired;
    FiringsFromLog(fired, id, now);
    ProgressionAt(t0, d, k, k - 1);
    assert Firings(r.log[|q.log|..], id)[k - 1] <= now;
    FloorIs(now - t0, d, k);
  }

  lemma FloorIs(x: int, d: int, k: int)
    requires d >= 1 && (k - 1) * d <= x < k * d
    ensures x / d + 1 == k
  {
    var quot, rem := x / d, x % d;
    assert x == quot * d + rem;
    assert quot < k - 1 ==> (quot + 1) * d <= (k - 1) * d;
    assert quot > k - 1 ==> k * d <= quot * d;
  }

  // ---------- catching up terminates ----------

  // The periods of a timer that are due by now: 1 for a one-shot, and for an interval below one
  // microsecond, which never gets past now.
  function Periods(t: Timer, now: int): nat {
    if t.expiration > now then 0
    else if t.interval > 0.0 && Delta(t.interval) >= 1 then (now - t.expiration) / Delta(t.interval) + 1
    else 1
  }

  ghost function Overdue(heap: map<nat, Timer>, s: seq<Entry>, now: int): nat {
    if s == [] then 0
    else (if s[0].id in heap then Periods(heap[s[0].id], now) else 0) + Overdue(heap, s[1..], now)
  }

  // Every repeating timer in the set moves forward when it is restarted.
  ghost predicate Advancing(q: Queue, now: int) {
    forall e :: e in q.entries && e.when <= now && e.id in q.heap && q.heap[e.id].interval > 0.0 ==>
                  Delta(q.heap[e.id].interval) >= 1
  }

  lemma {:induction false} OverdueAppend(heap: map<nat, Timer>, a: seq<Entry>, b: seq<Entry>, now: int)
    ensures Overdue(heap, a + b, now) == Overdue(heap, a, now) + Overdue(heap, b, now)
  {
    if a == [] {
      assert a + b == b;
    } else {
      assert (a + b)[1..] == a[1..] + b;
      OverdueAppend(heap, a[1..], b, now);
    }
  }

  lemma OverdueInsert(heap: map<nat, Timer>, s: seq<Entry>, e: Entry, now: int)
    requires Count(s, e.id) == 0 && e.id in heap
    ensures Overdue(heap, Insert(s, e), now) == Overdue(heap, s, now) + Periods(heap[e.id], now)
  {
    var k := LowerBound(s, e);
    InsertShape(s, e);
    assert s == s[..k] + s[k..] && s[..k] + [e] + s[k..] == s[..k] + ([e] + s[k..]);
    OverdueAppend(heap, s[..k], s[k..], now);
    OverdueAppend(heap, s[..k], [e] + s[k..], now);
    assert ([e] + s[k..])[1..] == s[k..];
  }

  lemma {:induction false} OverdueFrame(heap: map<nat, Timer>, heap': map<nat, Timer>, s: seq<Entry>, id: nat, now: int)
    requires Count(s, id) == 0
    requires forall x :: x != id ==> Untouched(heap, heap', x)
    ensures Overdue(heap', s, now) == Overdue(heap, s, now)
  {
    if s != [] {
      assert Untouched(heap, heap', s[0].id);
      OverdueFrame(heap, heap', s[1..], id, now);
    }
  }

  lemma {:induction false} OverdueNone(heap: map<nat, Timer>, s: seq<Entry>, now: int)
    requires KeysAgree(heap, s)
    ensures (forall i :: 0 <= i < |s| ==> s[i].when > now) ==> Overdue(heap, s, now) == 0
    ensures Overdue(heap, s, now) == 0 ==> forall i :: 0 <= i < |s| ==> s[i].when > now
  {
    if s != [] {
      OverdueNone(heap, s[1..], now);
      forall i | 1 <= i < |s| ensures s[i] == s[1..][i - 1] {
      }
    }
  }

  lemma RestartTakesOnePeriod(t: Timer, now: int)
    requires t.expiration <= now && (t.interval > 0.0 ==> Delta(t.interval) >= 1)
    ensures Periods(t, now) == 1 + if t.interval > 0.0 then Periods(Timer(NextTime(t), t.interval), now) else 0
  {
    if t.interval > 0.0 {
      var d, x := Delta(t.interval), now - t.expiration;
      OnePeriodLess(x, d);
    }
  }

  lemma OnePeriodLess(x: int, d: int)
    requires d >= 1 && x >= 0
    ensures x / d == if x < d then 0 else (x - d) / d + 1
  {
    if x >= d {
      var quot, rem := (x - d) / d, (x - d) % d;
      assert x == (quot + 1) * d + rem;
      FloorIs(x, d, quot + 2);
    }
  }

  lemma ResetOneOverdue(q: Queue, batch: seq<Entry>, now: int)
    requires Holds(q, batch) && batch != []
    requires q.heap[batch[0].id].expiration <= now
    requires q.heap[batch[0].id].interval > 0.0 ==> Delta(q.heap[batch[0].id].interval) >= 1
    ensures var r := ResetOne(q, batch[0]);
            Overdue(r.heap, batch[1..] + r.entries, now) + 1 == Overdue(q.heap, batch + q.entries, now)
  {
    var e, rest, r := batch[0], batch[1..], ResetOne(q, batch[0]);
    NotElsewhere(q, batch, [], e.id);
    assert (batch + q.entries)[1..] == rest + q.entries;
    CountAppend(rest, q.entries, e.id);
    OverdueFrame(q.heap, r.heap, rest + q.entries, e.id, now);
    RestartTakesOnePeriod(q.heap[e.id], now);
    if q.heap[e.id].interval > 0.0 {
      OverdueInsert(r.heap, q.entries, Entry(NextTime(q.heap[e.id]), e.id), now);
      OverdueAppend(r.heap, rest, r.entries, now);
      OverdueAppend(r.heap, rest, q.entries, now);
    }
  }

  lemma {:induction false} ResetAllOverdue(q: Queue, batch: seq<Entry>, now: int)
    requires Holds(q, batch) && AllIn(batch, q.heap)
    requires forall i :: 0 <= i < |batch| ==> AdvancesPast(q.heap, batch[i].id, now)
    ensures Overdue(ResetAll(q, batch).heap, ResetAll(q, batch).entries, now) + |batch|
         == Overdue(q.heap, batch + q.entries, now)
    decreases |batch|
  {
    if batch == [] {
      assert batch + q.entries == q.entries;
    } else {
      var r := ResetOne(q, batch[0]);
      ResetOneHolds(q, batch);
      ResetOneOverdue(q, batch, now);
      forall i | 0 <= i < |batch[1..]| ensures AdvancesPast(r.heap, batch[1..][i].id, now) {
        assert AdvancesPast(q.heap, batch[i + 1].id, now);
      }
      ResetAllOverdue(r, batch[1..], now);
    }
  }

  ghost predicate AdvancesPast(heap: map<nat, Timer>, id: nat, now: int) {
    id in heap && heap[id].expiration <= now && (heap[id].interval > 0.0 ==> Delta(heap[id].interval) >= 1)
  }

  // With now fixed and callbacks adding nothing, each round takes exactly one due period off every
  // timer it runs, so the work left strictly shrinks while anything is due.
  lemma QuietRoundShrinks(q: Queue, now: Clock)
    requires Inv(q) && Advancing(q, now)
    ensures var r := QuietRound(q, now);
            && Overdue(r.heap, r.entries, now) == Overdue(q.heap, q.entries, now) - |Due(q, now)|
            && |r.log| == |q.log| + |Due(q, now)|
  {
    var batch, q1 := Due(q, now), RunDue(q, now, now, []);
    NoAdds(|batch|);
    TakeDueHolds(q, now);
    IdsBelowSentinel(q);
    DueSplit(q, now);
    RunDueHolds(q, now, now, []);
    RoundRunsExactlyTheDue(q, now, now, [], now);
    ResetAllHolds(q1, batch);
    assert q1.entries == TakeDue(q, now).entries && q1.heap == q.heap;
    forall i | 0 <= i < |batch| ensures AdvancesPast(q1.heap, batch[i].id, now) {
      assert batch[i] in batch;
    }
    ResetAllOverdue(q1, batch, now);
  }

  lemma QuietRoundAdvancing(q: Queue, now: Clock)
    requires Inv(q) && Advancing(q, now)
    ensures Advancing(QuietRound(q, now), now)
  {
    var r := QuietRound(q, now);
    forall e | e in r.entries && e.when <= now && r.heap[e.id].interval > 0.0
      ensures Delta(r.heap[e.id].interval) >= 1
    {
      QuietRoundKeepsInterval(q, now, e);
    }
  }

  // An entry due after a quiet round was due before it, with the same interval.
  lemma QuietRoundKeepsInterval(q: Queue, now: Clock, e: Entry)
    requires Inv(q) && e in QuietRound(q, now).entries && e.when <= now
    ensures e.id in q.heap && e.id in QuietRound(q, now).heap
    ensures QuietRound(q, now).heap[e.id].interval == q.heap[e.id].interval
    ensures Delta(q.heap[e.id].interval) >= 0 || q.heap[e.id].interval <= 0.0
    ensures Entry(q.heap[e.id].expiration, e.id) in q.entries
    ensures q.heap[e.id].interval > 0.0 ==> q.heap[e.id].expiration <= now
  {
    var r, batch := QuietRound(q, now), Due(q, now);
    NoAdds(|batch|);
    RunDueHolds(q, now, now, []);
    var q1 := RunDue(q, now, now, []);
    ResetAllHolds(q1, batch);
    ResetAllHeap(q1, batch, e.id);
    RoundOutcome(q, now, now, [], now, e.id);
    var j :| 0 <= j < |r.entries| && r.entries[j] == e;
    CountAt(r.entries, j);
    NotElsewhere(r, [], [], e.id);
    RoundQueue(q, now, now, [], now);
    NotElsewhere(q, [], [], e.id);
    var i := CountIndex(q.entries, e.id);
    assert q.entries[i].when == q.heap[e.id].expiration;
  }

  ghost function QuietRounds(q: Queue, now: Clock, n: nat): (r: Queue)
    requires Inv(q)
    ensures Inv(r)
    decreases n
  {
    if n == 0 then q else QuietRounds(QuietRound(q, now), now, n - 1)
  }

  lemma DueMembers(q: Queue, now: int)
    requires Inv(q)
    ensures forall e :: e in Due(q, now) <==> e in q.entries && e.when <= now
  {
    IdsBelowSentinel(q);
    DueSplit(q, now);
  }

  lemma NothingDueIff(q: Queue, now: int)
    requires Inv(q)
    ensures Due(q, now) == [] <==> Overdue(q.heap, q.entries, now) == 0
  {
    DueMembers(q, now);
    OverdueNone(q.heap, q.entries, now);
    if Due(q, now) == [] {
      forall i | 0 <= i < |q.entries| ensures q.entries[i].when > now {
        assert q.entries[i] !in Due(q, now);
      }
    } else {
      assert Due(q, now)[0] in Due(q, now);
    }
  }

  lemma {:induction false} CatchUpDrains(q: Queue, now: Clock, n: nat)
    requires Inv(q) && Advancing(q, now) && Overdue(q.heap, q.entries, now) <= n
    ensures Due(QuietRounds(q, now, n), now) == []
    ensures |QuietRounds(q, now, n).log| == |q.log| + Overdue(q.heap, q.entries, now)
    decreases n
  {
    NothingDueIff(q, now);
    if n > 0 {
      QuietRoundShrinks(q, now);
      QuietRoundAdvancing(q, now);
      CatchUpDrains(QuietRound(q, now), now, n - 1);
      assert QuietRounds(q, now, n) == QuietRounds(QuietRound(q, now), now, n - 1);
    } else {
      assert QuietRounds(q, now, n) == q;
    }
  }

  // A repeating timer whose interval is below one microsecond is due again after every round.
  lemma {:induction false} StuckTimerStaysDue(q: Queue, now: Clock, e: Entry, n: nat)
    requires Inv(q) && e in q.entries && e.when <= now
    requires e.id in q.heap && q.heap[e.id].interval > 0.0 && Delta(q.heap[e.id].interval) == 0
    ensures e in Due(QuietRounds(q, now, n), now)
    decreases n
  {
    if n == 0 {
      DueMembers(q, now);
    } else {
      StuckAfterRound(q, now, e);
      StuckTimerStaysDue(QuietRound(q, now), now, e, n - 1);
    }
  }

  lemma FindEntry(s: seq<Entry>, e: Entry) returns (i: nat)
    requires e in s
    ensures i < |s| && s[i] == e && Count(s, e.id) >= 1
  {
    i :| 0 <= i < |s| && s[i] == e;
    CountAt(s, i);
  }

  lemma StuckAfterRound(q: Queue, now: Clock, e: Entry)
    requires Inv(q) && e in q.entries && e.when <= now
    requires e.id in q.heap && q.heap[e.id].interval > 0.0 && Delta(q.heap[e.id].interval) == 0
    ensures e.id in QuietRound(q, now).heap && QuietRound(q, now).heap[e.id] == q.heap[e.id]
    ensures e in QuietRound(q, now).entries
  {
    var r := QuietRound(q, now);
    DueMembers(q, now);
    NoAdds(|Due(q, now)|);
    var i := FindEntry(q.entries, e);
    RoundOutcome(q, now, now, [], now, e.id);
    assert NextTime(q.heap[e.id]) == q.heap[e.id].expiration;
    RoundQueue(q, now, now, [], now);
    NotElsewhere(q, [], [], e.id);
    NotElsewhere(r, [], [], e.id);
    var j := CountIndex(r.entries, e.id);
    assert r.entries[j] == e;
  }

  // Catching up ends if and only if no due timer repeats with an interval that rounds down to zero
  // microseconds.
  lemma CatchUpEndsIff(q: Queue, now: Clock)
    requires Inv(q)
    ensures (exists n :: Due(QuietRounds(q, now, n), now) == []) <==> Advancing(q, now)
  {
    if Advancing(q, now) {
      CatchUpDrains(q, now, Overdue(q.heap, q.entries, now));
    } else {
      var e :| e in q.entries && e.when <= now && e.id in q.heap && q.heap[e.id].interval > 0.0
               && Delta(q.heap[e.id].interval) < 1;
      forall n ensures Due(QuietRounds(q, now, n), now) != [] {
        StuckTimerStaysDue(q, now, e, n);
      }
    }
  }

  // runEvery makes such a timer: asked to repeat every tenth of a microsecond, it is due again after
  // any number of rounds at the time it was made for.
  lemma StuckExample(addr: Addr, now: Clock, clock: Clock, n: nat)
    ensures Inv(Empty) && Runs(Empty, [Add(RunEvery(addr, 0.0000001, now, clock), true)])
    ensures var q := After(Empty, [Add(RunEvery(addr, 0.0000001, now, clock), true)]);
            Entry(now, addr) in Due(QuietRounds(q, now, n), now)
  {
    var r := RunEvery(addr, 0.0000001, now, clock);
    assert Delta(0.0000001) == 0;
    OneAdd(r, true);
    StuckTimerStaysDue(Next(Empty, Add(r, true)), now, Entry(now, addr), n);
  }
}
