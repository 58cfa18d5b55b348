/**
 Every operation of the timer queue keeps every live timer in exactly one place, and keeps each
 set entry's key equal to its timer's own expiration.
 */
module TimerInvariant {
  import opened TimerModel

  // ---------- counting ----------

  lemma {:induction false} CountAppend(a: seq<Entry>, b: seq<Entry>, id: nat)
    ensures Count(a + b, id) == Count(a, id) + Count(b, id)
  {
    if a == [] {
      assert a + b == b;
    } else {
      assert (a + b)[1..] == a[1..] + b;
      CountAppend(a[1..], b, id);
    }
  }

  lemma {:induction false} OccursAppend(a: seq<nat>, b: seq<nat>, id: nat)
    ensures Occurs(a + b, id) == Occurs(a, id) + Occurs(b, id)
  {
    if a == [] {
      assert a + b == b;
    } else {
      assert (a + b)[1..] == a[1..] + b;
      OccursAppend(a[1..], b, id);
    }
  }

  lemma {:induction false} OccursIn(s: seq<nat>, id: int)
    ensures id in s <==> 0 <= id && Occurs(s, id) > 0
  {
    if s != [] {
      OccursIn(s[1..], id);
      assert s == [s[0]] + s[1..];
    }
  }

  lemma CountOne(e: Entry, id: nat)
    ensures Count([e], id) == if e.id == id then 1 else 0
  {
  }

  lemma CountAt(s: seq<Entry>, i: nat)
    requires i < |s|
    ensures Count(s, s[i].id) >= 1
  {
    if i > 0 {
      CountAt(s[1..], i - 1);
    }
  }

  lemma CountAtTwice(s: seq<Entry>, i: nat, j: nat)
    requires i < j < |s| && s[i].id == s[j].id
    ensures Count(s, s[i].id) >= 2
  {
    if i == 0 {
      CountAt(s[1..], j - 1);
    } else {
      CountAtTwice(s[1..], i - 1, j - 1);
    }
  }

  lemma CountIndex(s: seq<Entry>, id: nat) returns (i: nat)
    requires Count(s, id) >= 1
    ensures i < |s| && s[i].id == id
  {
    if s[0].id == id {
      i := 0;
    } else {
      i := CountIndex(s[1..], id);
      i := i + 1;
    }
  }

  // ---------- the ordered set ----------

  lemma LowerBoundSplits(s: seq<Entry>, e: Entry)
    requires Sorted(s)
    ensures forall i :: LowerBound(s, e) <= i < |s| ==> !Less(s[i], e)
  {
  }

  lemma LowerBoundUnique(s: seq<Entry>, e: Entry, k: nat)
    requires k <= |s|
    requires forall i :: 0 <= i < k ==> Less(s[i], e)
    requires k < |s| ==> !Less(s[k], e)
    ensures k == LowerBound(s, e)
  {
  }

  lemma InsertShape(s: seq<Entry>, e: Entry)
    requires Count(s, e.id) == 0
    ensures Insert(s, e) == s[..LowerBound(s, e)] + [e] + s[LowerBound(s, e)..]
  {
    var k := LowerBound(s, e);
    if k < |s| {
      CountAt(s, k);
    }
  }

  lemma AboveBound(s: seq<Entry>, e: Entry)
    requires Sorted(s) && Count(s, e.id) == 0
    ensures forall i :: LowerBound(s, e) <= i < |s| ==> Less(e, s[i])
  {
    LowerBoundSplits(s, e);
    forall i | LowerBound(s, e) <= i < |s| ensures Less(e, s[i]) {
      CountAt(s, i);
    }
  }

  lemma SortedJoin(a: seq<Entry>, e: Entry, b: seq<Entry>)
    requires Sorted(a + b)
    requires forall i :: 0 <= i < |a| ==> Less(a[i], e)
    requires forall i :: 0 <= i < |b| ==> Less(e, b[i])
    ensures Sorted(a + [e] + b)
  {
    var s, r := a + b, a + [e] + b;
    forall i, j | 0 <= i < j < |r| ensures Less(r[i], r[j]) {
      if i != |a| && j != |a| {
        var i', j' := if i < |a| then i else i - 1, if j < |a| then j else j - 1;
        assert r[i] == s[i'] && r[j] == s[j'] && Less(s[i'], s[j']);
      }
    }
  }

  lemma InsertSorted(s: seq<Entry>, e: Entry)
    requires Sorted(s) && Count(s, e.id) == 0
    ensures Sorted(Insert(s, e))
  {
    var k := LowerBound(s, e);
    InsertShape(s, e);
    AboveBound(s, e);
    assert s[..k] + s[k..] == s;
    SortedJoin(s[..k], e, s[k..]);
  }

  lemma InsertCount(s: seq<Entry>, e: Entry, id: nat)
    requires Count(s, e.id) == 0
    ensures Count(Insert(s, e), id) == Count(s, id) + if e.id == id then 1 else 0
  {
    var k := LowerBound(s, e);
    InsertShape(s, e);
    assert s == s[..k] + s[k..];
    CountAppend(s[..k], s[k..], id);
    CountAppend(s[..k] + [e], s[k..], id);
    CountAppend(s[..k], [e], id);
    CountOne(e, id);
  }

  // Inserting an entry for a timer the set does not hold adds exactly that entry, in order.
  lemma InsertNew(s: seq<Entry>, e: Entry)
    requires Sorted(s) && Count(s, e.id) == 0
    ensures Sorted(Insert(s, e))
    ensures forall i :: 0 <= i < |Insert(s, e)| ==> Insert(s, e)[i] == e || Insert(s, e)[i] in s
    ensures |Insert(s, e)| == |s| + 1
    ensures Insert(s, e)[0] == if s == [] || Less(e, s[0]) then e else s[0]
  {
    InsertShape(s, e);
    InsertSorted(s, e);
    if s != [] {
      CountAt(s, 0);
    }
  }

  // The sentinel above every pointer makes lower_bound split the set exactly at the sampled time.
  lemma DueSplit(q: Queue, now: int)
    requires Sorted(q.entries) && BelowSentinel(q.entries)
    ensures Due(q, now) + TakeDue(q, now).entries == q.entries
    ensures forall i :: 0 <= i < |Due(q, now)| ==> Due(q, now)[i].when <= now
    ensures forall i :: 0 <= i < |TakeDue(q, now).entries| ==> TakeDue(q, now).entries[i].when > now
    ensures forall e :: e in Due(q, now) <==> e in q.entries && e.when <= now
  {
    var s := q.entries;
    var k := LowerBound(s, Entry(now, SENTINEL));
    SplitTimes(s, now);
    SplitMembers(s, s[..k], s[k..], now);
  }

  lemma SplitTimes(s: seq<Entry>, now: int)
    requires Sorted(s) && BelowSentinel(s)
    ensures forall i :: 0 <= i < LowerBound(s, Entry(now, SENTINEL)) ==> s[i].when <= now
    ensures forall i :: LowerBound(s, Entry(now, SENTINEL)) <= i < |s| ==> s[i].when > now
  {
    LowerBoundSplits(s, Entry(now, SENTINEL));
    forall i | LowerBound(s, Entry(now, SENTINEL)) <= i < |s| ensures s[i].when > now {
      assert !Less(s[i], Entry(now, SENTINEL));
    }
  }

  ghost predicate BelowSentinel(s: seq<Entry>) {
    forall i :: 0 <= i < |s| ==> s[i].id < SENTINEL
  }

  lemma SplitMembers(all: seq<Entry>, batch: seq<Entry>, rest: seq<Entry>, now: int)
    requires batch + rest == all
    requires forall i :: 0 <= i < |batch| ==> batch[i].when <= now
    requires forall i :: 0 <= i < |rest| ==> rest[i].when > now
    ensures forall e :: e in batch <==> e in all && e.when <= now
  {
    forall e ensures e in batch <==> e in all && e.when <= now {
      assert e in all <==> e in batch || e in rest;
    }
  }

  lemma IdsBelowSentinel(q: Queue)
    requires Inv(q)
    ensures BelowSentinel(q.entries)
  {
  }

  // ---------- exactly one place ----------

  lemma NotElsewhere(q: Queue, batch: seq<Entry>, hand: seq<nat>, id: nat)
    requires Placed(q, batch, hand)
    ensures Count(batch, id) + Count(q.entries, id) + Occurs(q.queued, id) + Occurs(hand, id)
         == if id in q.heap then 1 else 0
  {
    assert InOnePlace(q.heap, q.entries, q.queued, batch, hand, id);
  }

  lemma BatchInHeap(q: Queue, batch: seq<Entry>)
    requires Holds(q, batch)
    ensures AllIn(batch, q.heap)
  {
    forall i, j | 0 <= i < j < |batch| ensures batch[i].id != batch[j].id {
      if batch[i].id == batch[j].id {
        CountAtTwice(batch, i, j);
        NotElsewhere(q, batch, [], batch[i].id);
      }
    }
  }

  lemma KeysAgreeInsert(heap: map<nat, Timer>, s: seq<Entry>, e: Entry)
    requires KeysAgree(heap, s) && Sorted(s) && Count(s, e.id) == 0
    requires e.id in heap && heap[e.id].expiration == e.when
    ensures KeysAgree(heap, Insert(s, e))
  {
    InsertNew(s, e);
  }

  // Keys agree in any heap that has the same timers at the addresses the entries name.
  lemma KeysAgreeFrame(heap: map<nat, Timer>, heap': map<nat, Timer>, s: seq<Entry>, id: nat)
    requires KeysAgree(heap, s) && Count(s, id) == 0
    requires forall x :: x in heap && x != id ==> x in heap' && heap'[x] == heap[x]
    ensures KeysAgree(heap', s)
  {
    forall i | 0 <= i < |s| ensures s[i].id in heap' && heap'[s[i].id].expiration == s[i].when {
      CountAt(s, i);
    }
  }

  // addTimerInLoop moves the timer in hand into the set.
  lemma AddTimerInLoopHolds(q: Queue, batch: seq<Entry>, id: nat, clock: int)
    requires Placed(q, batch, [id]) && id in q.heap
    requires KeysAgree(q.heap, batch) && KeysAgree(q.heap, q.entries) && Sorted(q.entries)
    ensures Holds(AddTimerInLoop(q, id, clock), batch)
    ensures AddTimerInLoop(q, id, clock).heap == q.heap
  {
    var e := Entry(q.heap[id].expiration, id);
    NotElsewhere(q, batch, [id], id);
    InsertNew(q.entries, e);
    KeysAgreeInsert(q.heap, q.entries, e);
    var r := AddTimerInLoop(q, id, clock);
    forall x: nat ensures InOnePlace(r.heap, r.entries, r.queued, batch, [], x) {
      NotElsewhere(q, batch, [id], x);
      InsertCount(q.entries, e, x);
    }
  }

  lemma AllocatePlaces(q: Queue, batch: seq<Entry>, r: Request)
    requires Holds(q, batch) && r.addr !in q.heap
    ensures Placed(Allocate(q, r), batch, [r.addr])
    ensures KeysAgree(Allocate(q, r).heap, batch) && KeysAgree(Allocate(q, r).heap, q.entries)
  {
    NotElsewhere(q, batch, [], r.addr);
    KeysAgreeFrame(q.heap, Allocate(q, r).heap, batch, r.addr);
    KeysAgreeFrame(q.heap, Allocate(q, r).heap, q.entries, r.addr);
    forall x: nat ensures InOnePlace(Allocate(q, r).heap, q.entries, q.queued, batch, [r.addr], x) {
      NotElsewhere(q, batch, [], x);
    }
  }

  lemma AddTimerHolds(q: Queue, batch: seq<Entry>, r: Request, inLoop: bool)
    requires Holds(q, batch) && r.addr !in q.heap
    ensures Holds(AddTimer(q, r, inLoop), batch)
    ensures AddTimer(q, r, inLoop).heap == q.heap[r.addr := Timer(r.expiration, r.interval)]
  {
    AllocatePlaces(q, batch, r);
    var q1 := Allocate(q, r);
    if inLoop {
      AddTimerInLoopHolds(q1, batch, r.addr, r.clock);
    } else {
      forall x: nat ensures InOnePlace(q1.heap, q1.entries, q1.queued + [r.addr], batch, [], x) {
        NotElsewhere(q1, batch, [r.addr], x);
        OccursAppend(q1.queued, [r.addr], x);
      }
    }
  }

  lemma RunQueuedAddHolds(q: Queue, batch: seq<Entry>, clock: int)
    requires Holds(q, batch) && q.queued != []
    ensures q.queued[0] in q.heap && Holds(RunQueuedAdd(q, clock), batch)
    ensures RunQueuedAdd(q, clock).heap == q.heap
  {
    var id, q1 := q.queued[0], q.(queued := q.queued[1..]);
    NotElsewhere(q, batch, [], id);
    forall x: nat ensures InOnePlace(q1.heap, q1.entries, q1.queued, batch, [id], x) {
      NotElsewhere(q, batch, [], x);
    }
    AddTimerInLoopHolds(q1, batch, id, clock);
  }

  // The heap after the adds: the old timers, untouched, and one new timer for each request.
  ghost predicate Extends(heap: map<nat, Timer>, rs: seq<Request>, heap': map<nat, Timer>) {
    && (forall id :: id in heap ==> id in heap' && heap'[id] == heap[id])
    && (forall i :: 0 <= i < |rs| ==>
          rs[i].addr in heap' && heap'[rs[i].addr] == Timer(rs[i].expiration, rs[i].interval))
    && (forall id :: id in heap' ==> id in heap || exists i :: 0 <= i < |rs| && rs[i].addr == id)
  }

  lemma ExtendsOne(heap: map<nat, Timer>, rs: seq<Request>, heap': map<nat, Timer>, r: Request)
    requires Extends(heap, rs, heap') && Fresh(heap.Keys, rs + [r])
    ensures r.addr !in heap'
    ensures Extends(heap, rs + [r], heap'[r.addr := Timer(r.expiration, r.interval)])
  {
    assert (rs + [r])[|rs|] == r;
    assert forall i :: 0 <= i < |rs| ==> (rs + [r])[i] == rs[i];
  }

  lemma {:induction false} AddAllHolds(q: Queue, batch: seq<Entry>, rs: seq<Request>)
    requires Holds(q, batch) && Fresh(q.heap.Keys, rs)
    ensures Holds(AddAll(q, rs), batch)
    ensures Extends(q.heap, rs, AddAll(q, rs).heap)
    ensures AddAll(q, rs).log == q.log && AddAll(q, rs).queued == q.queued
  {
    if rs != [] {
      var front, r := rs[..|rs| - 1], rs[|rs| - 1];
      assert rs == front + [r];
      FreshPrefix(q.heap.Keys, front, rs);
      AddAllHolds(q, batch, front);
      ExtendsOne(q.heap, front, AddAll(q, front).heap, r);
      AddTimerHolds(AddAll(q, front), batch, r, true);
    }
  }

  lemma {:induction false} AddAllAppend(q: Queue, a: seq<Request>, b: seq<Request>)
    ensures AddAll(q, a + b) == AddAll(AddAll(q, a), b)
  {
    if b == [] {
      assert a + b == a;
    } else {
      var n := |b| - 1;
      assert (a + b)[..|a + b| - 1] == a + b[..n];
      AddAllAppend(q, a, b[..n]);
    }
  }

  lemma {:induction false} AddAllLog(q: Queue, rs: seq<Request>, log: seq<Entry>)
    ensures AddAll(q.(log := log), rs) == AddAll(q, rs).(log := log)
  {
    if rs != [] {
      AddAllLog(q, rs[..|rs| - 1], log);
    }
  }

  lemma {:induction false} AddsOfPrefix(scripts: seq<seq<Request>>, i: nat, n: nat)
    requires i <= n
    ensures AddsOf(scripts, i) <= AddsOf(scripts, n)
    decreases n - i
  {
    if i < n {
      assert AddsOf(scripts, i) <= AddsOf(scripts, i + 1);
      AddsOfPrefix(scripts, i + 1, n);
    }
  }

  lemma FreshPrefix(live: set<nat>, a: seq<Request>, rs: seq<Request>)
    requires Fresh(live, rs) && a <= rs
    ensures Fresh(live, a)
  {
    assert forall i :: 0 <= i < |a| ==> a[i] == rs[i];
  }

  // After the first adds, the addresses of the later ones are still not in use.
  lemma FreshRest(heap: map<nat, Timer>, rs: seq<Request>, n: nat, heap': map<nat, Timer>, i: nat)
    requires Fresh(heap.Keys, rs) && n <= i < |rs| && Extends(heap, rs[..n], heap')
    ensures rs[i].addr !in heap'
  {
  }

  // getExpired moves the due entries from the set to the batch.
  lemma TakeDueHolds(q: Queue, now: int)
    requires Inv(q)
    ensures Holds(TakeDue(q, now), Due(q, now))
    ensures Due(q, now) + TakeDue(q, now).entries == q.entries
  {
    var k := LowerBound(q.entries, Entry(now, SENTINEL));
    assert q.entries == q.entries[..k] + q.entries[k..];
    forall x: nat ensures InOnePlace(q.heap, q.entries[k..], q.queued, Due(q, now), [], x) {
      NotElsewhere(q, [], [], x);
      CountAppend(q.entries[..k], q.entries[k..], x);
    }
  }

  // resetTimerList takes one timer out of the batch: back into the set, or deleted.
  lemma ResetOneHolds(q: Queue, batch: seq<Entry>)
    requires Holds(q, batch) && batch != []
    ensures batch[0].id in q.heap && Holds(ResetOne(q, batch[0]), batch[1..])
  {
    var done, rest := batch[0], batch[1..];
    var t, r := q.heap[done.id], ResetOne(q, done);
    NotElsewhere(q, batch, [], done.id);
    KeysAgreeFrame(q.heap, r.heap, rest, done.id);
    KeysAgreeFrame(q.heap, r.heap, q.entries, done.id);
    var e := Entry(Restart(t).expiration, done.id);
    if Repeats(t) {
      InsertNew(q.entries, e);
      KeysAgreeInsert(r.heap, q.entries, e);
    }
    forall x: nat ensures InOnePlace(r.heap, r.entries, r.queued, rest, [], x) {
      NotElsewhere(q, batch, [], x);
      InsertCount(q.entries, e, x);
    }
  }

  lemma {:induction false} ResetAllHolds(q: Queue, batch: seq<Entry>)
    requires Holds(q, batch)
    ensures AllIn(batch, q.heap) && Inv(ResetAll(q, batch))
    decreases |batch|
  {
    BatchInHeap(q, batch);
    if batch != [] {
      ResetOneHolds(q, batch);
      ResetAllHolds(ResetOne(q, batch[0]), batch[1..]);
    }
  }

  // resetTimerList on a whole batch.
  ghost function ResetRound(q: Queue, batch: seq<Entry>): (r: Queue)
    requires Holds(q, batch)
    ensures Inv(r)
  {
    ResetAllHolds(q, batch);
    ResetAll(q, batch)
  }

  lemma ResetRoundStep(q: Queue, batch: seq<Entry>)
    requires Holds(q, batch) && batch != []
    ensures batch[0].id in q.heap && Holds(ResetOne(q, batch[0]), batch[1..])
    ensures ResetRound(q, batch) == ResetRound(ResetOne(q, batch[0]), batch[1..])
  {
    ResetOneHolds(q, batch);
  }

  // ---------- handleRead ----------

  // The caller of `new` never gets the address of a live timer.
  ghost predicate MayRound(q: Queue, now: int, scripts: seq<seq<Request>>) {
    Fresh(q.heap.Keys, AddsOf(scripts, |Due(q, now)|))
  }

  lemma RunDueHolds(q: Queue, readAt: int, now: int, scripts: seq<seq<Request>>)
    requires Inv(q) && MayRound(q, now, scripts)
    ensures Holds(RunDue(q, readAt, now, scripts), Due(q, now))
    ensures RunDue(q, readAt, now, scripts).log == q.log + Due(q, now)
    ensures Extends(q.heap, AddsOf(scripts, |Due(q, now)|), RunDue(q, readAt, now, scripts).heap)
  {
    var q0 := q.(fd := ReadTimerfd(q.fd, readAt));
    TakeDueHolds(q0, now);
    AddAllHolds(TakeDue(q0, now), Due(q, now), AddsOf(scripts, |Due(q, now)|));
  }

  ghost function HandleRead(q: Queue, readAt: int, now: int, scripts: seq<seq<Request>>, end: int): (r: Queue)
    requires Inv(q) && MayRound(q, now, scripts)
    ensures Inv(r)
  {
    RunDueHolds(q, readAt, now, scripts);
    var q1, batch := RunDue(q, readAt, now, scripts), Due(q, now);
    Rearm(ResetRound(q1, batch), end)
  }

  // ---------- runs ----------

  ghost predicate Enabled(q: Queue, step: Step) {
    match step
    case Add(r, _) => r.addr !in q.heap
    case RunQueued(_) => q.queued != []
    case Round(_, now, scripts, _) => MayRound(q, now, scripts)
  }

  ghost function Next(q: Queue, step: Step): (r: Queue)
    requires Inv(q) && Enabled(q, step)
    ensures Inv(r)
  {
    match step
    case Add(r, inLoop) => AddTimerHolds(q, [], r, inLoop); AddTimer(q, r, inLoop)
    case RunQueued(clock) => RunQueuedAddHolds(q, [], clock); RunQueuedAdd(q, clock)
    case Round(readAt, now, scripts, end) => HandleRead(q, readAt, now, scripts, end)
  }

  ghost predicate Runs(q: Queue, steps: seq<Step>)
    requires Inv(q)
    decreases |steps|
  {
    steps == [] || (Enabled(q, steps[0]) && Runs(Next(q, steps[0]), steps[1..]))
  }

  ghost function After(q: Queue, steps: seq<Step>): (r: Queue)
    requires Inv(q) && Runs(q, steps)
    ensures Inv(r)
    decreases |steps|
  {
    if steps == [] then q else After(Next(q, steps[0]), steps[1..])
  }
}
