/**
 Timer.h and TimerQueue.cpp as objects that update themselves in place.  Each method is proved to
 do to the queue's contents exactly what the functions of TimerModel say, so every result about
 those functions is a result about these methods.
 */
module TimerQueues {
  import M = TimerModel
  import I = TimerInvariant
  import T = TimerTheorems

  class Timer {
    const addr: M.Addr
    const interval: real
    var expiration: int

    constructor (addr: M.Addr, expiration: int, interval: real)
      ensures this.addr == addr && this.expiration == expiration && this.interval == interval
    {
      this.addr := addr;
      this.expiration := expiration;
      this.interval := interval;
    }

    function Repeat(): bool {
      interval > 0.0
    }

    ghost function View(): M.Timer
      reads this
    {
      M.Timer(expiration, interval)
    }

    method Restart()
      modifies this
      ensures View() == M.Restart(old(View()))
    {
      if Repeat() {
        expiration := expiration + M.Delta(interval);
      } else {
        expiration := 0;
      }
    }
  }

  // std::pair<Timestamp, Timer*>
  datatype Entry = Entry(when: int, timer: Timer)

  ghost function ViewEntry(e: Entry): M.Entry {
    M.Entry(e.when, e.timer.addr)
  }

  ghost function ViewEntries(s: seq<Entry>): (v: seq<M.Entry>)
    ensures |v| == |s|
    ensures forall i :: 0 <= i < |s| ==> v[i] == ViewEntry(s[i])
  {
    seq(|s|, i requires 0 <= i < |s| => ViewEntry(s[i]))
  }

  lemma ViewOfInsert(s: seq<Entry>, k: nat, e: Entry)
    requires k == M.LowerBound(ViewEntries(s), ViewEntry(e))
    ensures M.Insert(ViewEntries(s), ViewEntry(e))
         == if k < |s| && ViewEntry(s[k]) == ViewEntry(e) then ViewEntries(s) else ViewEntries(s[..k] + [e] + s[k..])
  {
    assert ViewEntries(s[..k] + [e] + s[k..]) == ViewEntries(s)[..k] + [ViewEntry(e)] + ViewEntries(s)[k..];
  }

  ghost function ViewQueued(s: seq<Timer>): (v: seq<nat>)
    ensures |v| == |s|
    ensures forall i :: 0 <= i < |s| ==> v[i] == s[i].addr
  {
    seq(|s|, i requires 0 <= i < |s| => s[i].addr)
  }

  class TimerQueue {
    var timerSet: seq<Entry>
    var timerfd: M.TimerFd
    // the addTimerInLoop functors other threads have queued in the loop
    var queued: seq<Timer>
    // the Timer objects that have been created and not deleted, by address
    ghost var live: map<nat, Timer>
    // the callbacks run so far
    ghost var log: seq<M.Entry>

    ghost function View(): M.Queue
      reads this, live.Values
    {
      M.Queue(
        map a | a in live :: live[a].View(),
        ViewQueued(queued),
        ViewEntries(timerSet),
        timerfd,
        log)
    }

    ghost predicate Knows(t: Timer)
      reads this
    {
      t.addr in live && live[t.addr] == t
    }

    ghost predicate AllKnown(s: seq<Entry>)
      reads this
    {
      forall i :: 0 <= i < |s| ==> Knows(s[i].timer)
    }

    // No pointer the queue holds is dangling.
    ghost predicate Pointers(batch: seq<Entry>)
      reads this
    {
      && (forall a :: a in live ==> live[a].addr == a)
      && (forall i :: 0 <= i < |queued| ==> Knows(queued[i]))
      && AllKnown(timerSet)
      && AllKnown(batch)
    }

    lemma KnownAfterInsert(s: seq<Entry>, k: nat, e: Entry)
      requires AllKnown(s) && Knows(e.timer) && k <= |s|
      ensures AllKnown(s[..k] + [e] + s[k..])
    {
    }

    ghost predicate Valid()
      reads this, live.Values
    {
      Pointers([]) && M.Inv(View())
    }

    constructor ()
      ensures Valid() && View() == M.Empty
    {
      timerSet, timerfd, queued, live, log := [], M.Disarmed, [], map[], [];
    }

    // std::set::lower_bound.
    static method LowerBound(s: seq<Entry>, when: int, addr: nat) returns (k: nat)
      requires M.Sorted(ViewEntries(s))
      ensures k == M.LowerBound(ViewEntries(s), M.Entry(when, addr))
    {
      ghost var v, e := ViewEntries(s), M.Entry(when, addr);
      var lo, hi := 0, |s|;
      while lo < hi
        invariant lo <= hi <= |s|
        invariant forall i :: 0 <= i < lo ==> M.Less(v[i], e)
        invariant hi < |s| ==> !M.Less(v[hi], e)
      {
        var mid := lo + (hi - lo) / 2;
        if s[mid].when < when || (s[mid].when == when && s[mid].timer.addr < addr) {
          assert M.Less(v[mid], e);
          forall i | 0 <= i < mid ensures M.Less(v[i], e) {
            assert M.Less(v[i], v[mid]);
          }
          lo := mid + 1;
        } else {
          hi := mid;
        }
      }
      I.LowerBoundUnique(v, e, lo);
      k := lo;
    }

    // insert(): true when the new timer is to expire before all others.
    method Insert(timer: Timer, ghost batch: seq<Entry>) returns (firstTimer: bool)
      requires Pointers(batch) && Knows(timer) && M.Sorted(View().entries)
      modifies this`timerSet
      ensures Pointers(batch)
      ensures View() == old(View()).(entries := M.Insert(old(View().entries), M.Entry(timer.expiration, timer.addr)))
      ensures firstTimer == (old(timerSet) == [] || timer.expiration < old(timerSet[0].when))
    {
      var when := timer.expiration;
      firstTimer := |timerSet| == 0 || when < timerSet[0].when;
      var k := LowerBound(timerSet, when, timer.addr);
      ViewOfInsert(timerSet, k, Entry(when, timer));
      KnownAfterInsert(timerSet, k, Entry(when, timer));
      if k == |timerSet| || timerSet[k].when != when || timerSet[k].timer.addr != timer.addr {
        timerSet := timerSet[..k] + [Entry(when, timer)] + timerSet[k..];
      }
    }

    method ResetTimerfd(expiration: int, clock: int)
      modifies this`timerfd
      ensures timerfd == M.ResetTimerfd(expiration, clock)
    {
      timerfd := M.SetTime(M.HowMuchTimeFromNow(expiration, clock), clock);
    }

    method AddTimerInLoop(timer: Timer, clock: int, ghost batch: seq<Entry>)
      requires Pointers(batch) && Knows(timer) && M.Sorted(View().entries)
      modifies this`timerSet, this`timerfd
      ensures Pointers(batch)
      ensures timer.addr in old(View()).heap && View() == M.AddTimerInLoop(old(View()), timer.addr, clock)
    {
      var first := Insert(timer, batch);
      if first {
        ResetTimerfd(timer.expiration, clock);
      }
    }

    // new Timer(...): `new` never returns the address of a live timer.
    method NewTimer(r: M.Request, ghost batch: seq<Entry>) returns (timer: Timer)
      requires Pointers(batch) && r.addr !in live
      modifies this`live
      ensures Pointers(batch) && Knows(timer) && timer.addr == r.addr && fresh(timer)
      ensures live == old(live)[r.addr := timer]
      ensures View() == M.Allocate(old(View()), r)
    {
      timer := new Timer(r.addr, r.expiration, r.interval);
      live := live[r.addr := timer];
    }

    // addTimer.  Called by a callback, inLoop holds and `batch` is what handleRead has in flight;
    // called by another thread, the add is queued in the loop.
    method AddTimer(r: M.Request, inLoop: bool, ghost batch: seq<Entry>)
      requires Pointers(batch) && M.Sorted(View().entries) && r.addr !in live
      modifies this`timerSet, this`timerfd, this`queued, this`live
      ensures Pointers(batch)
      ensures View() == M.AddTimer(old(View()), r, inLoop)
    {
      var timer := NewTimer(r, batch);
      if inLoop {
        AddTimerInLoop(timer, r.clock, batch);
      } else {
        Queue(timer, batch);
      }
    }

    method Queue(timer: Timer, ghost batch: seq<Entry>)
      requires Pointers(batch) && Knows(timer)
      modifies this`queued
      ensures Pointers(batch)
      ensures View() == old(View()).(queued := old(View()).queued + [timer.addr])
    {
      queued := queued + [timer];
      assert ViewQueued(queued) == old(ViewQueued(queued)) + [timer.addr];
    }

    // The loop runs the oldest queued addTimerInLoop functor.
    method RunQueuedAdd(clock: int)
      requires Valid() && queued != []
      modifies this`timerSet, this`timerfd, this`queued
      ensures Valid()
      ensures View() == M.RunQueuedAdd(old(View()), clock)
    {
      ghost var q := View();
      I.RunQueuedAddHolds(q, [], clock);
      var timer := queued[0];
      queued := queued[1..];
      assert View() == q.(queued := q.queued[1..]);
      AddTimerInLoop(timer, clock, []);
      assert View() == M.RunQueuedAdd(q, clock);
    }

    method GetExpired(now: int) returns (expired: seq<Entry>)
      requires Valid()
      modifies this`timerSet
      ensures Pointers(expired)
      ensures View() == M.TakeDue(old(View()), now) && ViewEntries(expired) == M.Due(old(View()), now)
    {
      ghost var v := ViewEntries(timerSet);
      var end := LowerBound(timerSet, now, M.SENTINEL);
      expired, timerSet := timerSet[..end], timerSet[end..];
      assert ViewEntries(expired) == v[..end] && ViewEntries(timerSet) == v[end..];
    }

    // One callback: the adds it makes, in order.
    method RunCallback(adds: seq<M.Request>, ghost expired: seq<Entry>, ghost q: M.Queue)
      requires Pointers(expired) && View() == q
      requires M.Holds(q, ViewEntries(expired)) && M.Fresh(q.heap.Keys, adds)
      modifies this`timerSet, this`timerfd, this`queued, this`live
      ensures Pointers(expired)
      ensures View() == M.AddAll(q, adds)
    {
      var i := 0;
      while i < |adds|
        invariant i <= |adds|
        invariant Pointers(expired)
        invariant View() == M.AddAll(q, adds[..i])
      {
        NextAdd(q, ViewEntries(expired), adds, i);
        AddTimer(adds[i], true, expired);
        i := i + 1;
      }
      assert adds[..i] == adds;
    }

    static lemma NextAdd(q: M.Queue, batch: seq<M.Entry>, adds: seq<M.Request>, i: nat)
      requires M.Holds(q, batch) && M.Fresh(q.heap.Keys, adds) && i < |adds|
      ensures adds[i].addr !in M.AddAll(q, adds[..i]).heap
      ensures M.Sorted(M.AddAll(q, adds[..i]).entries)
      ensures M.AddTimer(M.AddAll(q, adds[..i]), adds[i], true) == M.AddAll(q, adds[..i + 1])
    {
      I.FreshPrefix(q.heap.Keys, adds[..i], adds);
      I.AddAllHolds(q, batch, adds[..i]);
      I.FreshRest(q.heap, adds, i, M.AddAll(q, adds[..i]).heap, i);
      assert adds[..i + 1][..i] == adds[..i];
    }

    // Timer::run, for the record.
    method Run(e: Entry)
      modifies this`log
      ensures View() == old(View()).(log := old(log) + [ViewEntry(e)])
    {
      log := log + [ViewEntry(e)];
      assert View().heap == old(View()).heap;
    }

    // Timer::run on the i-th timer of the batch.
    method RunOne(expired: seq<Entry>, i: nat, scripts: seq<seq<M.Request>>, ghost q: M.Queue)
      requires Pointers(expired) && i < |expired| && M.Holds(q, ViewEntries(expired))
      requires View() == AfterCallbacks(q, ViewEntries(expired), scripts, i)
      requires M.Fresh(q.heap.Keys, M.AddsOf(scripts, |expired|))
      modifies this`timerSet, this`timerfd, this`queued, this`live, this`log
      ensures Pointers(expired)
      ensures View() == AfterCallbacks(q, ViewEntries(expired), scripts, i + 1)
    {
      var adds := if i < |scripts| then scripts[i] else [];
      ghost var before := NextCallback(q, ViewEntries(expired), scripts, i, adds);
      Run(expired[i]);
      RunCallback(adds, expired, before);
    }

    // The callbacks of one batch, in order: callback i makes the adds scripts[i].
    method RunExpired(expired: seq<Entry>, scripts: seq<seq<M.Request>>, ghost q: M.Queue)
      requires Pointers(expired) && View() == q && M.Holds(q, ViewEntries(expired))
      requires M.Fresh(q.heap.Keys, M.AddsOf(scripts, |expired|))
      modifies this`timerSet, this`timerfd, this`queued, this`live, this`log
      ensures Pointers(expired)
      ensures View() == AfterCallbacks(q, ViewEntries(expired), scripts, |expired|)
    {
      var i := 0;
      while i < |expired|
        invariant i <= |expired|
        invariant Pointers(expired)
        invariant View() == AfterCallbacks(q, ViewEntries(expired), scripts, i)
      {
        RunOne(expired, i, scripts, q);
        i := i + 1;
      }
    }

    // The queue when the first i callbacks of the batch have run.
    static ghost function AfterCallbacks(q: M.Queue, batch: seq<M.Entry>, scripts: seq<seq<M.Request>>, i: nat): M.Queue
      requires i <= |batch|
    {
      M.AddAll(q, M.AddsOf(scripts, i)).(log := q.log + batch[..i])
    }

    // Callback i starts with its own run recorded, and makes adds that are still fresh.
    static lemma NextCallback(q: M.Queue, batch: seq<M.Entry>, scripts: seq<seq<M.Request>>, i: nat,
                              adds: seq<M.Request>)
      returns (before: M.Queue)
      requires M.Holds(q, batch) && i < |batch| && M.Fresh(q.heap.Keys, M.AddsOf(scripts, |batch|))
      requires adds == if i < |scripts| then scripts[i] else []
      ensures var so := AfterCallbacks(q, batch, scripts, i); before == so.(log := so.log + [batch[i]])
      ensures M.Holds(before, batch) && M.Fresh(before.heap.Keys, adds)
      ensures M.AddAll(before, adds) == AfterCallbacks(q, batch, scripts, i + 1)
    {
      before := AfterCallbacks(q, batch, scripts, i).(log := q.log + batch[..i] + [batch[i]]);
      CallbackIsFresh(q, batch, scripts, i, |batch|);
      LogStep(q.log, batch, i);
      BatchStep(q, M.AddsOf(scripts, i), adds, q.log + batch[..i + 1]);
    }

    static lemma LogStep(log: seq<M.Entry>, batch: seq<M.Entry>, i: nat)
      requires i < |batch|
      ensures log + batch[..i] + [batch[i]] == log + batch[..i + 1]
    {
    }

    static lemma CallbackIsFresh(q: M.Queue, batch: seq<M.Entry>, scripts: seq<seq<M.Request>>, i: nat, n: nat)
      requires M.Holds(q, batch) && i < n && M.Fresh(q.heap.Keys, M.AddsOf(scripts, n))
      ensures M.Fresh(M.AddAll(q, M.AddsOf(scripts, i)).heap.Keys, if i < |scripts| then scripts[i] else [])
      ensures M.Holds(M.AddAll(q, M.AddsOf(scripts, i)), batch)
    {
      var first, both := M.AddsOf(scripts, i), M.AddsOf(scripts, i + 1);
      I.AddsOfPrefix(scripts, i + 1, n);
      I.FreshPrefix(q.heap.Keys, both, M.AddsOf(scripts, n));
      I.FreshPrefix(q.heap.Keys, first, both);
      I.AddAllHolds(q, batch, first);
      SuffixIsFresh(q.heap, first, if i < |scripts| then scripts[i] else [], M.AddAll(q, first).heap);
    }

    static lemma SuffixIsFresh(heap: map<nat, M.Timer>, a: seq<M.Request>, b: seq<M.Request>, heap': map<nat, M.Timer>)
      requires M.Fresh(heap.Keys, a + b) && I.Extends(heap, a, heap')
      ensures M.Fresh(heap'.Keys, b)
    {
      assert (a + b)[..|a|] == a;
      forall i | 0 <= i < |b| ensures b[i].addr !in heap' {
        assert (a + b)[i + |a|] == b[i];
        I.FreshRest(heap, a + b, |a|, heap', i + |a|);
      }
      forall i, j | 0 <= i < j < |b| ensures b[i].addr != b[j].addr {
        assert (a + b)[i + |a|] == b[i] && (a + b)[j + |a|] == b[j];
      }
    }

    static lemma BatchStep(q: M.Queue, done: seq<M.Request>, adds: seq<M.Request>, log: seq<M.Entry>)
      ensures M.AddAll(M.AddAll(q, done).(log := log), adds) == M.AddAll(q, done + adds).(log := log)
    {
      I.AddAllLog(M.AddAll(q, done), adds, log);
      I.AddAllAppend(q, done, adds);
    }

    // The timer being reset is named by its place in the batch and by nothing else.
    lemma NotNamedElsewhere(addr: nat, expired: seq<Entry>)
      requires Pointers(expired) && M.Holds(View(), ViewEntries(expired))
      requires expired != [] && expired[0].timer.addr == addr
      ensures forall i :: 0 <= i < |timerSet| ==> timerSet[i].timer.addr != addr
      ensures forall i :: 0 <= i < |queued| ==> queued[i].addr != addr
      ensures forall i :: 1 <= i < |expired| ==> expired[i].timer.addr != addr
    {
      var q, batch := View(), ViewEntries(expired);
      I.NotElsewhere(q, batch, [], addr);
      I.CountAt(batch, 0);
      forall i | 0 <= i < |timerSet| ensures timerSet[i].timer.addr != addr {
        I.CountAt(q.entries, i);
      }
      forall i | 0 <= i < |queued| ensures queued[i].addr != addr {
        I.OccursIn(q.queued, addr);
        assert q.queued[i] == queued[i].addr;
      }
      forall i | 1 <= i < |expired| ensures expired[i].timer.addr != addr {
        if batch[i].id == batch[0].id {
          I.CountAtTwice(batch, 0, i);
        }
      }
    }

    // One turn of the loop in resetTimerList.
    method ResetTimer(timer: Timer, ghost expired: seq<Entry>, ghost q: M.Queue)
      requires Pointers(expired) && View() == q && M.Holds(q, ViewEntries(expired))
      requires expired != [] && expired[0].timer == timer
      modifies this`timerSet, this`live, timer
      ensures Pointers(expired[1..])
      ensures timer.addr in q.heap && View() == M.ResetOne(q, ViewEntries(expired)[0])
    {
      if timer.Repeat() {
        RestartTimer(timer, expired);
        var first := Insert(timer, expired);
      } else {
        NotNamedElsewhere(timer.addr, expired);
        live := live - {timer.addr};
        assert View() == q.(heap := q.heap - {timer.addr});
      }
    }

    method RestartTimer(timer: Timer, ghost expired: seq<Entry>)
      requires Pointers(expired) && Knows(timer)
      modifies timer
      ensures Pointers(expired)
      ensures timer.addr in old(View()).heap && timer.View() == M.Restart(old(View()).heap[timer.addr])
      ensures View() == old(View()).(heap := old(View()).heap[timer.addr := timer.View()])
    {
      timer.Restart();
    }

    // resetTimerList: restart and re-insert the timers that repeat, delete the others, and arm the
    // descriptor for the new first timer.
    method ResetTimerList(expired: seq<Entry>, clock: int)
      requires Pointers(expired) && M.Holds(View(), ViewEntries(expired))
      modifies this`timerSet, this`timerfd, this`live, set i | 0 <= i < |expired| :: expired[i].timer
      ensures Valid()
      ensures View() == M.Rearm(I.ResetRound(old(View()), ViewEntries(expired)), clock)
    {
      ghost var q, batch := View(), ViewEntries(expired);
      var i := 0;
      assert expired[0..] == expired && batch[0..] == batch;
      while i < |expired|
        invariant i <= |expired|
        invariant Pointers(expired[i..]) && M.Holds(View(), batch[i..])
        invariant I.ResetRound(View(), batch[i..]) == I.ResetRound(q, batch)
      {
        I.ResetRoundStep(View(), batch[i..]);
        assert batch[i..][1..] == batch[i + 1..] && expired[i..][1..] == expired[i + 1..];
        assert ViewEntries(expired[i..]) == batch[i..];
        ResetTimer(expired[i].timer, expired[i..], View());
        i := i + 1;
      }
      assert batch[i..] == [] && expired[i..] == [];
      RearmFirst(clock);
    }

    method RearmFirst(clock: int)
      requires Valid()
      modifies this`timerfd
      ensures Valid() && View() == M.Rearm(old(View()), clock)
    {
      if |timerSet| != 0 && timerSet[0].timer.expiration > 0 {
        ResetTimerfd(timerSet[0].timer.expiration, clock);
      }
      assert View() == old(View()).(fd := timerfd);
    }

    // handleRead: take the expiry, take the due timers out of the set, run them, put them back.
    method HandleRead(readAt: int, now: int, scripts: seq<seq<M.Request>>, end: int)
      requires Valid() && I.MayRound(View(), now, scripts)
      modifies this, live.Values
      ensures Valid()
      ensures View() == I.HandleRead(old(View()), readAt, now, scripts, end)
    {
      ghost var q := View();
      timerfd := M.ReadTimerfd(timerfd, readAt);
      ghost var q0 := q.(fd := M.ReadTimerfd(q.fd, readAt));
      assert View() == q0;
      I.TakeDueHolds(q0, now);
      var expired := GetExpired(now);
      I.RunDueHolds(q, readAt, now, scripts);
      RunExpired(expired, scripts, View());
      ghost var batch := M.Due(q, now);
      assert batch[..|batch|] == batch;
      assert View() == M.RunDue(q, readAt, now, scripts);
      ResetTimerList(expired, end);
    }

    // ~TimerQueue: delete the timers in the set, one by one.
    method Destroy()
      requires Valid()
      modifies this`timerSet, this`live
      ensures Valid() && View() == T.Destroy(old(View()))
    {
      ghost var q := View();
      var i := 0;
      while i < |timerSet|
        invariant i <= |timerSet|
        invariant timerSet == old(timerSet)
        invariant live == old(live) - SetIds(q.entries, i)
      {
        ghost var before := live;
        live := live - {timerSet[i].timer.addr};
        assert SetIds(q.entries, i + 1) == SetIds(q.entries, i) + {timerSet[i].timer.addr};
        i := i + 1;
      }
      T.DestroyKeepsInv(q);
      timerSet := [];
      assert View().heap == T.Destroy(q).heap;
    }
  }

  ghost function SetIds(s: seq<M.Entry>, n: nat): set<nat>
    requires n <= |s|
  {
    set i | 0 <= i < n :: s[i].id
  }
}
