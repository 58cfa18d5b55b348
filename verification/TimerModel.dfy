/**
 The timer queue of TimerQueue.cpp as a function of its inputs: the live Timer objects (by
 address), the ordered set of (expiration, timer) entries, the adds still waiting in the loop's
 functor queue, the one-shot timerfd, and a log of the callbacks that ran.

 Times are whole microseconds on one clock.  Every reading of the clock is an input, so nothing
 is assumed about how long callbacks take.
 */
module TimerModel {

  const MICROS_PER_SECOND := 1_000_000
  const MIN_DELAY := 100

  // UINTPTR_MAX, the pointer value that stands above every Timer in getExpired.
  const SENTINEL: nat := 0xFFFF_FFFF_FFFF_FFFF

  type Addr = a: nat | a < SENTINEL

  // What Timestamp::now() returns: always after the epoch.
  type Clock = c: int | 0 < c witness 1

  datatype Timer = Timer(expiration: int, interval: real)
  datatype Entry = Entry(when: int, id: nat)
  datatype TimerFd = Disarmed | Armed(at: int, deadline: int)
  datatype Timespec = Timespec(sec: int, nsec: int)

  // One call of addTimer: the address `new Timer` got, the arguments, and the clock that
  // resetTimerfd reads if this timer becomes the first one.
  datatype Request = Request(addr: Addr, expiration: int, interval: real, clock: Clock)

  datatype Queue = Queue(
    heap: map<nat, Timer>,
    queued: seq<nat>,
    entries: seq<Entry>,
    fd: TimerFd,
    log: seq<Entry>)

  // ---------- Timer.h ----------

  predicate Repeats(t: Timer) {
    t.interval > 0.0
  }

  // The whole microseconds addTime adds for an interval in seconds: its cast drops the fraction.
  function Delta(interval: real): (d: int)
    ensures interval > 0.0 ==> 0 <= d
    ensures interval >= 0.0 ==> d as real <= interval * 1000000.0 < d as real + 1.0
    ensures interval <= 0.0 ==> d as real - 1.0 < interval * 1000000.0 <= d as real
  {
    if interval >= 0.0 then (interval * 1000000.0).Floor else -(-interval * 1000000.0).Floor
  }

  function Restart(t: Timer): Timer {
    if Repeats(t) then t.(expiration := t.expiration + Delta(t.interval)) else t.(expiration := 0)
  }

  // ---------- the timerfd ----------

  function Max(a: int, b: int): int {
    if a < b then b else a
  }

  // howMuchTimeFromNow: the delay as a timespec is exact, in range, and never the zero value
  // that would disarm the descriptor.
  function HowMuchTimeFromNow(when: int, now: int): (ts: Timespec)
    ensures ts.sec * 1_000_000_000 + ts.nsec == 1000 * Max(when - now, MIN_DELAY)
    ensures 0 <= ts.sec && 0 <= ts.nsec < 1_000_000_000
    ensures ts != Timespec(0, 0)
  {
    var micros := if when - now < MIN_DELAY then MIN_DELAY else when - now;
    Timespec(micros / MICROS_PER_SECOND, (micros % MICROS_PER_SECOND) * 1000)
  }

  // timerfd_settime with a relative, one-shot value: the zero value disarms.
  function SetTime(value: Timespec, now: int): TimerFd {
    if value == Timespec(0, 0) then Disarmed
    else Armed(now, now + value.sec * MICROS_PER_SECOND + value.nsec / 1000)
  }

  function ResetTimerfd(expiration: int, now: int): TimerFd {
    SetTime(HowMuchTimeFromNow(expiration, now), now)
  }

  lemma ResetTimerfdIsExact(expiration: int, now: int)
    ensures ResetTimerfd(expiration, now) == Armed(now, Max(expiration, now + MIN_DELAY))
  {
    var micros := Max(expiration - now, MIN_DELAY);
    assert HowMuchTimeFromNow(expiration, now).nsec / 1000 == micros % MICROS_PER_SECOND;
  }

  // Reading the descriptor takes its one expiry, if it has one to take.
  function ReadTimerfd(fd: TimerFd, now: int): TimerFd {
    if fd.Armed? && fd.deadline <= now then Disarmed else fd
  }

  // ---------- the ordered set ----------

  // std::pair<Timestamp, Timer*> order.
  predicate Less(a: Entry, b: Entry) {
    a.when < b.when || (a.when == b.when && a.id < b.id)
  }

  ghost predicate Sorted(s: seq<Entry>) {
    forall i, j :: 0 <= i < j < |s| ==> Less(s[i], s[j])
  }

  function LowerBound(s: seq<Entry>, e: Entry): (k: nat)
    ensures k <= |s|
    ensures forall i :: 0 <= i < k ==> Less(s[i], e)
    ensures k < |s| ==> !Less(s[k], e)
  {
    if s == [] || !Less(s[0], e) then 0 else 1 + LowerBound(s[1..], e)
  }

  // std::set::insert: an equal entry is not inserted twice.
  function Insert(s: seq<Entry>, e: Entry): seq<Entry> {
    var k := LowerBound(s, e);
    if k < |s| && s[k] == e then s else s[..k] + [e] + s[k..]
  }

  // ---------- TimerQueue.cpp ----------

  // insert() followed by the re-arming of addTimerInLoop.
  function AddTimerInLoop(q: Queue, id: nat, clock: int): Queue
    requires id in q.heap
  {
    var when := q.heap[id].expiration;
    var first := q.entries == [] || when < q.entries[0].when;
    q.(entries := Insert(q.entries, Entry(when, id)),
       fd := if first then ResetTimerfd(when, clock) else q.fd)
  }

  function Allocate(q: Queue, r: Request): Queue {
    q.(heap := q.heap[r.addr := Timer(r.expiration, r.interval)])
  }

  // addTimer on the loop thread runs addTimerInLoop at once; from another thread it is queued.
  function AddTimer(q: Queue, r: Request, inLoop: bool): Queue {
    var q1 := Allocate(q, r);
    if inLoop then AddTimerInLoop(q1, r.addr, r.clock) else q1.(queued := q1.queued + [r.addr])
  }

  // The loop runs the oldest queued addTimerInLoop functor.
  function RunQueuedAdd(q: Queue, clock: int): Queue
    requires q.queued != [] && q.queued[0] in q.heap
  {
    AddTimerInLoop(q.(queued := q.queued[1..]), q.queued[0], clock)
  }

  function AddAll(q: Queue, rs: seq<Request>): Queue {
    if rs == [] then q else AddTimer(AddAll(q, rs[..|rs| - 1]), rs[|rs| - 1], true)
  }

  // The adds made by the first n callbacks of a round: callback i makes scripts[i], in order.
  function AddsOf(scripts: seq<seq<Request>>, n: nat): seq<Request> {
    if n == 0 then []
    else AddsOf(scripts, n - 1) + if n - 1 < |scripts| then scripts[n - 1] else []
  }

  // The batch getExpired takes out of the set.
  function Due(q: Queue, now: int): seq<Entry> {
    q.entries[..LowerBound(q.entries, Entry(now, SENTINEL))]
  }

  function TakeDue(q: Queue, now: int): Queue {
    q.(entries := q.entries[LowerBound(q.entries, Entry(now, SENTINEL))..])
  }

  // One turn of the loop in resetTimerList: re-insert a repeating timer, delete the others.
  function ResetOne(q: Queue, e: Entry): Queue
    requires e.id in q.heap
  {
    var t := q.heap[e.id];
    if Repeats(t) then
      q.(heap := q.heap[e.id := Restart(t)],
         entries := Insert(q.entries, Entry(Restart(t).expiration, e.id)))
    else
      q.(heap := q.heap - {e.id})
  }

  ghost predicate AllIn(batch: seq<Entry>, heap: map<nat, Timer>) {
    && (forall i :: 0 <= i < |batch| ==> batch[i].id in heap)
    && (forall i, j :: 0 <= i < j < |batch| ==> batch[i].id != batch[j].id)
  }

  ghost function ResetAll(q: Queue, batch: seq<Entry>): (r: Queue)
    requires AllIn(batch, q.heap)
    ensures r.fd == q.fd && r.log == q.log && r.queued == q.queued
    decreases |batch|
  {
    if batch == [] then q else ResetAll(ResetOne(q, batch[0]), batch[1..])
  }

  // The end of resetTimerList: arm for the new first timer, unless its time is not valid.
  ghost function Rearm(q: Queue, clock: int): Queue
    requires q.entries != [] ==> q.entries[0].id in q.heap
  {
    if q.entries != [] && q.heap[q.entries[0].id].expiration > 0
    then q.(fd := ResetTimerfd(q.heap[q.entries[0].id].expiration, clock))
    else q
  }

  // The part of handleRead up to resetTimerList: read the descriptor, take the batch, run it.
  function RunDue(q: Queue, readAt: int, now: int, scripts: seq<seq<Request>>): Queue {
    var batch := Due(q, now);
    var q1 := TakeDue(q.(fd := ReadTimerfd(q.fd, readAt)), now);
    AddAll(q1, AddsOf(scripts, |batch|)).(log := q.log + batch)
  }

  // ---------- where every timer is ----------

  ghost function Count(s: seq<Entry>, id: nat): nat {
    if s == [] then 0 else (if s[0].id == id then 1 else 0) + Count(s[1..], id)
  }

  ghost function Occurs(s: seq<nat>, id: nat): nat {
    if s == [] then 0 else (if s[0] == id then 1 else 0) + Occurs(s[1..], id)
  }

  // Each live timer is in exactly one of the batch in flight, the ordered set and the queued adds,
  // and each entry's key is its timer's own expiration.
  ghost predicate Holds(q: Queue, batch: seq<Entry>) {
    && Placed(q, batch, [])
    && KeysAgree(q.heap, batch)
    && KeysAgree(q.heap, q.entries)
    && Sorted(q.entries)
  }

  // `hand` holds a timer that addTimerInLoop has been given but has not inserted yet.
  ghost predicate Placed(q: Queue, batch: seq<Entry>, hand: seq<nat>) {
    && (forall id: nat :: InOnePlace(q.heap, q.entries, q.queued, batch, hand, id))
    && (forall id :: id in q.heap ==> id < SENTINEL)
  }

  ghost predicate InOnePlace(heap: map<nat, Timer>, entries: seq<Entry>, queued: seq<nat>,
                             batch: seq<Entry>, hand: seq<nat>, id: nat) {
    Count(batch, id) + Count(entries, id) + Occurs(queued, id) + Occurs(hand, id) == if id in heap then 1 else 0
  }

  ghost predicate KeysAgree(heap: map<nat, Timer>, s: seq<Entry>) {
    forall i :: 0 <= i < |s| ==> s[i].id in heap && heap[s[i].id].expiration == s[i].when
  }

  ghost predicate Inv(q: Queue) {
    Holds(q, [])
  }

  predicate Fresh(live: set<nat>, rs: seq<Request>) {
    && (forall i :: 0 <= i < |rs| ==> rs[i].addr !in live)
    && (forall i, j :: 0 <= i < j < |rs| ==> rs[i].addr != rs[j].addr)
  }

  // ---------- runs ----------

  // What can happen to the queue between two calls of handleRead, and a call of handleRead.
  // `Round` carries the clock at the read, in getExpired and at the final re-arming.
  datatype Step =
    | Add(request: Request, inLoop: bool)
    | RunQueued(clock: Clock)
    | Round(readAt: Clock, now: Clock, scripts: seq<seq<Request>>, end: Clock)

  const Empty := Queue(map[], [], [], Disarmed, [])
}
