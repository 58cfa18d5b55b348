/**
 Channel.h, Channel.cpp and Epoller.cpp as functions: a channel's event mask and registration
 index, the poller's fd map, and the interest set the kernel keeps.
 */
module ChannelModel {

  const EPOLLIN: bv32 := 0x001
  const EPOLLPRI: bv32 := 0x002
  const EPOLLOUT: bv32 := 0x004
  const EPOLLERR: bv32 := 0x008
  const EPOLLHUP: bv32 := 0x010
  const EPOLLRDHUP: bv32 := 0x2000

  // kNew, kAdded, kDeleted
  datatype Index = New | Added | Deleted

  datatype Chan = Chan(fd: int, index: Index, events: bv32)

  datatype Op =
    | EnableReading
    | DisableReading
    | EnableWrite
    | DisableWrite
    | DisableAll
    | Remove

  function Mask(events: bv32, op: Op): bv32 {
    match op
    case EnableReading => events | EPOLLIN
    case DisableReading => events & !EPOLLIN
    case EnableWrite => events | EPOLLOUT
    case DisableWrite => events & !EPOLLOUT
    case DisableAll => 0
    case Remove => events
  }

  // disableReading ends in remove(), like remove() itself; every other change ends in update().
  predicate Removes(op: Op) {
    op.DisableReading? || op.Remove?
  }

  predicate IsReading(events: bv32) {
    events & EPOLLIN != 0
  }

  predicate IsWriting(events: bv32) {
    events & EPOLLOUT != 0
  }

  // The two interests do not disturb each other.
  lemma EnableReadingBits(events: bv32)
    ensures IsReading(Mask(events, EnableReading)) && IsWriting(Mask(events, EnableReading)) == IsWriting(events)
  {
    assert (events | 0x001) & 0x001 != 0 && (events | 0x001) & 0x004 == events & 0x004;
  }

  lemma DisableReadingBits(events: bv32)
    ensures !IsReading(Mask(events, DisableReading)) && IsWriting(Mask(events, DisableReading)) == IsWriting(events)
  {
    assert (events & !0x001) & 0x001 == 0 && (events & !0x001) & 0x004 == events & 0x004;
  }

  lemma EnableWriteBits(events: bv32)
    ensures IsWriting(Mask(events, EnableWrite)) && IsReading(Mask(events, EnableWrite)) == IsReading(events)
  {
    assert (events | 0x004) & 0x004 != 0 && (events | 0x004) & 0x001 == events & 0x001;
  }

  lemma DisableWriteBits(events: bv32)
    ensures !IsWriting(Mask(events, DisableWrite)) && IsReading(Mask(events, DisableWrite)) == IsReading(events)
  {
    assert (events & !0x004) & 0x004 == 0 && (events & !0x004) & 0x001 == events & 0x001;
  }

  // Nor any other bit of the mask.
  lemma EnableReadingKeeps(events: bv32)
    ensures Mask(events, EnableReading) & 0xFFFF_FFFE == events & 0xFFFF_FFFE
  {
  }

  lemma DisableReadingKeeps(events: bv32)
    ensures Mask(events, DisableReading) & 0xFFFF_FFFE == events & 0xFFFF_FFFE
  {
  }

  lemma EnableWriteKeeps(events: bv32)
    ensures Mask(events, EnableWrite) & 0xFFFF_FFFB == events & 0xFFFF_FFFB
  {
  }

  lemma DisableWriteKeeps(events: bv32)
    ensures Mask(events, DisableWrite) & 0xFFFF_FFFB == events & 0xFFFF_FFFB
  {
  }

  lemma WholeMasks(events: bv32)
    ensures Mask(events, DisableAll) == 0 && Mask(events, Remove) == events
  {
  }

  lemma NoBits()
    ensures !IsReading(0) && !IsWriting(0)
  {
  }

  // ---------- registration ----------

  // What epoll_ctl keeps for a descriptor: the events and the pointer it hands back.
  datatype Interest<K> = Interest(events: bv32, ptr: K)

  datatype Ctl = Add | Mod | Del

  datatype World<K(==)> = World(
    chans: map<K, Chan>,
    channelMap: map<int, K>,
    kernel: map<int, Interest<K>>,
    refused: nat)

  // epoll_ctl refuses to add a descriptor it has, and to change or delete one it does not have.
  function EpollCtl<K(==)>(w: World<K>, ctl: Ctl, c: K): World<K>
    requires c in w.chans
  {
    var fd, interest := w.chans[c].fd, Interest(w.chans[c].events, c);
    if ctl.Add? == (fd in w.kernel) then w.(refused := w.refused + 1)
    else if ctl.Del? then w.(kernel := w.kernel - {fd})
    else w.(kernel := w.kernel[fd := interest])
  }

  function SetIndex<K(==)>(w: World<K>, c: K, index: Index): World<K>
    requires c in w.chans
  {
    w.(chans := w.chans[c := w.chans[c].(index := index)])
  }

  function SetEvents<K(==)>(w: World<K>, c: K, events: bv32): World<K>
    requires c in w.chans
  {
    w.(chans := w.chans[c := w.chans[c].(events := events)])
  }

  // The assertions at the head of updateChannel and removeChannel.
  predicate MayUpdate<K(==)>(w: World<K>, c: K) {
    c in w.chans &&
    if w.chans[c].index.New? then w.chans[c].fd !in w.channelMap
    else w.chans[c].fd in w.channelMap && w.channelMap[w.chans[c].fd] == c
  }

  predicate MayRemove<K(==)>(w: World<K>, c: K) {
    && c in w.chans && !w.chans[c].index.New?
    && w.chans[c].fd in w.channelMap && w.channelMap[w.chans[c].fd] == c
  }

  function UpdateChannel<K(==)>(w: World<K>, c: K): World<K>
    requires MayUpdate(w, c)
  {
    var ch := w.chans[c];
    match ch.index
    case New => EpollCtl(SetIndex(w.(channelMap := w.channelMap[ch.fd := c]), c, Added), Ctl.Add, c)
    case Deleted => EpollCtl(SetIndex(w, c, Added), Ctl.Add, c)
    case Added => if ch.events == 0 then SetIndex(EpollCtl(w, Del, c), c, Deleted) else EpollCtl(w, Mod, c)
  }

  function RemoveChannel<K(==)>(w: World<K>, c: K): World<K>
    requires MayRemove(w, c)
  {
    var w1 := w.(channelMap := w.channelMap - {w.chans[c].fd});
    SetIndex(if w.chans[c].index.Added? then EpollCtl(w1, Del, c) else w1, c, New)
  }

  predicate May<K(==)>(w: World<K>, c: K, op: Op) {
    if Removes(op) then MayRemove(w, c) else MayUpdate(w, c)
  }

  function Apply<K(==)>(w: World<K>, c: K, op: Op): World<K>
    requires May(w, c, op)
  {
    var w1 := SetEvents(w, c, Mask(w.chans[c].events, op));
    if Removes(op) then RemoveChannel(w1, c) else UpdateChannel(w1, c)
  }

  // What an operation does to the channel's own fields.
  function OwnFields(ch: Chan, op: Op): Chan {
    var events := Mask(ch.events, op);
    if Removes(op) then ch.(events := events, index := New)
    else if ch.index.Added? && events == 0 then ch.(events := events, index := Deleted)
    else ch.(events := events, index := Added)
  }

  lemma ApplyOwnFields<K>(w: World<K>, c: K, op: Op)
    requires May(w, c, op)
    ensures c in Apply(w, c, op).chans && Apply(w, c, op).chans[c] == OwnFields(w.chans[c], op)
  {
  }

  // ---------- the invariant ----------

  ghost predicate Registered<K>(w: World<K>, c: K) {
    c in w.chans && !w.chans[c].index.New?
  }

  // The map holds exactly the added and deleted channels; the kernel's set is exactly the masks of
  // the added ones; a deleted channel wants nothing; and no epoll_ctl call was ever refused.
  ghost predicate Agrees<K>(w: World<K>) {
    && (forall c :: c in w.chans && Registered(w, c) ==>
          w.chans[c].fd in w.channelMap && w.channelMap[w.chans[c].fd] == c)
    && (forall fd :: fd in w.channelMap ==> Registered(w, w.channelMap[fd]) && w.chans[w.channelMap[fd]].fd == fd)
    && (forall fd :: fd in w.kernel <==> fd in w.channelMap && w.chans[w.channelMap[fd]].index.Added?)
    && (forall fd :: fd in w.kernel ==> w.kernel[fd] == Interest(w.chans[w.channelMap[fd]].events, w.channelMap[fd]))
    && (forall c :: c in w.chans && w.chans[c].index.Deleted? ==> w.chans[c].events == 0)
    && w.refused == 0
  }

  lemma UpdateNew<K>(w: World<K>, c: K, events: bv32)
    requires Agrees(w) && MayUpdate(w, c) && w.chans[c].index.New?
    ensures Agrees(UpdateChannel(SetEvents(w, c, events), c))
  {
    assert w.chans[c].fd !in w.kernel;
  }

  lemma UpdateDeleted<K>(w: World<K>, c: K, events: bv32)
    requires Agrees(w) && MayUpdate(w, c) && w.chans[c].index.Deleted?
    ensures Agrees(UpdateChannel(SetEvents(w, c, events), c))
  {
    assert w.chans[c].fd !in w.kernel;
  }

  lemma UpdateAdded<K>(w: World<K>, c: K, events: bv32)
    requires Agrees(w) && MayUpdate(w, c) && w.chans[c].index.Added?
    ensures Agrees(UpdateChannel(SetEvents(w, c, events), c))
  {
    assert w.chans[c].fd in w.kernel;
  }

  lemma RemoveAgrees<K>(w: World<K>, c: K, events: bv32)
    requires Agrees(w) && MayRemove(w, c)
    ensures Agrees(RemoveChannel(SetEvents(w, c, events), c))
  {
    assert w.chans[c].fd in w.kernel <==> w.chans[c].index.Added?;
  }

  lemma ApplyAgrees<K>(w: World<K>, c: K, op: Op)
    requires Agrees(w) && May(w, c, op)
    ensures Agrees(Apply(w, c, op))
  {
    var events := Mask(w.chans[c].events, op);
    if Removes(op) {
      RemoveAgrees(w, c, events);
    } else {
      match w.chans[c].index
      case New => UpdateNew(w, c, events);
      case Deleted => UpdateDeleted(w, c, events);
      case Added => UpdateAdded(w, c, events);
    }
  }

  // ---------- what each call leaves registered ----------

  // The other channels and descriptors are as before.
  ghost predicate OthersSame<K>(w: World<K>, r: World<K>, c: K)
    requires c in w.chans
  {
    && r.chans.Keys == w.chans.Keys && (forall x :: x in w.chans && x != c ==> r.chans[x] == w.chans[x])
    && (forall fd :: fd != w.chans[c].fd ==>
          (if fd in w.channelMap then fd in r.channelMap && r.channelMap[fd] == w.channelMap[fd]
           else fd !in r.channelMap)
          && (if fd in w.kernel then fd in r.kernel && r.kernel[fd] == w.kernel[fd] else fd !in r.kernel))
  }

  lemma RemoveFrees<K>(w: World<K>, c: K, events: bv32)
    requires Agrees(w) && MayRemove(w, c)
    ensures var r := RemoveChannel(SetEvents(w, c, events), c);
            && OthersSame(w, r, c) && r.chans[c] == Chan(w.chans[c].fd, New, events)
            && w.chans[c].fd !in r.channelMap && w.chans[c].fd !in r.kernel
  {
    assert w.chans[c].fd in w.kernel <==> w.chans[c].index.Added?;
  }

  // disableReading() and remove() leave nothing of the channel in the poller or the kernel, even if
  // it still wants to write: its descriptor is free for another channel.
  lemma RemovalUnregisters<K>(w: World<K>, c: K, op: Op)
    requires Agrees(w) && May(w, c, op) && (op.DisableReading? || op.Remove?)
    ensures var r := Apply(w, c, op);
            && OthersSame(w, r, c) && r.chans[c] == Chan(w.chans[c].fd, New, Mask(w.chans[c].events, op))
            && w.chans[c].fd !in r.channelMap && w.chans[c].fd !in r.kernel
  {
    var events := Mask(w.chans[c].events, op);
    assert Apply(w, c, op) == RemoveChannel(SetEvents(w, c, events), c);
    RemoveFrees(w, c, events);
  }

  lemma DisableReadingUnregisters<K>(w: World<K>, c: K)
    requires Agrees(w) && May(w, c, DisableReading)
    ensures var r, fd := Apply(w, c, DisableReading), w.chans[c].fd;
            && r.chans[c].index.New? && fd !in r.channelMap && fd !in r.kernel
            && !IsReading(r.chans[c].events) && IsWriting(r.chans[c].events) == IsWriting(w.chans[c].events)
  {
    RemovalUnregisters(w, c, DisableReading);
    DisableReadingBits(w.chans[c].events);
  }

  lemma UpdateKeepsWanted<K>(w: World<K>, c: K, events: bv32)
    requires Agrees(w) && MayUpdate(w, c)
    ensures var r, fd := UpdateChannel(SetEvents(w, c, events), c), w.chans[c].fd;
            && OthersSame(w, r, c) && r.chans[c].fd == fd && r.chans[c].events == events
            && fd in r.channelMap && r.channelMap[fd] == c
            && if events == 0 && w.chans[c].index.Added? then fd !in r.kernel && r.chans[c].index.Deleted?
               else fd in r.kernel && r.kernel[fd] == Interest(events, c) && r.chans[c].index.Added?
  {
    assert w.chans[c].fd in w.kernel <==> w.chans[c].index.Added?;
  }

  // Every other call leaves the channel in the poller's map, and in the kernel with exactly what it
  // now wants, unless it was there and now wants nothing.
  lemma UpdateRegisters<K>(w: World<K>, c: K, op: Op)
    requires Agrees(w) && May(w, c, op) && !op.DisableReading? && !op.Remove?
    ensures var r := Apply(w, c, op);
            var events, fd := Mask(w.chans[c].events, op), w.chans[c].fd;
            && OthersSame(w, r, c) && r.chans[c].fd == fd && r.chans[c].events == events
            && fd in r.channelMap && r.channelMap[fd] == c
            && if events == 0 && w.chans[c].index.Added? then fd !in r.kernel && r.chans[c].index.Deleted?
               else fd in r.kernel && r.kernel[fd] == Interest(events, c) && r.chans[c].index.Added?
  {
    var events := Mask(w.chans[c].events, op);
    assert Apply(w, c, op) == UpdateChannel(SetEvents(w, c, events), c);
    UpdateKeepsWanted(w, c, events);
  }

  // ---------- runs ----------

  datatype Call<K> = Call(c: K, op: Op)

  predicate Runs<K(==)>(w: World<K>, calls: seq<Call<K>>)
    decreases |calls|
  {
    calls == [] || (May(w, calls[0].c, calls[0].op) && Runs(Apply(w, calls[0].c, calls[0].op), calls[1..]))
  }

  function After<K(==)>(w: World<K>, calls: seq<Call<K>>): World<K>
    requires Runs(w, calls)
    decreases |calls|
  {
    if calls == [] then w else After(Apply(w, calls[0].c, calls[0].op), calls[1..])
  }

  // Channels as constructed, and a poller that knows none of them.
  function Fresh<K(==)>(fds: map<K, int>): World<K> {
    World(map c | c in fds :: Chan(fds[c], New, 0), map[], map[], 0)
  }

  // Under any sequence of calls the three records agree, and the kernel accepts every epoll_ctl.
  lemma {:induction false} RunAgrees<K>(w: World<K>, calls: seq<Call<K>>)
    requires Agrees(w) && Runs(w, calls)
    ensures Agrees(After(w, calls))
    decreases |calls|
  {
    if calls != [] {
      ApplyAgrees(w, calls[0].c, calls[0].op);
      RunAgrees(Apply(w, calls[0].c, calls[0].op), calls[1..]);
    }
  }

  lemma RegistrationRefinesKernel<K>(fds: map<K, int>, calls: seq<Call<K>>)
    requires Runs(Fresh(fds), calls)
    ensures var w := After(Fresh(fds), calls);
            && Agrees(w)
            && (forall c :: c in w.chans && w.chans[c].index.Added? ==>
                  w.chans[c].fd in w.kernel && w.kernel[w.chans[c].fd] == Interest(w.chans[c].events, c))
  {
    RunAgrees(Fresh(fds), calls);
    var w := After(Fresh(fds), calls);
    forall c | c in w.chans && w.chans[c].index.Added?
      ensures w.chans[c].fd in w.kernel && w.kernel[w.chans[c].fd] == Interest(w.chans[c].events, c)
    {
      assert Registered(w, c);
    }
  }

  // The assertions in the code come down to: a channel joins the map only if its descriptor is not
  // in it, and leaves it only if it has joined.
  lemma AssertionsHoldIff<K>(w: World<K>, c: K)
    requires Agrees(w) && c in w.chans
    ensures MayUpdate(w, c) <==> (w.chans[c].index.New? ==> w.chans[c].fd !in w.channelMap)
    ensures MayRemove(w, c) <==> !w.chans[c].index.New?
  {
    assert !w.chans[c].index.New? ==> Registered(w, c);
  }

  // After an update the channel is registered with an empty mask exactly when the mask became
  // empty while it was not in the kernel's set: "added" does not mean "wants something".
  lemma AddedAndEmptyIff<K>(w: World<K>, c: K, op: Op)
    requires Agrees(w) && May(w, c, op) && !Removes(op)
    ensures var r := Apply(w, c, op);
            r.chans[c].index.Added? && r.chans[c].events == 0
            <==> Mask(w.chans[c].events, op) == 0 && !w.chans[c].index.Added?
  {
  }

  // Disabling everything twice is such a case.
  lemma DisableAllTwice<K>(w: World<K>, c: K)
    requires Agrees(w) && MayUpdate(w, c) && w.chans[c].index.Added?
    ensures Runs(w, [Call(c, DisableAll), Call(c, DisableAll)])
    ensures var r := After(w, [Call(c, DisableAll), Call(c, DisableAll)]);
            c in r.chans && r.chans[c].index.Added? && w.chans[c].fd in r.kernel && r.kernel[w.chans[c].fd].events == 0
  {
    var calls := [Call(c, DisableAll), Call(c, DisableAll)];
    var w1 := Apply(w, c, DisableAll);
    ApplyAgrees(w, c, DisableAll);
    assert w1.chans[c].index.Deleted?;
    AssertionsHoldIff(w1, c);
    assert calls[1..] == [Call(c, DisableAll)] && calls[1..][1..] == [];
    var w2 := Apply(w1, c, DisableAll);
    assert After(w1, calls[1..]) == After(w2, []);
  }

  // ---------- events ----------

  // The kernel reports a registered descriptor, with its pointer, for requested events and the two
  // it always reports.
  ghost predicate MayReport<K>(w: World<K>, c: K, revents: bv32) {
    exists fd :: fd in w.kernel && w.kernel[fd].ptr == c
                 && revents & !(w.kernel[fd].events | EPOLLERR | EPOLLHUP) == 0
  }

  // So a channel whose handler runs is registered, and gets only events it asked for.
  lemma ReportedIsAdded<K>(w: World<K>, c: K, revents: bv32)
    requires Agrees(w) && MayReport(w, c, revents)
    ensures c in w.chans && w.chans[c].index.Added?
    ensures revents & !(w.chans[c].events | EPOLLERR | EPOLLHUP) == 0
  {
  }

  datatype Callback = OnClose | OnRead | OnWrite

  // handleEvent: the callbacks that run, in order.  The error branch tests the error callback but
  // calls the close callback, as the code does.
  function HandleEvent(revents: bv32, closeSet: bool, errorSet: bool, readSet: bool, writeSet: bool): seq<Callback> {
    (if revents & EPOLLHUP != 0 && revents & EPOLLIN == 0 && closeSet then [OnClose] else []) +
    (if revents & EPOLLERR != 0 && errorSet then [OnClose] else []) +
    (if revents & (EPOLLIN | EPOLLPRI | EPOLLRDHUP) != 0 && readSet then [OnRead] else []) +
    (if revents & EPOLLOUT != 0 && writeSet then [OnWrite] else [])
  }

  // Which callbacks run, whichever are set.
  lemma CallbacksRunIff(revents: bv32, closeSet: bool, errorSet: bool, readSet: bool, writeSet: bool)
    ensures var cbs := HandleEvent(revents, closeSet, errorSet, readSet, writeSet);
            && (OnClose in cbs <==> (closeSet && revents & EPOLLHUP != 0 && revents & EPOLLIN == 0)
                                    || (errorSet && revents & EPOLLERR != 0))
            && (OnRead in cbs <==> readSet && revents & (EPOLLIN | EPOLLPRI | EPOLLRDHUP) != 0)
            && (OnWrite in cbs <==> writeSet && revents & EPOLLOUT != 0)
  {
  }
}
