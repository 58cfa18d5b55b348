/**
 One connection over its life: the events its loop dispatches to it, what user code does in the
 callbacks, and the order of its states.

 The kernel reports a descriptor only while it is registered, and only events asked for plus HUP
 and ERR, which ChannelModel shows the poller keeps true.
 */
module Lifecycle {
  import opened ConnectionModel
  import opened ChannelModel
  import opened Seqs

  // What user code does to a connection from a callback on the loop thread.
  datatype UserOp = UserSend(msg: Message, wish: WriteResult) | UserShutDown

  datatype ReadResult = Bytes | Eof | ReadError

  // The kernel's answer to write(): what the environment wishes, as far as the socket allows.
  function Answer(c: Conn, len: nat, wish: WriteResult): (w: WriteResult)
    ensures LegalWrite(c, len, w)
  {
    if c.wrClosed then Reset
    else if wish.Wrote? && wish.n > len then Wrote(len)
    else wish
  }

  function User(code: Code, c: Conn, op: UserOp): Conn {
    match op
    case UserSend(msg, wish) => Send(code, c, msg, Answer(c, |msg|, wish)).c
    case UserShutDown => ShutDown(c)
  }

  function UserAll(code: Code, c: Conn, ops: seq<UserOp>): Conn
    decreases |ops|
  {
    if ops == [] then c else UserAll(code, User(code, c, ops[0]), ops[1..])
  }

  // handleRead; the message callback does ops.
  function Read(code: Code, c: Conn, r: ReadResult, ops: seq<UserOp>): Conn {
    match r
    case Bytes => UserAll(code, c, ops)
    case Eof => HandleClose(c)
    case ReadError => c
  }

  datatype Event = Event(revents: bv32, read: ReadResult, ops: seq<UserOp>, wish: WriteResult)

  function RunCallback(code: Code, c: Conn, cb: Callback, e: Event): Conn {
    match cb
    case OnClose => HandleClose(c)
    case OnRead => Read(code, c, e.read, e.ops)
    case OnWrite => HandleWrite(code, c, Answer(c, RequestLength(code, c), e.wish))
  }

  function RunCallbacks(code: Code, c: Conn, cbs: seq<Callback>, e: Event): Conn
    decreases |cbs|
  {
    if cbs == [] then c else RunCallbacks(code, RunCallback(code, c, cbs[0], e), cbs[1..], e)
  }

  // Channel::handleEvent for a connection, which sets no error callback.
  function Handle(code: Code, c: Conn, e: Event): Conn {
    RunCallbacks(code, c, HandleEvent(e.revents, true, false, true, true), e)
  }

  predicate MayOccur(c: Conn, e: Event) {
    c.chan.index.Added? && e.revents & !(c.chan.events | EPOLLERR | EPOLLHUP) == 0
  }

  // ---------- one connection ----------

  predicate Life(c: Conn) {
    match c.state
    case Connecting => c.chan.index.New? && c.chan.events == 0 && c.closes == 0
    case Disconnected => c.chan.index.Deleted? && c.chan.events == 0 && c.closes == 1
    case _ => c.chan.index.Added? && (c.chan.events == EPOLLIN || c.chan.events == EPOLLIN | EPOLLOUT) && c.closes == 0
  }

  // It is the same connection, its lifecycle is in order, and its state has not moved back.
  predicate Forward(c: Conn, r: Conn) {
    Life(r) && Number(c.state) <= Number(r.state) && r.chan.fd == c.chan.fd
  }

  lemma Masks()
    ensures EPOLLIN | EPOLLOUT == 5 && EPOLLIN & !EPOLLOUT == 1 && (EPOLLIN | EPOLLOUT) & !EPOLLOUT == 1
    ensures (EPOLLIN | EPOLLOUT) | EPOLLOUT == 5 && 0 | EPOLLIN == 1
    ensures !IsWriting(EPOLLIN) && IsWriting(EPOLLIN | EPOLLOUT) && !IsWriting(0)
  {
  }

  lemma UserForward(code: Code, c: Conn, op: UserOp)
    requires Life(c)
    ensures Forward(c, User(code, c, op))
  {
    Masks();
  }

  lemma {:induction false} UserAllForward(code: Code, c: Conn, ops: seq<UserOp>)
    requires Life(c)
    ensures Forward(c, UserAll(code, c, ops)) && (UserAll(code, c, ops).state.Disconnected? ==> c.state.Disconnected?)
    decreases |ops|
  {
    if ops != [] {
      UserForward(code, c, ops[0]);
      UserAllForward(code, User(code, c, ops[0]), ops[1..]);
    }
  }

  // handleClose calls the connection callback when the connection is already down: whatever that
  // callback sends or shuts down has no effect any more.
  lemma {:induction false} ClosedIgnoresUser(code: Code, c: Conn, ops: seq<UserOp>)
    requires c.state.Disconnected?
    ensures UserAll(code, c, ops) == c
    decreases |ops|
  {
    if ops != [] {
      ClosedIgnoresUser(code, c, ops[1..]);
    }
  }

  lemma WriteForward(code: Code, c: Conn, wish: WriteResult)
    requires Life(c) && !c.state.Connecting?
    ensures Forward(c, HandleWrite(code, c, Answer(c, RequestLength(code, c), wish)))
    ensures HandleWrite(code, c, Answer(c, RequestLength(code, c), wish)).state == c.state
  {
    Masks();
  }

  // A registered connection is asked only for reading and writing, so an event that hangs up
  // without data to read does not read as well.
  lemma NoReadAfterHangup(c: Conn, e: Event)
    requires Life(c) && MayOccur(c, e) && e.revents & EPOLLIN == 0
    ensures e.revents & (EPOLLIN | EPOLLPRI | EPOLLRDHUP) == 0
  {
    var r := e.revents;
    assert (EPOLLIN | EPOLLOUT) | EPOLLERR | EPOLLHUP == 0x1D && EPOLLIN | EPOLLERR | EPOLLHUP == 0x19;
    assert r & !0x19 == 0 || r & !0x1D == 0;
    assert r & !0x19 == 0 && r & 1 == 0 ==> r & 0x2003 == 0;
    assert r & !0x1D == 0 && r & 1 == 0 ==> r & 0x2003 == 0;
    assert EPOLLIN | EPOLLPRI | EPOLLRDHUP == 0x2003;
  }

  // Every event, whatever the callbacks do, keeps the lifecycle: the connection is closed at most
  // once, and only an open one is.
  lemma HandleForward(code: Code, c: Conn, e: Event)
    requires Life(c) && MayOccur(c, e)
    ensures Forward(c, Handle(code, c, e))
    ensures Handle(code, c, e).closes == if Handle(code, c, e).state.Disconnected? then 1 else 0
  {
    var cbs := HandleEvent(e.revents, true, false, true, true);
    var hangup := e.revents & EPOLLHUP != 0 && e.revents & EPOLLIN == 0;
    if hangup {
      NoReadAfterHangup(c, e);
    }
    var readable := e.revents & (EPOLLIN | EPOLLPRI | EPOLLRDHUP) != 0;
    var c1 := if hangup then HandleClose(c) else c;
    var c2 := if readable then Read(code, c1, e.read, e.ops) else c1;
    Masks();
    if readable {
      UserAllForward(code, c, e.ops);
    }
    WriteForward(code, c2, e.wish);
    HandleInOrder(code, c, e);
  }

  // handleEvent is its branches in order.
  lemma HandleInOrder(code: Code, c: Conn, e: Event)
    ensures var c1 := if e.revents & EPOLLHUP != 0 && e.revents & EPOLLIN == 0 then HandleClose(c) else c;
            var c2 := if e.revents & (EPOLLIN | EPOLLPRI | EPOLLRDHUP) != 0 then Read(code, c1, e.read, e.ops) else c1;
            Handle(code, c, e) ==
              if e.revents & EPOLLOUT == 0 then c2
              else HandleWrite(code, c2, Answer(c2, RequestLength(code, c2), e.wish))
  {
    var a: seq<Callback> := if e.revents & EPOLLHUP != 0 && e.revents & EPOLLIN == 0 then [OnClose] else [];
    var b: seq<Callback> := if e.revents & (EPOLLIN | EPOLLPRI | EPOLLRDHUP) != 0 then [OnRead] else [];
    var d: seq<Callback> := if e.revents & EPOLLOUT != 0 then [OnWrite] else [];
    assert HandleEvent(e.revents, true, false, true, true) == a + (b + d);
    MaybeFirst(code, c, a, b + d, e);
    var c1 := RunCallbacks(code, c, a, e);
    MaybeFirst(code, c1, b, d, e);
    MaybeFirst(code, RunCallbacks(code, c1, b, e), d, [], e);
    assert d + [] == d;
  }

  lemma MaybeFirst(code: Code, c: Conn, a: seq<Callback>, rest: seq<Callback>, e: Event)
    requires |a| <= 1
    ensures RunCallbacks(code, c, a, e) == if a == [] then c else RunCallback(code, c, a[0], e)
    ensures RunCallbacks(code, c, a + rest, e) == RunCallbacks(code, RunCallbacks(code, c, a, e), rest, e)
  {
    if a == [] {
      assert a + rest == rest;
    } else {
      assert (a + rest)[1..] == rest && a[1..] == [];
    }
  }

  // ---------- what an event and a callback bring about ----------

  predicate Open(c: Conn) {
    c.state.Connected? || c.state.Disconnecting?
  }

  // An event closes an open connection if and only if it hangs up without data to read, or there is
  // something to read and reading finds the end of the peer's stream.
  lemma EventClosesIff(code: Code, c: Conn, e: Event)
    requires Life(c) && Open(c) && MayOccur(c, e)
    ensures var r := Handle(code, c, e);
            var closes := || (e.revents & EPOLLHUP != 0 && e.revents & EPOLLIN == 0)
                          || (e.revents & EPOLLIN != 0 && e.read.Eof?);
            && (r.state.Disconnected? <==> closes)
            && r.closes == if closes then 1 else 0
  {
    var hangup := e.revents & EPOLLHUP != 0 && e.revents & EPOLLIN == 0;
    HandleInOrder(code, c, e);
    HandleForward(code, c, e);
    if hangup {
      NoReadAfterHangup(c, e);
    } else {
      ReadableIffIn(c, e);
    }
    var readable := e.revents & (EPOLLIN | EPOLLPRI | EPOLLRDHUP) != 0;
    var c1 := if hangup then HandleClose(c) else c;
    var c2 := if readable then Read(code, c1, e.read, e.ops) else c1;
    Masks();
    if readable {
      UserAllForward(code, c, e.ops);
    }
    WriteForward(code, c2, e.wish);
  }

  // Nothing but EPOLLIN makes a connection read.
  lemma ReadableIffIn(c: Conn, e: Event)
    requires Life(c) && MayOccur(c, e)
    ensures e.revents & (EPOLLIN | EPOLLPRI | EPOLLRDHUP) != 0 <==> e.revents & EPOLLIN != 0
  {
    if e.revents & EPOLLIN == 0 {
      NoReadAfterHangup(c, e);
    } else {
      var r := e.revents;
      assert EPOLLIN | EPOLLPRI | EPOLLRDHUP == 0x2003;
      assert r & 1 != 0 ==> r & 0x2003 != 0;
    }
  }

  predicate ShutsDown(ops: seq<UserOp>) {
    ops != [] && (ops[0].UserShutDown? || ShutsDown(ops[1..]))
  }

  // The messages a callback sends before it shuts down.
  function SentBy(ops: seq<UserOp>): seq<Byte> {
    if ops == [] || ops[0].UserShutDown? then [] else ops[0].msg + SentBy(ops[1..])
  }

  predicate NoReset(ops: seq<UserOp>) {
    ops == [] || ((ops[0].UserSend? ==> !ops[0].wish.Reset?) && NoReset(ops[1..]))
  }

  lemma {:induction false} DisconnectingIgnoresUser(code: Code, c: Conn, ops: seq<UserOp>)
    requires !c.state.Connected?
    ensures UserAll(code, c, ops) == c
    decreases |ops|
  {
    if ops != [] {
      DisconnectingIgnoresUser(code, c, ops[1..]);
    }
  }

  // A callback that shuts down leaves a connected connection disconnecting, one that does not leaves it
  // connected.
  lemma {:induction false} CallbackState(code: Code, c: Conn, ops: seq<UserOp>)
    requires c.state.Connected?
    ensures UserAll(code, c, ops).state == if ShutsDown(ops) then Disconnecting else Connected
    decreases |ops|
  {
    if ops != [] {
      if ops[0].UserShutDown? {
        DisconnectingIgnoresUser(code, ShutDown(c), ops[1..]);
      } else {
        SendTakesWhatWasWritten(code, c, ops[0].msg, Answer(c, |ops[0].msg|, ops[0].wish));
        CallbackState(code, User(code, c, ops[0]), ops[1..]);
      }
    }
  }

  // As intended, everything it sends before it shuts down is taken or buffered.
  lemma {:induction false} CallbackSends(c: Conn, ops: seq<UserOp>)
    requires c.state.Connected? && !c.wrClosed && NoReset(ops)
    ensures UserAll(Intended, c, ops).wire + UserAll(Intended, c, ops).out == c.wire + c.out + SentBy(ops)
    decreases |ops|
  {
    if ops == [] {
      assert c.wire + c.out + [] == c.wire + c.out;
    } else if ops[0].UserShutDown? {
      DisconnectingIgnoresUser(Intended, ShutDown(c), ops[1..]);
      assert c.wire + c.out + [] == c.wire + c.out;
    } else {
      var msg, w := ops[0].msg, Answer(c, |ops[0].msg|, ops[0].wish);
      SendTakesWhatWasWritten(Intended, c, msg, w);
      IntendedSendKeepsStream(c, msg, w);
      CallbackSends(User(Intended, c, ops[0]), ops[1..]);
      Regroup(c.wire + c.out, msg, SentBy(ops[1..]));
    }
  }

  // So the message callback is called when data comes, and what it sends goes out.
  lemma DataRunsCallback(c: Conn, e: Event)
    requires Life(c) && MayOccur(c, e) && c.state.Connected? && !c.wrClosed && NoReset(e.ops)
    requires e.revents & EPOLLIN != 0 && e.read.Bytes?
    ensures var r := Handle(Intended, c, e);
            && r.wire + r.out == c.wire + c.out + SentBy(e.ops)
            && r.state == if ShutsDown(e.ops) then Disconnecting else Connected
  {
    HandleInOrder(Intended, c, e);
    ReadableIffIn(c, e);
    CallbackSends(c, e.ops);
    CallbackState(Intended, c, e.ops);
    var m := UserAll(Intended, c, e.ops);
    IntendedWriteKeepsStream(m, Answer(m, |m.out|, e.wish));
    WriteTakesWhatWasWritten(Intended, m, Answer(m, |m.out|, e.wish));
  }

  // The socket answers as it wishes wherever it may.
  lemma AnswerIsWish(c: Conn, len: nat, wish: WriteResult)
    requires LegalWrite(c, len, wish)
    ensures Answer(c, len, wish) == wish
  {
  }
}
