/**
 TcpConnection.cpp as functions: the connection's state, its channel, its output buffer, and what
 the socket has taken.

 The code departs from its evident purpose in two places, so both readings are here side by side.
 AsWritten is the code: line 111 buffers msg.substr(n - 1, remain), and line 171 empties the buffer
 while it computes the arguments of write(), in an order C++ leaves open.  Intended is what the
 commented-out line 110 and the retrieve(n) of line 180 ask for.
 */
module ConnectionModel {
  import opened ChannelModel
  import opened Seqs

  newtype Byte = b: int | 0 <= b < 256

  // `int len = msg.size()`: messages are no longer than an int can say.
  type Message = m: seq<Byte> | |m| <= 0x7FFF_FFFF witness []

  datatype ConnectState = Connecting | Connected | Disconnecting | Disconnected

  function Number(s: ConnectState): nat {
    match s case Connecting => 0 case Connected => 1 case Disconnecting => 2 case Disconnected => 3
  }

  datatype Conn = Conn(
    state: ConnectState,
    chan: Chan,
    out: seq<Byte>,      // m_outBuffer
    wire: seq<Byte>,     // bytes the socket has taken
    wrClosed: bool,      // the socket's write side is shut down
    closes: nat)         // calls of handleClose

  // The answer of write(2).  Reset stands for EPIPE and ECONNRESET.
  datatype WriteResult = Wrote(n: nat) | WouldBlock | Reset | OtherError

  predicate LegalWrite(c: Conn, len: nat, w: WriteResult) {
    (w.Wrote? ==> w.n <= len) && (c.wrClosed ==> w.Reset?)
  }

  datatype Code = AsWritten(lengthFirst: bool) | Intended

  datatype Option<T> = None | Some(value: T)

  // std::string::substr: None stands for std::out_of_range.
  function Substr(s: seq<Byte>, pos: nat, count: nat): Option<seq<Byte>> {
    if pos > |s| then None else Some(s[pos..if count < |s| - pos then pos + count else |s|])
  }

  // n - 1 as the size_t substr takes.
  function SizeBefore(n: nat): nat {
    if n == 0 then 0xFFFF_FFFF_FFFF_FFFF else n - 1
  }

  // What is appended to the buffer when the socket has taken n bytes of msg.
  function Leftover(code: Code, msg: Message, n: nat): Option<seq<Byte>>
    requires n <= |msg|
  {
    match code
    case AsWritten(_) => Substr(msg, SizeBefore(n), |msg| - n)
    case Intended => Some(msg[n..])
  }

  predicate Writing(c: Conn) {
    IsWriting(c.chan.events)
  }

  // sendInLoop tries the socket directly only if nothing is waiting.
  predicate Direct(c: Conn) {
    !c.state.Disconnected? && !Writing(c) && c.out == []
  }

  function TakenNow(c: Conn, w: WriteResult): nat {
    if Direct(c) && w.Wrote? then w.n else 0
  }

  // The branch that buffers the rest of a message.
  predicate Buffers(c: Conn, msg: Message, w: WriteResult) {
    !c.state.Disconnected? && !(Direct(c) && w.Reset?) && TakenNow(c, w) < |msg|
  }

  datatype Outcome = Done(c: Conn) | Threw(c: Conn)

  function SendInLoop(code: Code, c: Conn, msg: Message, w: WriteResult): Outcome
    requires LegalWrite(c, |msg|, w)
  {
    if c.state.Disconnected? then Done(c)
    else
      var n := TakenNow(c, w);
      var c1 := c.(wire := c.wire + msg[..n]);
      if !Buffers(c, msg, w) then Done(c1)
      else
        match Leftover(code, msg, n)
        case None => Threw(c1)
        case Some(rest) =>
          var c2 := c1.(out := c1.out + rest);
          Done(if Writing(c2) then c2 else c2.(chan := OwnFields(c2.chan, EnableWrite)))
  }

  function ShutDownInLoop(c: Conn): Conn {
    if Writing(c) then c else c.(wrClosed := true)
  }

  // The length handleWrite asks write() to take.
  function RequestLength(code: Code, c: Conn): nat {
    if code == AsWritten(false) then 0 else |c.out|
  }

  // Buffer::retrieve, where asking for more than is there takes everything.
  function Retrieve(buffer: seq<Byte>, n: nat): seq<Byte> {
    if n < |buffer| then buffer[n..] else []
  }

  function HandleWrite(code: Code, c: Conn, w: WriteResult): Conn
    requires LegalWrite(c, RequestLength(code, c), w)
  {
    if !Writing(c) then c
    else
      var buffer := if code.AsWritten? then [] else c.out;
      if !w.Wrote? || w.n == 0 then c.(out := buffer, wrClosed := true)
      else
        var rest := Retrieve(buffer, w.n);
        var c1 := c.(wire := c.wire + c.out[..w.n], out := rest);
        if rest != [] then c1
        else
          var c2 := c1.(chan := OwnFields(c1.chan, DisableWrite));
          if c2.state.Disconnecting? then ShutDownInLoop(c2) else c2
  }

  // send() and shutDown() on the loop thread, where runInLoop runs its functor at once.
  function Send(code: Code, c: Conn, msg: Message, w: WriteResult): Outcome
    requires LegalWrite(c, |msg|, w)
  {
    if c.state.Connected? then SendInLoop(code, c, msg, w) else Done(c)
  }

  function ShutDown(c: Conn): Conn {
    if c.state.Connected? then ShutDownInLoop(c.(state := Disconnecting)) else c
  }

  function ConnectEstablished(c: Conn): Conn {
    c.(state := Connected, chan := OwnFields(c.chan, EnableReading))
  }

  function HandleClose(c: Conn): Conn {
    c.(state := Disconnected, chan := OwnFields(c.chan, DisableAll), closes := c.closes + 1)
  }

  // ---------- what each handler does with the socket's answer ----------

  // The message meets an idle connection, so sendInLoop calls write().
  predicate Idle(c: Conn) {
    !c.state.Disconnected? && c.chan.events & EPOLLOUT == 0 && c.out == []
  }

  // In either reading, sendInLoop counts as taken exactly the bytes write() says it took, and touches
  // nothing but the channel and the output.
  lemma SendTakesWhatWasWritten(code: Code, c: Conn, msg: Message, w: WriteResult)
    requires LegalWrite(c, |msg|, w)
    ensures var r := SendInLoop(code, c, msg, w).c;
            && r.wire == c.wire + (if Idle(c) && w.Wrote? then msg[..w.n] else [])
            && r.state == c.state && r.wrClosed == c.wrClosed && r.closes == c.closes && r.chan.fd == c.chan.fd
  {
    assert msg[..0] == [] && c.wire + [] == c.wire;
  }

  // What it leaves in the buffer: as intended the bytes not taken, unless the socket was reset or the
  // connection is down; as written, the same number of bytes from one place earlier.
  lemma SendBuffersTheRest(code: Code, c: Conn, msg: Message, w: WriteResult)
    requires LegalWrite(c, |msg|, w)
    ensures var n := if Idle(c) && w.Wrote? then w.n else 0;
            var lost := c.state.Disconnected? || (Idle(c) && w.Reset?) || n == |msg|;
            var o := SendInLoop(code, c, msg, w);
            && (lost ==> o.Done? && o.c.out == c.out && o.c.chan == c.chan)
            && (!lost && code.Intended? ==> o.Done? && o.c.out == c.out + msg[n..])
            && (!lost && code.AsWritten? && n > 0 ==> o.Done? && o.c.out == msg[n - 1..|msg| - 1])
            && (!lost && code.AsWritten? && n == 0 ==> o.Threw? && o.c.out == c.out && o.c.chan == c.chan)
  {
    if code.AsWritten? && Idle(c) && w.Wrote? && 0 < w.n < |msg| {
      assert c.out + msg[w.n - 1..|msg| - 1] == msg[w.n - 1..|msg| - 1];
    }
  }

  // handleWrite, in either reading: the socket gets the front of the buffer, as much as write() took;
  // if it took nothing, for whatever reason, the write side is closed.
  lemma WriteTakesWhatWasWritten(code: Code, c: Conn, w: WriteResult)
    requires LegalWrite(c, RequestLength(code, c), w)
    ensures var r := HandleWrite(code, c, w);
            if c.chan.events & EPOLLOUT == 0 then r == c
            else if w.Wrote? && w.n > 0 then r.wire == c.wire + c.out[..w.n]
            else r.wire == c.wire && r.wrClosed && r.chan == c.chan
    ensures var r := HandleWrite(code, c, w);
            r.state == c.state && r.closes == c.closes && r.chan.fd == c.chan.fd
  {
  }

  // As intended it also keeps the rest, and closes the write side only on a failed write, or when the
  // buffer is empty and shutDown() has been called.
  lemma IntendedWriteKeepsTheRest(c: Conn, w: WriteResult)
    requires Writing(c) && LegalWrite(c, |c.out|, w)
    ensures var r := HandleWrite(Intended, c, w);
            if w.Wrote? && w.n > 0 then
              && r.out == c.out[w.n..]
              && (r.wrClosed <==> c.wrClosed || (r.out == [] && c.state.Disconnecting?))
            else r.out == c.out && r.wrClosed
  {
    DisableWriteBits(c.chan.events);
  }

  // send() and shutDown() on the loop thread reach their handlers while connected, and only then.
  lemma CallsTakeEffect(code: Code, c: Conn, msg: Message, w: WriteResult)
    requires LegalWrite(c, |msg|, w)
    ensures c.state.Connected? && Idle(c) && w == Wrote(|msg|) ==> Send(code, c, msg, w).c.wire == c.wire + msg
    ensures c.state.Connected? && !Idle(c) ==> Send(Intended, c, msg, w).c.out == c.out + msg
    ensures c.state.Connected? ==>
              ShutDown(c) == c.(state := Disconnecting, wrClosed := c.wrClosed || c.chan.events & EPOLLOUT == 0)
    ensures !c.state.Connected? ==> Send(code, c, msg, w) == Done(c) && ShutDown(c) == c
  {
    if c.state.Connected? {
      SendTakesWhatWasWritten(code, c, msg, w);
      SendBuffersTheRest(Intended, c, msg, w);
      assert msg[..|msg|] == msg && msg[0..] == msg;
    }
  }

  // handleClose neither takes nor drops output.
  lemma CloseLeavesOutput(c: Conn)
    ensures var r := HandleClose(c);
            && r.state.Disconnected? && r.closes == c.closes + 1 && r.chan.events == 0
            && r.wire == c.wire && r.out == c.out && r.wrClosed == c.wrClosed
  {
  }

  // ---------- the output stream ----------

  // The message is one whose bytes are owed to the peer.
  predicate Taken(c: Conn, w: WriteResult) {
    !c.state.Disconnected? && !(Direct(c) && w.Reset?)
  }

  // Nothing thrown, and written ++ buffered has grown by exactly the message.
  predicate SendKeepsStream(code: Code, c: Conn, msg: Message, w: WriteResult)
    requires LegalWrite(c, |msg|, w)
  {
    var o := SendInLoop(code, c, msg, w);
    o.Done? && o.c.wire + o.c.out == c.wire + c.out + if Taken(c, w) then msg else []
  }

  lemma IntendedSendKeepsStream(c: Conn, msg: Message, w: WriteResult)
    requires LegalWrite(c, |msg|, w)
    ensures SendKeepsStream(Intended, c, msg, w)
  {
    var n := TakenNow(c, w);
    assert msg[..n] + msg[n..] == msg;
    assert !Direct(c) ==> c.wire + [] + (c.out + msg) == c.wire + c.out + msg;
    assert c.wire + msg[..n] + ([] + msg[n..]) == c.wire + [] + (msg[..n] + msg[n..]);
    assert n == |msg| ==> msg[..n] == msg;
  }

  // From index n - 1 on the message is one byte repeated.
  predicate OneByteFrom(msg: seq<Byte>, n: nat) {
    0 < n <= |msg| && forall i :: n <= i < |msg| ==> msg[i] == msg[i - 1]
  }

  // As written, a send keeps the stream if and only if it buffers nothing, or the socket took some
  // of it and the rest happens to repeat the last byte taken.
  lemma AsWrittenSendKeepsStreamIff(order: bool, c: Conn, msg: Message, w: WriteResult)
    requires LegalWrite(c, |msg|, w)
    ensures SendKeepsStream(AsWritten(order), c, msg, w)
            <==> (Buffers(c, msg, w) ==> OneByteFrom(msg, TakenNow(c, w)))
  {
    var n := TakenNow(c, w);
    if !Buffers(c, msg, w) {
      IntendedSendKeepsStream(c, msg, w);
    } else if n > 0 {
      ShiftedByOne(msg, n);
      var tail := msg[n - 1..|msg| - 1];
      var r := SendInLoop(AsWritten(order), c, msg, w).c;
      assert r.wire == c.wire + msg[..n] && r.out == tail && c.wire + c.out == c.wire;
      Regroup(c.wire, msg[..n], tail);
      SameTail(c.wire, msg[..n] + tail, msg);
    }
  }

  lemma ShiftedByOne(msg: seq<Byte>, n: nat)
    requires 0 < n <= |msg|
    ensures msg[..n] + msg[n - 1..|msg| - 1] == msg <==> OneByteFrom(msg, n)
  {
    var s := msg[..n] + msg[n - 1..|msg| - 1];
    forall i | n <= i < |msg| ensures s[i] == msg[i - 1] {
    }
    if s == msg {
      forall i | n <= i < |msg| ensures msg[i] == msg[i - 1] {
        assert s[i] == msg[i];
      }
    }
  }

  // And it throws if and only if it has to buffer a message of which the socket took nothing.
  lemma AsWrittenThrowsIff(order: bool, c: Conn, msg: Message, w: WriteResult)
    requires LegalWrite(c, |msg|, w)
    ensures SendInLoop(AsWritten(order), c, msg, w).Threw? <==> Buffers(c, msg, w) && TakenNow(c, w) == 0
  {
  }

  // One byte that the socket cannot take for now.
  lemma AsWrittenThrowExample(order: bool, c: Conn)
    requires Direct(c) && !c.wrClosed
    ensures SendInLoop(AsWritten(order), c, [1], WouldBlock).Threw?
  {
  }

  // A three-byte message of which the socket takes one byte: the second byte is sent as the first
  // again, and the third never.
  lemma AsWrittenSendExample(order: bool, c: Conn)
    requires Direct(c) && !c.wrClosed
    ensures var o := SendInLoop(AsWritten(order), c, [1, 2, 3], Wrote(1));
            o.Done? && o.c.wire + o.c.out == c.wire + [1, 1, 2]
  {
    var msg: Message := [1, 2, 3];
    assert msg[0..2] == [1, 2] && msg[..1] == [1];
    assert c.wire + [1] + ([] + [1, 2]) == c.wire + [1, 1, 2];
  }

  predicate WriteKeepsStream(code: Code, c: Conn, w: WriteResult)
    requires LegalWrite(c, RequestLength(code, c), w)
  {
    HandleWrite(code, c, w).wire + HandleWrite(code, c, w).out == c.wire + c.out
  }

  lemma IntendedWriteKeepsStream(c: Conn, w: WriteResult)
    requires LegalWrite(c, |c.out|, w)
    ensures WriteKeepsStream(Intended, c, w)
  {
    if Writing(c) && w.Wrote? {
      assert c.out[..w.n] + Retrieve(c.out, w.n) == c.out;
      assert c.wire + c.out[..w.n] + Retrieve(c.out, w.n) == c.wire + (c.out[..w.n] + Retrieve(c.out, w.n));
    }
  }

  // As written, handleWrite loses nothing if and only if there was nothing to lose, or the length
  // was computed before the buffer was emptied and the socket took all of it.
  lemma AsWrittenWriteKeepsStreamIff(order: bool, c: Conn, w: WriteResult)
    requires Writing(c) && LegalWrite(c, RequestLength(AsWritten(order), c), w)
    ensures WriteKeepsStream(AsWritten(order), c, w) <==> c.out == [] || (order && w == Wrote(|c.out|))
  {
    var r := HandleWrite(AsWritten(order), c, w);
    assert r.out == [] && |r.wire| == |c.wire| + if w.Wrote? then w.n else 0;
    assert |r.wire + r.out| == |r.wire| && |c.wire + c.out| == |c.wire| + |c.out|;
    if w == Wrote(|c.out|) {
      assert c.out[..w.n] == c.out;
    }
  }

  // Three buffered bytes of which the socket can take one: with the length computed first, one byte
  // goes out and two are lost; otherwise write() is asked for nothing, nothing goes out, and the
  // write side is closed on top of it.
  lemma AsWrittenWriteExample(c: Conn)
    requires Writing(c) && c.out == [1, 2, 3] && !c.wrClosed
    ensures var r := HandleWrite(AsWritten(true), c, Wrote(1));
            r.wire == c.wire + [1] && r.out == [] && !Writing(r)
    ensures var r := HandleWrite(AsWritten(false), c, Wrote(0));
            r.wire == c.wire && r.out == [] && r.wrClosed && Writing(r)
  {
    DisableWriteBits(c.chan.events);
    assert c.out[..1] == [1];
  }

  // ---------- write interest mirrors the buffer ----------

  predicate Mirrors(c: Conn) {
    !c.state.Disconnected? ==> (Writing(c) <==> c.out != [])
  }

  lemma IntendedMirrors(c: Conn, msg: Message, w: WriteResult)
    requires Mirrors(c)
    ensures LegalWrite(c, |msg|, w) ==>
              SendInLoop(Intended, c, msg, w).Done? && Mirrors(SendInLoop(Intended, c, msg, w).c)
    ensures LegalWrite(c, |c.out|, w) ==> Mirrors(HandleWrite(Intended, c, w))
    ensures Mirrors(ShutDownInLoop(c)) && Mirrors(HandleClose(c))
    ensures c.state.Connecting? ==> Mirrors(ConnectEstablished(c))
  {
    EnableReadingBits(c.chan.events);
    EnableWriteBits(c.chan.events);
    DisableWriteBits(c.chan.events);
    NoBits();
  }

  // As written, handleWrite on an open connection leaves write interest on with nothing to write,
  // unless the length was computed first and the socket took something.
  lemma AsWrittenMirrorsIff(order: bool, c: Conn, w: WriteResult)
    requires Mirrors(c) && Writing(c) && !c.state.Disconnected?
    requires LegalWrite(c, RequestLength(AsWritten(order), c), w)
    ensures Mirrors(HandleWrite(AsWritten(order), c, w)) <==> order && w.Wrote? && w.n > 0
  {
    DisableWriteBits(c.chan.events);
  }

  // The deferred half-close only ever runs on an empty buffer.
  lemma IntendedClosesEmpty(c: Conn, w: WriteResult)
    requires Mirrors(c) && !c.state.Disconnected? && !c.wrClosed
    ensures ShutDownInLoop(c).wrClosed ==> c.out == []
    ensures LegalWrite(c, |c.out|, w) && w.Wrote? && w.n > 0 && HandleWrite(Intended, c, w).wrClosed ==>
              HandleWrite(Intended, c, w).out == []
  {
  }

  // ---------- runs ----------

  // What happens to a connection: sendInLoop, handleWrite, the two halves of shutDown() (which on
  // another thread are apart: the change of state, and shutDownInLoop later), and handleClose.
  datatype Input =
    | DoSend(msg: Message, w: WriteResult)
    | DoWrite(w: WriteResult)
    | AskShutDown
    | DoShutDown
    | DoClose

  predicate LegalInput(code: Code, c: Conn, i: Input) {
    match i
    case DoSend(msg, w) => LegalWrite(c, |msg|, w)
    case DoWrite(w) => LegalWrite(c, RequestLength(code, c), w)
    case _ => true
  }

  function Take(code: Code, c: Conn, i: Input): Conn
    requires LegalInput(code, c, i)
  {
    match i
    case DoSend(msg, w) => SendInLoop(code, c, msg, w).c
    case DoWrite(w) => HandleWrite(code, c, w)
    case AskShutDown => if c.state.Connected? then c.(state := Disconnecting) else c
    case DoShutDown => ShutDownInLoop(c)
    case DoClose => HandleClose(c)
  }

  predicate LegalRun(code: Code, c: Conn, run: seq<Input>)
    decreases |run|
  {
    run == [] || (LegalInput(code, c, run[0]) && LegalRun(code, Take(code, c, run[0]), run[1..]))
  }

  function TakeAll(code: Code, c: Conn, run: seq<Input>): Conn
    requires LegalRun(code, c, run)
    decreases |run|
  {
    if run == [] then c else TakeAll(code, Take(code, c, run[0]), run[1..])
  }

  // The messages sendInLoop took on, end to end: all but those given up because the connection is
  // down or the socket reset.
  function Accepted(code: Code, c: Conn, run: seq<Input>): seq<Byte>
    requires LegalRun(code, c, run)
    decreases |run|
  {
    if run == [] then []
    else
      (if run[0].DoSend? && Taken(c, run[0].w) then run[0].msg else [])
      + Accepted(code, Take(code, c, run[0]), run[1..])
  }

  // Whatever the socket answers to each write, in any order of sends, writes, shutdowns, half-closes
  // and closes: what it has taken and what is buffered are exactly the accepted messages, and write
  // interest is on exactly while something is buffered.
  lemma {:induction false} StreamIsPreserved(c: Conn, run: seq<Input>)
    requires LegalRun(Intended, c, run) && Mirrors(c)
    ensures var r := TakeAll(Intended, c, run);
            r.wire + r.out == c.wire + c.out + Accepted(Intended, c, run) && Mirrors(r)
    decreases |run|
  {
    if run == [] {
      assert c.wire + c.out + [] == c.wire + c.out;
    } else {
      InputKeeps(c, run[0]);
      StreamIsPreserved(Take(Intended, c, run[0]), run[1..]);
      var first := if run[0].DoSend? && Taken(c, run[0].w) then run[0].msg else [];
      Regroup(c.wire + c.out, first, Accepted(Intended, Take(Intended, c, run[0]), run[1..]));
    }
  }

  lemma InputKeeps(c: Conn, i: Input)
    requires LegalInput(Intended, c, i) && Mirrors(c)
    ensures var r := Take(Intended, c, i);
            && Mirrors(r)
            && r.wire + r.out == c.wire + c.out + if i.DoSend? && Taken(c, i.w) then i.msg else []
  {
    match i
    case DoSend(msg, w) =>
      IntendedSendKeepsStream(c, msg, w);
      IntendedMirrors(c, msg, w);
    case DoWrite(w) =>
      IntendedWriteKeepsStream(c, w);
      IntendedMirrors(c, [], w);
    case AskShutDown =>
    case DoShutDown => IntendedMirrors(c, [], WouldBlock);
    case DoClose => IntendedMirrors(c, [], WouldBlock);
  }
}
