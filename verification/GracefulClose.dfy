/**
 send() and shutDown() called by one thread, the loop's FIFO functor queue, and the socket: when
 does everything sent before shutDown reach the socket before its write side closes?

 The caller is either the loop thread, whose calls run at once, or one other thread, whose calls
 are queued.  The peer stays connected and no write fails; a socket that takes nothing for now is
 not a failure in sendInLoop, but handleWrite treats it as one.
 */
module GracefulClose {
  import opened ConnectionModel
  import opened ChannelModel
  import opened Seqs

  datatype Task = SendTask(msg: Message) | ShutTask

  // asking: the caller is inside shutDown(), between its change of the state and its push.
  datatype Sys = Sys(conn: Conn, onLoop: bool, asking: bool, queue: seq<Task>, accepted: seq<Byte>)

  datatype Label =
    | CallSend(msg: Message, w: WriteResult)
    | CallShutDown  // on the loop thread all of shutDown(), on another its change of the state
    | PushShutDown  // and there its push
    | RunTask(w: WriteResult)
    | Writable(w: WriteResult)

  function Payload(queue: seq<Task>): seq<Byte> {
    if queue == [] then []
    else (if queue[0].SendTask? then queue[0].msg else []) + Payload(queue[1..])
  }

  // A write sendInLoop makes is legal and does not fail; if it makes none, w plays no part.
  predicate SendSucceeds(c: Conn, msg: Message, w: WriteResult) {
    LegalWrite(c, |msg|, w) && (Direct(c) ==> !w.Reset?)
  }

  predicate Enabled(code: Code, s: Sys, l: Label) {
    match l
    case CallSend(msg, w) => !s.asking && (s.onLoop && s.conn.state.Connected? ==> SendSucceeds(s.conn, msg, w))
    case CallShutDown => !s.asking
    case PushShutDown => s.asking
    case RunTask(w) => s.queue != [] && (s.queue[0].SendTask? ==> SendSucceeds(s.conn, s.queue[0].msg, w))
    case Writable(w) => Writing(s.conn) && LegalWrite(s.conn, RequestLength(code, s.conn), w) && w.Wrote? && w.n > 0
  }

  function SendNow(code: Code, s: Sys, msg: Message, w: WriteResult): Sys
    requires LegalWrite(s.conn, |msg|, w)
  {
    s.(conn := SendInLoop(code, s.conn, msg, w).c)
  }

  function Next(code: Code, s: Sys, l: Label): Sys
    requires Enabled(code, s, l)
  {
    match l
    case CallSend(msg, w) =>
      // send() looks at the state first
      if !s.conn.state.Connected? then s
      else if s.onLoop then SendNow(code, s, msg, w).(accepted := s.accepted + msg)
      else s.(queue := s.queue + [SendTask(msg)], accepted := s.accepted + msg)
    case CallShutDown =>
      if !s.conn.state.Connected? then s
      else if s.onLoop then s.(conn := ShutDown(s.conn))
      else s.(conn := s.conn.(state := Disconnecting), asking := true)
    case PushShutDown => s.(queue := s.queue + [ShutTask], asking := false)
    case RunTask(w) =>
      var s1 := s.(queue := s.queue[1..]);
      if s.queue[0].SendTask? then SendNow(code, s1, s.queue[0].msg, w)
      else s1.(conn := ShutDownInLoop(s.conn))
    case Writable(w) => s.(conn := HandleWrite(code, s.conn, w))
  }

  predicate Runs(code: Code, s: Sys, ls: seq<Label>)
    decreases |ls|
  {
    ls == [] || (Enabled(code, s, ls[0]) && Runs(code, Next(code, s, ls[0]), ls[1..]))
  }

  function After(code: Code, s: Sys, ls: seq<Label>): Sys
    requires Runs(code, s, ls)
    decreases |ls|
  {
    if ls == [] then s else After(code, Next(code, s, ls[0]), ls[1..])
  }

  // A connection just established, with nothing sent.
  predicate Fresh(s: Sys) {
    && s.conn.state.Connected? && !Writing(s.conn) && s.conn.out == [] && s.conn.wire == []
    && !s.conn.wrClosed && !s.asking && s.queue == [] && s.accepted == []
  }

  // ---------- what every step keeps ----------

  predicate Inv(s: Sys) {
    && (s.conn.state.Connected? || s.conn.state.Disconnecting?)
    && Mirrors(s.conn)
    && s.conn.wire + s.conn.out + Payload(s.queue) == s.accepted
    && (s.onLoop ==> s.queue == [])
    && (s.asking ==> s.conn.state.Disconnecting? && !s.onLoop)
    && (forall i :: 0 <= i < |s.queue| && s.queue[i].ShutTask? ==>
          i == |s.queue| - 1 && s.conn.state.Disconnecting? && !s.asking)
    && (s.conn.wrClosed ==> s.conn.state.Disconnecting? && s.conn.out == [])
    && (s.conn.state.Disconnecting? && s.conn.out == [] ==>
          s.conn.wrClosed || HalfCloseQueued(s.queue) || s.asking)
  }

  // The half-close waits at the end of the queue.
  predicate HalfCloseQueued(queue: seq<Task>) {
    queue != [] && queue[|queue| - 1].ShutTask?
  }

  lemma {:induction false} PayloadSnoc(q: seq<Task>, t: Task)
    ensures Payload(q + [t]) == Payload(q) + if t.SendTask? then t.msg else []
  {
    if q == [] {
      assert q + [t] == [t] && [t][1..] == [];
    } else {
      assert (q + [t])[1..] == q[1..] + [t];
      PayloadSnoc(q[1..], t);
      var first, last := if q[0].SendTask? then q[0].msg else [], if t.SendTask? then t.msg else [];
      assert first + (Payload(q[1..]) + last) == first + Payload(q[1..]) + last;
    }
  }

  lemma SendKeeps(c: Conn, msg: Message, w: WriteResult)
    requires SendSucceeds(c, msg, w) && Mirrors(c) && !c.state.Disconnected? && (c.wrClosed ==> c.out == [])
    ensures var r := SendInLoop(Intended, c, msg, w).c;
            && r.wire + r.out == c.wire + c.out + msg && Mirrors(r) && !r.wrClosed && !c.wrClosed && r.state == c.state
  {
    IntendedSendKeepsStream(c, msg, w);
    IntendedMirrors(c, msg, w);
  }

  lemma CallSendKeepsInv(s: Sys, msg: Message, w: WriteResult)
    requires Inv(s) && Enabled(Intended, s, CallSend(msg, w))
    ensures Inv(Next(Intended, s, CallSend(msg, w)))
  {
    if s.conn.state.Connected? {
      if s.onLoop {
        SendKeeps(s.conn, msg, w);
        var r := SendInLoop(Intended, s.conn, msg, w).c;
        assert r.wire + r.out + [] == s.conn.wire + s.conn.out + [] + msg;
      } else {
        PayloadSnoc(s.queue, SendTask(msg));
        assert s.conn.wire + s.conn.out + (Payload(s.queue) + msg) == s.conn.wire + s.conn.out + Payload(s.queue) + msg;
      }
    }
  }

  lemma RunTaskKeepsInv(s: Sys, w: WriteResult)
    requires Inv(s) && Enabled(Intended, s, RunTask(w))
    ensures Inv(Next(Intended, s, RunTask(w)))
  {
    var q := s.queue;
    assert forall i :: 0 <= i < |q| - 1 ==> q[1..][i] == q[i + 1];
    if q[0].SendTask? {
      SendKeeps(s.conn, q[0].msg, w);
      var r := SendInLoop(Intended, s.conn, q[0].msg, w).c;
      assert r.wire + r.out + Payload(q[1..]) == s.conn.wire + s.conn.out + (q[0].msg + Payload(q[1..]));
    } else {
      assert Payload(q) == Payload(q[1..]);
    }
  }

  lemma WritableKeepsInv(s: Sys, w: WriteResult)
    requires Inv(s) && Enabled(Intended, s, Writable(w))
    ensures Inv(Next(Intended, s, Writable(w)))
  {
    IntendedWriteKeepsStream(s.conn, w);
    IntendedMirrors(s.conn, [], w);
  }

  lemma PushKeepsInv(s: Sys)
    requires Inv(s) && s.asking
    ensures Inv(Next(Intended, s, PushShutDown))
  {
    PayloadSnoc(s.queue, ShutTask);
    assert Payload(s.queue) + [] == Payload(s.queue);
  }

  lemma StepKeepsInv(s: Sys, l: Label)
    requires Inv(s) && Enabled(Intended, s, l)
    ensures Inv(Next(Intended, s, l))
  {
    match l
    case CallSend(msg, w) => CallSendKeepsInv(s, msg, w);
    case CallShutDown =>
    case PushShutDown => PushKeepsInv(s);
    case RunTask(w) => RunTaskKeepsInv(s, w);
    case Writable(w) => WritableKeepsInv(s, w);
  }

  // ---------- what the calls ask for ----------

  // The messages sent before shutDown().
  function Sent(ls: seq<Label>): seq<Byte> {
    if ls == [] || ls[0].CallShutDown? then []
    else (if ls[0].CallSend? then ls[0].msg else []) + Sent(ls[1..])
  }

  predicate ShutDownCalled(ls: seq<Label>) {
    ls != [] && (ls[0].CallShutDown? || ShutDownCalled(ls[1..]))
  }

  lemma {:induction false} AfterShutDown(code: Code, s: Sys, ls: seq<Label>)
    requires s.conn.state.Disconnecting? && Runs(code, s, ls)
    ensures After(code, s, ls).accepted == s.accepted && After(code, s, ls).conn.state.Disconnecting?
    decreases |ls|
  {
    if ls != [] {
      StepKeepsState(code, s, ls[0]);
      AfterShutDown(code, Next(code, s, ls[0]), ls[1..]);
    }
  }

  lemma StepKeepsState(code: Code, s: Sys, l: Label)
    requires Enabled(code, s, l)
    ensures !l.CallShutDown? ==> Next(code, s, l).conn.state == s.conn.state
    ensures !l.CallSend? ==> Next(code, s, l).accepted == s.accepted
  {
    match l
    case CallSend(msg, w) => if s.onLoop && s.conn.state.Connected? { SendTakesWhatWasWritten(code, s.conn, msg, w); }
    case RunTask(w) => if s.queue[0].SendTask? { SendTakesWhatWasWritten(code, s.conn, s.queue[0].msg, w); }
    case Writable(w) => WriteTakesWhatWasWritten(code, s.conn, w);
    case _ =>
  }

  // Over any run, in either reading: every message sent before shutDown() is accepted, nothing else
  // is, and the connection is disconnecting exactly once shutDown() has been called.
  lemma {:induction false} SentIsAccepted(code: Code, s: Sys, ls: seq<Label>)
    requires s.conn.state.Connected? && Runs(code, s, ls)
    ensures After(code, s, ls).accepted == s.accepted + Sent(ls)
    ensures After(code, s, ls).conn.state == if ShutDownCalled(ls) then Disconnecting else Connected
    decreases |ls|
  {
    if ls == [] {
      assert s.accepted + [] == s.accepted;
    } else if ls[0].CallShutDown? {
      AfterShutDown(code, Next(code, s, ls[0]), ls[1..]);
      assert s.accepted + [] == s.accepted;
    } else {
      StepKeepsState(code, s, ls[0]);
      SentIsAccepted(code, Next(code, s, ls[0]), ls[1..]);
      var first := if ls[0].CallSend? then ls[0].msg else [];
      assert Next(code, s, ls[0]).accepted == s.accepted + first;
      Regroup(s.accepted, first, Sent(ls[1..]));
    }
  }

  // ---------- when everything is flushed ----------

  // If the write side is closed, the socket has taken every byte that was accepted.
  predicate Flushed(s: Sys) {
    s.conn.wrClosed ==> s.conn.wire == s.accepted
  }

  // handleWrite drains the buffer after shutDown() was called, so it closes the write side at once,
  // although sends the caller made before shutDown() still wait in the functor queue.
  predicate ClosesEarly(s: Sys, l: Label) {
    l.Writable? && s.conn.state.Disconnecting? && l.w == Wrote(|s.conn.out|) && Payload(s.queue) != []
  }

  predicate NeverClosesEarly(s: Sys, ls: seq<Label>)
    requires Runs(Intended, s, ls)
    decreases |ls|
  {
    ls == [] || (!ClosesEarly(s, ls[0]) && NeverClosesEarly(Next(Intended, s, ls[0]), ls[1..]))
  }

  lemma FlushedIff(s: Sys)
    requires Inv(s)
    ensures Flushed(s) <==> (s.conn.wrClosed ==> Payload(s.queue) == [])
  {
    if s.conn.wrClosed {
      assert |s.accepted| == |s.conn.wire| + |Payload(s.queue)|;
      assert s.conn.wire + [] + [] == s.conn.wire;
    }
  }

  lemma StepFlushes(s: Sys, l: Label)
    requires Inv(s) && Enabled(Intended, s, l)
    ensures Flushed(s) ==> (Flushed(Next(Intended, s, l)) <==> !ClosesEarly(s, l))
    ensures !Flushed(s) ==> !Flushed(Next(Intended, s, l))
  {
    StepKeepsInv(s, l);
    FlushedIff(s);
    FlushedIff(Next(Intended, s, l));
    match l
    case CallSend(msg, w) =>
      if s.conn.state.Connected? && s.onLoop { SendKeeps(s.conn, msg, w); }
    case CallShutDown =>
    case PushShutDown => PayloadSnoc(s.queue, ShutTask);
    case RunTask(w) =>
      if s.queue[0].SendTask? { SendKeeps(s.conn, s.queue[0].msg, w); }
      else { assert s.queue[1..] == []; }
    case Writable(w) => DisableWriteBits(s.conn.chan.events);
  }

  lemma {:induction false} UnflushedStays(s: Sys, ls: seq<Label>)
    requires Inv(s) && Runs(Intended, s, ls) && !Flushed(s)
    ensures !Flushed(After(Intended, s, ls))
    decreases |ls|
  {
    if ls != [] {
      StepKeepsInv(s, ls[0]);
      StepFlushes(s, ls[0]);
      UnflushedStays(Next(Intended, s, ls[0]), ls[1..]);
    }
  }

  // The graceful close flushes if and only if no step of the run closes early.
  lemma {:induction false} GracefulCloseFlushesIff(s: Sys, ls: seq<Label>)
    requires Inv(s) && Flushed(s) && Runs(Intended, s, ls)
    ensures Flushed(After(Intended, s, ls)) <==> NeverClosesEarly(s, ls)
    decreases |ls|
  {
    if ls != [] {
      var m := Next(Intended, s, ls[0]);
      StepKeepsInv(s, ls[0]);
      StepFlushes(s, ls[0]);
      if ClosesEarly(s, ls[0]) {
        UnflushedStays(m, ls[1..]);
      } else {
        GracefulCloseFlushesIff(m, ls[1..]);
      }
    }
  }

  lemma FreshInv(s: Sys)
    requires Fresh(s)
    ensures Inv(s) && Flushed(s)
  {
  }

  // So it always flushes when send() and shutDown() are called on the loop thread.
  lemma {:induction false} LoopThreadCloseFlushes(s: Sys, ls: seq<Label>)
    requires Inv(s) && Flushed(s) && s.onLoop && Runs(Intended, s, ls)
    ensures Flushed(After(Intended, s, ls))
    decreases |ls|
  {
    if ls != [] {
      StepKeepsInv(s, ls[0]);
      StepFlushes(s, ls[0]);
      LoopThreadCloseFlushes(Next(Intended, s, ls[0]), ls[1..]);
    }
  }

  // From a connection just established, with no assumption left but the calls and the answers.
  lemma CloseAfterEstablished(s: Sys, ls: seq<Label>)
    requires Fresh(s) && Runs(Intended, s, ls)
    ensures var r := After(Intended, s, ls);
            && ((r.conn.wrClosed ==> r.conn.wire == Sent(ls)) <==> NeverClosesEarly(s, ls))
            && (s.onLoop && r.conn.wrClosed ==> r.conn.wire == Sent(ls))
            && (ShutDownCalled(ls) && !r.asking && r.queue == [] ==>
                  (r.conn.wrClosed <==> r.conn.out == []) && r.conn.wire + r.conn.out == Sent(ls))
  {
    FreshInv(s);
    SentIsAccepted(Intended, s, ls);
    assert [] + Sent(ls) == Sent(ls);
    GracefulCloseFlushesIff(s, ls);
    HalfCloseHappens(s, ls);
    if s.onLoop {
      LoopThreadCloseFlushes(s, ls);
    }
  }

  // And it can lose data when they are called on another thread: the socket takes one byte of a
  // first message, the caller sends another and shuts down, and the rest of the first goes out
  // before the loop gets to the second.
  lemma EarlyCloseExample(s: Sys) returns (ls: seq<Label>)
    requires Fresh(s) && !s.onLoop
    ensures Runs(Intended, s, ls) && After(Intended, s, ls).conn.wrClosed
    ensures After(Intended, s, ls).accepted == [1, 2, 3] && After(Intended, s, ls).conn.wire == [1, 2]
  {
    var l1, l2, l3 := CallSend([1, 2], Wrote(0)), RunTask(Wrote(1)), CallSend([3], Wrote(0));
    EnableWriteBits(s.conn.chan.events);
    var s1 := Next(Intended, s, l1);
    var s2 := Next(Intended, s1, l2);
    assert s2.conn.out == [2] && s2.conn.wire == [1];
    var s3 := Next(Intended, s2, l3);
    assert s3.accepted == [1, 2, 3];
    ls := ShutDownThenWrite(s3);
    Unfold(s2, l3, ls);
    Unfold(s1, l2, [l3] + ls);
    Unfold(s, l1, [l2] + ([l3] + ls));
    ls := [l1] + ([l2] + ([l3] + ls));
  }

  // One byte is buffered, and one is in the queue.
  lemma ShutDownThenWrite(s: Sys) returns (ls: seq<Label>)
    requires s.conn.state.Connected? && !s.onLoop && !s.asking && !s.conn.wrClosed && Writing(s.conn)
    requires s.conn.out == [2] && s.conn.wire == [1] && s.queue == [SendTask([3])]
    ensures Runs(Intended, s, ls)
    ensures var r := After(Intended, s, ls); r.conn.wrClosed && r.accepted == s.accepted && r.conn.wire == [1, 2]
  {
    var l := Writable(Wrote(1));
    var s1 := Next(Intended, s, CallShutDown);
    var s2 := Next(Intended, s1, PushShutDown);
    DisableWriteBits(s2.conn.chan.events);
    var s3 := Next(Intended, s2, l);
    assert s3.conn.wire == [1] + [2] && After(Intended, s3, []) == s3;
    Unfold(s2, l, []);
    Unfold(s1, PushShutDown, [l] + []);
    Unfold(s, CallShutDown, [PushShutDown] + ([l] + []));
    ls := [CallShutDown] + ([PushShutDown] + ([l] + []));
  }

  lemma Unfold(s: Sys, l: Label, rest: seq<Label>)
    requires Enabled(Intended, s, l) && Runs(Intended, Next(Intended, s, l), rest)
    ensures Runs(Intended, s, [l] + rest)
    ensures After(Intended, s, [l] + rest) == After(Intended, Next(Intended, s, l), rest)
  {
    assert ([l] + rest)[1..] == rest;
  }

  // ---------- the half-close is not forgotten ----------

  // Over any run, once shutDown() has returned and no functor waits, the write side is closed
  // exactly when nothing is left to write, and the socket has taken all but what is left.
  lemma {:induction false} HalfCloseHappens(s: Sys, ls: seq<Label>)
    requires Inv(s) && Runs(Intended, s, ls)
    ensures var r := After(Intended, s, ls);
            r.conn.state.Disconnecting? && !r.asking && r.queue == [] ==>
              (r.conn.wrClosed <==> r.conn.out == []) && r.conn.wire + r.conn.out == r.accepted
    decreases |ls|
  {
    if ls == [] {
      assert s.queue == [] ==> s.conn.wire + s.conn.out + [] == s.conn.wire + s.conn.out;
    } else {
      StepKeepsInv(s, ls[0]);
      HalfCloseHappens(Next(Intended, s, ls[0]), ls[1..]);
    }
  }

  predicate AllWritable(ls: seq<Label>) {
    ls == [] || (ls[0].Writable? && AllWritable(ls[1..]))
  }

  // And it comes: each time the socket takes something the buffer shrinks, so after at most as many
  // writes as there are buffered bytes the connection is closed.
  lemma {:induction false} DrainingCloses(s: Sys, ls: seq<Label>)
    requires Inv(s) && s.conn.state.Disconnecting? && !s.asking && s.queue == []
    requires Runs(Intended, s, ls) && AllWritable(ls)
    ensures var r := After(Intended, s, ls);
            && |ls| + |r.conn.out| <= |s.conn.out|
            && (|ls| == |s.conn.out| ==> r.conn.wrClosed && r.conn.wire == s.accepted)
            && (!r.conn.wrClosed ==> Enabled(Intended, r, Writable(Wrote(|r.conn.out|))))
    decreases |ls|
  {
    if ls == [] {
      assert s.conn.out == [] ==> s.conn.wire + [] + [] == s.conn.wire;
    } else {
      StepKeepsInv(s, ls[0]);
      DrainingCloses(Next(Intended, s, ls[0]), ls[1..]);
    }
  }

  // ---------- the code as written ----------

  // The send this step carries out, if it carries one out, leaves nothing to buffer.
  predicate LeavesNothing(s: Sys, l: Label) {
    match l
    case CallSend(msg, w) => s.onLoop && s.conn.state.Connected? ==> !Buffers(s.conn, msg, w)
    case RunTask(w) => s.queue != [] && s.queue[0].SendTask? ==> !Buffers(s.conn, s.queue[0].msg, w)
    case _ => true
  }

  predicate AlwaysLeavesNothing(code: Code, s: Sys, ls: seq<Label>)
    requires Runs(code, s, ls)
    decreases |ls|
  {
    ls == [] || (LeavesNothing(s, ls[0]) && AlwaysLeavesNothing(code, Next(code, s, ls[0]), ls[1..]))
  }

  // As long as the socket takes each message whole, the code as written does what is intended: the
  // buffer stays empty, handleWrite is never asked for, and the close flushes from any thread.
  lemma {:induction false} AsWrittenFlushes(order: bool, s: Sys, ls: seq<Label>)
    requires Inv(s) && Flushed(s) && s.conn.out == []
    requires Runs(AsWritten(order), s, ls) && AlwaysLeavesNothing(AsWritten(order), s, ls)
    ensures Runs(Intended, s, ls) && After(AsWritten(order), s, ls) == After(Intended, s, ls)
    ensures Flushed(After(AsWritten(order), s, ls)) && After(AsWritten(order), s, ls).conn.out == []
    decreases |ls|
  {
    if ls != [] {
      var m := Next(AsWritten(order), s, ls[0]);
      assert m == Next(Intended, s, ls[0]) && m.conn.out == [];
      StepKeepsInv(s, ls[0]);
      StepFlushes(s, ls[0]);
      AsWrittenFlushes(order, m, ls[1..]);
    }
  }
}
