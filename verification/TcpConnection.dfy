/**
 TcpConnection.cpp as an object, line for line as it is written, each method proved to do to the
 connection what the AsWritten functions of ConnectionModel say.
 */
module TcpConnections {
  import opened ChannelModel
  import M = ConnectionModel
  import L = Lifecycle

  class TcpConnection {
    // whether the compiler evaluates readableBytes() before retrieveAllAsString() in handleWrite
    const lengthFirst: bool
    var state: M.ConnectState
    var channel: Chan
    var outBuffer: seq<M.Byte>
    // the socket: bytes it has taken, and whether its write side is shut down
    var wire: seq<M.Byte>
    var wrClosed: bool
    // calls of handleClose
    var closes: nat

    ghost function View(): M.Conn
      reads this
    {
      M.Conn(state, channel, outBuffer, wire, wrClosed, closes)
    }

    constructor (fd: int, lengthFirst: bool)
      ensures View() == M.Conn(M.Connecting, Chan(fd, New, 0), [], [], false, 0)
      ensures this.lengthFirst == lengthFirst
    {
      this.lengthFirst := lengthFirst;
      state, channel, outBuffer, wire, wrClosed, closes := M.Connecting, Chan(fd, New, 0), [], [], false, 0;
    }

    predicate IsWritingNow()
      reads this
    {
      IsWriting(channel.events)
    }

    // The connection callback, in which user code sends and shuts down.
    method ConnectionCallback(ops: seq<L.UserOp>)
      modifies this
      ensures View() == L.UserAll(M.AsWritten(lengthFirst), old(View()), ops)
    {
      ghost var code := M.AsWritten(lengthFirst);
      var i := 0;
      assert ops[0..] == ops;
      while i < |ops|
        invariant i <= |ops|
        invariant L.UserAll(code, View(), ops[i..]) == L.UserAll(code, old(View()), ops)
      {
        assert ops[i..][1..] == ops[i + 1..];
        UserCall(ops[i]);
        i := i + 1;
      }
    }

    method UserCall(op: L.UserOp)
      modifies this
      ensures View() == L.User(M.AsWritten(lengthFirst), old(View()), op)
    {
      match op
      case UserSend(msg, wish) =>
        var threw := Send(msg, KernelAnswer(|msg|, wish));
      case UserShutDown => ShutDown();
    }

    // What write() answers: what the environment wishes, as far as the socket allows.
    function KernelAnswer(len: nat, wish: M.WriteResult): (w: M.WriteResult)
      reads this
      ensures w == L.Answer(View(), len, wish)
    {
      if wrClosed then M.Reset
      else if wish.Wrote? && wish.n > len then M.Wrote(len)
      else wish
    }

    // setState(kConnected), enableReading, and the connection callback.
    method ConnectEstablished(ops: seq<L.UserOp>)
      requires state == M.Connecting
      modifies this
      ensures View() == L.UserAll(M.AsWritten(lengthFirst), M.ConnectEstablished(old(View())), ops)
    {
      state := M.Connected;
      channel := OwnFields(channel, EnableReading);
      ConnectionCallback(ops);
    }

    method SendInLoop(msg: M.Message, w: M.WriteResult) returns (threw: bool)
      requires M.LegalWrite(View(), |msg|, w)
      modifies this
      ensures threw == M.SendInLoop(M.AsWritten(lengthFirst), old(View()), msg, w).Threw?
      ensures View() == M.SendInLoop(M.AsWritten(lengthFirst), old(View()), msg, w).c
    {
      threw := false;
      var len := |msg|;
      var remain := len;
      var faultError := false;
      var n := 0;
      if state == M.Disconnected {
        return;
      }
      if !IsWritingNow() && |outBuffer| == 0 {
        match w
        case Wrote(k) =>
          n := k;
          remain := len - k;
        case Reset => faultError := true;
        case WouldBlock =>
        case OtherError =>
      }
      wire := wire + msg[..n];
      if !faultError && remain > 0 {
        match M.Substr(msg, M.SizeBefore(n), remain)
        case None =>
          threw := true;
          return;
        case Some(rest) =>
          outBuffer := outBuffer + rest;
          if !IsWritingNow() {
            channel := OwnFields(channel, EnableWrite);
          }
      }
    }

    method ShutDownInLoop()
      modifies this`wrClosed
      ensures View() == M.ShutDownInLoop(old(View()))
    {
      if !IsWritingNow() {
        wrClosed := true;
      }
    }

    method HandleWrite(w: M.WriteResult)
      requires M.LegalWrite(View(), M.RequestLength(M.AsWritten(lengthFirst), View()), w)
      modifies this
      ensures View() == M.HandleWrite(M.AsWritten(lengthFirst), old(View()), w)
    {
      if IsWritingNow() {
        var data := outBuffer;
        outBuffer := [];
        var n := if w.Wrote? then w.n else 0;
        if n == 0 {
          wrClosed := true;
        } else {
          wire := wire + data[..n];
          outBuffer := M.Retrieve(outBuffer, n);
          if |outBuffer| == 0 {
            channel := OwnFields(channel, DisableWrite);
            if state == M.Disconnecting {
              ShutDownInLoop();
            }
          }
        }
      }
    }

    // setState(kDisconnected), disableAll, the connection callback, whose calls change nothing any
    // more, and the close callback, which is the server's.
    method HandleClose(ops: seq<L.UserOp>)
      modifies this
      ensures View() == M.HandleClose(old(View()))
    {
      state := M.Disconnected;
      channel := OwnFields(channel, DisableAll);
      L.ClosedIgnoresUser(M.AsWritten(lengthFirst), View(), ops);
      ConnectionCallback(ops);
      closes := closes + 1;
    }

    // handleRead: the message callback, or handleClose at the end of the peer's stream.
    method HandleRead(r: L.ReadResult, ops: seq<L.UserOp>)
      modifies this
      ensures View() == L.Read(M.AsWritten(lengthFirst), old(View()), r, ops)
    {
      match r
      case Bytes => ConnectionCallback(ops);
      case Eof => HandleClose(ops);
      case ReadError =>
    }

    // The channel's handleEvent, with the callbacks this connection has set on it: there is no error
    // callback, so an error event alone runs nothing.
    method HandleEvent(e: L.Event)
      modifies this
      ensures View() == L.Handle(M.AsWritten(lengthFirst), old(View()), e)
    {
      L.HandleInOrder(M.AsWritten(lengthFirst), View(), e);
      if e.revents & EPOLLHUP != 0 && e.revents & EPOLLIN == 0 {
        HandleClose(e.ops);
      }
      if e.revents & (EPOLLIN | EPOLLPRI | EPOLLRDHUP) != 0 {
        HandleRead(e.read, e.ops);
      }
      if e.revents & EPOLLOUT != 0 {
        HandleWrite(KernelAnswer(if lengthFirst then |outBuffer| else 0, e.wish));
      }
    }

    // send() and shutDown() on the loop thread, where runInLoop runs its functor at once.
    method Send(msg: M.Message, w: M.WriteResult) returns (threw: bool)
      requires M.LegalWrite(View(), |msg|, w)
      modifies this
      ensures View() == M.Send(M.AsWritten(lengthFirst), old(View()), msg, w).c
      ensures threw == M.Send(M.AsWritten(lengthFirst), old(View()), msg, w).Threw?
    {
      threw := false;
      if state == M.Connected {
        threw := SendInLoop(msg, w);
      }
    }

    method ShutDown()
      modifies this
      ensures View() == M.ShutDown(old(View()))
    {
      if state == M.Connected {
        state := M.Disconnecting;
        ShutDownInLoop();
      }
    }
  }
}
