/**
 TcpServer.cpp with no worker threads: naming and listing new connections, and erasing them when
 they close.
 */
module TcpServers {
  import opened ConnectionNames
  import opened ConnectionModel
  import opened ChannelModel
  import opened Lifecycle
  import C = TcpConnections

  // conns holds every connection ever accepted; connectionList the names m_connectionList holds;
  // erased what each m_connectionList.erase returned.
  datatype Server = Server(
    name: string,
    ipPort: string,
    nextConnfd: nat,
    conns: map<string, Conn>,
    connectionList: set<string>,
    erased: seq<nat>)

  datatype Step =
    | NewConn(fd: int, established: seq<UserOp>, after: seq<UserOp>)
    | Occur(conn: string, event: Event)
    | Call(conn: string, op: UserOp)

  // handleNewConn: list the connection, establish it, which calls the connection callback, and call
  // the connection callback again.
  function Accept(code: Code, fd: int, established: seq<UserOp>, after: seq<UserOp>): Conn {
    var c := ConnectEstablished(Conn(Connecting, Chan(fd, New, 0), [], [], false, 0));
    UserAll(code, UserAll(code, c, established), after)
  }

  // removeConnection
  function Erase(s: Server, name: string): Server {
    s.(connectionList := s.connectionList - {name}, erased := s.erased + [if name in s.connectionList then 1 else 0])
  }

  predicate Enabled(s: Server, t: Step) {
    match t
    case NewConn(_, _, _) => s.nextConnfd < INT_MAX
    case Occur(name, e) => name in s.conns && MayOccur(s.conns[name], e)
    case Call(name, _) => name in s.conns
  }

  // An event that closes its connection runs the close callback, which is removeConnection.
  function Next(code: Code, s: Server, t: Step): Server
    requires Enabled(s, t)
  {
    match t
    case NewConn(fd, established, after) =>
      var name := Name(s.name, s.ipPort, s.nextConnfd);
      s.(nextConnfd := s.nextConnfd + 1, connectionList := s.connectionList + {name},
         conns := s.conns[name := Accept(code, fd, established, after)])
    case Occur(name, e) =>
      Update(s, name, Handle(code, s.conns[name], e))
    case Call(name, op) => s.(conns := s.conns[name := User(code, s.conns[name], op)])
  }

  predicate Runs(code: Code, s: Server, ts: seq<Step>)
    decreases |ts|
  {
    ts == [] || (Enabled(s, ts[0]) && Runs(code, Next(code, s, ts[0]), ts[1..]))
  }

  function After(code: Code, s: Server, ts: seq<Step>): Server
    requires Runs(code, s, ts)
    decreases |ts|
  {
    if ts == [] then s else After(code, Next(code, s, ts[0]), ts[1..])
  }

  // A server just constructed on an address.
  function Start(name: string, ip: string, port: nat): Server {
    Server(name, ToIpPort(ip, port), 1, map[], {}, [])
  }

  // ---------- the list holds exactly the open connections ----------

  ghost predicate Inv(s: Server) {
    && |s.ipPort| <= MAX_ADDRESS
    && 1 <= s.nextConnfd <= INT_MAX
    && (forall name :: name in s.conns ==>
          NameGiven(s, name) && Life(s.conns[name]) && !s.conns[name].state.Connecting?)
    && (forall name :: name in s.connectionList <==> name in s.conns && !s.conns[name].state.Disconnected?)
    && (forall i :: 0 <= i < |s.erased| ==> s.erased[i] == 1)
  }

  ghost predicate NameGiven(s: Server, name: string) {
    exists i: nat :: 1 <= i < s.nextConnfd && name == Name(s.name, s.ipPort, i)
  }

  lemma NextNameIsNew(s: Server)
    requires Inv(s)
    ensures Name(s.name, s.ipPort, s.nextConnfd) !in s.conns
  {
    NamesDistinctIff(s.name, s.ipPort);
    assert Name(s.name, s.ipPort, s.nextConnfd) in s.conns ==> NameGiven(s, Name(s.name, s.ipPort, s.nextConnfd));
  }

  lemma AcceptLife(code: Code, fd: int, established: seq<UserOp>, after: seq<UserOp>)
    ensures Life(Accept(code, fd, established, after))
    ensures var c := Accept(code, fd, established, after); c.state.Connected? || c.state.Disconnecting?
  {
    Masks();
    var c := ConnectEstablished(Conn(Connecting, Chan(fd, New, 0), [], [], false, 0));
    UserAllForward(code, c, established);
    UserAllForward(code, UserAll(code, c, established), after);
  }

  lemma NamesStayGiven(s: Server, r: Server)
    requires s.name == r.name && s.ipPort == r.ipPort && s.nextConnfd <= r.nextConnfd
    ensures forall name :: NameGiven(s, name) ==> NameGiven(r, name)
  {
  }

  // Replacing an open connection by what it has become, and erasing it if it has closed.
  function Update(s: Server, name: string, c: Conn): Server
    requires name in s.conns
  {
    var s1 := s.(conns := s.conns[name := c]);
    if c.closes > s.conns[name].closes then Erase(s1, name) else s1
  }

  lemma UpdateKeepsInv(s: Server, name: string, c: Conn)
    requires Inv(s) && name in s.conns && Forward(s.conns[name], c) && !c.state.Connecting?
    ensures Inv(Update(s, name, c))
  {
    NamesStayGiven(s, Update(s, name, c));
  }

  lemma NewConnKeepsInv(code: Code, s: Server, fd: int, established: seq<UserOp>, after: seq<UserOp>)
    requires Inv(s) && s.nextConnfd < INT_MAX
    ensures Inv(Next(code, s, NewConn(fd, established, after)))
  {
    var r := Next(code, s, NewConn(fd, established, after));
    AcceptLife(code, fd, established, after);
    NamesStayGiven(s, r);
    assert NameGiven(r, Name(s.name, s.ipPort, s.nextConnfd));
  }

  lemma StepKeepsInv(code: Code, s: Server, t: Step)
    requires Inv(s) && Enabled(s, t)
    ensures Inv(Next(code, s, t))
  {
    match t
    case NewConn(fd, established, after) => NewConnKeepsInv(code, s, fd, established, after);
    case Occur(name, e) =>
      HandleForward(code, s.conns[name], e);
      UpdateKeepsInv(s, name, Handle(code, s.conns[name], e));
    case Call(name, op) =>
      UserForward(code, s.conns[name], op);
      UserNeverCloses(code, s.conns[name], op);
      UpdateKeepsInv(s, name, User(code, s.conns[name], op));
  }

  lemma UserNeverCloses(code: Code, c: Conn, op: UserOp)
    ensures User(code, c, op).closes == c.closes
  {
  }

  // Over any run of the server: handleClose has run once on each connection that is down and on no
  // other, the list names exactly the open ones, and every erase removed exactly one entry.
  lemma {:induction false} EveryCloseErasesOne(code: Code, s: Server, ts: seq<Step>)
    requires Inv(s) && Runs(code, s, ts)
    ensures Inv(After(code, s, ts))
    decreases |ts|
  {
    if ts != [] {
      StepKeepsInv(code, s, ts[0]);
      EveryCloseErasesOne(code, Next(code, s, ts[0]), ts[1..]);
    }
  }

  // A new connection is listed under the next name, on the descriptor that was accepted, and both runs of
  // the connection callback have had their effect; nothing else changes.
  lemma AcceptTakesEffect(code: Code, s: Server, fd: int, established: seq<UserOp>, after: seq<UserOp>)
    requires Inv(s) && Enabled(s, NewConn(fd, established, after))
    ensures var r, name := Next(code, s, NewConn(fd, established, after)), Name(s.name, s.ipPort, s.nextConnfd);
            && r.connectionList == s.connectionList + {name} && r.nextConnfd == s.nextConnfd + 1 && r.erased == s.erased
            && name !in s.conns && r.conns.Keys == s.conns.Keys + {name}
            && (forall n :: n in s.conns ==> r.conns[n] == s.conns[n])
            && r.conns[name].chan.fd == fd
            && r.conns[name].state == (if ShutsDown(established) || ShutsDown(after) then Disconnecting else Connected)
  {
    NextNameIsNew(s);
    AcceptState(code, fd, established, after);
  }

  lemma AcceptState(code: Code, fd: int, established: seq<UserOp>, after: seq<UserOp>)
    ensures var c := Accept(code, fd, established, after);
            && c.chan.fd == fd
            && c.state == if ShutsDown(established) || ShutsDown(after) then Disconnecting else Connected
  {
    Masks();
    var c0 := ConnectEstablished(Conn(Connecting, Chan(fd, New, 0), [], [], false, 0));
    var c1 := UserAll(code, c0, established);
    UserAllForward(code, c0, established);
    UserAllForward(code, c1, after);
    CallbackState(code, c0, established);
    if c1.state.Connected? {
      CallbackState(code, c1, after);
    } else {
      DisconnectingIgnoresUser(code, c1, after);
    }
  }

  // An event that hangs up, or that reads the end of the peer's stream, takes exactly that connection off
  // the list; any other event leaves the list alone.
  lemma EventErasesIff(code: Code, s: Server, name: string, e: Event)
    requires Inv(s) && Enabled(s, Occur(name, e))
    ensures var r, c := Next(code, s, Occur(name, e)), s.conns[name];
            && (forall n :: n in s.conns && n != name ==> r.conns[n] == s.conns[n]) && r.conns.Keys == s.conns.Keys
            && if Open(c) && ((e.revents & EPOLLHUP != 0 && e.revents & EPOLLIN == 0)
                              || (e.revents & EPOLLIN != 0 && e.read.Eof?)) then
                 name in s.connectionList && r.connectionList == s.connectionList - {name} && r.erased == s.erased + [1]
               else r.connectionList == s.connectionList && r.erased == s.erased
  {
    HandleForward(code, s.conns[name], e);
    if Open(s.conns[name]) {
      EventClosesIff(code, s.conns[name], e);
    }
  }

  // A call on a connection changes that connection, and never the list.
  lemma CallTakesEffect(code: Code, s: Server, name: string, op: UserOp)
    requires Inv(s) && Enabled(s, Step.Call(name, op)) && s.conns[name].state.Connected?
    ensures var r := Next(code, s, Step.Call(name, op));
            && r.connectionList == s.connectionList && r.erased == s.erased && r.conns.Keys == s.conns.Keys
            && (forall n :: n in s.conns && n != name ==> r.conns[n] == s.conns[n])
            && r.conns[name].state == (if op.UserShutDown? then Disconnecting else Connected)
            && (code.Intended? && op.UserSend? && !op.wish.Reset? && !s.conns[name].wrClosed ==>
                  r.conns[name].wire + r.conns[name].out == s.conns[name].wire + s.conns[name].out + op.msg)
  {
    var c := s.conns[name];
    if op.UserSend? {
      SendTakesWhatWasWritten(code, c, op.msg, Answer(c, |op.msg|, op.wish));
      IntendedSendKeepsStream(c, op.msg, Answer(c, |op.msg|, op.wish));
    }
  }

  // In particular over any run from a server just constructed on any address.
  lemma ServerKeepsItsList(code: Code, name: string, ip: string, port: nat, ts: seq<Step>)
    requires |ip| < INET6_ADDRSTRLEN && port <= 0xFFFF && Runs(code, Start(name, ip, port), ts)
    ensures var r := After(code, Start(name, ip, port), ts);
            && (forall c :: c in r.connectionList <==> c in r.conns && !r.conns[c].state.Disconnected?)
            && (forall c :: c in r.conns ==> r.conns[c].closes == if r.conns[c].state.Disconnected? then 1 else 0)
            && (forall i :: 0 <= i < |r.erased| ==> r.erased[i] == 1)
  {
    AddressFits(ip, port);
    EveryCloseErasesOne(code, Start(name, ip, port), ts);
  }

  // A connection's state number never decreases, and it is never replaced by another connection.
  lemma {:induction false} StatesMoveForward(code: Code, s: Server, ts: seq<Step>, name: string)
    requires Inv(s) && Runs(code, s, ts) && name in s.conns
    ensures var r := After(code, s, ts);
            name in r.conns && Number(s.conns[name].state) <= Number(r.conns[name].state)
            && r.conns[name].chan.fd == s.conns[name].chan.fd
    decreases |ts|
  {
    if ts != [] {
      var t := ts[0];
      StepKeepsInv(code, s, t);
      StepMovesForward(code, s, t, name);
      StatesMoveForward(code, Next(code, s, t), ts[1..], name);
    }
  }

  lemma StepMovesForward(code: Code, s: Server, t: Step, name: string)
    requires Inv(s) && Enabled(s, t) && name in s.conns
    ensures var r := Next(code, s, t);
            name in r.conns && Number(s.conns[name].state) <= Number(r.conns[name].state)
            && r.conns[name].chan.fd == s.conns[name].chan.fd
  {
    match t
    case NewConn(_, _, _) => NextNameIsNew(s);
    case Occur(n, e) =>
      HandleForward(code, s.conns[n], e);
    case Call(n, op) =>
      UserForward(code, s.conns[n], op);
  }

  // ---------- the object ----------

  class TcpServer {
    const name: string
    const ipPort: string
    // the order of evaluation its connections' handleWrite is compiled to
    const lengthFirst: bool
    var nextConnfd: nat
    // every connection object made so far, by name, and the names m_connectionList holds
    var conns: map<string, C.TcpConnection>
    var connectionList: set<string>
    // what each erase has returned
    ghost var erased: seq<nat>

    ghost function View(): Server
      reads this, conns.Values
    {
      Server(name, ipPort, nextConnfd, map n | n in conns :: conns[n].View(), connectionList, erased)
    }

    ghost predicate Valid()
      reads this, conns.Values
    {
      && (forall n :: n in conns ==> conns[n].lengthFirst == lengthFirst)
      && (forall m, n :: m in conns && n in conns && conns[m] == conns[n] ==> m == n)
    }

    constructor (name: string, ip: string, port: nat, lengthFirst: bool)
      ensures Valid() && View() == Start(name, ip, port) && this.lengthFirst == lengthFirst
    {
      this.name, this.ipPort, this.lengthFirst := name, ToIpPort(ip, port), lengthFirst;
      nextConnfd, conns, connectionList, erased := 1, map[], {}, [];
    }

    // The first part of handleNewConn: the name, and the entry in the list.
    method NameAndList(conn: C.TcpConnection) returns (connName: string)
      requires Valid() && conn !in conns.Values && conn.lengthFirst == lengthFirst
      modifies this`nextConnfd, this`conns, this`connectionList
      ensures Valid() && connName == Name(name, ipPort, old(nextConnfd)) && conns == old(conns)[connName := conn]
      ensures View() == old(View()).(nextConnfd := old(nextConnfd) + 1,
                                     conns := old(View()).conns[connName := conn.View()],
                                     connectionList := old(connectionList) + {connName})
    {
      connName := name + Truncate("-" + ipPort + "#" + Decimal(nextConnfd), BUFFER_SIZE);
      nextConnfd := nextConnfd + 1;
      conns := conns[connName := conn];
      connectionList := connectionList + {connName};
      assert View().conns == old(View()).conns[connName := conn.View()];
    }

    // The second: connectEstablished, which calls the connection callback, and the callback again.
    method EstablishConnection(connName: string, established: seq<UserOp>, after: seq<UserOp>)
      requires Valid() && connName in conns && conns[connName].state == Connecting
      modifies conns[connName]
      ensures Valid()
      ensures var c := ConnectEstablished(old(View()).conns[connName]);
              var code := AsWritten(lengthFirst);
              var done := UserAll(code, UserAll(code, c, established), after);
              View() == old(View()).(conns := old(View()).conns[connName := done])
    {
      conns[connName].ConnectEstablished(established);
      conns[connName].ConnectionCallback(after);
      assert View().conns == old(View()).conns[connName := conns[connName].View()];
    }

    method HandleNewConn(fd: int, established: seq<UserOp>, after: seq<UserOp>) returns (connName: string)
      requires Valid() && Enabled(View(), NewConn(fd, established, after))
      modifies this
      ensures Valid() && View() == Next(AsWritten(lengthFirst), old(View()), NewConn(fd, established, after))
      ensures connName == Name(name, ipPort, old(nextConnfd)) && connName in conns && fresh(conns[connName])
    {
      var conn := new C.TcpConnection(fd, lengthFirst);
      connName := NameAndList(conn);
      EstablishConnection(connName, established, after);
    }

    // removeConnection: the number of entries erased, which the code asserts to be 1.
    method RemoveConnection(connName: string) returns (n: nat)
      requires Valid()
      modifies this`connectionList, this`erased
      ensures Valid() && View() == Erase(old(View()), connName)
      ensures n == |old(connectionList)| - |connectionList| && (n == 1 <==> connName in old(connectionList))
    {
      n := if connName in connectionList then 1 else 0;
      connectionList := connectionList - {connName};
      erased := erased + [n];
    }

    // An event on a connection; if that closes it, the close callback is removeConnection.
    method HandleEvent(connName: string, e: Event)
      requires Valid() && Enabled(View(), Occur(connName, e))
      modifies this`connectionList, this`erased, conns.Values
      ensures Valid() && View() == Next(AsWritten(lengthFirst), old(View()), Occur(connName, e))
    {
      var conn := conns[connName];
      var before := conn.closes;
      conn.HandleEvent(e);
      assert View().conns == old(View()).conns[connName := conn.View()];
      if conn.closes > before {
        var n := RemoveConnection(connName);
      }
    }

    // send() or shutDown() called on a connection on the loop thread.
    method UserCall(connName: string, op: UserOp)
      requires Valid() && Enabled(View(), Step.Call(connName, op))
      modifies conns.Values
      ensures Valid() && View() == Next(AsWritten(lengthFirst), old(View()), Step.Call(connName, op))
    {
      conns[connName].UserCall(op);
      assert View().conns == old(View()).conns[connName := conns[connName].View()];
    }
  }
}
