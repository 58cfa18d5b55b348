/**
 Socket.h and Socket.cpp: a socket object owns its descriptor, moves hand it over, and the
 destructor closes it.
 */
module Sockets {

  const NO_FD := -1

  // live holds every Socket object and the descriptor in it; open is the kernel's view; acquired and
  // released are the descriptors opened and closed so far; futile counts close(-1).
  datatype World<S(==)> = World(live: map<S, int>, open: set<int>, acquired: seq<int>, released: seq<int>, futile: nat)

  datatype Step<S> =
    | Construct(s: S, fd: int)
    | MoveConstruct(s: S, from: S)
    | MoveAssign(to: S, from: S)
    | Destroy(s: S)

  function CloseFd<S(==)>(w: World<S>, fd: int): World<S> {
    if fd in w.open then w.(open := w.open - {fd}, released := w.released + [fd])
    else w.(futile := w.futile + 1)
  }

  // A socket is constructed on a descriptor the kernel has just handed out; a move construction
  // makes a new object from another one.
  predicate Enabled<S(==)>(w: World<S>, t: Step<S>) {
    match t
    case Construct(s, fd) => s !in w.live && 0 <= fd && fd !in w.open
    case MoveConstruct(s, from) => s !in w.live && from in w.live
    case MoveAssign(to, from) => to in w.live && from in w.live
    case Destroy(s) => s in w.live
  }

  function Next<S(==)>(w: World<S>, t: Step<S>): World<S>
    requires Enabled(w, t)
  {
    match t
    case Construct(s, fd) => w.(live := w.live[s := fd], open := w.open + {fd}, acquired := w.acquired + [fd])
    case MoveConstruct(s, from) => w.(live := w.live[s := w.live[from]][from := NO_FD])
    case MoveAssign(to, from) =>
      if to == from then w
      else CloseFd(w, w.live[to]).(live := w.live[to := w.live[from]][from := NO_FD])
    case Destroy(s) =>
      (if w.live[s] != NO_FD then CloseFd(w, w.live[s]) else w).(live := w.live - {s})
  }

  predicate Runs<S(==)>(w: World<S>, ts: seq<Step<S>>)
    decreases |ts|
  {
    ts == [] || (Enabled(w, ts[0]) && Runs(Next(w, ts[0]), ts[1..]))
  }

  function After<S(==)>(w: World<S>, ts: seq<Step<S>>): World<S>
    requires Runs(w, ts)
    decreases |ts|
  {
    if ts == [] then w else After(Next(w, ts[0]), ts[1..])
  }

  function Empty<S(==)>(): World<S> {
    World(map[], {}, [], [], 0)
  }

  function Times(log: seq<int>, fd: int): nat {
    if log == [] then 0 else Times(log[..|log| - 1], fd) + if log[|log| - 1] == fd then 1 else 0
  }

  lemma TimesSnoc(log: seq<int>, x: int, fd: int)
    ensures Times(log + [x], fd) == Times(log, fd) + if x == fd then 1 else 0
  {
    assert (log + [x])[..|log + [x]| - 1] == log;
  }

  ghost predicate Holds<S>(w: World<S>, s: S, fd: int) {
    s in w.live && w.live[s] == fd
  }

  // Every socket holds nothing or an open descriptor, no two the same one, every open one is held,
  // and each descriptor has been closed as often as it was opened, less once if it is open.
  ghost predicate Owned<S>(w: World<S>) {
    && (forall s :: s in w.live && w.live[s] != NO_FD ==> w.live[s] in w.open)
    && (forall s, t :: s in w.live && t in w.live && w.live[s] == w.live[t] && w.live[s] != NO_FD ==> s == t)
    && (forall fd :: fd in w.open ==> exists s :: s in w.live && Holds(w, s, fd))
    && NO_FD !in w.open
    && (forall fd :: Balanced(w, fd))
  }

  ghost predicate Balanced<S>(w: World<S>, fd: int) {
    Times(w.acquired, fd) == Times(w.released, fd) + if fd in w.open then 1 else 0
  }

  lemma CloseBalances<S>(w: World<S>, fd: int)
    requires fd in w.open && forall x :: Balanced(w, x)
    ensures forall x :: Balanced(CloseFd(w, fd), x)
  {
    forall x ensures Balanced(CloseFd(w, fd), x) {
      assert Balanced(w, x);
      TimesSnoc(w.released, fd, x);
    }
  }

  lemma OpenBalances<S>(w: World<S>, fd: int, r: World<S>)
    requires fd !in w.open && forall x :: Balanced(w, x)
    requires r.open == w.open + {fd} && r.acquired == w.acquired + [fd] && r.released == w.released
    ensures forall x :: Balanced(r, x)
  {
    forall x ensures Balanced(r, x) {
      assert Balanced(w, x);
      TimesSnoc(w.acquired, fd, x);
    }
  }

  lemma ConstructOwned<S>(w: World<S>, s: S, fd: int)
    requires Owned(w) && Enabled(w, Construct(s, fd))
    ensures Owned(Next(w, Construct(s, fd)))
  {
    var r := Next(w, Construct(s, fd));
    OpenBalances(w, fd, r);
    forall x | x in r.open ensures exists t :: t in r.live && Holds(r, t, x) {
      if x != fd {
        var t :| t in w.live && Holds(w, t, x);
        assert Holds(r, t, x);
      } else {
        assert Holds(r, s, x);
      }
    }
  }

  // Handing the descriptor of one object to another that holds none.
  lemma HandOver<S>(w: World<S>, from: S, to: S, r: World<S>)
    requires Owned(w) && from in w.live && (to in w.live ==> w.live[to] == NO_FD)
    requires r == w.(live := w.live[to := w.live[from]][from := NO_FD]) && from != to
    ensures Owned(r)
  {
    forall x ensures Balanced(r, x) {
      assert Balanced(w, x);
    }
    forall x | x in r.open ensures exists t :: t in r.live && Holds(r, t, x) {
      var t :| t in w.live && Holds(w, t, x);
      assert Holds(r, if t == from then to else t, x);
    }
  }

  // An object gives up its descriptor, which is closed.
  lemma LetGo<S>(w: World<S>, s: S)
    requires Owned(w) && s in w.live && w.live[s] != NO_FD
    ensures Owned(CloseFd(w, w.live[s]).(live := w.live[s := NO_FD]))
  {
    var r := CloseFd(w, w.live[s]).(live := w.live[s := NO_FD]);
    CloseBalances(w, w.live[s]);
    forall x ensures Balanced(r, x) {
      assert Balanced(CloseFd(w, w.live[s]), x);
    }
    forall x | x in r.open ensures exists t :: t in r.live && Holds(r, t, x) {
      var t :| t in w.live && Holds(w, t, x);
      assert Holds(r, t, x);
    }
  }

  lemma DropEmpty<S>(w: World<S>, s: S, r: World<S>)
    requires Owned(w) && s in w.live && w.live[s] == NO_FD && r == w.(live := w.live - {s})
    ensures Owned(r)
  {
    forall x ensures Balanced(r, x) {
      assert Balanced(w, x);
    }
    forall x | x in r.open ensures exists t :: t in r.live && Holds(r, t, x) {
      var t :| t in w.live && Holds(w, t, x);
      assert Holds(r, t, x);
    }
  }

  lemma FutileKeeps<S>(w: World<S>, r: World<S>)
    requires Owned(w) && r.live == w.live && r.open == w.open && r.acquired == w.acquired && r.released == w.released
    ensures Owned(r)
  {
    forall x ensures Balanced(r, x) {
      assert Balanced(w, x);
    }
    forall x | x in r.open ensures exists t :: t in r.live && Holds(r, t, x) {
      var t :| t in w.live && Holds(w, t, x);
      assert Holds(r, t, x);
    }
  }

  lemma MoveAssignOwned<S>(w: World<S>, to: S, from: S)
    requires Owned(w) && to in w.live && from in w.live && to != from
    ensures Owned(Next(w, MoveAssign(to, from)))
  {
    var r := Next(w, MoveAssign(to, from));
    if w.live[to] != NO_FD {
      var m := CloseFd(w, w.live[to]).(live := w.live[to := NO_FD]);
      LetGo(w, to);
      assert r.live == m.live[to := m.live[from]][from := NO_FD];
      HandOver(m, from, to, r);
    } else {
      var m := CloseFd(w, NO_FD);
      FutileKeeps(w, m);
      HandOver(m, from, to, r);
    }
  }

  lemma StepOwned<S>(w: World<S>, t: Step<S>)
    requires Owned(w) && Enabled(w, t)
    ensures Owned(Next(w, t))
  {
    match t
    case Construct(s, fd) => ConstructOwned(w, s, fd);
    case MoveConstruct(s, from) => HandOver(w, from, s, Next(w, t));
    case MoveAssign(to, from) => if to != from { MoveAssignOwned(w, to, from); }
    case Destroy(s) =>
      if w.live[s] != NO_FD {
        var m := CloseFd(w, w.live[s]).(live := w.live[s := NO_FD]);
        LetGo(w, s);
        assert Next(w, t).live == m.live - {s};
        DropEmpty(m, s, Next(w, t));
      } else {
        DropEmpty(w, s, Next(w, t));
      }
  }

  // Under any sequence of constructions, moves and destructions, each open descriptor is held by
  // exactly one live socket.
  lemma {:induction false} RunOwned<S>(w: World<S>, ts: seq<Step<S>>)
    requires Owned(w) && Runs(w, ts)
    ensures Owned(After(w, ts))
    decreases |ts|
  {
    if ts != [] {
      StepOwned(w, ts[0]);
      RunOwned(Next(w, ts[0]), ts[1..]);
    }
  }

  // And when no socket is left, every descriptor has been closed exactly as often as it was opened.
  lemma NothingLeaks<S>(ts: seq<Step<S>>, fd: int)
    requires Runs(Empty<S>(), ts) && After(Empty<S>(), ts).live == map[]
    ensures Times(After(Empty<S>(), ts).acquired, fd) == Times(After(Empty<S>(), ts).released, fd)
  {
    RunOwned(Empty<S>(), ts);
    var w := After(Empty<S>(), ts);
    assert Balanced(w, fd);
  }

  // The only close() that can fail is the one a move assignment makes on an empty socket.
  lemma FutileCloseIff<S>(w: World<S>, t: Step<S>)
    requires Owned(w) && Enabled(w, t)
    ensures Next(w, t).futile == w.futile + 1 <==> t.MoveAssign? && t.to != t.from && w.live[t.to] == NO_FD
    ensures Next(w, t).futile == w.futile || Next(w, t).futile == w.futile + 1
  {
  }

  // Who holds what after each operation, and what the kernel has open.
  ghost predicate Holders<S>(w: World<S>, r: World<S>, changed: set<S>) {
    r.live.Keys - changed == w.live.Keys - changed
    && forall s :: s in w.live && s !in changed ==> s in r.live && r.live[s] == w.live[s]
  }

  // A constructed socket holds its descriptor; a move construction hands it on, leaves nothing behind
  // and closes nothing.
  lemma ConstructionHands<S>(w: World<S>, s: S, fd: int, from: S)
    requires Owned(w)
    ensures Enabled(w, Construct(s, fd)) ==>
              var r := Next(w, Construct(s, fd));
              Holders(w, r, {s}) && Holds(r, s, fd) && r.open == w.open + {fd} && r.acquired == w.acquired + [fd]
    ensures Enabled(w, MoveConstruct(s, from)) ==>
              var r := Next(w, MoveConstruct(s, from));
              && Holders(w, r, {s, from}) && Holds(r, s, w.live[from]) && Holds(r, from, NO_FD)
              && r.open == w.open && r.released == w.released
  {
  }

  // A move assignment closes exactly the descriptor the target held, and hands over the other's; onto
  // itself it does nothing.
  lemma AssignmentHands<S>(w: World<S>, to: S, from: S)
    requires Owned(w) && Enabled(w, MoveAssign(to, from))
    ensures var r := Next(w, MoveAssign(to, from));
            if to == from then r == w
            else
              && Holders(w, r, {to, from}) && Holds(r, to, w.live[from]) && Holds(r, from, NO_FD)
              && r.open == w.open - {w.live[to]}
              && r.released == w.released + (if w.live[to] == NO_FD then [] else [w.live[to]])
  {
  }

  // A destruction closes exactly the descriptor the socket held.
  lemma DestructionCloses<S>(w: World<S>, s: S)
    requires Owned(w) && Enabled(w, Destroy(s))
    ensures var r := Next(w, Destroy(s));
            && Holders(w, r, {s}) && s !in r.live && r.open == w.open - {w.live[s]}
            && r.released == w.released + (if w.live[s] == NO_FD then [] else [w.live[s]])
            && r.futile == w.futile
  {
  }

  // ---------- the objects ----------

  // The kernel's table of descriptors, and on the side the Socket objects that are alive.
  class Descriptors {
    var open: set<int>
    ghost var acquired: seq<int>
    ghost var released: seq<int>
    ghost var futile: nat
    ghost var live: set<Socket>

    ghost function View(): World<Socket>
      reads this, live
    {
      World(map s | s in live :: s.sockfd, open, acquired, released, futile)
    }

    constructor ()
      ensures View() == Empty<Socket>()
    {
      open, acquired, released, futile, live := {}, [], [], 0, {};
    }

    // accept() or socket(): a descriptor that is not in use.
    method Acquire(fd: int)
      requires 0 <= fd && fd !in open
      modifies this`open, this`acquired
      ensures open == old(open) + {fd} && acquired == old(acquired) + [fd]
    {
      open, acquired := open + {fd}, acquired + [fd];
    }

    method Close(fd: int)
      modifies this`open, this`released, this`futile
      ensures View() == CloseFd(old(View()), fd)
    {
      if fd in open {
        open, released := open - {fd}, released + [fd];
      } else {
        futile := futile + 1;
      }
      assert View().live == old(View()).live;
    }
  }

  class Socket {
    var sockfd: int

    // Socket(sockfd): the new object owns a descriptor the kernel has just handed out.
    constructor (fd: int, kernel: Descriptors)
      requires 0 <= fd && fd !in kernel.open
      modifies kernel
      ensures this !in old(kernel.live) && kernel.View() == Next(old(kernel.View()), Construct(this, fd))
    {
      sockfd := fd;
      new;
      kernel.Acquire(fd);
      kernel.live := kernel.live + {this};
    }

    constructor Move(rhs: Socket, kernel: Descriptors)
      requires rhs in kernel.live
      modifies rhs, kernel`live
      ensures this !in old(kernel.live) && kernel.View() == Next(old(kernel.View()), MoveConstruct(this, rhs))
    {
      sockfd := rhs.sockfd;
      new;
      rhs.sockfd := NO_FD;
      kernel.live := kernel.live + {this};
    }

    method Assign(rhs: Socket, kernel: Descriptors)
      requires this in kernel.live && rhs in kernel.live
      modifies this, rhs, kernel
      ensures kernel.View() == Next(old(kernel.View()), MoveAssign(this, rhs))
    {
      if this != rhs {
        kernel.Close(sockfd);
        sockfd := NO_FD;
        sockfd, rhs.sockfd := rhs.sockfd, sockfd;
      }
    }

    // ~Socket
    method Destroy(kernel: Descriptors)
      requires this in kernel.live
      modifies kernel
      ensures kernel.View() == Next(old(kernel.View()), Step.Destroy(this))
    {
      if sockfd != NO_FD {
        kernel.Close(sockfd);
      }
      kernel.live := kernel.live - {this};
    }
  }
}
