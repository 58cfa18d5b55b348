/**
 EventLoopThreadPoll.cpp: the pool starts its loops once and hands them out in turn.
 */
module EventLoopThreadPolls {

  // The cursor after one getNextLoop.
  function Advance(next: nat, n: nat): nat {
    if next + 1 >= n then 0 else next + 1
  }

  // The cursor after m calls on a pool of n loops.
  function Cursor(m: nat, n: nat): nat {
    if m == 0 then 0 else Advance(Cursor(m - 1, n), n)
  }

  // How many of the first m calls returned loop j.
  function Handed(m: nat, n: nat, j: nat): nat {
    if m == 0 then 0 else Handed(m - 1, n, j) + if Cursor(m - 1, n) == j then 1 else 0
  }

  lemma NextMod(m: nat, n: nat)
    requires n > 0
    ensures (m + 1) % n == Advance(m % n, n)
    ensures (m + 1) / n == m / n + if m % n + 1 == n then 1 else 0
  {
    var quot, rem := m / n, m % n;
    assert m + 1 == quot * n + rem + 1;
    if rem + 1 == n {
      assert m + 1 == (quot + 1) * n;
      DivUnique(m + 1, n, quot + 1, 0);
    } else {
      DivUnique(m + 1, n, quot, rem + 1);
    }
  }

  lemma DivUnique(x: nat, n: nat, quot: nat, rem: nat)
    requires n > 0 && rem < n && x == quot * n + rem
    ensures x / n == quot && x % n == rem
  {
    var q, r := x / n, x % n;
    assert x == q * n + r;
    if q > quot {
      MulMonotone(quot + 1, q, n);
    } else if q < quot {
      MulMonotone(q + 1, quot, n);
    }
  }

  lemma MulMonotone(a: nat, b: nat, n: nat)
    requires a <= b
    ensures a * n <= b * n
  {
  }

  // The k-th call, counting from 0, returns loop k mod n.
  lemma {:induction false} CursorIsMod(m: nat, n: nat)
    requires n > 0
    ensures Cursor(m, n) == m % n
  {
    if m > 0 {
      CursorIsMod(m - 1, n);
      NextMod(m - 1, n);
    }
  }

  // Every loop is handed out the same number of times, and the first m mod n of them once more.
  lemma {:induction false} HandedEvenly(m: nat, n: nat, j: nat)
    requires j < n
    ensures Handed(m, n, j) == m / n + if j < m % n then 1 else 0
  {
    if m > 0 {
      HandedEvenly(m - 1, n, j);
      CursorIsMod(m - 1, n);
      NextMod(m - 1, n);
    }
  }

  lemma HandedFairly(m: nat, n: nat, i: nat, j: nat)
    requires i < n && j < n
    ensures Handed(m, n, i) <= Handed(m, n, j) + 1
  {
    HandedEvenly(m, n, i);
    HandedEvenly(m, n, j);
  }

  class EventLoopThreadPoll<L> {
    const baseLoop: L
    var loops: seq<L>
    var next: nat
    var started: bool
    ghost var calls: nat

    ghost predicate Valid()
      reads this
    {
      started && if loops == [] then next == 0 else next == Cursor(calls, |loops|) && next < |loops|
    }

    constructor (baseLoop: L)
      ensures this.baseLoop == baseLoop && !started && loops == [] && next == 0
    {
      this.baseLoop := baseLoop;
      loops, next, started, calls := [], 0, false, 0;
    }

    // start(): one thread after another; startLoop gives the loop of each.
    method Start(startLoop: seq<L>)
      requires !started && loops == [] && next == 0
      modifies this
      ensures Valid() && loops == startLoop && calls == 0
    {
      started := true;
      calls := 0;
      var i := 0;
      while i < |startLoop|
        invariant i <= |startLoop| && loops == startLoop[..i]
        invariant started && next == 0 && calls == 0
      {
        loops := loops + [startLoop[i]];
        i := i + 1;
      }
    }

    method GetNextLoop() returns (loop: L)
      requires Valid()
      modifies this`next, this`calls
      ensures Valid() && calls == old(calls) + 1
      ensures loop == if loops == [] then baseLoop else loops[old(calls) % |loops|]
    {
      calls := calls + 1;
      if |loops| == 0 {
        loop := baseLoop;
      } else {
        CursorIsMod(calls - 1, |loops|);
        loop := loops[next];
        next := next + 1;
        if next >= |loops| {
          next := 0;
        }
      }
    }
  }
}
