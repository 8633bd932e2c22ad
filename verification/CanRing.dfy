/** The executor's round-robin as a queue. The operations fill the front of a slot array; the next
    one to run is at an index that walks round the filled slots. */
module CanRing {
  datatype Ring<T> = Ring(cells: seq<T>, next: nat) {
    predicate Bounded() {
      next < |cells| || next == 0
    }

    /** The operations in the order in which they will run. */
    function Queue(): (queue: seq<T>)
      requires Bounded()
      ensures |queue| == |cells|
    {
      cells[next..] + cells[..next]
    }

    /** The operation that ran stays. */
    function Rotated(): Ring<T>
      requires cells != []
    {
      Ring(cells, (next + 1) % |cells|)
    }

    /** The cell is closed up by those behind it, and the one behind it is next. */
    function Dropped(index: nat): Ring<T>
      requires index < |cells|
    {
      Ring(cells[..index] + cells[index + 1..], if index >= |cells| - 1 then 0 else index)
    }

    function Joined(x: T): Ring<T> {
      Ring(cells + [x], next)
    }
  }

  predicate Distinct<T(==)>(s: seq<T>) {
    forall i, j :: 0 <= i < j < |s| ==> s[i] != s[j]
  }

  // ----- The ring refines a queue ----------------------------------------------------------

  lemma RotatedQueue<T>(r: Ring<T>)
    requires r.Bounded() && r.cells != []
    ensures r.Rotated().Bounded()
    ensures r.Rotated().Queue() == r.Queue()[1..] + [r.Queue()[0]]
  {
    Wraps(r.next, |r.cells|);
    var q, next := r.Queue(), r.Rotated().next;
    assert r.cells[r.next..] == [q[0]] + r.cells[r.next + 1..];
    if r.next + 1 < |r.cells| {
      assert r.cells[..next] == r.cells[..r.next] + [q[0]];
    }
  }

  lemma Wraps(i: nat, n: nat)
    requires i < n
    ensures (i + 1) % n == if i + 1 < n then i + 1 else 0
  {
  }

  lemma DroppedQueue<T>(r: Ring<T>)
    requires r.Bounded() && r.cells != []
    ensures r.Dropped(r.next).Bounded()
    ensures r.Dropped(r.next).Queue() == r.Queue()[1..]
  {
  }

  /** A new operation goes in before those that have already run in this round. */
  lemma JoinedQueue<T>(r: Ring<T>, x: T)
    requires r.Bounded()
    ensures r.Joined(x).Bounded()
    ensures r.Joined(x).Queue() == r.Queue()[..|r.cells| - r.next] + [x] + r.Queue()[|r.cells| - r.next..]
  {
  }

  // ----- Waiting ---------------------------------------------------------------------------

  /** The head runs and stays or leaves, or an operation joins. */
  datatype Event<T> = Ran(stays: bool) | Joins(op: T)

  function Next<T>(r: Ring<T>, e: Event<T>): (s: Ring<T>)
    requires r.Bounded()
    ensures s.Bounded()
  {
    match e
    case Ran(stays) => if r.cells == [] then r else if stays then r.Rotated() else r.Dropped(r.next)
    case Joins(x) => r.Joined(x)
  }

  function After<T>(r: Ring<T>, es: seq<Event<T>>): (s: Ring<T>)
    requires r.Bounded()
    ensures s.Bounded()
    decreases |es|
  {
    if es == [] then r else After(Next(r, es[0]), es[1..])
  }

  /** The operations that ran, in order. */
  function Heads<T>(r: Ring<T>, es: seq<Event<T>>): seq<T>
    requires r.Bounded()
    decreases |es|
  {
    if es == [] then []
    else (if es[0].Ran? && r.cells != [] then [r.Queue()[0]] else []) + Heads(Next(r, es[0]), es[1..])
  }

  function RunCount<T>(es: seq<Event<T>>): nat {
    if es == [] then 0 else (if es[0].Ran? then 1 else 0) + RunCount(es[1..])
  }

  function JoinCount<T>(es: seq<Event<T>>): nat {
    if es == [] then 0 else (if es[0].Joins? then 1 else 0) + JoinCount(es[1..])
  }

  /** The operations that have not run in this round are at the front of the queue, ahead of where new ones go in. */
  predicate Ahead<T>(r: Ring<T>, d: nat) {
    d + r.next < |r.cells|
  }

  /** A turn moves an operation that is not at the head up by one, and keeps it ahead. */
  lemma RanMoves<T>(r: Ring<T>, stays: bool, d: nat)
    requires r.Bounded() && 0 < d < |r.cells|
    ensures
      var s := Next(r, Ran(stays));
      d - 1 < |s.cells| && s.Queue()[d - 1] == r.Queue()[d] && (Ahead(r, d) ==> Ahead(s, d - 1))
  {
    Wraps(r.next, |r.cells|);
    if stays {
      RotatedQueue(r);
    } else {
      DroppedQueue(r);
    }
  }

  /** A join moves only the operations back that are not ahead. */
  lemma JoinMoves<T>(r: Ring<T>, x: T, d: nat)
    requires r.Bounded() && d < |r.cells|
    ensures
      var s, at := Next(r, Joins(x)), if Ahead(r, d) then d else d + 1;
      at < |s.cells| && s.Queue()[at] == r.Queue()[d] && (Ahead(r, d) ==> Ahead(s, at))
  {
    JoinedQueue(r, x);
  }

  /** Bounded waiting: an operation at position `d` of the queue is among the next `d + 1` to run if it has not run in this
      round, whatever joins, and else among the next `d + 1 + m` when `m` operations join meanwhile; whichever of
      them stay. */
  lemma {:induction false} WaitsAtMost<T>(r: Ring<T>, es: seq<Event<T>>, d: nat)
    requires r.Bounded() && d < |r.cells|
    requires RunCount(es) >= d + 1 + if Ahead(r, d) then 0 else JoinCount(es)
    ensures r.Queue()[d] in Heads(r, es)
    decreases |es|
  {
    hide Ahead, Ring.Queue, Next;
    match es[0] {
      case Ran(stays) =>
        if d > 0 {
          RanMoves(r, stays, d);
          WaitsAtMost(Next(r, es[0]), es[1..], d - 1);
        }
      case Joins(x) =>
        JoinMoves(r, x, d);
        WaitsAtMost(Next(r, es[0]), es[1..], if Ahead(r, d) then d else d + 1);
    }
  }

  // ----- Fairness --------------------------------------------------------------------------

  /** The ring after `n` turns without joins; `stays` says of each turn whether its operation stays. */
  function Turned<T>(r: Ring<T>, stays: nat -> bool, n: nat): (s: Ring<T>)
    requires r.Bounded()
    ensures s.Bounded()
  {
    if n == 0 then r else Next(Turned(r, stays, n - 1), Ran(stays(n - 1)))
  }

  /** How many of the first `n` turns were those of `x`. */
  function Share<T(==)>(r: Ring<T>, stays: nat -> bool, n: nat, x: T): nat
    requires r.Bounded()
  {
    if n == 0 then 0
    else
      var before := Turned(r, stays, n - 1);
      Share(r, stays, n - 1, x) + if before.cells != [] && before.Queue()[0] == x then 1 else 0
  }

  /** An operation at position `p` that had `share` of `n` turns, in a queue of at most `n0`. */
  predicate Fair(n: nat, p: nat, share: nat, n0: nat) {
    n + p <= n0 - 1 + share * n0
  }

  lemma FairAtFirst(p: nat, n0: nat)
    requires p < n0
    ensures Fair(0, p, 0, n0)
  {
  }

  lemma FairAfterTurn(n: nat, p: nat, share: nat, n0: nat)
    ensures Fair(n, p + 1, share, n0) ==> Fair(n + 1, p, share, n0) && Fair(n + 1, p, share + 1, n0)
    ensures Fair(n, 0, share, n0) && p < n0 ==> Fair(n + 1, p, share + 1, n0)
  {
    assert (share + 1) * n0 == share * n0 + n0;
  }

  /** Every operation moves up by one, the head behind the others if it stays. */
  lemma TurnMoves<T>(r: Ring<T>, stays: bool, p: nat)
    requires r.Bounded() && p < |Next(r, Ran(stays)).cells|
    ensures r.cells != [] && |Next(r, Ran(stays)).cells| <= |r.cells|
    ensures Next(r, Ran(stays)).Queue()[p] == r.Queue()[if p + 1 < |r.cells| then p + 1 else 0]
  {
    if stays {
      RotatedQueue(r);
    } else {
      DroppedQueue(r);
    }
  }

  lemma {:induction false} TurnsShrink<T>(r: Ring<T>, stays: nat -> bool, n: nat)
    requires r.Bounded()
    ensures |Turned(r, stays, n).cells| <= |r.cells|
  {
    if n > 0 {
      TurnsShrink(r, stays, n - 1);
    }
  }

  /** A round of turns gives every operation one: whatever stays, an operation in the ring after `n` turns had at
      least one in every `n0` of them. */
  lemma {:induction false} TurnsAreFair<T>(r: Ring<T>, stays: nat -> bool, n0: nat, n: nat, p: nat)
    requires r.Bounded() && |r.cells| <= n0 && p < |Turned(r, stays, n).cells|
    ensures Fair(n, p, Share(r, stays, n, Turned(r, stays, n).Queue()[p]), n0)
  {
    hide Fair, Next, Ring.Queue;
    if n == 0 {
      FairAtFirst(p, n0);
    } else {
      var k: nat, x := n - 1, Turned(r, stays, n).Queue()[p];
      var before := Turned(r, stays, k);
      TurnsShrink(r, stays, k);
      TurnMoves(before, stays(k), p);
      hide Turned;
      FairAfterTurn(k, p, Share(r, stays, k, x), n0);
      if p + 1 < |before.cells| {
        TurnsAreFair(r, stays, n0, k, p + 1);
      } else {
        TurnsAreFair(r, stays, n0, k, 0);
      }
    }
  }
}
