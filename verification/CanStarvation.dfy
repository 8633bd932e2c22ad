/** Which operations the executor can starve: exactly those that have run in this round, if others can go on
    joining. */
module CanStarvation {
  import opened CanRing

  /** Only operations that are not in the ring join it, while there is a free slot. */
  predicate Accepted<T(==)>(r: Ring<T>, es: seq<Event<T>>, capacity: nat)
    requires r.Bounded()
    decreases |es|
  {
    es == [] ||
    ((es[0].Joins? ==> es[0].op !in r.cells && |r.cells| < capacity) && Accepted(Next(r, es[0]), es[1..], capacity))
  }

  /** An accepted run with `k` turns, none of them that of `x`. */
  predicate Starves<T(==)>(r: Ring<T>, es: seq<Event<T>>, capacity: nat, k: nat, x: T)
    requires r.Bounded()
  {
    Accepted(r, es, capacity) && RunCount(es) == k && x !in Heads(r, es)
  }

  ghost predicate StarvedFor<T(!new)>(r: Ring<T>, d: nat, capacity: nat, k: nat)
    requires r.Bounded() && d < |r.cells|
  {
    exists es: seq<Event<T>> :: Starves(r, es, capacity, k, r.Queue()[d])
  }

  /** However often the executor runs, submissions it accepts can keep the operation at position `d` from running. */
  ghost predicate Starvable<T(!new)>(r: Ring<T>, d: nat, capacity: nat)
    requires r.Bounded() && d < |r.cells|
  {
    forall k: nat :: StarvedFor(r, d, capacity, k)
  }

  // ----- One event -------------------------------------------------------------------------

  /** The head leaves and one more event list follows. */
  lemma RunFirst<T>(r: Ring<T>, stays: bool, rest: seq<Event<T>>, capacity: nat, k: nat, x: T)
    requires r.Bounded() && r.cells != [] && r.Queue()[0] != x
    requires Starves(Next(r, Ran(stays)), rest, capacity, k, x)
    ensures Starves(r, [Ran(stays)] + rest, capacity, k + 1, x)
  {
    var es := [Ran(stays)] + rest;
    assert es[0] == Ran(stays) && es[1..] == rest;
  }

  lemma JoinFirst<T>(r: Ring<T>, y: T, rest: seq<Event<T>>, capacity: nat, k: nat, x: T)
    requires r.Bounded() && y !in r.cells && |r.cells| < capacity
    requires Starves(Next(r, Joins(y)), rest, capacity, k, x)
    ensures Starves(r, [Joins(y)] + rest, capacity, k, x)
  {
    var es := [Joins(y)] + rest;
    assert es[0] == Joins(y) && es[1..] == rest;
  }

  /** A new operation joins and the head leaves: the operations that have run in this round stay where they are. */
  lemma Replaced<T>(r: Ring<T>, d: nat, y: T) returns (s: Ring<T>)
    requires r.Bounded() && Distinct(r.cells) && d < |r.cells| && !Ahead(r, d) && y !in r.cells
    ensures s == Next(Next(r, Joins(y)), Ran(false))
    ensures |s.cells| == |r.cells| && Distinct(s.cells) && !Ahead(s, d) && s.Queue()[d] == r.Queue()[d]
    ensures r.Queue()[0] !in s.cells && r.Queue()[0] != r.Queue()[d]
    ensures Next(r, Joins(y)).Queue()[0] == r.Queue()[0]
  {
    var joined := r.Joined(y);
    s := joined.Dropped(r.next);
    assert r.Queue()[0] == r.cells[r.next] && r.Queue()[d] == r.cells[d - (|r.cells| - r.next)];
    assert s.cells == r.cells[..r.next] + r.cells[r.next + 1..] + [y];
  }

  // ----- Starving --------------------------------------------------------------------------

  /** With a free slot, an operation that has run in this round never runs again while each head that leaves joins
      again, in turn with one that was outside. */
  lemma {:induction false} StarvedWithSlot<T>(r: Ring<T>, d: nat, capacity: nat, y: T, k: nat) returns (es: seq<Event<T>>)
    requires r.Bounded() && Distinct(r.cells) && d < |r.cells| < capacity && !Ahead(r, d) && y !in r.cells
    ensures Starves(r, es, capacity, k, r.Queue()[d])
    decreases k
  {
    if k == 0 {
      es := [];
    } else {
      hide Starves, Ahead, Distinct;
      var s := Replaced(r, d, y);
      var rest := StarvedWithSlot(s, d, capacity, r.Queue()[0], k - 1);
      var x := r.Queue()[d];
      RunFirst(Next(r, Joins(y)), false, rest, capacity, k - 1, x);
      JoinFirst(r, y, [Ran(false)] + rest, capacity, k, x);
      es := [Joins(y)] + ([Ran(false)] + rest);
    }
  }

  /** Without a free slot the first head that leaves makes one. */
  lemma StarvedWithoutSlot<T>(r: Ring<T>, d: nat, capacity: nat, y: T, k: nat) returns (es: seq<Event<T>>)
    requires r.Bounded() && Distinct(r.cells) && d < |r.cells| <= capacity && !Ahead(r, d) && r.next + 1 < |r.cells|
    requires y !in r.cells
    ensures Starves(r, es, capacity, k, r.Queue()[d])
  {
    if k == 0 {
      es := [];
    } else {
      var s := Next(r, Ran(false));
      DroppedQueue(r);
      assert r.Queue()[0] == r.cells[r.next] && r.Queue()[d] == r.cells[d - (|r.cells| - r.next)];
      assert s.Queue()[d - 1] == r.Queue()[d];
      var rest := StarvedWithSlot(s, d - 1, capacity, y, k - 1);
      RunFirst(r, false, rest, capacity, k - 1, r.Queue()[d]);
      es := [Ran(false)] + rest;
    }
  }

  // ----- Not starving ----------------------------------------------------------------------

  /** An operation that has not run in this round has its turn within `d + 1`. */
  lemma AheadIsNotStarved<T(!new)>(r: Ring<T>, d: nat, capacity: nat)
    requires r.Bounded() && d < |r.cells| && Ahead(r, d)
    ensures !Starvable(r, d, capacity)
  {
    if StarvedFor(r, d, capacity, d + 1) {
      var es :| Starves(r, es, capacity, d + 1, r.Queue()[d]);
      WaitsAtMost(r, es, d);
    }
  }

  /** When all slots are filled and only the last has still to run, nothing can join before the round ends. */
  lemma RoundEnds<T>(r: Ring<T>, es: seq<Event<T>>, d: nat, capacity: nat)
    requires r.Bounded() && d < |r.cells| == capacity && !Ahead(r, d) && r.next + 1 == |r.cells|
    requires Accepted(r, es, capacity) && RunCount(es) == d + 1
    ensures r.Queue()[d] in Heads(r, es)
  {
    var stays, rest := es[0].stays, es[1..];
    Wraps(r.next, |r.cells|);
    if d > 0 {
      RanMoves(r, stays, d);
      WaitsAtMost(Next(r, Ran(stays)), rest, d - 1);
    }
  }

  /** Submissions can starve an operation exactly when it has already run in this round and the round does not end with
      the next turn while all slots are filled. Whatever is outside the ring may be submitted, so there must be
      something. */
  lemma StarvableExactlyWhen<T(!new)>(r: Ring<T>, d: nat, capacity: nat, outside: T)
    requires r.Bounded() && Distinct(r.cells) && d < |r.cells| <= capacity && outside !in r.cells
    ensures Starvable(r, d, capacity) <==> !Ahead(r, d) && (|r.cells| < capacity || r.next + 1 < |r.cells|)
  {
    hide Starves, Distinct;
    if Ahead(r, d) {
      AheadIsNotStarved(r, d, capacity);
    } else if |r.cells| < capacity {
      forall k: nat
        ensures StarvedFor(r, d, capacity, k)
      {
        var es := StarvedWithSlot(r, d, capacity, outside, k);
      }
    } else if r.next + 1 < |r.cells| {
      forall k: nat
        ensures StarvedFor(r, d, capacity, k)
      {
        var es := StarvedWithoutSlot(r, d, capacity, outside, k);
      }
    } else {
      LastOfRoundIsNotStarved(r, d, capacity);
    }
  }

  lemma LastOfRoundIsNotStarved<T(!new)>(r: Ring<T>, d: nat, capacity: nat)
    requires r.Bounded() && d < |r.cells| == capacity && !Ahead(r, d) && r.next + 1 == |r.cells|
    ensures !Starvable(r, d, capacity)
  {
    if StarvedFor(r, d, capacity, d + 1) {
      var es :| Starves(r, es, capacity, d + 1, r.Queue()[d]);
      RoundEnds(r, es, d, capacity);
    }
  }

  // ----- An example ------------------------------------------------------------------------

  /** `k` times: an operation joins, and the head runs and leaves. */
  function JoinAndLeave(k: nat, first: nat): seq<Event<nat>> {
    if k == 0 then [] else [Joins(first), Ran(false)] + JoinAndLeave(k - 1, first + 1)
  }

  /** With a join before every run, operation 0, which has just run, never runs again in three slots. */
  lemma {:induction false} StarvedByJoins(k: nat, head: nat, first: nat)
    requires 0 < head < first
    ensures
      var r, es := Ring([0, head], 1), JoinAndLeave(k, first);
      RunCount(es) == k && r.Queue()[1] == 0 && 0 !in Heads(r, es) && |After(r, es).cells| == 2
  {
    if k > 0 {
      var r, es := Ring([0, head], 1), JoinAndLeave(k, first);
      var r1 := Ring([0, head, first], 1);
      assert es[0] == Joins(first) && es[1..] == [Ran(false)] + JoinAndLeave(k - 1, first + 1);
      assert es[1..][0] == Ran(false) && es[1..][1..] == JoinAndLeave(k - 1, first + 1);
      assert Next(r, es[0]) == r1 && Next(r1, Ran(false)) == Ring([0, first], 1);
      assert r1.Queue()[0] == head;
      StarvedByJoins(k - 1, first, first + 1);
    }
  }
}
