/** What a bounded drain of the executor does to operations that are all pending: none is lost, and
    those that survive had their share of the turns. */
module CanDrain {
  import opened CanCore
  import opened CanOperation
  import opened CanRing
  import opened CanExecutor

  /** Submitted, and not yet completed. */
  predicate Waiting(m: Machine, o: Operation?) {
    o != null && o in m.work.ops && m.work.ops[o].phase == Pending && m.work.ops[o].typ.Typed?
  }

  /** Every slot holds an operation of its own that is waiting. */
  predicate AllPending(m: Machine) {
    m.Closed() && Distinct(m.ring.cells) && forall o :: o in m.ring.cells ==> Waiting(m, o)
  }

  lemma PendingIsClosed(m: Machine)
    requires AllPending(m)
    ensures m.Closed() && m.ring.Bounded()
  {
  }

  // ----- One turn --------------------------------------------------------------------------

  lemma RunKeepsType(w: World, op: OpState, c: CoreState)
    requires op.phase == Pending && op.typ.Typed?
    ensures
      var s := RunStep(w, op, c);
      s.op.typ == op.typ && RunOutcome(w, op, c) == if s.op.phase == Completed then RunCompleted else RunPending
  {
    hide Attempted, AttemptStatus, AttemptReady, Settled;
    SettledKeepsType(w, DeadlineStarted(w, op, c), CoreAtDeadline(op, c), op.typ.kind);
  }

  lemma SettledKeepsType(w: World, op: OpState, c: CoreState, kind: Kind)
    ensures forall c1, status :: Settled(w, WithReady(w, op, c, kind), c1, kind, status).op.typ == op.typ
  {
    hide AttemptReady, Expired;
  }

  /** A run of a waiting operation ends it or leaves it waiting, and touches no other operation. */
  lemma WaitingRuns(work: Work, o: Operation)
    requires work.Closed() && o in work.ops && work.ops[o].phase == Pending && work.ops[o].typ.Typed?
    ensures
      var ran := work.Ran(o);
      ran.ops.Keys == work.ops.Keys && (forall p :: p in work.ops && p != o ==> ran.ops[p] == work.ops[p]) &&
      ran.ops[o].typ.Typed? && ran.ops[o].phase in {Pending, Completed} &&
      work.Outcome(o) == if ran.ops[o].phase == Completed then RunCompleted else RunPending
  {
    var k := work.coreOf[o];
    RunKeepsType(k.world, work.ops[o], work.cores[k]);
    RunKeepsPhase(k.world, work.ops[o], work.cores[k]);
    hide RunStep, RunOutcome;
  }

  /** The head of the queue has its turn; it leaves exactly when it completed. */
  predicate GoodTurn(m: Machine, turn: (TurnResult, Machine))
    requires m.Closed() && m.ring.cells != []
  {
    var (result, next) := turn;
    var head := m.ring.Queue()[0];
    head != null && next.work.ops.Keys == m.work.ops.Keys && head in m.work.ops &&
    (forall o :: o in m.work.ops && o != head ==> next.work.ops[o] == m.work.ops[o]) &&
    (result == TurnPending ==> next.ring == m.ring.Rotated() && Waiting(next, head)) &&
    (result == TurnCompleted ==> next.ring == m.ring.Dropped(m.ring.next) && next.work.ops[head].phase == Completed) &&
    (result == TurnPending || result == TurnCompleted)
  }

  lemma TurnIsGood(m: Machine)
    requires AllPending(m) && m.ring.cells != []
    ensures GoodTurn(m, TurnOf(m))
  {
    var head := m.ring.Queue()[0];
    assert head == m.ring.cells[m.ring.next] && head in m.ring.cells && Waiting(m, head);
    WaitingRuns(m.work, head);
    hide Work.Outcome, Work.Ran, Work.Closed;
  }

  lemma DroppedCells<T>(r: Ring<T>, i: nat)
    requires i < |r.cells| && Distinct(r.cells)
    ensures Distinct(r.Dropped(i).cells)
    ensures forall x :: x in r.Dropped(i).cells <==> x in r.cells && x != r.cells[i]
  {
    var s, t := r.cells, r.Dropped(i).cells;
    forall x | x in s && x != s[i]
      ensures x in t
    {
      var j :| 0 <= j < |s| && s[j] == x;
      assert t[if j < i then j else j - 1] == x;
    }
  }

  lemma TurnKeepsPending(m: Machine)
    requires AllPending(m) && m.ring.cells != []
    ensures AllPending(TurnOf(m).1)
  {
    TurnIsGood(m);
    TurnCloses(m);
    var (result, next) := TurnOf(m);
    hide TurnOf, Machine.Closed;
    if result == TurnCompleted {
      DroppedCells(m.ring, m.ring.next);
    }
  }

  // ----- Many turns ------------------------------------------------------------------------

  /** The machine after `n` turns. */
  function Turns(m: Machine, n: nat): (r: Machine)
    requires m.Closed()
    ensures r.Closed()
  {
    if n == 0 then m
    else
      var before := Turns(m, n - 1);
      TurnCloses(before);
      TurnOf(before).1
  }

  /** How many of the first `n` turns completed an operation. */
  function Completions(m: Machine, n: nat): nat
    requires m.Closed()
  {
    if n == 0 then 0
    else Completions(m, n - 1) + if TurnOf(Turns(m, n - 1)).0 == TurnCompleted then 1 else 0
  }

  /** The first `n` turns all found an operation. */
  predicate Busy(m: Machine, n: nat)
    requires m.Closed()
  {
    n == 0 || (Busy(m, n - 1) && Turns(m, n - 1).ring.cells != [])
  }

  /** Of the operations of `m`, those still in the ring are waiting and the others have completed. */
  predicate Accounted(m: Machine, now: Machine) {
    AllPending(now) && (forall o :: o in now.ring.cells ==> o in m.ring.cells) &&
    forall o :: o in m.ring.cells && o !in now.ring.cells ==>
      o != null && o in now.work.ops && now.work.ops[o].phase == Completed
  }

  lemma TurnAccounts(m: Machine, before: Machine)
    requires Accounted(m, before) && before.ring.cells != []
    ensures
      var (result, next) := TurnOf(before);
      Accounted(m, next) && |next.ring.cells| == |before.ring.cells| - if result == TurnCompleted then 1 else 0
  {
    hide TurnOf, AllPending, Machine.Closed, Waiting, Ring.Dropped;
    AccountedIsPending(m, before);
    TurnIsGood(before);
    TurnKeepsPending(before);
    HeadLeaves(before);
    var next, head := TurnOf(before).1, before.ring.Queue()[0];
    assert AllPending(next);
    forall o | o in m.ring.cells && o !in next.ring.cells
      ensures o != null && o in next.work.ops && next.work.ops[o].phase == Completed
    {
      assert o == head || o !in before.ring.cells;
    }
  }

  lemma AccountedIsPending(m: Machine, now: Machine)
    requires Accounted(m, now)
    ensures AllPending(now) && now.Closed()
  {
  }

  lemma HeadLeaves(m: Machine)
    requires AllPending(m) && m.ring.cells != []
    ensures m.ring.Queue()[0] in m.ring.cells
    ensures
      var r := m.ring.Dropped(m.ring.next);
      |r.cells| == |m.ring.cells| - 1 && forall x :: x in r.cells <==> x in m.ring.cells && x != m.ring.Queue()[0]
  {
    assert m.ring.cells[m.ring.next] == m.ring.Queue()[0];
    DroppedCells(m.ring, m.ring.next);
    hide Machine.Closed, Waiting;
  }

  lemma {:induction false} TurnsAccount(m: Machine, n: nat)
    requires AllPending(m) && Busy(m, n)
    ensures Accounted(m, Turns(m, n)) && Completions(m, n) + |Turns(m, n).ring.cells| == |m.ring.cells|
  {
    if n > 0 {
      var k: nat := n - 1;
      assert Busy(m, k);
      hide TurnOf, Accounted, AllPending, Machine.Closed;
      TurnsAccount(m, k);
      TurnAccounts(m, Turns(m, k));
    }
  }

  // ----- The drain -------------------------------------------------------------------------

  /** Whether the operation of a turn is still pending after it. */
  function StaysOf(m: Machine): nat -> bool {
    (n: nat) => m.Closed() && TurnOf(Turns(m, n)).0 == TurnPending
  }

  /** The ring of the machine turns as a ring by itself. */
  lemma {:induction false} MachineTurnsRing(m: Machine, n: nat)
    requires AllPending(m) && Busy(m, n)
    ensures Turns(m, n).ring == Turned(m.ring, StaysOf(m), n)
  {
    hide TurnOf, Work.Closed, Waiting, Distinct;
    if n > 0 {
      var k: nat := n - 1;
      assert Busy(m, k);
      MachineTurnsRing(m, k);
      TurnsAccount(m, k);
      TurnIsGood(Turns(m, k));
    }
  }

  /** What a drain of `m` amounts to, if it ends after `s` turns. */
  function EndedAfter(m: Machine, s: nat): Drain
    requires m.Closed()
  {
    var end := Turns(m, s);
    Drain(end, if end.ring.cells == [] then Ok else EBusy, Completions(m, s), |end.ring.cells|)
  }

  lemma DrainTurns(m: Machine, n: nat, budget: nat)
    requires AllPending(m) && Busy(m, n) && Turns(m, n).ring.cells != []
    ensures Busy(m, n + 1)
    ensures Drained(Turns(m, n), Completions(m, n), budget + 1) == Drained(Turns(m, n + 1), Completions(m, n + 1), budget)
  {
    hide TurnOf, AllPending, Accounted, Machine.Closed;
    PendingIsClosed(m);
    TurnsAccount(m, n);
    AccountedIsPending(m, Turns(m, n));
    TurnIsGood(Turns(m, n));
  }

  lemma DrainStops(m: Machine, n: nat, budget: nat)
    requires m.Closed()
    ensures budget == 0 || Turns(m, n).ring.cells == [] ==> Drained(Turns(m, n), Completions(m, n), budget) == EndedAfter(m, n)
  {
    hide TurnOf, Machine.Closed;
  }

  /** A drain of pending operations ends after `s` turns, before the last only if the ring is empty. */
  lemma {:induction false} DrainEnds(m: Machine, n: nat, budget: nat) returns (s: nat)
    requires AllPending(m) && Busy(m, n)
    ensures n <= s <= n + budget && Busy(m, s) && (s == n + budget || Turns(m, s).ring.cells == [])
    ensures Drained(Turns(m, n), Completions(m, n), budget) == EndedAfter(m, s)
    decreases budget
  {
    hide *;
    PendingIsClosed(m);
    DrainStops(m, n, budget);
    if budget == 0 || Turns(m, n).ring.cells == [] {
      s := n;
    } else {
      var k: nat := budget - 1;
      DrainTurns(m, n, k);
      s := DrainEnds(m, n + 1, k);
    }
  }

  /** A drain of operations that are all pending never fails. It completes or leaves every one of them, reports
      success exactly when none is left, and when it runs out of steps each of those left had at least one
      in as many turns as there were operations. */
  lemma BoundedDrain(m: Machine, maxSteps: nat) returns (s: nat)
    requires AllPending(m)
    ensures s <= maxSteps
    ensures
      var d := Drained(m, 0, maxSteps);
      d.machine == Turns(m, s) && Accounted(m, d.machine) &&
      d.completed + d.remaining == |m.ring.cells| && d.remaining == |d.machine.ring.cells| &&
      d.status == (if d.remaining == 0 then Ok else EBusy) &&
      (d.remaining > 0 ==> s == maxSteps && forall o :: o in d.machine.ring.cells ==>
        Share(m.ring, StaysOf(m), maxSteps, o) >= maxSteps / |m.ring.cells|)
  {
    assert Turns(m, 0) == m && Completions(m, 0) == 0 && Busy(m, 0);
    s := DrainEnds(m, 0, maxSteps);
    TurnsAccount(m, s);
    MachineTurnsRing(m, s);
    var end := Turns(m, s).ring;
    hide Drained, Turns, Completions, Busy, Accounted, AllPending;
    if end.cells != [] {
      forall o | o in end.cells
        ensures Share(m.ring, StaysOf(m), maxSteps, o) >= maxSteps / |m.ring.cells|
      {
        SurvivorsShare(m, s, o);
      }
    }
  }

  lemma SurvivorsShare(m: Machine, n: nat, o: Operation?)
    requires m.Closed() && o in Turned(m.ring, StaysOf(m), n).cells
    ensures |m.ring.cells| > 0 && Share(m.ring, StaysOf(m), n, o) >= n / |m.ring.cells|
  {
    var n0, stays := |m.ring.cells|, StaysOf(m);
    var end := Turned(m.ring, stays, n);
    TurnsShrink(m.ring, stays, n);
    assert m.ring.Bounded();
    hide Machine.Closed, StaysOf, Turned, Share;
    var p := PositionOf(end, o);
    TurnsAreFair(m.ring, stays, n0, n, p);
    FairShare(n, p, Share(m.ring, stays, n, o), n0);
  }

  lemma PositionOf<T>(r: Ring<T>, x: T) returns (p: nat)
    requires r.Bounded() && x in r.cells
    ensures p < |r.cells| && r.Queue()[p] == x
  {
    var i :| 0 <= i < |r.cells| && r.cells[i] == x;
    p := if i >= r.next then i - r.next else |r.cells| - r.next + i;
  }

  lemma FairShare(n: nat, p: nat, share: nat, n0: nat)
    requires Fair(n, p, share, n0) && n0 > 0
    ensures share >= n / n0
  {
    var whole := n / n0;
    assert n == whole * n0 + n % n0;
    assert (share + 1) * n0 == share * n0 + n0;
    LessOfProducts(whole, share + 1, n0);
  }

  lemma LessOfProducts(a: nat, b: nat, c: nat)
    requires a * c < b * c
    ensures a < b
  {
  }

  // ----- Errors ----------------------------------------------------------------------------

  /** A slot that is empty, or holds an operation that was never accepted, ends a drain in its turn: the slot is closed up and
      the failure reported. */
  lemma DrainFails(m: Machine, completed: nat, budget: nat)
    requires m.Closed() && m.ring.cells != [] && budget > 0
    requires
      var head := m.ring.Queue()[0];
      head != null ==> head in m.work.ops && m.work.ops[head].phase != Completed &&
                       (m.work.ops[head].phase == Pending ==> m.work.ops[head].typ == NoType)
    ensures
      var d := Drained(m, completed, budget);
      d.status == EInval && d.completed == completed && d.remaining == |m.ring.cells| - 1 &&
      d.machine.ring.Bounded() && d.machine.ring.Queue() == m.ring.Queue()[1..]
  {
    DroppedQueue(m.ring);
    NoOperationTurns(m);
    hide Work.Ran, Work.Closed;
  }
}
