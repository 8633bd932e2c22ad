/** From the executor to the driver: an operation that has its core to itself in the executor behaves as if it were stepped alone, so
    it completes as the blocking call would. */
module CanComposition {
  import opened Bytes
  import opened CanCore
  import opened CanOperation
  import opened CanEquivalence
  import opened CanAnyDriver
  import opened CanRing
  import opened CanExecutor
  import opened CanDrain

  /** No other operation in the executor works on the core of `o`. */
  predicate OwnCore(m: Machine, o: Operation) {
    o in m.ring.cells && o in m.work.ops && o in m.work.coreOf && m.work.coreOf[o] != null && m.work.coreOf[o] in m.work.cores &&
    forall p :: p in m.ring.cells && p != o ==> p != null && p in m.work.coreOf && m.work.coreOf[p] != m.work.coreOf[o]
  }

  function CoreOf(m: Machine, o: Operation): Core
    requires OwnCore(m, o)
  {
    m.work.coreOf[o]
  }

  /** The operation alone, after `n` steps. */
  function Alone(m: Machine, o: Operation, n: nat): Step
    requires OwnCore(m, o)
  {
    Steps(CoreOf(m, o).world, m.work.ops[o], m.work.cores[CoreOf(m, o)], n)
  }

  /** In `now` the operation and its core are as after `n` steps alone. */
  predicate IsAlone(m: Machine, now: Machine, o: Operation, n: nat)
    requires OwnCore(m, o)
  {
    o in now.work.ops && CoreOf(m, o) in now.work.cores && now.work.coreOf == m.work.coreOf &&
    Step(now.work.ops[o], now.work.cores[CoreOf(m, o)]) == Alone(m, o, n)
  }

  /** A run of one operation, as seen by another with a core of its own, or by itself. */
  lemma RanAlone(work: Work, x: Operation, o: Operation, k: Core)
    requires work.Closed() && x in work.ops && o in work.ops && work.coreOf[o] == k && k in work.cores
    requires x != o ==> work.coreOf[x] != k
    ensures
      var ran := work.Ran(x);
      o in ran.ops && k in ran.cores && ran.coreOf == work.coreOf &&
      Step(ran.ops[o], ran.cores[k]) ==
      if x == o then RunStep(k.world, work.ops[o], work.cores[k]) else Step(work.ops[o], work.cores[k])
  {
    hide RunStep, RunOutcome;
  }

  /** One turn. */
  lemma TurnAlone(m: Machine, before: Machine, o: Operation, n: nat)
    requires OwnCore(m, o) && Accounted(m, before) && IsAlone(m, before, o, n) && before.ring.cells != []
    ensures IsAlone(m, TurnOf(before).1, o, n + if before.ring.Queue()[0] == o then 1 else 0)
  {
    hide RunStep, AllPending, Work.Ran, Work.Outcome, Machine.Closed, Work.Closed;
    AccountedIsPending(m, before);
    HeadLeaves(before);
    var head, k := before.ring.Queue()[0], CoreOf(m, o);
    PendingWork(before);
    RanAlone(before.work, head, o, k);
    TurnRuns(before);
  }

  lemma PendingWork(m: Machine)
    requires AllPending(m) && m.ring.cells != []
    ensures m.ring.Bounded() && m.work.Closed() && m.ring.Queue()[0] != null && m.ring.Queue()[0] in m.work.ops
  {
    assert m.ring.cells[m.ring.next] == m.ring.Queue()[0] && m.ring.cells[m.ring.next] in m.ring.cells;
    assert Waiting(m, m.ring.Queue()[0]);
  }

  lemma TurnRuns(m: Machine)
    requires m.Closed() && m.ring.cells != [] && m.ring.Queue()[0] != null && m.ring.Queue()[0] in m.work.ops
    ensures TurnOf(m).1.work == m.work.Ran(m.ring.Queue()[0])
  {
    hide Work.Ran, Work.Outcome;
  }

  /** After any number of turns the operation has made as many steps as it had turns. */
  lemma {:induction false} TurnsAlone(m: Machine, o: Operation, n: nat)
    requires AllPending(m) && OwnCore(m, o) && Busy(m, n)
    ensures m.Closed() && IsAlone(m, Turns(m, n), o, Share(m.ring, StaysOf(m), n, o))
  {
    hide AllPending, OwnCore, IsAlone, TurnOf, Machine.Closed, StaysOf, Accounted;
    PendingIsClosed(m);
    if n == 0 {
      StartsAlone(m, o);
    } else {
      var k: nat := n - 1;
      TurnsAlone(m, o, k);
      TurnsAccount(m, k);
      MachineTurnsRing(m, k);
      TurnAlone(m, Turns(m, k), o, Share(m.ring, StaysOf(m), k, o));
    }
  }

  lemma StartsAlone(m: Machine, o: Operation)
    requires OwnCore(m, o)
    ensures IsAlone(m, m, o, 0)
  {
  }

  /** A submitted operation with a core to itself is, after any turns of the executor of which it had at least one, where the
      blocking call is after as many rounds: on a driver that reports no events where this one reports no data. */
  lemma ExecutorIsBlocking(m: Machine, o: Operation, n: nat, kind: Kind, interest: bv32, timeout: Word, mask: bv32)
    requires AllPending(m) && OwnCore(m, o) && Busy(m, n) && m.ring.Bounded()
    requires m.work.ops[o] == Fresh(kind, interest, timeout, mask)
    requires Refusal(m.work.cores[CoreOf(m, o)], kind, interest, timeout) == Ok
    requires Share(m.ring, StaysOf(m), n, o) > 0
    ensures m.Closed() && o in Turns(m, n).work.ops && CoreOf(m, o) in Turns(m, n).work.cores
    ensures
      var k := CoreOf(m, o);
      Agree(Blocking(Quieted(k.world), m.work.cores[k], kind, interest, timeout, Share(m.ring, StaysOf(m), n, o)),
            Step(Turns(m, n).work.ops[o], Turns(m, n).work.cores[k]), kind, timeout)
  {
    hide AllPending, Agree, Blocking, Refusal, Fresh, Machine.Closed, StaysOf, Steps, Quieted, Share, Turns;
    var k := CoreOf(m, o);
    TurnsAlone(m, o, n);
    OperationIsCall(k.world, m.work.cores[k], kind, interest, timeout, mask, Share(m.ring, StaysOf(m), n, o));
  }
}
