/** The executor: a fixed array of pending operations, run one step at a time in rotation and
    removed in place once they have completed. */
module CanExecutor {
  import opened CanCore
  import opened CanOperation
  import opened CanRing

  datatype TurnResult = TurnIdle | TurnPending | TurnCompleted | TurnError

  /** The operations an executor works on, and their cores. */
  datatype Work = Work(ops: map<Operation, OpState>, coreOf: map<Operation, Core?>, cores: map<Core, CoreState>) {
    /** All that can be reached is described, and a pending operation has a core. */
    predicate Closed() {
      ops.Keys == coreOf.Keys &&
      (forall o :: o in ops && coreOf[o] != null ==> coreOf[o] in cores) &&
      (forall o :: o in ops && ops[o].phase == Pending ==> coreOf[o] != null)
    }

    function Outcome(o: Operation): RunResult
      requires Closed() && o in ops
    {
      var k := coreOf[o];
      if k != null then RunOutcome(k.world, ops[o], cores[k])
      else if ops[o].phase == Completed then RunCompleted
      else RunError
    }

    /** The operation is run once. */
    function Ran(o: Operation): Work
      requires Closed() && o in ops
    {
      var k := coreOf[o];
      if k != null then
        var s := RunStep(k.world, ops[o], cores[k]);
        Work(ops[o := s.op], coreOf, cores[k := s.core])
      else if ops[o].phase == Completed then this
      else this.(ops := ops[o := ops[o].(result := EBusy)])
    }
  }

  datatype Machine = Machine(ring: Ring<Operation?>, work: Work) {
    predicate Closed() {
      ring.Bounded() && work.Closed() &&
      forall i :: 0 <= i < |ring.cells| && ring.cells[i] != null ==> ring.cells[i] in work.ops
    }
  }

  /** A turn of the executor: the head of the queue runs, and stays if it is still pending. */
  function TurnOf(m: Machine): (TurnResult, Machine)
    requires m.Closed()
  {
    if m.ring.cells == [] then (TurnIdle, m)
    else
      var head, dropped := m.ring.Queue()[0], m.ring.Dropped(m.ring.next);
      if head == null then (TurnError, m.(ring := dropped))
      else
        match m.work.Outcome(head)
        case RunCompleted => (TurnCompleted, Machine(dropped, m.work.Ran(head)))
        case RunPending => (TurnPending, Machine(m.ring.Rotated(), m.work.Ran(head)))
        case RunError => (TurnError, Machine(dropped, m.work.Ran(head)))
  }

  /** A run leaves an operation as it is, or completed. */
  lemma RanCloses(work: Work, o: Operation)
    requires work.Closed() && o in work.ops
    ensures work.Ran(o).Closed() && work.Ran(o).ops.Keys == work.ops.Keys
    ensures work.Ran(o).ops[o].phase in {work.ops[o].phase, Completed}
  {
    var k := work.coreOf[o];
    if k != null {
      RunKeepsPhase(k.world, work.ops[o], work.cores[k]);
      hide RunStep;
    }
  }

  /** A run of an operation that is not pending asks no driver, whether it has a core or not: a completed one is left as it is, any
      other is told that it is busy. */
  lemma OnlyPendingIsRun(work: Work, o: Operation)
    requires work.Closed() && o in work.ops && work.ops[o].phase != Pending
    ensures work.Ran(o).cores == work.cores && work.Ran(o).coreOf == work.coreOf
    ensures
      if work.ops[o].phase == Completed then work.Outcome(o) == RunCompleted && work.Ran(o).ops == work.ops
      else work.Outcome(o) == RunError && work.Ran(o).ops == work.ops[o := work.ops[o].(result := EBusy)]
  {
  }

  lemma RunKeepsPhase(w: World, op: OpState, c: CoreState)
    ensures RunStep(w, op, c).op.phase in {op.phase, Completed}
  {
    hide Attempted, AttemptStatus, AttemptReady, Expired;
  }

  lemma TurnCloses(m: Machine)
    requires m.Closed()
    ensures TurnOf(m).1.Closed()
  {
    hide Work.Outcome, Work.Ran, Work.Closed;
    if m.ring.cells != [] {
      var head := m.ring.Queue()[0];
      assert head == m.ring.cells[m.ring.next];
      if head != null {
        RanCloses(m.work, head);
      }
    }
  }

  /** A turn of any machine is a turn of its ring as a queue, in which the operation stays exactly when it is pending. */
  lemma TurnIsRingTurn(m: Machine)
    requires m.Closed()
    ensures TurnOf(m).1.ring == CanRing.Next(m.ring, Event.Ran(TurnOf(m).0 == TurnPending))
  {
    hide Work.Outcome, Work.Ran;
  }

  /** A drain that has ended; `completed` and `remaining` are what its counters hold. */
  datatype Drain = Drain(machine: Machine, status: Status, completed: nat, remaining: nat)

  /** Turns until no operation is left, an operation is not run, or `budget` turns have been made. */
  function Drained(m: Machine, completed: nat, budget: nat): Drain
    requires m.Closed()
    decreases budget
  {
    if m.ring.cells == [] then Drain(m, Ok, completed, 0)
    else if budget == 0 then Drain(m, EBusy, completed, |m.ring.cells|)
    else
      TurnCloses(m);
      var (result, next) := TurnOf(m);
      match result
      case TurnCompleted => Drained(next, completed + 1, budget - 1)
      case TurnError => Drain(next, EInval, completed, |next.ring.cells|)
      case TurnPending => Drained(next, completed, budget - 1)
      case TurnIdle => Drain(next, Ok, completed, 0)
  }

  lemma NoOperationTurns(m: Machine)
    requires m.Closed()
    ensures m.ring.cells == [] ==> TurnOf(m) == (TurnIdle, m)
    ensures m.ring.cells != [] && m.ring.Queue()[0] == null ==>
              TurnOf(m) == (TurnError, m.(ring := m.ring.Dropped(m.ring.next)))
  {
    hide Work.Outcome, Work.Ran;
  }

  ghost function WorkView(ops: set<Operation>, cores: set<Core>): Work
    reads ops, cores
  {
    Work(map o | o in ops :: o.View(), map o | o in ops :: o.core, map k | k in cores :: k.View())
  }

  lemma Updated<K, V>(was: map<K, V>, now: map<K, V>, key: K)
    requires key in was && now.Keys == was.Keys
    requires forall x :: x in was && x != key ==> now[x] == was[x]
    ensures now == was[key := now[key]]
  {
  }

  lemma RanWork(was: Work, now: Work, o: Operation)
    requires was.Closed() && o in was.ops && now.ops.Keys == was.ops.Keys && now.cores.Keys == was.cores.Keys
    requires now.coreOf == was.coreOf
    requires forall x :: x in was.ops && x != o ==> now.ops[x] == was.ops[x]
    requires forall x :: x in was.cores && x != was.coreOf[o] ==> now.cores[x] == was.cores[x]
    requires
      var k := was.coreOf[o];
      if k != null then Step(now.ops[o], now.cores[k]) == RunStep(k.world, was.ops[o], was.cores[k])
      else now.ops[o] == if was.ops[o].phase == Completed then was.ops[o] else was.ops[o].(result := EBusy)
    ensures now == was.Ran(o)
  {
    hide RunStep, RunOutcome;
    Updated(was.ops, now.ops, o);
    var k := was.coreOf[o];
    if k != null {
      Updated(was.cores, now.cores, k);
    } else {
      assert now.cores == was.cores;
    }
  }

  lemma CoreIsWorkedOn(operation: Operation, ops: set<Operation>, cores: set<Core>)
    requires operation in ops && WorkView(ops, cores).Closed()
    ensures operation.core != null ==> operation.core in cores
    ensures operation.View().phase == operation.phase && (operation.phase == Pending ==> operation.core != null)
  {
    assert WorkView(ops, cores).ops[operation] == operation.View();
    assert WorkView(ops, cores).coreOf[operation] == operation.core;
  }

  /** Runs an operation once, as seen on the whole of the work. */
  method Run(operation: Operation, ghost ops: set<Operation>, ghost cores: set<Core>) returns (run: RunResult)
    requires operation in ops && WorkView(ops, cores).Closed()
    modifies ops, cores
    ensures run == old(WorkView(ops, cores)).Outcome(operation)
    ensures WorkView(ops, cores) == old(WorkView(ops, cores)).Ran(operation)
  {
    hide RunStep, RunOutcome, Operation.View, Core.View, Work.Ran, Work.Closed;
    ghost var was := WorkView(ops, cores);
    CoreIsWorkedOn(operation, ops, cores);
    run := operation.RunOnce();
    RanWork(was, WorkView(ops, cores), operation);
  }

  class Executor {
    const slots: array<Operation?>
    var count: nat
    var nextIndex: nat

    constructor (storage: array<Operation?>)
      ensures slots == storage && count == 0 && nextIndex == 0
    {
      slots := storage;
      count := 0;
      nextIndex := 0;
    }

    ghost predicate Valid()
      reads this
    {
      count <= slots.Length && (nextIndex < count || nextIndex == 0)
    }

    /** An index past the filled slots stands for the first. */
    ghost function RingView(): Ring<Operation?>
      requires count <= slots.Length
      reads this, slots
    {
      Ring(slots[..count], if nextIndex < count then nextIndex else 0)
    }

    ghost function View(ops: set<Operation>, cores: set<Core>): Machine
      requires count <= slots.Length
      reads this, slots, ops, cores
    {
      Machine(RingView(), WorkView(ops, cores))
    }

    method Contains(operation: Operation?) returns (found: bool)
      requires count <= slots.Length
      ensures found <==> operation != null && operation in slots[..count]
    {
      if operation == null {
        return false;
      }
      for i := 0 to count
        invariant operation !in slots[..i]
      {
        if slots[i] == operation {
          return true;
        }
      }
      return false;
    }

    method RemoveAt(index: nat)
      requires count <= slots.Length
      modifies this, slots
      ensures count <= slots.Length
      ensures index >= old(count) ==> unchanged(this) && unchanged(slots)
      ensures index < old(count) ==> Valid() && RingView() == old(RingView()).Dropped(index) && slots[count] == null
    {
      if index >= count {
        return;
      }
      ghost var cells := slots[..count];
      var i := index;
      while i + 1 < count
        invariant index <= i < count == old(count)
        invariant nextIndex == old(nextIndex)
        invariant forall j :: 0 <= j < index ==> slots[j] == cells[j]
        invariant forall j :: index <= j < i ==> slots[j] == cells[j + 1]
        invariant forall j :: i < j < count ==> slots[j] == cells[j]
      {
        slots[i] := slots[i + 1];
        i := i + 1;
      }
      slots[count - 1] := null;
      count := count - 1;
      if count == 0 {
        nextIndex := 0;
      } else if index >= count {
        nextIndex := 0;
      } else {
        nextIndex := index;
      }
      assert slots[..count] == cells[..index] + cells[index + 1..];
    }

    method Submit(operation: Operation?) returns (status: Status)
      requires Valid()
      modifies this, slots, operation
      ensures Valid()
      ensures
        if operation == null || slots.Length == 0 then status == EInval
        else if old(count) >= slots.Length || operation in old(slots[..count]) then status == EBusy
        else
          status == SubmitStatus(old(operation.View()), old(operation.core) != null,
                                 old(operation.core != null && operation.core.started),
                                 old(operation.core != null && operation.core.hasRuntime)) &&
          operation.View() == Submitted(old(operation.View()), status)
      ensures operation != null ==> operation.core == old(operation.core)
      ensures status != Ok ==> RingView() == old(RingView())
      ensures status == Ok ==> RingView() == old(RingView()).Joined(operation)
      ensures operation != null && (old(count) >= slots.Length || operation in old(slots[..count])) ==>
                operation.View() == old(operation.View())
    {
      if operation == null || slots.Length == 0 {
        return EInval;
      }
      if count >= slots.Length {
        return EBusy;
      }
      var found := Contains(operation);
      if found {
        return EBusy;
      }
      status := operation.Submit();
      if status != Ok {
        return;
      }
      slots[count] := operation;
      count := count + 1;
    }

    /** `ops` and `cores` are what the executor works on. */
    method RunOnce(ghost ops: set<Operation>, ghost cores: set<Core>) returns (result: TurnResult)
      requires count <= slots.Length && View(ops, cores).Closed()
      modifies this, slots, ops, cores
      ensures count <= slots.Length
      ensures old(Valid()) ==> Valid()
      ensures slots.Length == 0 ==> (result, View(ops, cores)) == (TurnError, old(View(ops, cores)))
      ensures slots.Length != 0 ==> (result, View(ops, cores)) == TurnOf(old(View(ops, cores)))
    {
      hide WorkView, Machine.Closed, TurnOf, Work.Closed, Work.Outcome, Work.Ran;
      HeadIsWorkedOn(ops, cores);
      NoOperationTurns(View(ops, cores));
      if slots.Length == 0 {
        return TurnError;
      }
      if count == 0 {
        return TurnIdle;
      }
      ghost var was := View(ops, cores);
      var index := nextIndex;
      if index >= count {
        index := 0;
        nextIndex := 0;
      }
      assert View(ops, cores) == was;
      if slots[index] == null {
        RemoveAt(index);
        return TurnError;
      }
      result := RunHead(index, ops, cores);
    }

    lemma HeadIsWorkedOn(ops: set<Operation>, cores: set<Core>)
      requires count <= slots.Length && View(ops, cores).Closed()
      ensures count > 0 ==> RingView().Queue()[0] == slots[RingView().next]
      ensures count > 0 && slots[RingView().next] != null ==> slots[RingView().next] in ops
    {
      if count > 0 {
        assert RingView().cells[RingView().next] == slots[RingView().next];
      }
    }

    /** The turn of the operation at `index`, which is the head of the queue. */
    method RunHead(index: nat, ghost ops: set<Operation>, ghost cores: set<Core>) returns (result: TurnResult)
      requires index == nextIndex < count <= slots.Length && View(ops, cores).Closed()
      requires slots[index] != null && slots[index] in ops
      modifies this, slots, ops, cores
      ensures Valid()
      ensures (result, View(ops, cores)) == TurnOf(old(View(ops, cores)))
    {
      hide WorkView, Work.Outcome, Work.Ran, Work.Closed;
      var operation := slots[index];
      var run := Run(operation, ops, cores);
      if run == RunCompleted {
        RemoveAt(index);
        return TurnCompleted;
      }
      if run == RunPending {
        nextIndex := (index + 1) % count;
        return TurnPending;
      }
      RemoveAt(index);
      return TurnError;
    }

    method HasPending() returns (pending: bool)
      ensures pending == (count > 0)
    {
      return count > 0;
    }

    /** Arguments that are not valid leave the counters as they are. */
    method RunUntilIdle(maxSteps: nat, ghost ops: set<Operation>, ghost cores: set<Core>)
      returns (status: Status, counted: bool, completed: nat, remaining: nat)
      requires count <= slots.Length && View(ops, cores).Closed()
      modifies this, slots, ops, cores
      ensures count <= slots.Length
      ensures old(Valid()) ==> Valid()
      ensures counted <==> slots.Length != 0 && maxSteps != 0
      ensures !counted ==> status == EInval && View(ops, cores) == old(View(ops, cores))
      ensures counted ==> Drain(View(ops, cores), status, completed, remaining) == Drained(old(View(ops, cores)), 0, maxSteps)
    {
      hide TurnOf, WorkView, Machine.Closed;
      if slots.Length == 0 || maxSteps == 0 {
        return EInval, false, 0, 0;
      }
      completed := 0;
      for step := 0 to maxSteps
        invariant count <= slots.Length && View(ops, cores).Closed()
        invariant old(Valid()) ==> Valid()
        invariant Drained(View(ops, cores), completed, maxSteps - step) == Drained(old(View(ops, cores)), 0, maxSteps)
      {
        var pending := HasPending();
        if !pending {
          return Ok, true, completed, 0;
        }
        TurnCloses(View(ops, cores));
        var run := RunOnce(ops, cores);
        if run == TurnCompleted {
          completed := completed + 1;
          continue;
        }
        if run == TurnPending {
          continue;
        }
        if run == TurnIdle {
          return Ok, true, completed, 0;
        }
        return EInval, true, completed, count;
      }
      var pending := HasPending();
      return if pending then EBusy else Ok, true, completed, count;
    }
  }
}
