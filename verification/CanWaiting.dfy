/** The waiting bound on runs of the executor itself: turns, submissions and preparations in any order. */
module CanWaiting {
  import opened CanCore
  import opened CanOperation
  import opened CanRing
  import opened CanExecutor
  import opened CanDrain

  /** What is called while operations wait. A preparation leaves an operation in a state that is not pending. */
  datatype Call = Turn | Submission(op: Operation) | Preparation(op: Operation, core: Core?, state: OpState)

  /** The status of a submission to an executor with `capacity` slots. */
  function StatusOf(m: Machine, op: Operation, capacity: nat): Status
    requires m.Closed() && op in m.work.ops
  {
    var k := m.work.coreOf[op];
    if capacity == 0 then EInval
    else if |m.ring.cells| >= capacity || op in m.ring.cells then EBusy
    else SubmitStatus(m.work.ops[op], k != null, k != null && m.work.cores[k].started, k != null && m.work.cores[k].hasRuntime)
  }

  /** The operation itself is asked only if there is a slot for it. */
  function SubmittedTo(m: Machine, op: Operation, capacity: nat): Machine
    requires m.Closed() && op in m.work.ops
  {
    var status := StatusOf(m, op, capacity);
    if capacity == 0 || |m.ring.cells| >= capacity || op in m.ring.cells then m
    else
      Machine(if status == Ok then m.ring.Joined(op) else m.ring,
              m.work.(ops := m.work.ops[op := Submitted(m.work.ops[op], status)]))
  }

  /** Operations and cores outside the machine are not considered. */
  function Called(m: Machine, c: Call, capacity: nat): Machine
    requires m.Closed()
  {
    match c
    case Turn => TurnOf(m).1
    case Submission(op) => if op in m.work.ops then SubmittedTo(m, op, capacity) else m
    case Preparation(op, core, state) =>
      if op in m.work.ops && (core != null ==> core in m.work.cores) && state.phase != Pending
      then m.(work := m.work.(ops := m.work.ops[op := state], coreOf := m.work.coreOf[op := core]))
      else m
  }

  /** Submits an operation, as seen on the whole machine. */
  method Submit(executor: Executor, operation: Operation, ghost ops: set<Operation>, ghost cores: set<Core>)
    returns (status: Status)
    requires executor.Valid() && executor.View(ops, cores).Closed() && operation in ops
    modifies executor, executor.slots, operation
    ensures executor.Valid()
    ensures status == StatusOf(old(executor.View(ops, cores)), operation, executor.slots.Length)
    ensures executor.View(ops, cores) == SubmittedTo(old(executor.View(ops, cores)), operation, executor.slots.Length)
  {
    hide SubmitStatus, Submitted, Operation.View, Core.View;
    ghost var was := executor.View(ops, cores);
    OperationIsWorkedOn(operation, ops, cores);
    status := executor.Submit(operation);
    ghost var now := executor.View(ops, cores);
    assert now.work.coreOf == was.work.coreOf && now.work.cores == was.work.cores;
    Updated(was.work.ops, now.work.ops, operation);
  }

  lemma OperationIsWorkedOn(operation: Operation, ops: set<Operation>, cores: set<Core>)
    requires operation in ops && WorkView(ops, cores).Closed()
    ensures
      var work := WorkView(ops, cores);
      work.ops[operation] == operation.View() && work.coreOf[operation] == operation.core &&
      (operation.core != null ==>
         operation.core in work.cores && work.cores[operation.core].started == operation.core.started &&
         work.cores[operation.core].hasRuntime == operation.core.hasRuntime)
  {
    CoreIsWorkedOn(operation, ops, cores);
  }

  lemma JoinedCloses(m: Machine, op: Operation)
    requires m.Closed() && op in m.work.ops
    ensures m.(ring := m.ring.Joined(op)).Closed()
  {
    hide Work.Closed;
  }

  lemma SubmittedCloses(m: Machine, op: Operation, capacity: nat)
    requires m.Closed() && op in m.work.ops
    ensures SubmittedTo(m, op, capacity).Closed()
  {
    hide ValidInterest, Finite, Ring.Joined;
    JoinedCloses(m, op);
  }

  lemma CallCloses(m: Machine, c: Call, capacity: nat)
    requires m.Closed()
    ensures Called(m, c, capacity).Closed()
  {
    hide TurnOf, SubmittedTo;
    match c
    case Turn => TurnCloses(m);
    case Submission(op) =>
      if op in m.work.ops {
        SubmittedCloses(m, op, capacity);
      }
    case Preparation(op, core, state) =>
  }

  // ----- Runs ------------------------------------------------------------------------------

  /** The operations that had a turn, in order. */
  function TurnsOf(m: Machine, calls: seq<Call>, capacity: nat): seq<Operation?>
    requires m.Closed()
    decreases |calls|
  {
    if calls == [] then []
    else
      CallCloses(m, calls[0], capacity);
      (if calls[0].Turn? && m.ring.cells != [] then [m.ring.Queue()[0]] else []) +
      TurnsOf(Called(m, calls[0], capacity), calls[1..], capacity)
  }

  function TurnCount(calls: seq<Call>): nat {
    if calls == [] then 0 else (if calls[0].Turn? then 1 else 0) + TurnCount(calls[1..])
  }

  /** What one call does to the ring. */
  function EventOf(m: Machine, c: Call, capacity: nat): seq<Event<Operation?>>
    requires m.Closed()
  {
    match c
    case Turn => [Event<Operation?>.Ran(TurnOf(m).0 == TurnPending)]
    case Submission(op) => if op in m.work.ops && StatusOf(m, op, capacity) == Ok then [Event<Operation?>.Joins(op)] else []
    case Preparation(_, _, _) => []
  }

  function EventsOf(m: Machine, calls: seq<Call>, capacity: nat): seq<Event<Operation?>>
    requires m.Closed()
    decreases |calls|
  {
    if calls == [] then []
    else
      CallCloses(m, calls[0], capacity);
      EventOf(m, calls[0], capacity) + EventsOf(Called(m, calls[0], capacity), calls[1..], capacity)
  }

  predicate Accepts(m: Machine, c: Call, capacity: nat)
    requires m.Closed()
  {
    c.Submission? && c.op in m.work.ops && StatusOf(m, c.op, capacity) == Ok
  }

  /** How many submissions are accepted. */
  function Acceptances(m: Machine, calls: seq<Call>, capacity: nat): nat
    requires m.Closed()
    decreases |calls|
  {
    if calls == [] then 0
    else
      CallCloses(m, calls[0], capacity);
      (if Accepts(m, calls[0], capacity) then 1 else 0) +
      Acceptances(Called(m, calls[0], capacity), calls[1..], capacity)
  }

  /** A call changes the ring as its event does. */
  lemma CallIsEvent(m: Machine, c: Call, capacity: nat)
    requires m.Closed()
    ensures
      var events, after := EventOf(m, c, capacity), Called(m, c, capacity);
      if events == [] then !c.Turn? && !Accepts(m, c, capacity) && after.ring == m.ring
      else
        |events| == 1 && after.ring == CanRing.Next(m.ring, events[0]) && (events[0].Ran? <==> c.Turn?) &&
        (events[0].Joins? <==> Accepts(m, c, capacity))
  {
    hide TurnOf, SubmitStatus, Submitted;
    TurnIsRingTurn(m);
  }

  lemma {:induction false} CallsAreEvents(m: Machine, calls: seq<Call>, capacity: nat)
    requires m.Closed()
    ensures Heads(m.ring, EventsOf(m, calls, capacity)) == TurnsOf(m, calls, capacity)
    ensures RunCount(EventsOf(m, calls, capacity)) == TurnCount(calls)
    ensures JoinCount(EventsOf(m, calls, capacity)) == Acceptances(m, calls, capacity)
    decreases |calls|
  {
    hide EventOf, Called, Accepts, TurnOf, CanRing.Next, Work.Closed;
    if calls != [] {
      CallCloses(m, calls[0], capacity);
      CallIsEvent(m, calls[0], capacity);
      var first, m' := EventOf(m, calls[0], capacity), Called(m, calls[0], capacity);
      var rest := EventsOf(m', calls[1..], capacity);
      CallsAreEvents(m', calls[1..], capacity);
      if first == [] {
        assert first + rest == rest;
      } else {
        assert (first + rest)[0] == first[0] && (first + rest)[1..] == rest;
      }
    }
  }

  /** Bounded waiting: whatever is prepared and submitted meanwhile, and however the turns end, an operation at position
      `d` of the queue has its turn within `d + 1` turns if it has not had one in this round, and else within
      `d + 1` and as many more as submissions are accepted. */
  lemma ExecutorWaits(m: Machine, calls: seq<Call>, d: nat, capacity: nat)
    requires m.Closed() && d < |m.ring.cells|
    requires TurnCount(calls) >= d + 1 + if Ahead(m.ring, d) then 0 else Acceptances(m, calls, capacity)
    ensures m.ring.Queue()[d] in TurnsOf(m, calls, capacity)
  {
    hide Ring.Queue, Ahead, Work.Closed;
    CallsAreEvents(m, calls, capacity);
    WaitsAtMost(m.ring, EventsOf(m, calls, capacity), d);
  }

  // ----- Slots -----------------------------------------------------------------------------

  /** The machine after the calls. */
  function AfterCalls(m: Machine, calls: seq<Call>, capacity: nat): (r: Machine)
    requires m.Closed()
    ensures r.Closed()
    decreases |calls|
  {
    if calls == [] then m
    else
      CallCloses(m, calls[0], capacity);
      AfterCalls(Called(m, calls[0], capacity), calls[1..], capacity)
  }

  predicate SlotsOk(cells: seq<Operation?>, capacity: nat) {
    Distinct(cells) && |cells| <= capacity
  }

  lemma EventKeepsSlots(r: Ring<Operation?>, e: Event<Operation?>, capacity: nat)
    requires r.Bounded() && SlotsOk(r.cells, capacity)
    requires e.Joins? ==> |r.cells| < capacity && e.op !in r.cells
    ensures SlotsOk(CanRing.Next(r, e).cells, capacity)
  {
    if e.Ran? && !e.stays && r.cells != [] {
      DroppedCells(r, r.next);
    }
  }

  /** A submission is accepted exactly when there is a slot for an operation that is not in one, and the operation
      itself is accepted. */
  lemma AcceptedIntoSlot(m: Machine, op: Operation, capacity: nat)
    requires m.Closed() && op in m.work.ops
    ensures
      var k := m.work.coreOf[op];
      StatusOf(m, op, capacity) == Ok <==>
        |m.ring.cells| < capacity && op !in m.ring.cells &&
        SubmitStatus(m.work.ops[op], k != null, k != null && m.work.cores[k].started, k != null && m.work.cores[k].hasRuntime) == Ok
  {
    hide SubmitStatus;
  }

  /** On every run no operation is in two slots, and there are never more than fit. */
  lemma {:induction false} OneSlotEach(m: Machine, calls: seq<Call>, capacity: nat)
    requires m.Closed() && SlotsOk(m.ring.cells, capacity)
    ensures SlotsOk(AfterCalls(m, calls, capacity).ring.cells, capacity)
    decreases |calls|
  {
    hide SlotsOk, TurnOf, SubmitStatus, Called, Work.Closed;
    if calls != [] {
      var c := calls[0];
      CallCloses(m, c, capacity);
      CallIsEvent(m, c, capacity);
      var events := EventOf(m, c, capacity);
      if events != [] {
        JoinsFreeSlot(m, c, capacity);
        EventKeepsSlots(m.ring, events[0], capacity);
      }
      OneSlotEach(Called(m, c, capacity), calls[1..], capacity);
    }
  }

  lemma JoinsFreeSlot(m: Machine, c: Call, capacity: nat)
    requires m.Closed() && EventOf(m, c, capacity) != []
    ensures
      var e := EventOf(m, c, capacity)[0];
      e.Joins? ==> |m.ring.cells| < capacity && e.op !in m.ring.cells
  {
    hide TurnOf, SubmitStatus;
  }
}
