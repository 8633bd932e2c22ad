/** The service: a pool of operations that are handed out, submitted to the executor of a context, and
    released by their users. */
module CanService {
  import opened Bytes
  import opened CanCore
  import opened CanOperation
  import opened CanRing
  import opened CanExecutor
  import opened CanDrain
  import opened CanEvents
  import opened CanAnyDriver

  class Context {
    var core: Core?
    var executor: Executor?

    constructor (core: Core?, executor: Executor?)
      ensures this.core == core && this.executor == executor
    {
      this.core := core;
      this.executor := executor;
    }
  }

  /** The first cell that is false, or the length. */
  function FirstFree(used: seq<bool>): (i: nat)
    ensures i <= |used| && (i < |used| ==> !used[i])
    ensures forall j :: 0 <= j < i ==> used[j]
  {
    if used == [] || !used[0] then 0 else 1 + FirstFree(used[1..])
  }

  /** The status of a submission, from the state of the pool, the context and the executor. */
  function SubmissionStatus(hasContext: bool, free: bool, hasExecutor: bool, capacity: nat, count: nat, op: OpState,
                            hasCore: bool, started: bool, hasRuntime: bool): Status {
    if !hasContext then EInval
    else if !free then EBusy
    else if !hasExecutor || capacity == 0 then EInval
    else if count >= capacity then EBusy
    else SubmitStatus(op, hasCore, started, hasRuntime)
  }

  /** A submission succeeds exactly when there is a context with an executor and a started core, a free operation, a free
      slot and a buffer for the result, a poll is interested in events only, and a finite timeout has a clock. A pool or an
      executor that is full is busy, and so is a core that is not started. */
  lemma SubmissionSucceedsExactlyWhen(hasContext: bool, free: bool, hasExecutor: bool, capacity: nat, count: nat, kind: Kind,
                                      hasBuffer: bool, interest: bv32, timeout: Word, mask: bv32, hasCore: bool, started: bool,
                                      hasRuntime: bool)
    ensures
      var status := SubmissionStatus(hasContext, free, hasExecutor, capacity, count,
                                     Prepared(kind, hasBuffer, interest, timeout, mask), hasCore, started, hasRuntime);
      && (status == Ok <==> hasContext && free && hasExecutor && count < capacity && hasCore && started && hasBuffer &&
                            (kind == PollKind ==> OnlyEvents(interest)) && (0 < timeout < 0xFFFF_FFFF ==> hasRuntime))
      && (!hasContext ==> status == EInval)
      && (hasContext && !free ==> status == EBusy)
      && (hasContext && free && (!hasExecutor || capacity == 0) ==> status == EInval)
      && (hasContext && free && hasExecutor && 0 < capacity <= count ==> status == EBusy)
      && (hasContext && free && hasExecutor && count < capacity && !(hasCore && started) ==> status == EBusy)
  {
    hide SubmitStatus, OnlyEvents;
    AcceptedExactlyWhen(Prepared(kind, hasBuffer, interest, timeout, mask), hasCore, started, hasRuntime);
    if !(hasCore && started) {
      RefusedWith(Prepared(kind, hasBuffer, interest, timeout, mask), hasCore, started, hasRuntime);
    }
  }

  lemma TurnOfPending(m: Machine)
    requires AllPending(m)
    ensures m.Closed() && AllPending(TurnOf(m).1)
    ensures forall o :: o in TurnOf(m).1.ring.cells ==> o in m.ring.cells
  {
    if m.ring.cells != [] {
      TurnAccounts(m, m);
    }
  }

  lemma DrainOfPending(m: Machine, maxSteps: nat)
    requires AllPending(m)
    ensures m.Closed() && AllPending(Drained(m, 0, maxSteps).machine)
    ensures forall o :: o in Drained(m, 0, maxSteps).machine.ring.cells ==> o in m.ring.cells
  {
    hide AllPending, Drained, Machine.Closed;
    PendingIsClosed(m);
    var s := BoundedDrain(m, maxSteps);
  }

  class Service {
    const operations: seq<Operation>
    const inUse: array<bool>
    var context: Context?

    /** Every operation is free and initial. */
    constructor (operations: seq<Operation>, inUse: array<bool>)
      requires inUse.Length == |operations| && Distinct(operations)
      modifies operations, inUse
      ensures this.operations == operations && this.inUse == inUse && context == null && Valid()
      ensures forall i :: 0 <= i < |operations| ==> !inUse[i] && operations[i].View() == INITIAL_OP
    {
      this.operations := operations;
      this.inUse := inUse;
      context := null;
      new;
      for i := 0 to |operations|
        invariant context == null
        invariant forall j :: 0 <= j < i ==> !inUse[j] && operations[j].View() == INITIAL_OP
      {
        inUse[i] := false;
        operations[i].Init();
      }
    }

    ghost function Exec(): Executor?
      reads this, context
    {
      if context == null then null else context.executor
    }

    ghost function Slots(): set<object>
      reads this, context
    {
      if Exec() == null then {} else {Exec().slots}
    }

    /** The operations in the executor, in the order of its slots. */
    ghost function Queued(): seq<Operation?>
      reads this, context, Exec(), Slots()
    {
      if Exec() == null || Exec().count > Exec().slots.Length then [] else Exec().slots[..Exec().count]
    }

    /** The operations of `queue` are of the pool, each once, in use, and waiting. */
    ghost predicate QueueOk(queue: seq<Operation?>)
      requires inUse.Length == |operations|
      reads inUse, operations
    {
      Distinct(queue) && (forall i :: 0 <= i < |operations| && operations[i] in queue ==> inUse[i]) &&
      forall o :: o in queue ==> o in operations && o.phase == Pending && o.typ.Typed?
    }

    ghost predicate CoresOk()
      reads operations
    {
      forall o :: o in operations && o.phase == Pending ==> o.core != null
    }

    /** The pool and the executor agree. */
    ghost predicate Valid()
      reads this, inUse, operations, context, Exec(), Slots()
    {
      inUse.Length == |operations| && Distinct(operations) && (Exec() != null ==> Exec().Valid()) &&
      QueueOk(Queued()) && CoresOk()
    }

    method FindIndex(operation: Operation?) returns (found: bool, index: nat)
      requires Distinct(operations)
      ensures found <==> operation in operations
      ensures found ==> index < |operations| && operations[index] == operation
    {
      for i := 0 to |operations|
        invariant operation !in operations[..i]
      {
        if operations[i] == operation {
          return true, i;
        }
      }
      return false, 0;
    }

    method GetInUseCount() returns (count: nat)
      requires inUse.Length == |operations|
      ensures count == |set i | 0 <= i < |operations| && inUse[i]|
    {
      count := 0;
      ghost var seen: set<int> := {};
      for i := 0 to |operations|
        invariant seen == set j | 0 <= j < i && inUse[j]
        invariant count == |seen|
      {
        if inUse[i] {
          count := count + 1;
          seen := seen + {i};
        }
      }
    }

    method AcquireOperation() returns (operation: Operation?)
      requires inUse.Length == |operations|
      modifies inUse, operations
      ensures
        var i := FirstFree(old(inUse[..]));
        if i == |operations| then
          operation == null && inUse[..] == old(inUse[..]) && forall o :: o in operations ==> unchanged(o)
        else
          operation == operations[i] && operation.View() == INITIAL_OP && operation.core == null && operation.phase == Idle &&
          inUse[..] == old(inUse[..])[i := true] &&
          forall o :: o in operations && o != operation ==> unchanged(o)
    {
      for i := 0 to |operations|
        invariant forall j :: 0 <= j < i ==> inUse[j]
        invariant inUse[..] == old(inUse[..])
        invariant forall o :: o in operations ==> unchanged(o)
      {
        if !inUse[i] {
          inUse[i] := true;
          operations[i].Init();
          return operations[i];
        }
      }
      return null;
    }

    method ReleaseOperation(operation: Operation?)
      requires inUse.Length == |operations| && Distinct(operations)
      modifies inUse, operation
      ensures
        if operation !in operations then
          inUse[..] == old(inUse[..]) && (operation != null ==> unchanged(operation))
        else
          operation.View() == INITIAL_OP && operation.core == null && operation.phase == Idle &&
          forall i :: 0 <= i < |operations| ==> inUse[i] == (old(inUse[i]) && operations[i] != operation)
      ensures old(Valid()) ==> (Valid() <==> operation !in old(Queued()))
    {
      if operation == null {
        return;
      }
      var found, index := FindIndex(operation);
      if !found {
        return;
      }
      inUse[index] := false;
      operation.Init();
    }

    /** The context's half of a submission: the operation is prepared for the core and goes to the executor. */
    method SubmitToContext(operation: Operation, kind: Kind, hasBuffer: bool, interest: bv32, timeout: Word, mask: bv32)
      returns (status: Status)
      requires context != null && (Exec() != null ==> Exec().Valid() && operation !in Queued())
      modifies operation, Exec(), Slots()
      ensures context == old(context) && context.core == old(context.core) && context.executor == old(context.executor)
      ensures operation.core == context.core
      ensures
        var op := Prepared(kind, hasBuffer, interest, timeout, mask);
        status == SubmissionStatus(true, true, Exec() != null, if Exec() == null then 0 else Exec().slots.Length,
                                   if Exec() == null then 0 else old(Exec().count), op, context.core != null,
                                   context.core != null && context.core.started, context.core != null && context.core.hasRuntime) &&
        (status == Ok ==> operation.View() == Submitted(op, Ok))
      ensures status == Ok ==> Exec() != null && operation.phase == Pending && operation.typ.Typed? && operation.core != null
      ensures Exec() != null ==> Exec().Valid()
      ensures Exec() != null ==>
                Exec().RingView() == if status == Ok then old(Exec().RingView()).Joined(operation) else old(Exec().RingView())
    {
      operation.Prepare(kind, context.core, hasBuffer, interest, timeout, mask);
      if context.executor == null {
        return EInval;
      }
      status := context.executor.Submit(operation);
    }

    lemma OnePlace(i: nat)
      requires Distinct(operations) && i < |operations|
      ensures forall j :: 0 <= j < |operations| && j != i ==> operations[j] != operations[i]
    {
    }

    lemma QueueGrows(queue: seq<Operation?>, i: nat)
      requires inUse.Length == |operations| && Distinct(operations) && QueueOk(queue) && i < |operations| && inUse[i]
      requires operations[i] !in queue && operations[i].phase == Pending && operations[i].typ.Typed?
      ensures QueueOk(queue + [operations[i]])
    {
    }

    lemma FreeIsNotQueued(i: nat)
      requires Valid() && i < |operations| && !inUse[i]
      ensures operations[i] !in Queued()
    {
    }

    /** The status a submission will have, for an operation prepared as `op`. */
    ghost function Foreseen(op: OpState, free: bool): Status
      reads this, context, Exec(), Slots(), if context == null then {} else {context.core}
    {
      var core := if context == null then null else context.core;
      SubmissionStatus(context != null, free, Exec() != null,
                       if Exec() == null then 0 else Exec().slots.Length, |Queued()|, op,
                       core != null, core != null && core.started, core != null && core.hasRuntime)
    }

    /** The rest of a submission once an operation has been acquired: it goes to the executor or back
        to the pool. */
    method SubmitAcquired(operation: Operation, ghost index: nat, kind: Kind, hasBuffer: bool, interest: bv32, timeout: Word, mask: bv32)
      returns (status: Status)
      requires Valid() && context != null && index < |operations| && inUse[index]
      requires operation == operations[index] && operation !in Queued()
      modifies inUse, operation, Exec(), Slots()
      ensures Valid() && context == old(context) && Exec() == old(Exec())
      ensures status == old(Foreseen(Prepared(kind, hasBuffer, interest, timeout, mask), true))
      ensures status != Ok ==> inUse[..] == old(inUse[..])[index := false] &&
                               (Exec() != null ==> Exec().RingView() == old(Exec().RingView()))
      ensures status == Ok ==>
                inUse[..] == old(inUse[..]) && Exec() != null &&
                operation.View() == Submitted(Prepared(kind, hasBuffer, interest, timeout, mask), Ok) &&
                Exec().RingView() == old(Exec().RingView()).Joined(operation)
    {
      hide SubmissionStatus, Submitted, Prepared, Operation.View, Distinct;
      ghost var queued := Queued();
      status := SubmitToContext(operation, kind, hasBuffer, interest, timeout, mask);
      assert QueueOk(queued);
      if status != Ok {
        OnePlace(index);
        ReleaseOperation(operation);
        assert Queued() == queued;
      } else {
        assert Queued() == queued + [operation];
        QueueGrows(queued, index);
      }
    }

    /** Submits a send, a receive or a poll with an operation from the pool. It either hands out an operation, which then
        is the only one new to the pool and to the executor, or leaves both as they were. */
    method Submit(kind: Kind, hasBuffer: bool, interest: bv32, timeout: Word, mask: bv32)
      returns (status: Status, operation: Operation?)
      requires Valid()
      modifies inUse, operations, Exec(), Slots()
      ensures Valid() && context == old(context) && Exec() == old(Exec())
      ensures status == old(Foreseen(Prepared(kind, hasBuffer, interest, timeout, mask), FirstFree(inUse[..]) < inUse.Length))
      ensures status != Ok ==> operation == null && inUse[..] == old(inUse[..]) &&
                               (Exec() != null ==> Exec().RingView() == old(Exec().RingView()))
      ensures status == Ok ==>
                var i := FirstFree(old(inUse[..]));
                i < |operations| && operation == operations[i] && inUse[..] == old(inUse[..])[i := true] &&
                operation.View() == Submitted(Prepared(kind, hasBuffer, interest, timeout, mask), Ok) &&
                Exec() != null && Exec().RingView() == old(Exec().RingView()).Joined(operation)
      ensures
        var i := FirstFree(old(inUse[..]));
        forall o :: o in operations && (i < |operations| ==> o != operations[i]) ==> unchanged(o)
    {
      hide SubmitStatus, Submitted, Prepared, FirstFree, Operation.View;
      operation := null;
      if context == null {
        return EInval, null;
      }
      ghost var free := FirstFree(inUse[..]);
      if free < |operations| {
        FreeIsNotQueued(free);
      }
      var acquired := AcquireOperation();
      if acquired == null {
        return EBusy, null;
      }
      status := SubmitAcquired(acquired, free, kind, hasBuffer, interest, timeout, mask);
      operation := if status == Ok then acquired else null;
    }

    ghost function Pool(): set<Operation> {
      set o | o in operations
    }

    ghost function Cores(): set<Core>
      reads operations
    {
      set o | o in operations && o.core != null :: o.core
    }

    lemma QueueIsPending()
      requires Valid() && Exec() != null
      ensures Exec().count <= Exec().slots.Length
      ensures AllPending(Exec().View(Pool(), Cores()))
    {
      var work := WorkView(Pool(), Cores());
      assert forall o :: o in Pool() ==> work.ops[o].phase == o.phase && work.ops[o].typ == o.typ && work.coreOf[o] == o.core;
      hide Operation.View, Core.View;
    }

    lemma QueueIsUsed()
      requires Valid()
      ensures forall i :: 0 <= i < |operations| && operations[i] in Queued() ==> inUse[i]
    {
    }

    lemma PendingIsValid(cores: set<Core>)
      requires inUse.Length == |operations| && Distinct(operations) && Exec() != null && Exec().Valid()
      requires AllPending(Exec().View(Pool(), cores))
      requires forall i :: 0 <= i < |operations| && operations[i] in Queued() ==> inUse[i]
      ensures Valid()
    {
      var work := WorkView(Pool(), cores);
      assert forall o :: o in Pool() ==> work.ops[o].phase == o.phase && work.ops[o].typ == o.typ && work.coreOf[o] == o.core;
      assert forall o :: o in Queued() ==> Waiting(Exec().View(Pool(), cores), o);
      hide Operation.View, Core.View;
    }

    /** One turn of the executor. Who is in use does not change: a completed operation stays with its user. */
    method PollOne() returns (result: TurnResult)
      requires Valid()
      modifies Exec(), Slots(), operations, Cores()
      ensures Valid() && context == old(context)
      ensures Exec() == null ==> result == TurnError
      ensures Exec() != null ==> Exec().count <= Exec().slots.Length && old(Exec().View(Pool(), Cores())).Closed()
      ensures Exec() != null && Exec().slots.Length > 0 ==>
                (result, Exec().View(Pool(), old(Cores()))) == TurnOf(old(Exec().View(Pool(), Cores())))
    {
      if context == null || context.executor == null {
        return TurnError;
      }
      hide TurnOf, AllPending, Machine.Closed, QueueOk, CoresOk, WorkView;
      QueueIsPending();
      QueueIsUsed();
      ghost var pool, cores := Pool(), Cores();
      ghost var m := Exec().View(pool, cores);
      TurnOfPending(m);
      result := context.executor.RunOnce(pool, cores);
      PendingIsValid(cores);
    }

    /** A bounded drain of the executor. */
    method Poll(maxSteps: nat) returns (status: Status, counted: bool, completed: nat, remaining: nat)
      requires Valid()
      modifies Exec(), Slots(), operations, Cores()
      ensures Valid() && context == old(context)
      ensures counted <==> Exec() != null && Exec().slots.Length != 0 && maxSteps != 0
      ensures !counted ==> status == EInval
      ensures Exec() != null ==> Exec().count <= Exec().slots.Length && old(Exec().View(Pool(), Cores())).Closed()
      ensures counted ==>
                Drain(Exec().View(Pool(), old(Cores())), status, completed, remaining) ==
                Drained(old(Exec().View(Pool(), Cores())), 0, maxSteps)
    {
      if context == null || context.executor == null {
        return EInval, false, 0, 0;
      }
      hide TurnOf, Drained, AllPending, Machine.Closed, QueueOk, CoresOk, WorkView;
      QueueIsPending();
      QueueIsUsed();
      ghost var pool, cores := Pool(), Cores();
      ghost var m := Exec().View(pool, cores);
      DrainOfPending(m, maxSteps);
      status, counted, completed, remaining := context.executor.RunUntilIdle(maxSteps, pool, cores);
      PendingIsValid(cores);
    }
  }
}
