/** Operations: the resumable form of the blocking calls of the core. An operation is prepared,
    submitted and then run one attempt at a time until it completes. */
module CanOperation {
  import opened Bytes
  import opened CanCore

  datatype Phase = Idle | Ready | Pending | Completed

  datatype RunResult = RunError | RunPending | RunCompleted

  datatype Type = NoType | Typed(kind: Kind)

  /** `hasBuffer` says whether the pointer the type needs, to a frame or to a ready mask, is there. */
  datatype OpState = OpState(
    typ: Type,
    phase: Phase,
    hasBuffer: bool,
    interest: bv32,
    readyMask: bv32,
    timeout: Word,
    startMs: Word,
    deadlineStarted: bool,
    result: Status)

  const INITIAL_OP := OpState(NoType, Idle, false, 0, 0, 0, 0, false, Ok)

  function Prepared(kind: Kind, hasBuffer: bool, interest: bv32, timeout: Word, readyMask: bv32): OpState {
    INITIAL_OP.(typ := Typed(kind), phase := Ready, hasBuffer := hasBuffer, interest := interest, timeout := timeout,
                readyMask := readyMask)
  }

  predicate Finite(timeout: Word) {
    timeout != 0 && timeout != TIMEOUT_INFINITE
  }

  /** The status with which an operation is refused by a core, Ok when it is accepted. */
  function SubmitStatus(op: OpState, hasCore: bool, started: bool, hasRuntime: bool): Status {
    if op.phase != Ready then EBusy
    else if !hasCore || !started then EBusy
    else if op.typ == NoType then EInval
    else if !op.hasBuffer then EInval
    else if op.typ.kind == PollKind && !ValidInterest(op.interest) then EInval
    else if Finite(op.timeout) && !hasRuntime then EUnsupported
    else Ok
  }

  /** An accepted operation is pending; a poll clears its ready mask as soon as its fields are valid. */
  function Submitted(op: OpState, status: Status): OpState {
    var polls := op.phase == Ready && op.typ == Typed(PollKind);
    if status == Ok then
      op.(phase := Pending, deadlineStarted := false, result := Ok, readyMask := if polls then 0 else op.readyMask)
    else if status == EUnsupported && polls then op.(result := status, readyMask := 0)
    else op.(result := status)
  }

  // ----- One step --------------------------------------------------------------------------

  /** One attempt at the driver, as an operation makes it. */
  function Attempted(w: World, c: CoreState, kind: Kind, interest: bv32): CoreState {
    match kind
    case SendKind => AfterSend(w, c)
    case ReceiveKind => AfterReceive(w, c)
    case PollKind =>
      var p := Blocking(w, c, PollKind, interest, 0, 1);
      p.core
  }

  function AttemptStatus(w: World, c: CoreState, kind: Kind, interest: bv32): Status {
    match kind
    case SendKind => SendReply(w, c)
    case ReceiveKind => ReceiveReply(w, c)
    case PollKind =>
      var p := Blocking(w, c, PollKind, interest, 0, 1);
      if p.Returned? then p.status else ENoData
  }

  function AttemptReady(w: World, c: CoreState, kind: Kind, interest: bv32): bv32 {
    if kind != PollKind then 0
    else
      var p := Blocking(w, c, PollKind, interest, 0, 1);
      if p.Returned? && p.status == Ok then p.ready else 0
  }

  /** The status that means: try again later. */
  function BusyStatus(kind: Kind): Status {
    if kind == SendKind then EBusy else ENoData
  }

  /** The first step of an operation with a finite timeout reads the clock. */
  predicate StartsDeadline(op: OpState) {
    Finite(op.timeout) && !op.deadlineStarted
  }

  function DeadlineStarted(w: World, op: OpState, c: CoreState): OpState {
    if StartsDeadline(op) then op.(startMs := w.clock(c.taken.readings), deadlineStarted := true) else op
  }

  function CoreAtDeadline(op: OpState, c: CoreState): CoreState {
    if StartsDeadline(op) then AfterReading(c) else c
  }

  datatype Step = Step(op: OpState, core: CoreState)

  /** What becomes of an operation after its attempt ended with `status`. */
  function Settled(w: World, op: OpState, c: CoreState, kind: Kind, status: Status): Step {
    if status != BusyStatus(kind) || op.timeout == 0 then Step(op.(phase := Completed, result := status), c)
    else if !Finite(op.timeout) then Step(op, c)
    else if Expired(op.startMs, op.timeout, w.clock(c.taken.readings))
    then Step(op.(phase := Completed, result := ETimeout), AfterReading(c))
    else Step(op, AfterReading(c))
  }

  function WithReady(w: World, op: OpState, c: CoreState, kind: Kind): OpState {
    if kind == PollKind then op.(readyMask := AttemptReady(w, c, kind, op.interest)) else op
  }

  /** One step of a pending operation. */
  function Stepped(w: World, op: OpState, c: CoreState, kind: Kind): Step {
    var op1, c1 := DeadlineStarted(w, op, c), CoreAtDeadline(op, c);
    Settled(w, WithReady(w, op1, c1, kind), Attempted(w, c1, kind, op.interest), kind,
            AttemptStatus(w, c1, kind, op.interest))
  }

  function RunStep(w: World, op: OpState, c: CoreState): Step {
    if op.phase == Completed then Step(op, c)
    else if op.phase != Pending then Step(op.(result := EBusy), c)
    else if op.typ == NoType then Step(DeadlineStarted(w, op, c).(result := EInval), CoreAtDeadline(op, c))
    else Stepped(w, op, c, op.typ.kind)
  }

  function RunOutcome(w: World, op: OpState, c: CoreState): RunResult {
    if op.phase == Completed then RunCompleted
    else if op.phase != Pending || op.typ == NoType then RunError
    else if RunStep(w, op, c).op.phase == Completed then RunCompleted
    else RunPending
  }

  class Operation {
    var typ: Type
    var phase: Phase
    var core: Core?
    var hasBuffer: bool
    var interest: bv32
    var readyMask: bv32
    var timeout: Word
    var startMs: Word
    var deadlineStarted: bool
    var result: Status

    constructor ()
      ensures View() == INITIAL_OP && core == null
    {
      typ, phase, core, hasBuffer := NoType, Idle, null, false;
      interest, readyMask, timeout, startMs := 0, 0, 0, 0;
      deadlineStarted, result := false, Ok;
    }

    ghost function View(): OpState
      reads this
    {
      OpState(typ, phase, hasBuffer, interest, readyMask, timeout, startMs, deadlineStarted, result)
    }

    method Init()
      modifies this
      ensures View() == INITIAL_OP && core == null
    {
      typ, phase, core, hasBuffer := NoType, Idle, null, false;
      interest, readyMask, timeout, startMs := 0, 0, 0, 0;
      deadlineStarted, result := false, Ok;
    }

    /** Prepares the operation for one of the three calls; `mask` is what the ready mask of a poll
        held before. */
    method Prepare(kind: Kind, core: Core?, hasBuffer: bool, interest: bv32, timeout: Word, mask: bv32)
      modifies this
      ensures View() == Prepared(kind, hasBuffer, interest, timeout, mask) && this.core == core
    {
      Init();
      typ := Typed(kind);
      phase := Ready;
      this.core := core;
      this.hasBuffer := hasBuffer;
      this.interest := interest;
      this.timeout := timeout;
      readyMask := mask;
    }

    method Submit() returns (status: Status)
      modifies this
      ensures core == old(core)
      ensures status == SubmitStatus(old(View()), core != null, core != null && old(core.started),
                                     core != null && old(core.hasRuntime))
      ensures View() == Submitted(old(View()), status)
    {
      hide ValidInterest;
      if phase != Ready {
        result := EBusy;
        return EBusy;
      }
      if core == null || !core.started {
        result := EBusy;
        return EBusy;
      }
      if typ == NoType {
        result := EInval;
        return EInval;
      }
      if typ.kind == PollKind {
        if !hasBuffer || !ValidInterest(interest) {
          result := EInval;
          return EInval;
        }
        readyMask := 0;
      } else if !hasBuffer {
        result := EInval;
        return EInval;
      }
      if Finite(timeout) && !core.hasRuntime {
        result := EUnsupported;
        return EUnsupported;
      }
      deadlineStarted := false;
      result := Ok;
      phase := Pending;
      return Ok;
    }

    method Complete(status: Status)
      modifies this`result, this`phase
      ensures result == status && phase == Completed
    {
      result := status;
      phase := Completed;
    }

    /** Without a deadline there is no reading. */
    method DeadlineExpired() returns (expired: bool)
      requires deadlineStarted && Finite(timeout) ==> core != null
      modifies core
      ensures !(deadlineStarted && Finite(timeout)) ==> !expired && (core != null ==> unchanged(core))
      ensures deadlineStarted && Finite(timeout) ==>
                expired == Expired(startMs, timeout, core.world.clock(old(core.taken.readings))) &&
                core.View() == AfterReading(old(core.View()))
    {
      if !deadlineStarted {
        return false;
      }
      if !Finite(timeout) {
        return false;
      }
      var now := core.NowMs();
      expired := Elapsed(now, startMs) >= timeout;
    }

    method RunOnce() returns (run: RunResult)
      requires phase == Pending ==> core != null
      modifies this, core
      ensures core == old(core)
      ensures core == null ==> run == (if old(phase) == Completed then RunCompleted else RunError)
      ensures core == null ==> View() == if old(phase) == Completed then old(View()) else old(View()).(result := EBusy)
      ensures core != null ==> run == RunOutcome(core.world, old(View()), old(core.View()))
      ensures core != null ==> Step(View(), core.View()) == RunStep(core.world, old(View()), old(core.View()))
    {
      if phase == Completed {
        return RunCompleted;
      }
      if phase != Pending {
        result := EBusy;
        return RunError;
      }
      run := RunPendingOnce();
    }

    method RunPendingOnce() returns (run: RunResult)
      requires phase == Pending && core != null
      modifies this, core
      ensures core == old(core)
      ensures run == RunOutcome(core.world, old(View()), old(core.View()))
      ensures Step(View(), core.View()) == RunStep(core.world, old(View()), old(core.View()))
    {
      hide Expired, Settled, WithReady, Attempted, AttemptStatus, AttemptReady;
      if Finite(timeout) && !deadlineStarted {
        startMs := core.NowMs();
        deadlineStarted := true;
      }
      if typ == NoType {
        result := EInval;
        return RunError;
      }
      var status := Attempt();
      run := Settle(status);
    }

    /** One attempt at the driver. */
    method Attempt() returns (status: Status)
      requires phase == Pending && core != null && typ.Typed?
      modifies this`readyMask, core
      ensures
        var w, op, c, kind := core.world, old(View()), old(core.View()), old(typ.kind);
        View() == WithReady(w, op, c, kind) && core.View() == Attempted(w, c, kind, op.interest) &&
        status == AttemptStatus(w, c, kind, op.interest)
    {
      hide Expired, Blocking, AfterSend, AfterReceive, SendReply, ReceiveReply;
      match typ.kind {
        case SendKind =>
          status := core.Send();
        case ReceiveKind =>
          status := core.Receive();
        case PollKind =>
          OneRoundReturns(core.world, core.View(), interest);
          var mask;
          status, mask := core.Poll(interest, 0, 1);
          readyMask := if status == Ok then mask else 0;
      }
    }

    /** Completes the operation, or lets it try again. */
    method Settle(status: Status) returns (run: RunResult)
      requires phase == Pending && core != null && typ.Typed? && (Finite(timeout) ==> deadlineStarted)
      modifies this`result, this`phase, core
      ensures Step(View(), core.View()) == Settled(core.world, old(View()), old(core.View()), old(typ.kind), status)
      ensures run == if phase == Completed then RunCompleted else RunPending
    {
      hide Expired;
      if status != BusyStatus(typ.kind) {
        Complete(status);
        return RunCompleted;
      }
      if timeout == 0 {
        Complete(status);
        return RunCompleted;
      }
      var expired := DeadlineExpired();
      if expired {
        Complete(ETimeout);
        return RunCompleted;
      }
      return RunPending;
    }
  }

  lemma OneRoundReturns(w: World, c: CoreState, interest: bv32)
    ensures Blocking(w, c, PollKind, interest, 0, 1).Returned?
  {
  }
}
