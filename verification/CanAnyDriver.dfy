/** Operations on any driver: an operation takes "no data" from the driver for a query without events, so it is the
    blocking call on the driver that answers so. */
module CanAnyDriver {
  import opened Bytes
  import opened CanCore
  import opened CanOperation
  import opened CanEquivalence
  import opened CanEvents

  function Quiet(reply: QueryReply): QueryReply {
    if reply.status == ENoData then QueryReply(Ok, 0) else reply
  }

  /** The driver that reports no events where this one reports no data. */
  function Quieted(w: World): World {
    w.(queries := (k: nat) => Quiet(w.queries(k)))
  }

  lemma SameEventReply(w: World, c: CoreState)
    ensures EventReply(Quieted(w), c) == Quiet(EventReply(w, c))
  {
  }

  lemma SameAttempt(w: World, c: CoreState, interest: bv32)
    ensures Attempted(Quieted(w), c, PollKind, interest) == Attempted(w, c, PollKind, interest)
    ensures AttemptStatus(Quieted(w), c, PollKind, interest) == AttemptStatus(w, c, PollKind, interest)
    ensures AttemptReady(Quieted(w), c, PollKind, interest) == AttemptReady(w, c, PollKind, interest)
  {
    hide Quieted, ValidInterest;
    SameEventReply(w, c);
    NoBits(interest);
    if Callable(c, PollKind, interest) {
      OneAttempt(w, c, interest);
      OneAttempt(Quieted(w), c, interest);
    }
  }

  lemma NoBits(interest: bv32)
    ensures CanCore.Ready(0, interest) == 0
  {
  }

  lemma SameSettled(w: World, op: OpState, c: CoreState, kind: Kind, status: Status)
    ensures Settled(Quieted(w), op, c, kind, status) == Settled(w, op, c, kind, status)
  {
    hide Expired;
  }

  lemma SameSendOrReceive(w: World, c: CoreState, kind: Kind, interest: bv32)
    requires kind != PollKind
    ensures Attempted(Quieted(w), c, kind, interest) == Attempted(w, c, kind, interest)
    ensures AttemptStatus(Quieted(w), c, kind, interest) == AttemptStatus(w, c, kind, interest)
  {
    hide CountSend, CountReceive;
  }

  lemma SameStep(w: World, op: OpState, c: CoreState)
    ensures RunStep(Quieted(w), op, c) == RunStep(w, op, c)
  {
    hide Attempted, AttemptStatus, AttemptReady, Settled;
    if op.phase == Pending && op.typ.Typed? {
      var kind, op1, c1 := op.typ.kind, DeadlineStarted(w, op, c), CoreAtDeadline(op, c);
      if kind == PollKind {
        SameAttempt(w, c1, op.interest);
      } else {
        SameSendOrReceive(w, c1, kind, op.interest);
      }
      SameSettled(w, WithReady(w, op1, c1, kind), Attempted(w, c1, kind, op.interest), kind,
                  AttemptStatus(w, c1, kind, op.interest));
    }
  }

  lemma {:induction false} SameSteps(w: World, op: OpState, c: CoreState, n: nat)
    ensures Steps(Quieted(w), op, c, n) == Steps(w, op, c, n)
  {
    hide Quieted, RunStep;
    if n > 0 {
      SameSteps(w, op, c, n - 1);
      SameStep(w, Steps(w, op, c, n - 1).op, Steps(w, op, c, n - 1).core);
    }
  }

  lemma QuietedHasData(w: World, c: CoreState, kind: Kind, interest: bv32, timeout: Word, n: nat)
    ensures !NoDataWithin(Quieted(w), c, kind, interest, timeout, n)
  {
    hide AfterRounds, Quieted;
    forall k: nat | k < n
      ensures !NoDataRound(Quieted(w), AfterRounds(Quieted(w), c, kind, interest, timeout, k), kind)
    {
      SameEventReply(w, AfterRounds(Quieted(w), c, kind, interest, timeout, k).core);
    }
  }

  /** Whatever the driver and the clock reply, the operation is the blocking call on the quieted driver, step for step: the same
      status, ready events, driver calls and counters. */
  lemma OperationIsCall(w: World, c: CoreState, kind: Kind, interest: bv32, timeout: Word, mask: bv32, n: nat)
    requires Refusal(c, kind, interest, timeout) == Ok && n > 0
    ensures Agree(Blocking(Quieted(w), c, kind, interest, timeout, n), Steps(w, Fresh(kind, interest, timeout, mask), c, n), kind, timeout)
  {
    hide Refusal, Agree, Blocking, Steps, Quieted, NoDataWithin;
    QuietedHasData(w, c, kind, interest, timeout, n);
    SteppedIsBlocking(Quieted(w), c, kind, interest, timeout, mask, n);
    SameSteps(w, Fresh(kind, interest, timeout, mask), c, n);
  }

  /** A poll operation that completes with Ok has, in its ready mask, exactly the events of interest of the last reply. */
  lemma OperationReturnsEvents(w: World, c: CoreState, interest: bv32, timeout: Word, mask: bv32, n: nat)
    requires Refusal(c, PollKind, interest, timeout) == Ok && n > 0
    requires
      var op := Steps(w, Fresh(PollKind, interest, timeout, mask), c, n).op;
      op.phase == Completed && op.result == Ok
    ensures
      var op := Steps(w, Fresh(PollKind, interest, timeout, mask), c, n).op;
      exists k: nat :: k < n && Meets(QueryAt(w, c, k).mask, interest) && RightEvents(op.readyMask, QueryAt(w, c, k).mask, interest)
  {
    hide Refusal, Blocking, Steps, Meets, RightEvents, SameCalls, NothingWithin, Quieted;
    OperationIsCall(w, c, PollKind, interest, timeout, mask, n);
    PollReturnsEvents(Quieted(w), c, interest, timeout, n);
    var op := Steps(w, Fresh(PollKind, interest, timeout, mask), c, n).op;
    var k: nat :| k < n && QueryAt(Quieted(w), c, k).status == Ok && Meets(QueryAt(Quieted(w), c, k).mask, interest) &&
                  RightEvents(op.readyMask, QueryAt(Quieted(w), c, k).mask, interest);
    MeetsIsReported(w, c, interest, k);
  }

  lemma MeetsIsReported(w: World, c: CoreState, interest: bv32, k: nat)
    requires Meets(QueryAt(Quieted(w), c, k).mask, interest)
    ensures QueryAt(Quieted(w), c, k) == QueryAt(w, c, k)
  {
  }

  /** A submission is accepted exactly when the operation was prepared, its core is there and started, the buffer its type needs
      is there, a poll is interested in events only, and a finite timeout has a clock. */
  lemma AcceptedExactlyWhen(op: OpState, hasCore: bool, started: bool, hasRuntime: bool)
    ensures SubmitStatus(op, hasCore, started, hasRuntime) == Ok <==>
            op.phase == Phase.Ready && hasCore && started && op.typ.Typed? && op.hasBuffer &&
            (op.typ.kind == PollKind ==> OnlyEvents(op.interest)) && (0 < op.timeout < 0xFFFF_FFFF ==> hasRuntime)
  {
    hide OnlyEvents, ValidInterest;
    ValidIsOnlyEvents(op.interest);
  }

  /** A refused submission says why: a core or a state that does not allow it, a call that is not valid, or a missing clock. */
  lemma RefusedWith(op: OpState, hasCore: bool, started: bool, hasRuntime: bool)
    requires SubmitStatus(op, hasCore, started, hasRuntime) != Ok
    ensures SubmitStatus(op, hasCore, started, hasRuntime) ==
            if op.phase != Phase.Ready || !hasCore || !started then EBusy
            else if !op.typ.Typed? || !op.hasBuffer || (op.typ.kind == PollKind && !OnlyEvents(op.interest)) then EInval
            else EUnsupported
  {
    hide OnlyEvents, ValidInterest;
    ValidIsOnlyEvents(op.interest);
  }

  /** Only pending operations are run: a completed one stays as it is, any other is told that it is busy, and neither asks the
      driver. An attempt on a core that is not started does not ask it either. */
  lemma OnlyPendingRuns(w: World, op: OpState, c: CoreState)
    ensures op.phase == Completed ==> RunStep(w, op, c) == Step(op, c) && RunOutcome(w, op, c) == RunCompleted
    ensures op.phase == Idle || op.phase == Phase.Ready ==>
              RunStep(w, op, c) == Step(op.(result := EBusy), c) && RunOutcome(w, op, c) == RunError
    ensures !c.started ==>
              SendReply(w, c) == EBusy && AfterSend(w, c) == c.(lastStatus := EBusy) &&
              ReceiveReply(w, c) == EBusy && AfterReceive(w, c) == c.(lastStatus := EBusy)
  {
  }

  /** A poll that has been submitted shows no events yet. */
  lemma SubmittedPollShowsNothing(interest: bv32, timeout: Word, mask: bv32)
    ensures Fresh(PollKind, interest, timeout, mask).readyMask == 0 && Fresh(PollKind, interest, timeout, mask).result == Ok
  {
  }
}
