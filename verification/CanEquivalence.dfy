/** The resumable operations against the blocking calls they replace: run round for round on the
    same replies of the driver and the clock. */
module CanEquivalence {
  import opened Bytes
  import opened CanCore
  import opened CanOperation

  /** An operation and its core after `n` steps. */
  function Steps(w: World, op: OpState, c: CoreState, n: nat): Step {
    if n == 0 then Step(op, c)
    else
      var before := Steps(w, op, c, n - 1);
      RunStep(w, before.op, before.core)
  }

  /** An operation that has just been submitted. */
  function Fresh(kind: Kind, interest: bv32, timeout: Word, mask: bv32): OpState {
    Submitted(Prepared(kind, true, interest, timeout, mask), Ok)
  }

  /** The same calls were made of the driver, and the same counters of attempts kept. A blocking call
      without deadline reads the clock once, for nothing. */
  predicate SameCalls(blocking: CoreState, stepped: CoreState, timeout: Word) {
    var extra := if timeout == TIMEOUT_INFINITE then 1 else 0;
    blocking.taken == stepped.taken.(readings := stepped.taken.readings + extra) &&
    blocking.stats == stepped.stats && blocking.started == stepped.started &&
    blocking.hasRuntime == stepped.hasRuntime && blocking.hasQueries == stepped.hasQueries
  }

  /** The counters of timeouts are the same too. */
  predicate Alike(blocking: CoreState, stepped: CoreState, timeout: Word) {
    SameCalls(blocking, stepped, timeout) && blocking.timeouts == stepped.timeouts
  }

  /** The operation is where the call is; only a timeout is counted, and left as the last status, by the call alone. */
  predicate Agree(p: Progress, s: Step, kind: Kind, timeout: Word) {
    SameCalls(p.core, s.core, timeout) &&
    match p
    case Trying(core) => s.op.phase == Pending && core.timeouts == s.core.timeouts
    case Returned(core, status, ready) =>
      s.op.phase == Completed && s.op.result == status && (kind == PollKind ==> s.op.readyMask == ready) &&
      (status != ETimeout ==> core.timeouts == s.core.timeouts && core.lastStatus == s.core.lastStatus)
  }

  /** The driver answers a query of this round with ENoData. */
  predicate NoDataRound(w: World, p: Progress, kind: Kind) {
    kind == PollKind && p.Trying? && EventReply(w, p.core).status == ENoData
  }

  predicate NoDataWithin(w: World, c: CoreState, kind: Kind, interest: bv32, timeout: Word, n: nat) {
    exists k: nat :: k < n && NoDataRound(w, AfterRounds(w, c, kind, interest, timeout, k), kind)
  }

  // ----- One round -------------------------------------------------------------------------

  /** The operation keeps what it was submitted with, and its deadline runs from the same reading. */
  predicate Follows(op: OpState, kind: Kind, interest: bv32, timeout: Word, start: Word) {
    op.phase == Pending && op.typ == Typed(kind) && op.interest == interest && op.timeout == timeout &&
    (Finite(timeout) ==> op.deadlineStarted && op.startMs == start)
  }

  predicate Callable(c: CoreState, kind: Kind, interest: bv32) {
    c.started && (kind == PollKind ==> ValidInterest(interest))
  }

  /** The two agree, and while they try the operation can make the next round. */
  predicate Together(p: Progress, s: Step, kind: Kind, interest: bv32, timeout: Word, start: Word) {
    Agree(p, s, kind, timeout) && Callable(p.core, kind, interest) &&
    (p.Trying? ==> Follows(s.op, kind, interest, timeout, start))
  }

  /** What a round of the blocking call does once the driver has replied. */
  function Concluded(w: World, c: CoreState, kind: Kind, start: Word, timeout: Word, status: Status, ready: bv32): Progress {
    if status == BusyStatus(kind) then TurnedDown(w, c, kind, start, timeout, status) else Returned(c, status, ready)
  }

  lemma ConclusionsAgree(w: World, cb: CoreState, op: OpState, c: CoreState, kind: Kind, interest: bv32, timeout: Word,
                         start: Word, status: Status, ready: bv32)
    requires Alike(cb, c, timeout) && Callable(cb, kind, interest) && Follows(op, kind, interest, timeout, start)
    requires c.lastStatus == status && (status != BusyStatus(kind) ==> cb.lastStatus == status)
    requires kind == PollKind ==> op.readyMask == ready
    requires status == BusyStatus(kind) ==> ready == 0
    ensures
      var q, t := Concluded(w, cb, kind, start, timeout, status, ready), Settled(w, op, c, kind, status);
      Together(q, t, kind, interest, timeout, start)
  {
    hide ValidInterest, Expired;
  }

  lemma SendsAgree(w: World, cb: CoreState, c: CoreState, timeout: Word)
    requires Alike(cb, c, timeout) && cb.started
    ensures SendReply(w, cb) == SendReply(w, c) && Alike(AfterSend(w, cb), AfterSend(w, c), timeout)
    ensures AfterSend(w, cb).started
    ensures AfterSend(w, cb).lastStatus == AfterSend(w, c).lastStatus == SendReply(w, c)
  {
    hide CountSend;
  }

  lemma ReceivesAgree(w: World, cb: CoreState, c: CoreState, timeout: Word)
    requires Alike(cb, c, timeout) && cb.started
    ensures ReceiveReply(w, cb) == ReceiveReply(w, c) && Alike(AfterReceive(w, cb), AfterReceive(w, c), timeout)
    ensures AfterReceive(w, cb).started
    ensures AfterReceive(w, cb).lastStatus == AfterReceive(w, c).lastStatus == ReceiveReply(w, c)
  {
    hide CountReceive;
  }

  /** A poll makes one query of the driver, and an operation learns from it what the blocking call does. */
  lemma QueriesAgree(w: World, cb: CoreState, c: CoreState, interest: bv32, timeout: Word)
    requires Alike(cb, c, timeout) && Callable(c, PollKind, interest)
    ensures EventReply(w, cb) == EventReply(w, c) && AfterQuery(w, cb).started
    ensures Alike(AfterQuery(w, cb), Attempted(w, c, PollKind, interest), timeout)
    ensures AfterQuery(w, cb).lastStatus == EventReply(w, c).status
    ensures Attempted(w, c, PollKind, interest).lastStatus == AttemptStatus(w, c, PollKind, interest)
    ensures
      var reply, ready := EventReply(w, c), CanCore.Ready(EventReply(w, c).mask, interest);
      AttemptReady(w, c, PollKind, interest) == (if reply.status == Ok then ready else 0) &&
      AttemptStatus(w, c, PollKind, interest) == if reply.status == Ok && ready == 0 then ENoData else reply.status
  {
    hide CanCore.Ready, ValidInterest;
    OneAttempt(w, c, interest);
  }

  /** A poll without timeout is one round. */
  lemma OneAttempt(w: World, c: CoreState, interest: bv32)
    requires Callable(c, PollKind, interest)
    ensures Blocking(w, c, PollKind, interest, 0, 1) == PollRound(w, c, interest, 0, 0)
  {
    assert AfterRounds(w, c, PollKind, interest, 0, 0) == Trying(c);
  }

  lemma NoNewDeadline(w: World, op: OpState, c: CoreState, kind: Kind, interest: bv32, timeout: Word, start: Word)
    requires Follows(op, kind, interest, timeout, start)
    ensures CoreAtDeadline(op, c) == c && DeadlineStarted(w, op, c) == op
  {
  }

  lemma PollsAgree(w: World, cb: CoreState, op: OpState, c: CoreState, interest: bv32, timeout: Word, start: Word)
    requires Alike(cb, c, timeout) && Callable(cb, PollKind, interest) && Callable(c, PollKind, interest)
    requires Follows(op, PollKind, interest, timeout, start)
    requires timeout == 0 || EventReply(w, c).status != ENoData
    ensures
      var q, t := PollRound(w, cb, interest, start, timeout), RunStep(w, op, c);
      Together(q, t, PollKind, interest, timeout, start)
  {
    QueriesAgree(w, cb, c, interest, timeout);
    NoNewDeadline(w, op, c, PollKind, interest, timeout, start);
    hide ValidInterest, CanCore.Ready, AfterQuery, TurnedDown, Settled, EventReply, AttemptReady, AttemptStatus, Attempted;
    hide CoreAtDeadline, DeadlineStarted;
    var reply, status, ready := EventReply(w, c), AttemptStatus(w, c, PollKind, interest), AttemptReady(w, c, PollKind, interest);
    var after, ended, op1 := AfterQuery(w, cb), Attempted(w, c, PollKind, interest), WithReady(w, op, c, PollKind);
    ConclusionsAgree(w, after, op1, ended, PollKind, interest, timeout, start, status, ready);
    if reply.status == ENoData {
      NoDataAgrees(w, after, op1, ended, interest);
    }
  }

  lemma NoDataAgrees(w: World, cb: CoreState, op: OpState, c: CoreState, interest: bv32)
    requires op.phase == Pending && op.timeout == 0 && op.readyMask == 0 && Alike(cb, c, 0)
    requires cb.lastStatus == c.lastStatus
    ensures Agree(Returned(cb, ENoData, 0), Settled(w, op, c, PollKind, ENoData), PollKind, 0)
  {
  }

  lemma SendRoundsAgree(w: World, cb: CoreState, op: OpState, c: CoreState, interest: bv32, timeout: Word, start: Word)
    requires Alike(cb, c, timeout) && cb.started && Follows(op, SendKind, interest, timeout, start)
    ensures
      var q, t := SendRound(w, cb, start, timeout), RunStep(w, op, c);
      Together(q, t, SendKind, interest, timeout, start)
  {
    SendsAgree(w, cb, c, timeout);
    NoNewDeadline(w, op, c, SendKind, interest, timeout, start);
    hide AfterSend, TurnedDown, Settled, SendReply, CoreAtDeadline, DeadlineStarted, Together, Alike, SameCalls, Blocking;
    ConclusionsAgree(w, AfterSend(w, cb), op, AfterSend(w, c), SendKind, interest, timeout, start, SendReply(w, c), 0);
  }

  lemma ReceiveRoundsAgree(w: World, cb: CoreState, op: OpState, c: CoreState, interest: bv32, timeout: Word, start: Word)
    requires Alike(cb, c, timeout) && cb.started && Follows(op, ReceiveKind, interest, timeout, start)
    ensures
      var q, t := ReceiveRound(w, cb, start, timeout), RunStep(w, op, c);
      Together(q, t, ReceiveKind, interest, timeout, start)
  {
    ReceivesAgree(w, cb, c, timeout);
    NoNewDeadline(w, op, c, ReceiveKind, interest, timeout, start);
    hide AfterReceive, TurnedDown, Settled, ReceiveReply, CoreAtDeadline, DeadlineStarted, Together, Alike, SameCalls, Blocking;
    ConclusionsAgree(w, AfterReceive(w, cb), op, AfterReceive(w, c), ReceiveKind, interest, timeout, start,
                     ReceiveReply(w, c), 0);
  }

  lemma RoundAgrees(w: World, p: Progress, s: Step, kind: Kind, interest: bv32, timeout: Word, start: Word)
    requires p.Trying? && Together(p, s, kind, interest, timeout, start)
    requires timeout == 0 || !NoDataRound(w, p, kind)
    ensures Together(Round(w, p.core, kind, interest, start, timeout), RunStep(w, s.op, s.core), kind, interest, timeout, start)
  {
    hide ValidInterest, RunStep, SendRound, ReceiveRound, PollRound;
    match kind {
      case SendKind => SendRoundsAgree(w, p.core, s.op, s.core, interest, timeout, start);
      case ReceiveKind => ReceiveRoundsAgree(w, p.core, s.op, s.core, interest, timeout, start);
      case PollKind => PollsAgree(w, p.core, s.op, s.core, interest, timeout, start);
    }
  }

  // ----- All rounds ------------------------------------------------------------------------

  lemma {:induction false} CompletedStays(w: World, op: OpState, c: CoreState)
    requires op.phase == Completed
    ensures RunStep(w, op, c) == Step(op, c)
  {
  }

  lemma {:induction false} RoundsAgree(w: World, c: CoreState, op: OpState, c1: CoreState, kind: Kind, interest: bv32, timeout: Word,
                                       n: nat)
    requires Together(Trying(Begun(c, timeout)), Step(op, c1), kind, interest, timeout, StartOf(w, c, timeout))
    requires timeout == 0 || !NoDataWithin(w, c, kind, interest, timeout, n)
    ensures Together(AfterRounds(w, c, kind, interest, timeout, n), Steps(w, op, c1, n), kind, interest, timeout,
                     StartOf(w, c, timeout))
  {
    hide Together, Begun, StartOf, RunStep, Round, NoDataRound;
    if n > 0 {
      RoundsAgree(w, c, op, c1, kind, interest, timeout, n - 1);
      var p, s := AfterRounds(w, c, kind, interest, timeout, n - 1), Steps(w, op, c1, n - 1);
      if p.Trying? {
        RoundAgrees(w, p, s, kind, interest, timeout, StartOf(w, c, timeout));
      } else {
        ReturnedTogether(w, p, s, kind, interest, timeout, StartOf(w, c, timeout));
      }
    }
  }

  lemma ReturnedTogether(w: World, p: Progress, s: Step, kind: Kind, interest: bv32, timeout: Word, start: Word)
    requires p.Returned? && Together(p, s, kind, interest, timeout, start)
    ensures RunStep(w, s.op, s.core) == s
  {
    CompletedStays(w, s.op, s.core);
  }

  /** The first step starts the deadline; it might have been started before. */
  lemma {:induction false} DeadlineFirst(w: World, op: OpState, c: CoreState, n: nat)
    requires op.phase == Pending && op.typ.Typed? && n > 0
    ensures Steps(w, op, c, n) == Steps(w, DeadlineStarted(w, op, c), CoreAtDeadline(op, c), n)
  {
    hide Settled, WithReady, Attempted, AttemptStatus;
    if n > 1 {
      hide RunStep, DeadlineStarted, CoreAtDeadline;
      DeadlineFirst(w, op, c, n - 1);
    } else {
      assert Steps(w, op, c, 0) == Step(op, c);
      assert Steps(w, DeadlineStarted(w, op, c), CoreAtDeadline(op, c), 0) == Step(DeadlineStarted(w, op, c), CoreAtDeadline(op, c));
    }
  }

  lemma FreshTogether(w: World, c: CoreState, kind: Kind, interest: bv32, timeout: Word, mask: bv32)
    requires Refusal(c, kind, interest, timeout) == Ok
    ensures
      var op := Fresh(kind, interest, timeout, mask);
      Together(Trying(Begun(c, timeout)), Step(DeadlineStarted(w, op, c), CoreAtDeadline(op, c)), kind, interest, timeout,
               StartOf(w, c, timeout))
  {
    hide ValidInterest;
  }

  /** The stepped form is the blocking one: whatever the driver and the clock reply, a submitted operation
      completes after as many steps as the blocking call makes rounds, with the same status and ready
      events, having made the same calls of the driver. For a poll with a timeout this needs that
      the driver does not answer a query of those rounds with ENoData. */
  lemma SteppedIsBlocking(w: World, c: CoreState, kind: Kind, interest: bv32, timeout: Word, mask: bv32, n: nat)
    requires Refusal(c, kind, interest, timeout) == Ok && n > 0
    requires timeout == 0 || !NoDataWithin(w, c, kind, interest, timeout, n)
    ensures Agree(Blocking(w, c, kind, interest, timeout, n), Steps(w, Fresh(kind, interest, timeout, mask), c, n), kind, timeout)
  {
    var op := Fresh(kind, interest, timeout, mask);
    hide Refusal, Begun, StartOf, NoDataWithin, DeadlineStarted, CoreAtDeadline;
    FreshTogether(w, c, kind, interest, timeout, mask);
    RoundsAgree(w, c, DeadlineStarted(w, op, c), CoreAtDeadline(op, c), kind, interest, timeout, n);
    DeadlineFirst(w, op, c, n);
  }

  // ----- Where the two differ --------------------------------------------------------------

  ghost predicate AlwaysAgree(w: World, c: CoreState, kind: Kind, interest: bv32, timeout: Word, mask: bv32) {
    forall n: nat :: n > 0 ==>
      Agree(Blocking(w, c, kind, interest, timeout, n), Steps(w, Fresh(kind, interest, timeout, mask), c, n), kind, timeout)
  }

  ghost predicate EverNoData(w: World, c: CoreState, kind: Kind, interest: bv32, timeout: Word) {
    exists n: nat :: NoDataRound(w, AfterRounds(w, c, kind, interest, timeout, n), kind)
  }

  /** The blocking poll returns the ENoData of its driver; the operation takes it for a poll without
      events and goes on. */
  lemma NoDataParts(w: World, p: Progress, s: Step, interest: bv32, timeout: Word, start: Word)
    requires timeout != 0 && Together(p, s, PollKind, interest, timeout, start) && NoDataRound(w, p, PollKind)
    ensures !Agree(PollRound(w, p.core, interest, start, timeout), RunStep(w, s.op, s.core), PollKind, timeout)
  {
    QueriesAgree(w, p.core, s.core, interest, timeout);
    NoNewDeadline(w, s.op, s.core, PollKind, interest, timeout, start);
    hide ValidInterest, CanCore.Ready, SameCalls, Expired, Attempted, EventReply, AttemptStatus, AttemptReady, AfterQuery;
  }

  lemma {:induction false} NoDataDiverges(w: World, c: CoreState, interest: bv32, timeout: Word, mask: bv32, n: nat)
    requires Refusal(c, PollKind, interest, timeout) == Ok && timeout != 0
    requires NoDataRound(w, AfterRounds(w, c, PollKind, interest, timeout, n), PollKind)
    ensures !AlwaysAgree(w, c, PollKind, interest, timeout, mask)
    decreases n
  {
    if k: nat :| k < n && NoDataRound(w, AfterRounds(w, c, PollKind, interest, timeout, k), PollKind) {
      NoDataDiverges(w, c, interest, timeout, mask, k);
    } else {
      FirstNoDataDiverges(w, c, interest, timeout, mask, n);
    }
  }

  lemma FirstNoDataDiverges(w: World, c: CoreState, interest: bv32, timeout: Word, mask: bv32, n: nat)
    requires Refusal(c, PollKind, interest, timeout) == Ok && timeout != 0
    requires NoDataRound(w, AfterRounds(w, c, PollKind, interest, timeout, n), PollKind)
    requires !NoDataWithin(w, c, PollKind, interest, timeout, n)
    ensures !AlwaysAgree(w, c, PollKind, interest, timeout, mask)
  {
    hide Refusal, Begun, StartOf, NoDataWithin, DeadlineStarted, CoreAtDeadline, Together, RunStep, Agree, PollRound;
    var op := Fresh(PollKind, interest, timeout, mask);
    var op1, c1 := DeadlineStarted(w, op, c), CoreAtDeadline(op, c);
    FreshTogether(w, c, PollKind, interest, timeout, mask);
    RoundsAgree(w, c, op1, c1, PollKind, interest, timeout, n);
    DeadlineFirst(w, op, c, n + 1);
    NoDataParts(w, AfterRounds(w, c, PollKind, interest, timeout, n), Steps(w, op1, c1, n), interest, timeout,
                StartOf(w, c, timeout));
    var m := n + 1;
    assert !Agree(Blocking(w, c, PollKind, interest, timeout, m), Steps(w, op, c, m), PollKind, timeout);
  }

  /** A call that is not refused agrees with its operation forever exactly when it has no timeout or no query it
      makes is answered with ENoData; sends and receives make none. */
  lemma AgreeExactlyWhen(w: World, c: CoreState, kind: Kind, interest: bv32, timeout: Word, mask: bv32)
    requires Refusal(c, kind, interest, timeout) == Ok
    ensures AlwaysAgree(w, c, kind, interest, timeout, mask) <==>
            timeout == 0 || !EverNoData(w, c, kind, interest, timeout)
  {
    hide Refusal, Agree, Blocking, Steps, NoDataRound, AfterRounds;
    if timeout == 0 || !EverNoData(w, c, kind, interest, timeout) {
      forall n: nat | n > 0
        ensures Agree(Blocking(w, c, kind, interest, timeout, n), Steps(w, Fresh(kind, interest, timeout, mask), c, n), kind, timeout)
      {
        SteppedIsBlocking(w, c, kind, interest, timeout, mask, n);
      }
    } else {
      var n: nat :| NoDataRound(w, AfterRounds(w, c, kind, interest, timeout, n), kind);
      OnlyPollsHaveNoData(w, AfterRounds(w, c, kind, interest, timeout, n), kind);
      NoDataDiverges(w, c, interest, timeout, mask, n);
    }
  }

  lemma OnlyPollsHaveNoData(w: World, p: Progress, kind: Kind)
    requires NoDataRound(w, p, kind)
    ensures kind == PollKind
  {
  }

  /** All calls of a driver agree with their operations exactly when the driver never answers a query of
      events with ENoData. */
  lemma DriverAgreesExactlyWhen(w: World)
    ensures (forall c, kind, interest, timeout, mask | Refusal(c, kind, interest, timeout) == Ok ::
               AlwaysAgree(w, c, kind, interest, timeout, mask)) <==>
            (forall k: nat :: w.queries(k).status != ENoData)
  {
    hide Refusal, AlwaysAgree;
    if k: nat :| w.queries(k).status == ENoData {
      var c := CoreState(true, true, true, Taken(0, 0, k, 0), Stats(0, 0, 0, 0, 0, 0), Timeouts(0, 0), Ok);
      FirstQueryNoData(w, c, k);
      NoDataDiverges(w, c, 1, TIMEOUT_INFINITE, 0, 0);
      assert !AlwaysAgree(w, c, PollKind, 1, TIMEOUT_INFINITE, 0);
    } else {
      forall c, kind, interest, timeout, mask | Refusal(c, kind, interest, timeout) == Ok
        ensures AlwaysAgree(w, c, kind, interest, timeout, mask)
      {
        NeverNoData(w, c, kind, interest, timeout);
        AgreeExactlyWhen(w, c, kind, interest, timeout, mask);
      }
    }
  }

  lemma FirstQueryNoData(w: World, c: CoreState, k: nat)
    requires w.queries(k).status == ENoData && c.started && c.hasRuntime && c.hasQueries && c.taken.queries == k
    ensures Refusal(c, PollKind, 1, TIMEOUT_INFINITE) == Ok
    ensures NoDataRound(w, AfterRounds(w, c, PollKind, 1, TIMEOUT_INFINITE, 0), PollKind)
  {
  }

  lemma NeverNoData(w: World, c: CoreState, kind: Kind, interest: bv32, timeout: Word)
    requires forall k: nat :: w.queries(k).status != ENoData
    ensures !EverNoData(w, c, kind, interest, timeout)
  {
    hide AfterRounds;
  }

  /** An operation with valid buffers is refused with the status of the blocking call, except that a poll of a core
      that is not started is refused for the core before its interest, and that an operation
      without deadline needs no clock. */
  lemma RefusalsAgreeExactlyWhen(c: CoreState, kind: Kind, interest: bv32, timeout: Word, mask: bv32)
    ensures
      var op := Prepared(kind, true, interest, timeout, mask);
      SubmitStatus(op, true, c.started, c.hasRuntime) == Refusal(c, kind, interest, timeout) <==>
      !(kind == PollKind && !ValidInterest(interest) && !c.started) &&
      !(c.started && (kind == PollKind ==> ValidInterest(interest)) && timeout == TIMEOUT_INFINITE && !c.hasRuntime)
  {
    hide ValidInterest;
  }
}
