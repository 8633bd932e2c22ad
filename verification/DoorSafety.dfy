/** What every run of the door controller keeps: its fields agree with each other, a jam never meets
    a closing door, and closing the door stows the ramp. */
module DoorSafety {
  import opened Bytes
  import opened Wire
  import opened Arq
  import opened RampAdapter
  import opened DoorServo
  import opened DoorEcu

  // ----- Consistency -----------------------------------------------------------------------

  /** The servo is sent where the door is believed to be, or to move. */
  predicate TargetAgrees(pl: Plant) {
    var d := pl.policy.door;
    pl.servo.target ==
    if d.lastActuation == OpenRequest || (d.lastActuation == NoRequest && d.openEstimated) then OPEN_DUTY else CLOSE_DUTY
  }

  predicate MotionAgrees(d: DoorState) {
    && (d.motion == Opening <==> d.lastActuation == OpenRequest)
    && (d.motion == Closing <==> d.lastActuation == CloseRequest)
    && (d.motion == Opened <==> d.lastActuation == NoRequest && d.openEstimated)
    && (d.motion == Closed <==> d.lastActuation == NoRequest && !d.openEstimated)
    && d.reportedOpen == d.openEstimated
  }

  predicate Consistent(pl: Plant) {
    TargetAgrees(pl) && MotionAgrees(pl.policy.door)
  }

  lemma EstimateAgrees(d: DoorState, now: Word)
    ensures var e := Estimated(d, now);
            && MotionAgrees(e)
            && (e.lastActuation == OpenRequest || (e.lastActuation == NoRequest && e.openEstimated) <==>
                d.lastActuation == OpenRequest || (d.lastActuation == NoRequest && d.openEstimated))
  {
    hide Elapsed;
  }

  /** From the estimate update on, the fields of a poll agree, whatever they were before. */
  lemma DoorHalfConsistent(pl: Plant, input: PollInput)
    requires TargetAgrees(pl)
    ensures Consistent(PollDoor(pl, input))
    ensures input.jam ==>
              PollDoor(pl, input).policy.door.motion != Closing && !PollDoor(pl, input).policy.requests.doorManualClose
    ensures PollDoor(pl, input).adapter == pl.adapter
  {
    hide AllRequested, Estimated;
    EstimateAgrees(pl.policy.door, input.estimateNow);
  }

  lemma RampHalfConsistent(pl: Plant, input: PollInput)
    requires Consistent(pl)
    ensures Consistent(PollRamp(pl, input))
    ensures var after := PollRamp(pl, input);
            && after.servo == pl.servo && after.policy.requests == pl.policy.requests
            && after.policy.door == pl.policy.door && after.policy.jam == pl.policy.jam
  {
    hide TxPolled;
  }

  /** The automatic rules only touch the automatic requests and the pending ramp command. */
  lemma AutoRulesTouch(p: PolicyState, busy: bool)
    ensures var q := AutoRules(p, busy);
            && q == p.(requests := q.requests, slopeTxPending := q.slopeTxPending)
            && q.requests == p.requests.(slopeAutoOpen := q.requests.slopeAutoOpen,
                                         slopeAutoClose := q.requests.slopeAutoClose)
            && (q.requests.slopeAutoOpen ==> p.requests.slopeAutoOpen)
            && (q.slopeTxPending != p.slopeTxPending ==>
                  (q.slopeTxPending == RAMP_OPEN && p.requests.slopeAutoOpen) ||
                  (q.slopeTxPending == RAMP_CLOSE && (p.slopeOpenEstimated || p.slopeTxPending == RAMP_OPEN)))
  {
  }

  lemma DecisionConsistent(pl: Plant, now: Word)
    requires Consistent(pl)
    ensures Consistent(PolicyRun(pl, now))
    ensures !pl.policy.requests.doorManualClose ==>
              && !PolicyRun(pl, now).policy.requests.doorManualClose
              && (PolicyRun(pl, now).policy.door.motion == Closing ==> pl.policy.door.motion == Closing)
              && (pl.servo.target == OPEN_DUTY ==> PolicyRun(pl, now).servo.target == OPEN_DUTY)
  {
    hide AutoRules;
    AutoRulesTouch(pl.policy, pl.adapter.sender.waitingAck);
    AutoRulesTouch(DoorOpenTaken(pl.policy, now), pl.adapter.sender.waitingAck);
  }

  lemma UpdateKeepsTarget(s: ServoState, tick: nat)
    ensures Updated(s, tick).target == s.target
  {
  }

  /** What the second half of a poll does beyond the decision: it steps the servo and may hand the
      pending ramp command to an idle adapter. */
  lemma PolicyHalf(pl: Plant, input: PollInput)
    ensures var decided, after := PolicyRun(pl, input.policyNow), PollPolicy(pl, input);
            && after.policy == decided.policy && after.servo == Updated(decided.servo, input.servoTick)
            && after.adapter == pl.adapter.(desired := after.adapter.desired)
            && (after.adapter.desired != pl.adapter.desired ==>
                  !pl.adapter.sender.waitingAck && after.adapter.desired == decided.policy.slopeTxPending &&
                  (decided.policy.slopeTxPending == RAMP_OPEN || decided.policy.slopeTxPending == RAMP_CLOSE))
            && after.servo.target == decided.servo.target
  {
    hide PolicyDecided, TargetDecided, Updated;
    UpdateKeepsTarget(PolicyRun(pl, input.policyNow).servo, input.servoTick);
  }

  lemma PolicyHalfConsistent(pl: Plant, input: PollInput)
    requires Consistent(pl)
    ensures Consistent(PollPolicy(pl, input))
  {
    hide PollPolicy, PolicyRun;
    DecisionConsistent(pl, input.policyNow);
    PolicyHalf(pl, input);
  }

  /** After every poll of every run the reported motion, the last actuation, the estimate and the
      servo target say the same. */
  lemma {:induction false} AlwaysConsistent(pl: Plant, inputs: seq<PollInput>)
    requires TargetAgrees(pl)
    ensures TargetAgrees(Polls(pl, inputs))
    ensures inputs != [] ==> Consistent(Polls(pl, inputs))
  {
    if inputs != [] {
      hide PollDoor, PollRamp, PollPolicy, TargetAgrees, MotionAgrees;
      var n := |inputs| - 1;
      AlwaysConsistent(pl, inputs[..n]);
      var before := Polls(pl, inputs[..n]);
      DoorHalfConsistent(before, inputs[n]);
      RampHalfConsistent(PollDoor(before, inputs[n]), inputs[n]);
      PolicyHalfConsistent(PollRamp(PollDoor(before, inputs[n]), inputs[n]), inputs[n]);
    }
  }

  /** No rule of higher priority applies. */
  predicate OnlyAutoRules(r: Requests) {
    !r.doorManualClose && !r.slopeManualClose && !r.slopeManualOpen
  }

  /** What a decision does to an automatic ramp open. */
  predicate AutoOpenRule(pl: Plant, after: Plant) {
    var r, d := pl.policy.requests, pl.policy.door;
    && (OnlyAutoRules(r) && r.slopeAutoOpen ==>
          (!after.policy.requests.slopeAutoOpen <==>
           d.openEstimated || d.lastActuation == OpenRequest || r.doorManualOpen))
    && (after.policy.slopeTxPending == RAMP_OPEN && pl.policy.slopeTxPending != RAMP_OPEN && !r.slopeManualOpen ==>
          && (d.motion != Closed || r.doorManualOpen)
          && after.policy.door.motion != Closed
          && (after.policy.door.openEstimated || after.servo.target == OPEN_DUTY))
  }

  lemma AutoOpenDecided(pl: Plant, now: Word)
    requires Consistent(pl)
    ensures AutoOpenRule(pl, PolicyRun(pl, now))
  {
  }

  /** The first half of a poll does not ask the ramp to open. */
  lemma NoNewPendingOpen(pl: Plant, input: PollInput)
    requires PollRamp(PollDoor(pl, input), input).policy.slopeTxPending == RAMP_OPEN
    ensures pl.policy.slopeTxPending == RAMP_OPEN
  {
    hide TxPolled, AllRequested, Estimated;
  }

  /** At the decision of every poll of every run the door state is consistent. So an automatic ramp open is released
      exactly when the door is open, opening, closing from open, or about to be opened; and a poll that makes a ramp open
      pending without a manual request finds the door not closed or opens it, and leaves it not closed. */
  lemma AutoOpenNeedsTheDoor(ready: bool, interval: nat, tick: nat, inputs: seq<PollInput>, input: PollInput)
    ensures
      var before := Polls(InitialPlant(ready, interval, tick), inputs);
      var deciding, after := PollRamp(PollDoor(before, input), input), PlantPolled(before, input);
      && Consistent(deciding) && AutoOpenRule(deciding, after)
      && (deciding.policy.slopeTxPending == RAMP_OPEN ==> before.policy.slopeTxPending == RAMP_OPEN)
  {
    hide PollDoor, PollRamp, PollPolicy, PolicyRun, Updated;
    var pl := InitialPlant(ready, interval, tick);
    AlwaysConsistent(pl, inputs);
    var before := Polls(pl, inputs);
    DoorHalfConsistent(before, input);
    RampHalfConsistent(PollDoor(before, input), input);
    var deciding := PollRamp(PollDoor(before, input), input);
    AutoOpenDecided(deciding, input.policyNow);
    PolicyHalf(deciding, input);
    if deciding.policy.slopeTxPending == RAMP_OPEN {
      NoNewPendingOpen(before, input);
    }
  }

  // ----- Jam -------------------------------------------------------------------------------

  lemma JamPoll(pl: Plant, input: PollInput)
    requires TargetAgrees(pl) && input.jam
    ensures var after := PlantPolled(pl, input);
            && after.policy.door.motion != Closing && after.policy.door.lastActuation != CloseRequest
            && !after.policy.requests.doorManualClose
            && (pl.servo.target == OPEN_DUTY ==> after.servo.target == OPEN_DUTY)
  {
    hide PollDoor, PollRamp, PollPolicy, PolicyRun;
    var a := PollDoor(pl, input);
    DoorHalfConsistent(pl, input);
    if pl.servo.target == OPEN_DUTY {
      JamKeepsOpen(pl, input);
    }
    RampHalfConsistent(a, input);
    var b := PollRamp(a, input);
    DecisionConsistent(b, input.policyNow);
    PolicyHalf(b, input);
  }

  lemma JamKeepsOpen(pl: Plant, input: PollInput)
    requires pl.servo.target == OPEN_DUTY
    ensures PollDoor(pl, input).servo.target == OPEN_DUTY
  {
    hide Sensed;
  }

  /** After any poll that sampled a jam, at any point of any run, the door is not closing, no door
      close is pending and the last actuation is not a close. */
  lemma JamStopsClosing(ready: bool, interval: nat, tick: nat, inputs: seq<PollInput>, input: PollInput)
    requires input.jam
    ensures var after := Polls(InitialPlant(ready, interval, tick), inputs + [input]);
            && after.policy.door.motion != Closing && after.policy.door.lastActuation != CloseRequest
            && !after.policy.requests.doorManualClose
  {
    var pl := InitialPlant(ready, interval, tick);
    assert (inputs + [input])[..|inputs|] == inputs;
    AlwaysConsistent(pl, inputs);
    JamPoll(Polls(pl, inputs), input);
  }

  /** While a jam lasts the servo is never sent from open to closed. */
  lemma {:induction false} JamNeverCloses(pl: Plant, inputs: seq<PollInput>)
    requires TargetAgrees(pl) && pl.servo.target == OPEN_DUTY
    requires forall i | 0 <= i < |inputs| :: inputs[i].jam
    ensures Polls(pl, inputs).servo.target == OPEN_DUTY
  {
    if inputs != [] {
      hide PlantPolled;
      var n := |inputs| - 1;
      JamNeverCloses(pl, inputs[..n]);
      AlwaysConsistent(pl, inputs[..n]);
      JamPoll(Polls(pl, inputs[..n]), inputs[n]);
    }
  }

  // ----- The adapter between polls ---------------------------------------------------------

  /** While a command is in flight it is the desired one and the one queued last. */
  predicate AdapterInv(a: AdapterState) {
    && !a.successPending && a.desired <= RAMP_CLOSE
    && (a.sender.waitingAck ==> a.desired == a.lastQueued == a.inflight)
  }

  /** Reading acknowledgements either changes nothing but the parser, or completes the command in
      flight once. */
  predicate ReadOutcome(a: AdapterState, b: AdapterState) {
    || b == a.(parser := b.parser)
    || (a.sender.waitingAck &&
        b == a.(parser := b.parser, sender := a.sender.(waitingAck := false), successPending := true,
                successCmd := a.inflight, desired := RAMP_NONE, lastQueued := RAMP_NONE))
  }

  lemma {:induction false} Reading(a: AdapterState, rx: seq<Byte>)
    ensures ReadOutcome(a, OnBytes(a, rx))
  {
    if rx != [] {
      hide Feed;
      Reading(a, rx[..|rx| - 1]);
    }
  }

  /** What a poll of the adapter leaves behind. */
  lemma TxPollOutcome(a: AdapterState, rx: seq<Byte>, retryNow: Word, startNow: Word)
    requires AdapterInv(a)
    ensures var b := TxPolled(a, rx, retryNow, startNow);
            && (b.successPending ==>
                  a.sender.waitingAck && !b.sender.waitingAck && b.successCmd == a.inflight && b.desired == RAMP_NONE)
            && (!b.successPending ==> b.desired == a.desired && (b.sender.waitingAck ==> b.inflight == b.desired))
            && (b.sender.waitingAck ==> b.desired == b.lastQueued == b.inflight)
            && b.desired <= RAMP_CLOSE
  {
    hide Elapsed;
    Reading(a, rx);
  }

  lemma AdapterInvKept(pl: Plant, input: PollInput)
    requires AdapterInv(pl.adapter)
    ensures AdapterInv(PlantPolled(pl, input).adapter)
  {
    hide TxPolled, Sensed, PolicyDecided, TargetDecided, Updated;
    TxPollOutcome(pl.adapter, input.rx, input.retryNow, input.startNow);
  }

  lemma {:induction false} AlwaysAdapterInv(pl: Plant, inputs: seq<PollInput>)
    requires AdapterInv(pl.adapter)
    ensures AdapterInv(Polls(pl, inputs).adapter)
  {
    if inputs != [] {
      hide PlantPolled;
      AlwaysAdapterInv(pl, inputs[..|inputs| - 1]);
      AdapterInvKept(Polls(pl, inputs[..|inputs| - 1]), inputs[|inputs| - 1]);
    }
  }

  // ----- Closing the door stows the ramp ---------------------------------------------------

  predicate AsksRampOpen(h: Hook) {
    match h
    case BleSlopeAuto(slope) => slope == OpenRequest
    case CanDoorManual(_) => false
    case CanSlope(slope, mode) => slope == OpenRequest && mode != NoMode
  }

  predicate NoRampOpenAsked(input: PollInput) {
    forall i | 0 <= i < |input.hooks| :: !AsksRampOpen(input.hooks[i])
  }

  /** The jam handler does not act in this poll. */
  predicate NoJamCancel(pl: Plant, input: PollInput) {
    !JamActs(Sensed(pl.policy, input))
  }

  predicate NoOpenRequested(r: Requests) {
    !r.slopeManualOpen && !r.slopeAutoOpen
  }

  /** A ramp close is on its way: it stays the pending ramp command. */
  predicate Stowing(pl: Plant) {
    NoOpenRequested(pl.policy.requests) && pl.policy.slopeTxPending == RAMP_CLOSE
  }

  /** The ramp is estimated stowed, and no open is pending, desired or in flight. */
  predicate Stowed(pl: Plant) {
    && NoOpenRequested(pl.policy.requests) && pl.policy.slopeTxPending == RAMP_NONE && !pl.policy.slopeOpenEstimated
    && pl.adapter.desired != RAMP_OPEN && (pl.adapter.sender.waitingAck ==> pl.adapter.inflight != RAMP_OPEN)
  }

  lemma {:induction false} RequestsWithoutRampOpen(r: Requests, hooks: seq<Hook>)
    requires NoOpenRequested(r) && forall i | 0 <= i < |hooks| :: !AsksRampOpen(hooks[i])
    ensures NoOpenRequested(AllRequested(r, hooks))
  {
    if hooks != [] {
      RequestsWithoutRampOpen(r, hooks[..|hooks| - 1]);
      assert !AsksRampOpen(hooks[|hooks| - 1]);
    }
  }

  lemma StowDoorHalf(pl: Plant, input: PollInput)
    requires NoOpenRequested(pl.policy.requests) && NoRampOpenAsked(input) && NoJamCancel(pl, input)
    ensures var after := PollDoor(pl, input);
            && NoOpenRequested(after.policy.requests) && after.adapter == pl.adapter
            && after.policy.slopeTxPending == pl.policy.slopeTxPending
            && after.policy.slopeOpenEstimated == pl.policy.slopeOpenEstimated
  {
    hide AllRequested, Estimated;
    RequestsWithoutRampOpen(pl.policy.requests, input.hooks);
  }

  lemma StowRampHalf(pl: Plant, input: PollInput)
    requires AdapterInv(pl.adapter) && (Stowing(pl) || Stowed(pl))
    ensures var after := PollRamp(pl, input); Stowing(after) || Stowed(after)
  {
    hide TxPolled;
    TxPollOutcome(pl.adapter, input.rx, input.retryNow, input.startNow);
  }

  lemma StowPolicyHalf(pl: Plant, input: PollInput)
    requires Stowing(pl) || Stowed(pl)
    ensures var after := PollPolicy(pl, input); Stowing(after) || Stowed(after)
  {
    hide PollPolicy, AutoRules;
    PolicyHalf(pl, input);
    AutoRulesTouch(pl.policy, pl.adapter.sender.waitingAck);
    AutoRulesTouch(DoorOpenTaken(pl.policy, input.policyNow), pl.adapter.sender.waitingAck);
  }

  lemma StowKept(pl: Plant, input: PollInput)
    requires AdapterInv(pl.adapter) && (Stowing(pl) || Stowed(pl))
    requires NoRampOpenAsked(input) && NoJamCancel(pl, input)
    ensures var after := PlantPolled(pl, input); Stowing(after) || Stowed(after)
  {
    hide PollDoor, PollRamp, PollPolicy, NoRampOpenAsked, NoJamCancel;
    StowDoorHalf(pl, input);
    var a := PollDoor(pl, input);
    StowRampHalf(a, input);
    StowPolicyHalf(PollRamp(a, input), input);
  }

  /** The pending ramp close ends only in a poll that learns that a close was acknowledged. */
  lemma StowingEndsWithAcknowledgement(pl: Plant, input: PollInput)
    requires AdapterInv(pl.adapter) && Stowing(pl) && NoRampOpenAsked(input) && NoJamCancel(pl, input)
    requires !Stowing(PlantPolled(pl, input))
    ensures var adapter := TxPolled(pl.adapter, input.rx, input.retryNow, input.startNow);
            adapter.successPending && adapter.successCmd % 4 == RAMP_CLOSE
  {
    hide PollDoor, TxPolled, PollPolicy, NoRampOpenAsked, NoJamCancel;
    StowDoorHalf(pl, input);
    var b := PollRamp(PollDoor(pl, input), input);
    if Stowing(b) {
      StowingPolicyHalf(b, input);
    }
  }

  lemma StowingPolicyHalf(pl: Plant, input: PollInput)
    requires Stowing(pl)
    ensures Stowing(PollPolicy(pl, input))
  {
    hide PollPolicy, AutoRules;
    PolicyHalf(pl, input);
    AutoRulesTouch(pl.policy, pl.adapter.sender.waitingAck);
    AutoRulesTouch(DoorOpenTaken(pl.policy, input.policyNow), pl.adapter.sender.waitingAck);
  }

  /** Neither a jam cancel nor a request to open the ramp occurs during the run. */
  predicate Undisturbed(pl: Plant, inputs: seq<PollInput>) {
    forall n | 0 <= n < |inputs| :: NoRampOpenAsked(inputs[n]) && NoJamCancel(Polls(pl, inputs[..n]), inputs[n])
  }

  lemma {:induction false} StowKeptByRuns(pl: Plant, inputs: seq<PollInput>)
    requires AdapterInv(pl.adapter) && (Stowing(pl) || Stowed(pl)) && Undisturbed(pl, inputs)
    ensures var after := Polls(pl, inputs); Stowing(after) || Stowed(after)
  {
    if inputs != [] {
      hide PlantPolled, NoRampOpenAsked, NoJamCancel, Stowing, Stowed;
      var n := |inputs| - 1;
      assert forall k | 0 <= k <= n :: inputs[..n][..k] == inputs[..k];
      StowKeptByRuns(pl, inputs[..n]);
      AlwaysAdapterInv(pl, inputs[..n]);
      StowKept(Polls(pl, inputs[..n]), inputs[n]);
    }
  }

  /** The poll takes a door close request. */
  predicate TakesDoorClose(pl: Plant, input: PollInput) {
    PollRamp(PollDoor(pl, input), input).policy.requests.doorManualClose
  }

  lemma DoorCloseStows(pl: Plant, input: PollInput)
    requires TakesDoorClose(pl, input)
    ensures Stowing(PlantPolled(pl, input)) && PlantPolled(pl, input).servo.target == CLOSE_DUTY
  {
    hide PollDoor, PollRamp, Updated;
    UpdateKeepsTarget(PolicyRun(PollRamp(PollDoor(pl, input), input), input.policyNow).servo, input.servoTick);
  }

  /** From a poll that closes the door on, a ramp close stays pending, even when an open in flight is
      acknowledged meanwhile, until the ramp is estimated stowed; and then it stays stowed with no
      open under way. Only a jam cancel or a newer request to open the ramp ends this. */
  lemma ClosingTheDoorStowsTheRamp(ready: bool, interval: nat, tick: nat,
                                   before: seq<PollInput>, close: PollInput, after: seq<PollInput>)
    requires var pl := Polls(InitialPlant(ready, interval, tick), before);
             TakesDoorClose(pl, close) && Undisturbed(PlantPolled(pl, close), after)
    ensures var pl := PlantPolled(Polls(InitialPlant(ready, interval, tick), before), close);
            Stowing(Polls(pl, after)) || Stowed(Polls(pl, after))
  {
    var pl := Polls(InitialPlant(ready, interval, tick), before);
    AlwaysAdapterInv(InitialPlant(ready, interval, tick), before);
    AdapterInvKept(pl, close);
    DoorCloseStows(pl, close);
    StowKeptByRuns(PlantPolled(pl, close), after);
  }
}
