/** What a poll of the door controller makes of the requests, said field by field of the state before and after the
    decision, for every poll of every run. */
module DoorRules {
  import opened Bytes
  import opened Wire
  import opened Arq
  import opened RampAdapter
  import opened DoorServo
  import opened DoorEcu
  import opened DoorSafety

  // ----- Requests --------------------------------------------------------------------------

  const AUTO_OPENS := {BleSlopeAuto(OpenRequest), CanSlope(OpenRequest, Auto)}
  const AUTO_CLOSES := {BleSlopeAuto(CloseRequest), CanSlope(CloseRequest, Auto)}

  /** A flag that some calls set and one clears, after the calls: set before and not cleared, or set by a call and not
      cleared since. */
  predicate Stands(before: bool, hooks: seq<Hook>, sets: set<Hook>, clears: Hook) {
    (before && clears !in hooks) || exists i :: 0 <= i < |hooks| && hooks[i] in sets && clears !in hooks[i..]
  }

  /** One call. */
  lemma OneManual(r: Requests, h: Hook)
    ensures
      var q := Requested(r, h);
      && (q.doorManualOpen <==> r.doorManualOpen || h == CanDoorManual(OpenRequest))
      && (q.doorManualClose <==> r.doorManualClose || h == CanDoorManual(CloseRequest))
      && (q.slopeManualOpen <==> r.slopeManualOpen || h == CanSlope(OpenRequest, Manual))
      && (q.slopeManualClose <==> r.slopeManualClose || h == CanSlope(CloseRequest, Manual))
  {
    match h {
      case BleSlopeAuto(slope) =>
      case CanDoorManual(door) =>
        assert h == CanDoorManual(OpenRequest) <==> door == OpenRequest;
      case CanSlope(slope, mode) =>
        assert h == CanSlope(OpenRequest, Manual) <==> slope == OpenRequest && mode == Manual;
    }
  }

  lemma OneAuto(r: Requests, h: Hook)
    ensures
      var q := Requested(r, h);
      && (q.slopeAutoOpen <==> h in AUTO_OPENS || (r.slopeAutoOpen && h != BleSlopeAuto(CloseRequest)))
      && (q.slopeAutoClose <==> h in AUTO_CLOSES || (r.slopeAutoClose && h != BleSlopeAuto(OpenRequest)))
  {
    match h {
      case BleSlopeAuto(slope) =>
        assert h in AUTO_OPENS <==> slope == OpenRequest;
      case CanDoorManual(door) =>
        assert h !in AUTO_OPENS;
      case CanSlope(slope, mode) =>
        assert h in AUTO_OPENS <==> slope == OpenRequest && mode == Auto;
    }
  }

  predicate ManualLeft(r: Requests, hooks: seq<Hook>, q: Requests) {
    && (q.doorManualOpen <==> r.doorManualOpen || CanDoorManual(OpenRequest) in hooks)
    && (q.doorManualClose <==> r.doorManualClose || CanDoorManual(CloseRequest) in hooks)
    && (q.slopeManualOpen <==> r.slopeManualOpen || CanSlope(OpenRequest, Manual) in hooks)
    && (q.slopeManualClose <==> r.slopeManualClose || CanSlope(CloseRequest, Manual) in hooks)
  }

  predicate AutoLeft(r: Requests, hooks: seq<Hook>, q: Requests) {
    && (q.slopeAutoOpen <==> Stands(r.slopeAutoOpen, hooks, AUTO_OPENS, BleSlopeAuto(CloseRequest)))
    && (q.slopeAutoClose <==> Stands(r.slopeAutoClose, hooks, AUTO_CLOSES, BleSlopeAuto(OpenRequest)))
  }

  lemma InAppend(hooks: seq<Hook>, h: Hook, x: Hook)
    ensures x in hooks + [h] <==> x in hooks || x == h
  {
  }

  lemma ManualAppend(r: Requests, hooks: seq<Hook>, h: Hook, q: Requests)
    requires ManualLeft(r, hooks, q)
    ensures ManualLeft(r, hooks + [h], Requested(q, h))
  {
    hide Requested;
    OneManual(q, h);
    InAppend(hooks, h, CanDoorManual(OpenRequest));
    InAppend(hooks, h, CanDoorManual(CloseRequest));
    InAppend(hooks, h, CanSlope(OpenRequest, Manual));
    InAppend(hooks, h, CanSlope(CloseRequest, Manual));
  }

  lemma StandsAfterOne(before: bool, hooks: seq<Hook>, h: Hook, sets: set<Hook>, clears: Hook)
    requires clears !in sets
    ensures Stands(before, hooks + [h], sets, clears) <==> h in sets || (Stands(before, hooks, sets, clears) && h != clears)
  {
    var longer, n := hooks + [h], |hooks|;
    if h in sets {
      assert longer[n] in sets && longer[n..] == [h];
    } else if h == clears {
      ClearedByLast(before, hooks, h, sets);
    } else {
      forall i | 0 <= i <= n
        ensures clears in longer[i..] <==> clears in hooks[i..]
      {
        assert longer[i..] == hooks[i..] + [h];
      }
      assert longer[0..] == longer && hooks[0..] == hooks;
      StandsBefore(before, hooks, h, sets, clears);
    }
  }

  lemma ClearedByLast(before: bool, hooks: seq<Hook>, h: Hook, sets: set<Hook>)
    requires h !in sets
    ensures !Stands(before, hooks + [h], sets, h)
  {
    var longer, n := hooks + [h], |hooks|;
    assert longer[n] == h;
    forall i | 0 <= i < |longer|
      ensures h in longer[i..]
    {
      assert longer[i..][n - i] == h;
    }
  }

  lemma StandsBefore(before: bool, hooks: seq<Hook>, h: Hook, sets: set<Hook>, clears: Hook)
    requires h !in sets && h != clears
    requires forall i :: 0 <= i <= |hooks| ==> (clears in (hooks + [h])[i..] <==> clears in hooks[i..])
    requires clears in hooks + [h] <==> clears in hooks
    ensures Stands(before, hooks + [h], sets, clears) <==> Stands(before, hooks, sets, clears)
  {
    var longer := hooks + [h];
    if i :| 0 <= i < |hooks| && hooks[i] in sets && clears !in hooks[i..] {
      assert longer[i] in sets && clears !in longer[i..];
    }
    if i :| 0 <= i < |longer| && longer[i] in sets && clears !in longer[i..] {
      assert i < |hooks| && hooks[i] in sets && clears !in hooks[i..];
    }
  }

  lemma AutoAppend(r: Requests, hooks: seq<Hook>, h: Hook, q: Requests)
    requires AutoLeft(r, hooks, q)
    ensures AutoLeft(r, hooks + [h], Requested(q, h))
  {
    hide Requested, Stands;
    OneAuto(q, h);
    StandsAfterOne(r.slopeAutoOpen, hooks, h, AUTO_OPENS, BleSlopeAuto(CloseRequest));
    StandsAfterOne(r.slopeAutoClose, hooks, h, AUTO_CLOSES, BleSlopeAuto(OpenRequest));
  }

  /** What is requested after the calls: every manual request that was made, and each automatic one if BLE has not asked for
      its opposite since. */
  lemma {:induction false} RequestsLeft(r: Requests, hooks: seq<Hook>)
    ensures ManualLeft(r, hooks, AllRequested(r, hooks)) && AutoLeft(r, hooks, AllRequested(r, hooks))
  {
    hide ManualLeft, AutoLeft, Requested;
    if hooks == [] {
      NothingAsked(r);
    } else {
      var n := |hooks| - 1;
      RequestsLeft(r, hooks[..n]);
      assert hooks == hooks[..n] + [hooks[n]];
      ManualAppend(r, hooks[..n], hooks[n], AllRequested(r, hooks[..n]));
      AutoAppend(r, hooks[..n], hooks[n], AllRequested(r, hooks[..n]));
    }
  }

  lemma NothingAsked(r: Requests)
    ensures ManualLeft(r, [], r) && AutoLeft(r, [], r)
  {
  }

  // ----- The estimate ----------------------------------------------------------------------

  /** The door is reported moving for 1700 ms after it was sent, and then where it was sent, read at true times. */
  lemma EstimateInTime(d: DoorState, start: nat, now: nat)
    requires d.motionStartMs == ToWord(start) && start <= now < start + WORD_RANGE
    ensures
      var e := Estimated(d, ToWord(now));
      match d.lastActuation
      case OpenRequest =>
        if now < start + 1700 then e.motion == Opening && e.lastActuation == OpenRequest && e.openEstimated == d.openEstimated
        else e.motion == Opened && e.lastActuation == NoRequest && e.openEstimated
      case CloseRequest =>
        if now < start + 1700 then e.motion == Closing && e.lastActuation == CloseRequest && e.openEstimated == d.openEstimated
        else e.motion == Closed && e.lastActuation == NoRequest && !e.openEstimated
      case NoRequest =>
        e.openEstimated == d.openEstimated && e.lastActuation == NoRequest && e.motion == if d.openEstimated then Opened else Closed
    ensures Estimated(d, ToWord(now)).reportedOpen == Estimated(d, ToWord(now)).openEstimated
  {
    hide Elapsed, ToWord;
    ElapsedOfReadings(now, start);
  }

  // ----- The decision ----------------------------------------------------------------------

  /** `d` is the state in which a poll decides, `e` the state after it. A door close wins over an open; a manual ramp request
      puts an open off. */
  predicate DoorRule(d: Plant, e: Plant, now: Word) {
    var r := d.policy.requests;
    var opens := r.doorManualOpen && !r.doorManualClose && !r.slopeManualClose && !r.slopeManualOpen;
    && e.policy.door == (if r.doorManualClose then d.policy.door.(lastActuation := CloseRequest, motionStartMs := now, motion := Closing)
                         else if opens then d.policy.door.(lastActuation := OpenRequest, motionStartMs := now, motion := Opening)
                         else d.policy.door)
    && e.servo.target == (if r.doorManualClose then 25 else if opens then 125 else d.servo.target)
    && (e.policy.requests.doorManualOpen <==>
        r.doorManualOpen && !r.doorManualClose && (r.slopeManualClose || r.slopeManualOpen))
    && !e.policy.requests.doorManualClose
  }

  /** The automatic ramp requests that this poll lets go. */
  predicate ReleasesOpen(d: Plant, e: Plant) {
    d.policy.requests.slopeAutoOpen && !e.policy.requests.slopeAutoOpen
  }

  predicate ReleasesClose(d: Plant, e: Plant) {
    d.policy.requests.slopeAutoClose && !e.policy.requests.slopeAutoClose
  }

  /** Which ramp command is pending afterwards: 1 is open, 2 close. Closing the door or asking by hand for a close pends
      a close, asking by hand for an open an open; otherwise a released automatic open does if the ramp is not estimated
      open, and an automatic close released on a closing door if it is, or if an open was pending. */
  predicate RampRule(d: Plant, e: Plant) {
    var r, open := d.policy.requests, d.policy.slopeOpenEstimated;
    && e.policy.slopeOpenEstimated == open
    && (r.doorManualClose ==> e.policy.slopeTxPending == 2)
    && (!r.doorManualClose && r.slopeManualClose ==> e.policy.slopeTxPending == 2)
    && (!r.doorManualClose && !r.slopeManualClose && r.slopeManualOpen ==> e.policy.slopeTxPending == 1)
    && (OnlyAutoRules(r) ==>
          e.policy.slopeTxPending ==
          if ReleasesOpen(d, e) && !open then 1
          else if ReleasesClose(d, e) && e.policy.door.motion == Closing && (open || d.policy.slopeTxPending == 1) then 2
          else d.policy.slopeTxPending)
  }

  /** Which ramp requests are left. */
  predicate RequestRule(d: Plant, e: Plant) {
    var r, q, door := d.policy.requests, e.policy.requests, d.policy.door;
    var mayOpen := door.openEstimated || door.lastActuation == OpenRequest || r.doorManualOpen;
    var nothingToClose := !d.policy.slopeOpenEstimated && d.policy.slopeTxPending != 1 && !d.adapter.sender.waitingAck;
    && !q.slopeManualOpen
    && (q.slopeManualClose <==> r.slopeManualClose && r.doorManualClose)
    && (q.slopeAutoOpen <==>
        r.slopeAutoOpen && !r.doorManualClose && !r.slopeManualClose && (r.slopeManualOpen || !mayOpen))
    && (r.doorManualClose ==> q.slopeAutoClose)
    && (!r.doorManualClose && r.slopeManualClose ==> q.slopeAutoClose == r.slopeAutoClose)
    && (!r.doorManualClose && !r.slopeManualClose && r.slopeManualOpen ==> !q.slopeAutoClose)
    && (OnlyAutoRules(r) ==>
          (q.slopeAutoClose <==>
           r.slopeAutoClose && (ReleasesOpen(d, e) || (!nothingToClose && e.policy.door.motion != Closing))))
  }

  lemma DecisionRules(d: Plant, now: Word)
    requires Consistent(d)
    ensures DoorRule(d, PolicyRun(d, now), now) && RampRule(d, PolicyRun(d, now)) && RequestRule(d, PolicyRun(d, now))
  {
    DoorDecided(d, now);
    RampDecided(d, now);
    RequestsDecided(d, now);
  }

  lemma DoorDecided(d: Plant, now: Word)
    ensures DoorRule(d, PolicyRun(d, now), now)
  {
    hide AutoRules;
    AutoRulesTouch(d.policy, d.adapter.sender.waitingAck);
    AutoRulesTouch(DoorOpenTaken(d.policy, now), d.adapter.sender.waitingAck);
  }

  lemma RampDecided(d: Plant, now: Word)
    requires Consistent(d)
    ensures RampRule(d, PolicyRun(d, now))
  {
  }

  lemma RequestsDecided(d: Plant, now: Word)
    requires Consistent(d)
    ensures RequestRule(d, PolicyRun(d, now))
  {
  }

  /** Every poll of every run decides by these rules, in a state that is consistent. */
  lemma EveryPollDecides(ready: bool, interval: nat, tick: nat, inputs: seq<PollInput>, input: PollInput)
    ensures
      var before := Polls(InitialPlant(ready, interval, tick), inputs);
      var d, e := PollRamp(PollDoor(before, input), input), PlantPolled(before, input);
      Consistent(d) && DoorRule(d, e, input.policyNow) && RampRule(d, e) && RequestRule(d, e)
  {
    hide PollDoor, PollRamp, PollPolicy, PolicyRun, Updated, Consistent, OnlyAutoRules;
    var before := Polls(InitialPlant(ready, interval, tick), inputs);
    AutoOpenNeedsTheDoor(ready, interval, tick, inputs, input);
    var d := PollRamp(PollDoor(before, input), input);
    DecisionRules(d, input.policyNow);
    PolicyHalf(d, input);
  }

  // ----- The jam ---------------------------------------------------------------------------

  /** The first half of a poll: `e` is the door as estimated and `q` what is requested. A jam on a door that closes or
      is asked to close withdraws everything that closes, and sends the door open; otherwise nothing is changed. */
  predicate JamRule(before: Plant, a: Plant, input: PollInput, e: DoorState, q: Requests) {
    && a.adapter == before.adapter && a.policy.slopeOpenEstimated == before.policy.slopeOpenEstimated
    && if input.jam && (e.motion == Closing || q.doorManualClose) then
         && a.policy.requests == q.(doorManualClose := false, slopeManualClose := false, slopeAutoClose := false)
         && a.policy.slopeTxPending == (if before.policy.slopeTxPending == 2 then 0 else before.policy.slopeTxPending)
         && a.policy.door == e.(lastActuation := OpenRequest, motionStartMs := input.jamNow, motion := Opening)
         && a.servo == before.servo.(target := 125)
       else
         && a.policy.requests == q && a.policy.door == e
         && a.policy.slopeTxPending == before.policy.slopeTxPending && a.servo == before.servo
  }

  /** Together with `RequestsLeft` and `EstimateInTime` this says what the first half of a poll does. */
  lemma DoorHalfRule(before: Plant, input: PollInput)
    ensures JamRule(before, PollDoor(before, input), input, Estimated(before.policy.door, input.estimateNow),
                    AllRequested(before.policy.requests, input.hooks))
  {
    hide Estimated, AllRequested;
  }

  /** After a poll in which the jam handler acted, at any point of any run, no ramp close is pending, no manual or automatic
      ramp close is left, and the door is sent open. */
  lemma JamLeavesNothingClosing(ready: bool, interval: nat, tick: nat, inputs: seq<PollInput>, input: PollInput)
    requires
      var before := Polls(InitialPlant(ready, interval, tick), inputs);
      input.jam && (Estimated(before.policy.door, input.estimateNow).motion == Closing ||
                    AllRequested(before.policy.requests, input.hooks).doorManualClose)
    ensures
      var e := PlantPolled(Polls(InitialPlant(ready, interval, tick), inputs), input);
      && e.policy.slopeTxPending != 2 && !e.policy.requests.slopeManualClose && !e.policy.requests.slopeAutoClose
      && !e.policy.requests.doorManualClose
      && e.policy.door.motion == Opening && e.policy.door.lastActuation == OpenRequest && e.servo.target == 125
  {
    hide PollDoor, PollRamp, PlantPolled, Estimated, AllRequested, Consistent;
    var before := Polls(InitialPlant(ready, interval, tick), inputs);
    DoorHalfRule(before, input);
    EveryPollDecides(ready, interval, tick, inputs, input);
    RampHalfRule(ready, interval, tick, inputs, input);
  }

  // ----- The ramp --------------------------------------------------------------------------

  /** What a poll learns from the ramp: `told` is the command whose success the adapter reports. The estimate follows it, and
      a pending command that is the same has been done. */
  predicate SuccessRule(a: Plant, d: Plant, learned: bool, told: Byte) {
    && d.policy.requests == a.policy.requests && d.policy.door == a.policy.door && d.servo == a.servo
    && d.policy.slopeOpenEstimated ==
       (if learned && told == 1 then true else if learned && told == 2 then false else a.policy.slopeOpenEstimated)
    && d.policy.slopeTxPending ==
       (if learned && (told == 1 || told == 2) && a.policy.slopeTxPending == told then 0 else a.policy.slopeTxPending)
  }

  lemma RampHalfRule(ready: bool, interval: nat, tick: nat, inputs: seq<PollInput>, input: PollInput)
    ensures
      var before := Polls(InitialPlant(ready, interval, tick), inputs);
      var a := PollDoor(before, input);
      var polled := TxPolled(a.adapter, input.rx, input.retryNow, input.startNow);
      && SuccessRule(a, PollRamp(a, input), polled.successPending, polled.successCmd)
      && (polled.successPending ==> before.adapter.sender.waitingAck && polled.successCmd == before.adapter.inflight <= 2)
      && !PollRamp(a, input).adapter.successPending
  {
    hide PollDoor, TxPolled, Polls;
    var before := Polls(InitialPlant(ready, interval, tick), inputs);
    AlwaysAdapterInv(InitialPlant(ready, interval, tick), inputs);
    DoorHalfKeepsAdapter(before, input);
    TxPollOutcome(before.adapter, input.rx, input.retryNow, input.startNow);
  }

  lemma DoorHalfKeepsAdapter(before: Plant, input: PollInput)
    ensures PollDoor(before, input).adapter == before.adapter
  {
    hide Estimated, AllRequested;
  }
}
