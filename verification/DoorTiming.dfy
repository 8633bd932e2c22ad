/** The servo reaches the position the controller reports: a bound on the time between polls under
    which the assumed time of a door movement is long enough, for every sequence of reversals. */
module DoorTiming {
  import opened Bytes
  import opened Wire
  import opened RampAdapter
  import opened DoorServo
  import opened DoorEcu
  import opened DoorSafety

  /** A poll with the true times, in ticks, at which it reads the clock for the estimate, for the jam
      handler and for the policy; the servo reads the tick counter itself. */
  datatype TimedPoll = TimedPoll(input: PollInput, estimateAt: nat, jamAt: nat, policyAt: nat)

  /** The millisecond counter at a tick. */
  function Millis(tick: nat, ticksPerMs: nat): Word
    requires 0 < ticksPerMs
  {
    ToWord(tick / ticksPerMs)
  }

  /** The clock of a poll runs forward from the last servo update, `last`, and the servo is updated
      at most `gap` ticks after it. */
  predicate InTime(tp: TimedPoll, last: nat, ticksPerMs: nat, gap: nat)
    requires 0 < ticksPerMs
  {
    && last <= tp.estimateAt <= tp.jamAt <= tp.policyAt <= tp.input.servoTick <= last + gap
    && tp.input.estimateNow == Millis(tp.estimateAt, ticksPerMs)
    && tp.input.jamNow == Millis(tp.jamAt, ticksPerMs)
    && tp.input.policyNow == Millis(tp.policyAt, ticksPerMs)
  }

  function Inputs(tps: seq<TimedPoll>): (inputs: seq<PollInput>)
    ensures |inputs| == |tps|
  {
    seq(|tps|, i requires 0 <= i < |tps| => tps[i].input)
  }

  function LastUpdate(start: nat, tps: seq<TimedPoll>): nat {
    if tps == [] then start else tps[|tps| - 1].input.servoTick
  }

  predicate AllInTime(start: nat, tps: seq<TimedPoll>, ticksPerMs: nat, gap: nat)
    requires 0 < ticksPerMs
  {
    forall n | 0 <= n < |tps| :: InTime(tps[n], LastUpdate(start, tps[..n]), ticksPerMs, gap)
  }

  /** The longest time between two steps of the servo. */
  function StepTime(ticksPerMs: nat, gap: nat): nat
    requires 0 < ticksPerMs
  {
    SPEED_MS * ticksPerMs - 1 + gap
  }

  /** A full movement of 100 steps fits into what the controller waits at least: 1700 ms on a counter of whole
      milliseconds, so more than 1699, and then the rest of the poll, which takes the last step. */
  predicate FastEnough(ticksPerMs: nat, gap: nat) {
    0 < ticksPerMs && 100 * StepTime(ticksPerMs, gap) <= 1699 * ticksPerMs + gap
  }

  /** The servo while the door has been moving since tick `start`, after an update at tick `now`. */
  predicate OnSchedule(s: ServoState, start: nat, now: nat, ticksPerMs: nat, gap: nat)
    requires 0 < ticksPerMs
  {
    Distance(s) == 0 ||
    (now - s.lastTick < s.interval &&
     s.lastTick + Rounds(Distance(s), StepTime(ticksPerMs, gap)) <= start + Rounds(100, StepTime(ticksPerMs, gap)))
  }

  predicate ServoOk(s: ServoState, now: nat, ticksPerMs: nat) {
    && s.ready && s.interval == SPEED_MS * ticksPerMs && s.lastTick <= now
    && CLOSE_DUTY <= s.duty <= OPEN_DUTY && CLOSE_DUTY <= s.target <= OPEN_DUTY
  }

  /** Holds after every poll; `start` is the tick at which the present movement began. */
  predicate TimingInv(pl: Plant, start: nat, now: nat, ticksPerMs: nat, gap: nat)
    requires 0 < ticksPerMs
  {
    && TargetAgrees(pl) && ServoOk(pl.servo, now, ticksPerMs) && start <= now
    && (pl.policy.door.lastActuation == NoRequest ==> Distance(pl.servo) == 0)
    && (pl.policy.door.lastActuation != NoRequest ==>
          pl.policy.door.motionStartMs == Millis(start, ticksPerMs) &&
          OnSchedule(pl.servo, start, now, ticksPerMs, gap))
  }

  /** When the controller stops waiting, more than 1699 ms have passed. */
  lemma WaitedFor(start: nat, t: nat, ticksPerMs: nat)
    requires 0 < ticksPerMs && start <= t
    requires Elapsed(Millis(t, ticksPerMs), Millis(start, ticksPerMs)) >= MOVE_ASSUMED_MS
    ensures start + 1699 * ticksPerMs < t
  {
    hide Elapsed, ToWord;
    if t <= start + 1699 * ticksPerMs {
      MillisApart(start, t, ticksPerMs);
      DivideMonotone(start, t, ticksPerMs);
      ElapsedOfReadings(t / ticksPerMs, start / ticksPerMs);
    }
  }

  /** If the servo is on schedule then, the update of the same poll takes its last step. */
  lemma LastStep(s: ServoState, start: nat, last: nat, tick: nat, ticksPerMs: nat, gap: nat)
    requires FastEnough(ticksPerMs, gap) && ServoOk(s, last, ticksPerMs)
    requires last <= tick <= last + gap && start + 1699 * ticksPerMs < tick
    requires OnSchedule(s, start, last, ticksPerMs, gap)
    ensures Distance(Updated(s, tick)) == 0
  {
    StepCloses(s, tick);
    var step := StepTime(ticksPerMs, gap);
    RoundsIsProduct(100, step);
    RoundsIsProduct(1, step);
    RoundsIsProduct(2, step);
    if Distance(s) > 1 {
      RoundsMonotone(2, Distance(s), step);
    }
  }

  lemma MillisApart(start: nat, t: nat, ticksPerMs: nat)
    requires 0 < ticksPerMs && start <= t <= start + 1699 * ticksPerMs
    ensures t / ticksPerMs - start / ticksPerMs <= 1699
  {
    DivideMonotone(t, start + 1699 * ticksPerMs, ticksPerMs);
    AddMultiple(start, 1699, ticksPerMs);
  }

  /** An update that starts or continues a movement keeps the schedule. */
  lemma UpdateKeepsSchedule(s: ServoState, start: nat, before: nat, now: nat, ticksPerMs: nat, gap: nat)
    requires 0 < ticksPerMs && ServoOk(s, before, ticksPerMs) && before <= now <= before + gap && start <= now
    requires OnSchedule(s, start, before, ticksPerMs, gap) || before <= start
    ensures ServoOk(Updated(s, now), now, ticksPerMs)
    ensures OnSchedule(Updated(s, now), start, now, ticksPerMs, gap)
  {
    StepCloses(s, now);
    var step := StepTime(ticksPerMs, gap);
    RoundsIsProduct(99, step);
    RoundsIsProduct(100, step);
    RoundsMonotone(Distance(s), 100, step);
    if 0 < Distance(s) {
      RoundsMonotone(Distance(s) - 1, 99, step);
    }
  }

  /** One poll. The movement that is under way afterwards began at the returned tick. */
  lemma PollKeepsTiming(pl: Plant, tp: TimedPoll, start: nat, last: nat, ticksPerMs: nat, gap: nat)
    returns (start': nat)
    requires FastEnough(ticksPerMs, gap) && InTime(tp, last, ticksPerMs, gap)
    requires TimingInv(pl, start, last, ticksPerMs, gap)
    ensures TimingInv(PlantPolled(pl, tp.input), start', tp.input.servoTick, ticksPerMs, gap)
  {
    hide PollDoor, PollRamp, PollPolicy, PolicyRun, OnSchedule, Millis;
    var a := PollDoor(pl, tp.input);
    start' := DoorHalfTiming(pl, tp, start, last, ticksPerMs, gap);
    DoorHalfConsistent(pl, tp.input);
    RampHalfConsistent(a, tp.input);
    var b := PollRamp(a, tp.input);
    PolicyHalf(b, tp.input);
    DecisionConsistent(b, tp.input.policyNow);
    var decided := PolicyRun(b, tp.input.policyNow);
    start' := DecisionTiming(b, tp, start', last, ticksPerMs, gap);
    UpdateTiming(decided, start', last, tp.input.servoTick, ticksPerMs, gap);
  }

  /** The movement in the middle of a poll: on schedule since the last update, or begun after it, or just declared
      to have ended. */
  predicate MidInv(pl: Plant, start: nat, last: nat, now: nat, ticksPerMs: nat, gap: nat)
    requires 0 < ticksPerMs
  {
    && ServoOk(pl.servo, last, ticksPerMs) && start <= now
    && (pl.policy.door.lastActuation == NoRequest ==>
          Distance(pl.servo) == 0 ||
          (OnSchedule(pl.servo, start, last, ticksPerMs, gap) && start + 1699 * ticksPerMs < now))
    && (pl.policy.door.lastActuation != NoRequest ==>
          pl.policy.door.motionStartMs == Millis(start, ticksPerMs) &&
          (OnSchedule(pl.servo, start, last, ticksPerMs, gap) || last <= start))
  }

  lemma DoorHalfTiming(pl: Plant, tp: TimedPoll, start: nat, last: nat, ticksPerMs: nat, gap: nat)
    returns (start': nat)
    requires FastEnough(ticksPerMs, gap) && InTime(tp, last, ticksPerMs, gap)
    requires TimingInv(pl, start, last, ticksPerMs, gap)
    ensures MidInv(PollDoor(pl, tp.input), start', last, tp.jamAt, ticksPerMs, gap)
  {
    hide OnSchedule, Millis, AllRequested, StepTime, TargetAgrees;
    var d := pl.policy.door;
    if d.lastActuation != NoRequest && Elapsed(tp.input.estimateNow, d.motionStartMs) >= MOVE_ASSUMED_MS {
      WaitedFor(start, tp.estimateAt, ticksPerMs);
    }
    start' := if JamActs(Sensed(pl.policy, tp.input)) then tp.jamAt else start;
  }

  lemma DecisionTiming(pl: Plant, tp: TimedPoll, start: nat, last: nat, ticksPerMs: nat, gap: nat)
    returns (start': nat)
    requires 0 < ticksPerMs && InTime(tp, last, ticksPerMs, gap)
    requires MidInv(pl, start, last, tp.jamAt, ticksPerMs, gap)
    ensures MidInv(PolicyRun(pl, tp.input.policyNow), start', last, tp.policyAt, ticksPerMs, gap)
  {
    hide OnSchedule, Millis, AutoRules, StepTime;
    var r := pl.policy.requests;
    AutoRulesTouch(pl.policy, pl.adapter.sender.waitingAck);
    AutoRulesTouch(DoorOpenTaken(pl.policy, tp.input.policyNow), pl.adapter.sender.waitingAck);
    start' := if r.doorManualClose || (!r.slopeManualClose && !r.slopeManualOpen && r.doorManualOpen)
              then tp.policyAt else start;
  }

  lemma UpdateTiming(pl: Plant, start: nat, last: nat, tick: nat, ticksPerMs: nat, gap: nat)
    requires FastEnough(ticksPerMs, gap) && last <= tick <= last + gap && TargetAgrees(pl) && start <= tick
    requires MidInv(pl, start, last, tick, ticksPerMs, gap)
    ensures TimingInv(pl.(servo := Updated(pl.servo, tick)), start, tick, ticksPerMs, gap)
  {
    hide OnSchedule, Millis, StepTime;
    StepCloses(pl.servo, tick);
    UpdateKeepsTarget(pl.servo, tick);
    if Distance(pl.servo) == 0 {
      assert Updated(pl.servo, tick) == pl.servo;
      assert OnSchedule(pl.servo, start, tick, ticksPerMs, gap) by {
        AtRestIsOnSchedule(pl.servo, start, tick, ticksPerMs, gap);
      }
    } else if pl.policy.door.lastActuation == NoRequest {
      LastStep(pl.servo, start, last, tick, ticksPerMs, gap);
      UpdateKeepsSchedule(pl.servo, start, last, tick, ticksPerMs, gap);
    } else {
      UpdateKeepsSchedule(pl.servo, start, last, tick, ticksPerMs, gap);
    }
  }

  lemma AtRestIsOnSchedule(s: ServoState, start: nat, now: nat, ticksPerMs: nat, gap: nat)
    requires 0 < ticksPerMs && Distance(s) == 0
    ensures OnSchedule(s, start, now, ticksPerMs, gap)
  {
  }

  lemma {:induction false} RunKeepsTiming(pl: Plant, tps: seq<TimedPoll>, tick: nat, ticksPerMs: nat, gap: nat)
    returns (start: nat)
    requires FastEnough(ticksPerMs, gap) && AllInTime(tick, tps, ticksPerMs, gap)
    requires TimingInv(pl, tick, tick, ticksPerMs, gap)
    ensures TimingInv(Polls(pl, Inputs(tps)), start, LastUpdate(tick, tps), ticksPerMs, gap)
  {
    if tps == [] {
      start := tick;
    } else {
      hide PlantPolled, TimingInv, InTime;
      var n := |tps| - 1;
      assert forall k | 0 <= k <= n :: tps[..n][..k] == tps[..k];
      assert Inputs(tps)[..n] == Inputs(tps[..n]);
      start := RunKeepsTiming(pl, tps[..n], tick, ticksPerMs, gap);
      start := PollKeepsTiming(Polls(pl, Inputs(tps[..n])), tps[n], start, LastUpdate(tick, tps[..n]), ticksPerMs, gap);
    }
  }

  /** A door reported open or closed is there. */
  predicate AsReported(pl: Plant) {
    && (pl.policy.door.motion == Opened ==> pl.servo.duty == OPEN_DUTY)
    && (pl.policy.door.motion == Closed ==> pl.servo.duty == CLOSE_DUTY)
  }

  /** The plant after the polls, with a working PWM output. */
  function After(tick: nat, tps: seq<TimedPoll>, ticksPerMs: nat): Plant {
    Polls(InitialPlant(true, SPEED_MS * ticksPerMs, tick), Inputs(tps))
  }

  /** After every poll of every run whose polls are frequent enough, a door reported open or closed
      is where the report says. */
  lemma ReportedPositionReached(tick: nat, tps: seq<TimedPoll>, ticksPerMs: nat, gap: nat)
    requires FastEnough(ticksPerMs, gap) && AllInTime(tick, tps, ticksPerMs, gap) && tps != []
    ensures AsReported(After(tick, tps, ticksPerMs))
  {
    hide Polls, Millis, OnSchedule;
    var pl := InitialPlant(true, SPEED_MS * ticksPerMs, tick);
    var start := RunKeepsTiming(pl, tps, tick, ticksPerMs, gap);
    AlwaysConsistent(pl, Inputs(tps));
  }

  /** Polls 2 ms apart are frequent enough, whatever the tick. */
  lemma PollBudget(ticksPerMs: nat, gap: nat)
    requires 0 < ticksPerMs
    ensures FastEnough(ticksPerMs, gap) <==> 99 * gap <= 199 * ticksPerMs + 100
    ensures gap <= 2 * ticksPerMs ==> FastEnough(ticksPerMs, gap)
  {
  }

  /** Without a working PWM output the duty never changes. */
  lemma {:induction false} NotReadyNeverMoves(pl: Plant, inputs: seq<PollInput>)
    requires !pl.servo.ready
    ensures Polls(pl, inputs).servo == pl.servo.(target := Polls(pl, inputs).servo.target)
  {
    if inputs != [] {
      hide PollRamp, PollPolicy, PolicyRun, PollDoor, Sensed;
      var n := |inputs| - 1;
      NotReadyNeverMoves(pl, inputs[..n]);
      NotReadyPoll(Polls(pl, inputs[..n]), inputs[n]);
    }
  }

  lemma NotReadyPoll(pl: Plant, input: PollInput)
    requires !pl.servo.ready
    ensures PlantPolled(pl, input).servo == pl.servo.(target := PlantPolled(pl, input).servo.target)
  {
    hide TxPolled, PolicyDecided, Sensed;
  }
}
