/** The poll budget of the servo is exact: with polls any further apart there is a run on which the door is reported
    open before it is. And without a working servo there is one in any case. */
module DoorBudget {
  import opened Bytes
  import opened RampAdapter
  import opened DoorServo
  import opened DoorEcu
  import opened DoorTiming

  const NO_REQUESTS := Requests(false, false, false, false, false, false)

  /** A poll that reads nothing but the clock. */
  function ClockPoll(hooks: seq<Hook>, now: Word, tick: nat): PollInput {
    PollInput(hooks, false, [], now, now, now, now, now, tick)
  }

  function TimedAt(hooks: seq<Hook>, tick: nat, ticksPerMs: nat): TimedPoll
    requires 0 < ticksPerMs
  {
    TimedPoll(ClockPoll(hooks, Millis(tick, ticksPerMs), tick), tick, tick, tick)
  }

  lemma RampHalfKeeps(pl: Plant, input: PollInput)
    ensures
      var after := PollRamp(pl, input);
      after.servo == pl.servo && after.policy.requests == pl.policy.requests && after.policy.door == pl.policy.door
  {
    hide TxPolled;
  }

  /** Without requests a poll only moves the estimate and the servo on. */
  lemma QuietPolled(pl: Plant, now: Word, tick: nat)
    requires pl.policy.requests == NO_REQUESTS
    ensures
      var after := PlantPolled(pl, ClockPoll([], now, tick));
      after.policy.requests == NO_REQUESTS && after.policy.door == Estimated(pl.policy.door, now) &&
      after.servo == Updated(pl.servo, tick)
  {
    hide Estimated, Updated, PollRamp;
    var input := ClockPoll([], now, tick);
    assert AllRequested(NO_REQUESTS, []) == NO_REQUESTS;
    RampHalfKeeps(PollDoor(pl, input), input);
  }

  /** The first poll opens the door. */
  lemma OpeningPolled(ready: bool, interval: nat, now: Word, tick: nat)
    requires 0 < interval
    ensures
      var after := PlantPolled(InitialPlant(ready, interval, tick), ClockPoll([CanDoorManual(OpenRequest)], now, tick));
      after.policy.requests == NO_REQUESTS && after.policy.door == DoorState(now, false, OpenRequest, false, Opening) &&
      after.servo == ServoState(ready, CLOSE_DUTY, OPEN_DUTY, tick, interval)
  {
    hide PollRamp;
    var pl, hooks := InitialPlant(ready, interval, tick), [CanDoorManual(OpenRequest)];
    var input := ClockPoll(hooks, now, tick);
    assert hooks[..0] == [];
    assert AllRequested(NO_REQUESTS, hooks) == NO_REQUESTS.(doorManualOpen := true);
    RampHalfKeeps(PollDoor(pl, input), input);
  }

  // ----- The slowest run -------------------------------------------------------------------

  /** The door was sent to open in the last tick of millisecond 0. The servo has made `steps` steps, the last at tick
      `stepped`, each as late as it can be. */
  predicate Slowly(pl: Plant, steps: nat, stepped: nat, now: nat, ticksPerMs: nat, gap: nat)
    requires 0 < ticksPerMs
  {
    pl.policy.requests == NO_REQUESTS && pl.policy.door == DoorState(0, false, OpenRequest, false, Opening) &&
    pl.servo == ServoState(true, CLOSE_DUTY + steps, OPEN_DUTY, stepped, SPEED_MS * ticksPerMs) && steps < 100 &&
    stepped == ticksPerMs - 1 + Rounds(steps, StepTime(ticksPerMs, gap)) && stepped <= now < stepped + SPEED_MS * ticksPerMs
  }

  /** The next poll: every tick, and a gap before a step is due; not beyond the tick at which the wait ends. */
  function NextTick(stepped: nat, now: nat, ticksPerMs: nat, gap: nat): nat {
    if now + 1 < stepped + SPEED_MS * ticksPerMs then now + 1
    else if now + gap <= 1700 * ticksPerMs then now + gap
    else 1700 * ticksPerMs
  }

  predicate TooSlow(ticksPerMs: nat, gap: nat) {
    0 < ticksPerMs && !FastEnough(ticksPerMs, gap)
  }

  /** At the end of the wait the last step has not been made. */
  lemma StepsLeft(steps: nat, stepped: nat, tick: nat, ticksPerMs: nat, gap: nat)
    requires TooSlow(ticksPerMs, gap) && tick <= 1700 * ticksPerMs
    requires stepped == ticksPerMs - 1 + Rounds(steps, StepTime(ticksPerMs, gap))
    ensures stepped <= tick ==> steps < 100
    ensures stepped + SPEED_MS * ticksPerMs <= tick ==> steps < 99
  {
    var step := StepTime(ticksPerMs, gap);
    RoundsIsProduct(99, step);
    RoundsIsProduct(100, step);
    if steps >= 100 {
      RoundsMonotone(100, steps, step);
    } else if steps == 99 {
      assert Rounds(steps, step) == 99 * step;
    }
  }

  lemma MillisOf(tick: nat, ticksPerMs: nat)
    requires 0 < ticksPerMs && tick <= 1700 * ticksPerMs
    ensures Millis(ticksPerMs - 1, ticksPerMs) == 0
    ensures Millis(tick, ticksPerMs) <= 1700 && (Millis(tick, ticksPerMs) == 1700 <==> tick == 1700 * ticksPerMs)
  {
    var q := tick / ticksPerMs;
    assert tick == q * ticksPerMs + tick % ticksPerMs;
    AtMost(q, 1700, ticksPerMs);
    if q == 1700 {
      assert tick >= 1700 * ticksPerMs;
    }
    AddMultiple(0, 1700, ticksPerMs);
  }

  lemma AtMost(q: nat, n: nat, k: nat)
    requires 0 < k && q * k <= n * k
    ensures q <= n
  {
  }

  /** One poll of the slowest run, before the end of the wait. */
  lemma SlowPoll(pl: Plant, steps: nat, stepped: nat, now: nat, ticksPerMs: nat, gap: nat)
    returns (steps': nat, stepped': nat)
    requires TooSlow(ticksPerMs, gap) && 0 < gap && Slowly(pl, steps, stepped, now, ticksPerMs, gap)
    requires now < 1700 * ticksPerMs
    ensures
      var tick := NextTick(stepped, now, ticksPerMs, gap);
      var after := PlantPolled(pl, TimedAt([], tick, ticksPerMs).input);
      now < tick <= now + gap && tick <= 1700 * ticksPerMs &&
      if tick < 1700 * ticksPerMs then Slowly(after, steps', stepped', tick, ticksPerMs, gap)
      else after.policy.door.motion == Opened && after.servo.duty < OPEN_DUTY
  {
    hide Millis;
    var tick := NextTick(stepped, now, ticksPerMs, gap);
    MillisOf(tick, ticksPerMs);
    StepsLeft(steps, stepped, tick, ticksPerMs, gap);
    QuietPolled(pl, Millis(tick, ticksPerMs), tick);
    if tick - stepped >= SPEED_MS * ticksPerMs {
      steps', stepped' := steps + 1, tick;
    } else {
      steps', stepped' := steps, stepped;
    }
  }

  lemma PollsAppend(tick: nat, tps: seq<TimedPoll>, tp: TimedPoll, ticksPerMs: nat, gap: nat)
    requires 0 < ticksPerMs && AllInTime(tick, tps, ticksPerMs, gap)
    requires InTime(tp, LastUpdate(tick, tps), ticksPerMs, gap)
    ensures AllInTime(tick, tps + [tp], ticksPerMs, gap) && LastUpdate(tick, tps + [tp]) == tp.input.servoTick
    ensures After(tick, tps + [tp], ticksPerMs) == PlantPolled(After(tick, tps, ticksPerMs), tp.input)
  {
    hide PlantPolled, InTime;
    var longer := tps + [tp];
    assert Inputs(longer)[..|tps|] == Inputs(tps);
    forall n | 0 <= n < |longer|
      ensures InTime(longer[n], LastUpdate(tick, longer[..n]), ticksPerMs, gap)
    {
      if n < |tps| {
        assert longer[..n] == tps[..n];
      } else {
        assert longer[..n] == tps;
      }
    }
  }

  /** The slowest run can be continued until the door is wrongly reported open. */
  lemma {:induction false} SlowRun(tps: seq<TimedPoll>, steps: nat, stepped: nat, now: nat, ticksPerMs: nat, gap: nat)
    returns (run: seq<TimedPoll>)
    requires TooSlow(ticksPerMs, gap) && 0 < gap && now < 1700 * ticksPerMs
    requires AllInTime(ticksPerMs - 1, tps, ticksPerMs, gap) && LastUpdate(ticksPerMs - 1, tps) == now
    requires Slowly(After(ticksPerMs - 1, tps, ticksPerMs), steps, stepped, now, ticksPerMs, gap)
    ensures AllInTime(ticksPerMs - 1, run, ticksPerMs, gap) && run != []
    ensures !AsReported(After(ticksPerMs - 1, run, ticksPerMs))
    decreases 1700 * ticksPerMs - now
  {
    hide Slowly, PlantPolled, NextTick, Millis, After, AllInTime;
    var tick := NextTick(stepped, now, ticksPerMs, gap);
    var tp := TimedAt([], tick, ticksPerMs);
    var steps', stepped' := SlowPoll(After(ticksPerMs - 1, tps, ticksPerMs), steps, stepped, now, ticksPerMs, gap);
    PollsAppend(ticksPerMs - 1, tps, tp, ticksPerMs, gap);
    if tick < 1700 * ticksPerMs {
      run := SlowRun(tps + [tp], steps', stepped', tick, ticksPerMs, gap);
    } else {
      run := tps + [tp];
    }
  }

  lemma SlowestRun(ticksPerMs: nat, gap: nat) returns (run: seq<TimedPoll>)
    requires TooSlow(ticksPerMs, gap)
    ensures AllInTime(ticksPerMs - 1, run, ticksPerMs, gap) && run != []
    ensures !AsReported(After(ticksPerMs - 1, run, ticksPerMs))
  {
    hide PlantPolled, Millis;
    var start, hooks := ticksPerMs - 1, [CanDoorManual(OpenRequest)];
    var tp := TimedAt(hooks, start, ticksPerMs);
    MillisOf(start, ticksPerMs);
    OpeningPolled(true, SPEED_MS * ticksPerMs, 0, start);
    var none: seq<TimedPoll> := [];
    PollsAppend(start, none, tp, ticksPerMs, gap);
    run := SlowRun(none + [tp], 0, start, start, ticksPerMs, gap);
  }

  /** The door is always where it is reported, on every run with polls at most `gap` apart, exactly when 99 gaps fit into 199 ms
      and 100 ticks. Polls 2 ms apart do, whatever the tick. */
  lemma ReachedExactlyWhen(ticksPerMs: nat, gap: nat)
    requires 0 < ticksPerMs
    ensures (forall tick: nat, tps :: AllInTime(tick, tps, ticksPerMs, gap) && tps != [] ==>
               AsReported(After(tick, tps, ticksPerMs))) <==>
            99 * gap <= 199 * ticksPerMs + 100
  {
    hide AllInTime, After, AsReported;
    PollBudget(ticksPerMs, gap);
    if FastEnough(ticksPerMs, gap) {
      forall tick: nat, tps | AllInTime(tick, tps, ticksPerMs, gap) && tps != []
        ensures AsReported(After(tick, tps, ticksPerMs))
      {
        ReportedPositionReached(tick, tps, ticksPerMs, gap);
      }
    } else {
      var run := SlowestRun(ticksPerMs, gap);
    }
  }

  // ----- No servo --------------------------------------------------------------------------

  /** Without a working PWM output there is a run after which the door is reported open and has not moved. */
  lemma NotReadyIsMisreported(interval: nat, tick: nat) returns (inputs: seq<PollInput>)
    requires 0 < interval
    ensures
      var after := Polls(InitialPlant(false, interval, tick), inputs);
      after.policy.door.motion == Opened && after.servo.duty == CLOSE_DUTY
  {
    hide PlantPolled;
    var open, later := ClockPoll([CanDoorManual(OpenRequest)], 0, tick), ClockPoll([], MOVE_ASSUMED_MS, tick);
    OpeningPolled(false, interval, 0, tick);
    var pl := InitialPlant(false, interval, tick);
    QuietPolled(PlantPolled(pl, open), MOVE_ASSUMED_MS, tick);
    inputs := [open, later];
    assert inputs[..1] == [open] && [open][..0] == [];
    assert Polls(pl, [open]) == PlantPolled(pl, open);
  }
}
