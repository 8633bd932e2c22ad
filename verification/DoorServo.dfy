/** The servo that moves the door: a duty value that follows its target in steps of a tenth of a
    percent, one step per interval. Duties are counted in tenths of a percent. */
module DoorServo {

  const OPEN_DUTY := 125
  const CLOSE_DUTY := 25
  const SPEED_MS := 15

  datatype ServoState = ServoState(ready: bool, duty: int, target: int, lastTick: nat, interval: nat)

  function Stepped(duty: int, target: int): int {
    if duty < target then
      (if 2 * (duty + 1) > 2 * target - 1 then target else duty + 1)
    else
      (if 2 * (duty - 1) < 2 * target + 1 then target else duty - 1)
  }

  function Updated(s: ServoState, tick: nat): ServoState {
    if s.ready && s.duty != s.target && tick - s.lastTick >= s.interval
    then s.(duty := Stepped(s.duty, s.target), lastTick := tick)
    else s
  }

  class Servo {
    const ready: bool
    var currentDuty: int
    var targetDuty: int
    var lastUpdateTick: nat
    const tickInterval: nat

    ghost function View(): ServoState
      reads this
    {
      ServoState(ready, currentDuty, targetDuty, lastUpdateTick, tickInterval)
    }

    /** `ready` is the outcome of setting up the timer and the PWM output. */
    constructor (ready: bool, ticksPerMs: nat, tick: nat)
      ensures View() == ServoState(ready, CLOSE_DUTY, CLOSE_DUTY, tick, SPEED_MS * ticksPerMs)
    {
      this.ready := ready;
      currentDuty := CLOSE_DUTY;
      targetDuty := CLOSE_DUTY;
      lastUpdateTick := tick;
      tickInterval := SPEED_MS * ticksPerMs;
    }

    method DriveOpen()
      modifies this`targetDuty
      ensures targetDuty == OPEN_DUTY
    {
      targetDuty := OPEN_DUTY;
    }

    method DriveClose()
      modifies this`targetDuty
      ensures targetDuty == CLOSE_DUTY
    {
      targetDuty := CLOSE_DUTY;
    }

    method Update(tick: nat)
      modifies this
      ensures View() == Updated(old(View()), tick)
    {
      if !ready {
        return;
      }
      if currentDuty > targetDuty || currentDuty < targetDuty {
        if tick - lastUpdateTick >= tickInterval {
          lastUpdateTick := tick;
          if currentDuty < targetDuty {
            currentDuty := currentDuty + 1;
            if 2 * currentDuty > 2 * targetDuty - 1 {
              currentDuty := targetDuty;
            }
          } else {
            currentDuty := currentDuty - 1;
            if 2 * currentDuty < 2 * targetDuty + 1 {
              currentDuty := targetDuty;
            }
          }
        }
      }
    }
  }

  function Distance(s: ServoState): nat {
    if s.duty < s.target then s.target - s.duty else s.duty - s.target
  }

  /** A step always closes exactly one tenth of the distance to the target. */
  lemma StepCloses(s: ServoState, tick: nat)
    ensures Distance(Updated(s, tick)) ==
            if s.ready && s.duty != s.target && tick - s.lastTick >= s.interval then Distance(s) - 1 else Distance(s)
  {
  }
}
