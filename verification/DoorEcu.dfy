/** The door controller: manual and automatic requests for door and ramp, the jam sensor, the timed
    estimate of where the door is, and the ramp requests that follow from them. */
module DoorEcu {
  import opened Bytes
  import opened Wire
  import opened Arq
  import opened RampAdapter
  import opened DoorServo

  /** How long the door is assumed to move: 100 steps of 15 ms and a margin. */
  const MOVE_ASSUMED_MS := (OPEN_DUTY - CLOSE_DUTY) * SPEED_MS + 200

  datatype Request = NoRequest | OpenRequest | CloseRequest

  datatype SlopeMode = NoMode | Auto | Manual

  datatype Motion = Unknown | Closed | Opening | Opened | Closing

  /** The requests that wait to be taken. */
  datatype Requests = Requests(
    doorManualOpen: bool,
    doorManualClose: bool,
    slopeManualOpen: bool,
    slopeManualClose: bool,
    slopeAutoOpen: bool,
    slopeAutoClose: bool)

  /** What the controller believes about the door. */
  datatype DoorState = DoorState(
    motionStartMs: Word,
    openEstimated: bool,
    lastActuation: Request,
    reportedOpen: bool,
    motion: Motion)

  datatype PolicyState = PolicyState(
    requests: Requests,
    door: DoorState,
    slopeTxPending: Byte,
    slopeOpenEstimated: bool,
    jam: bool)

  const INITIAL_POLICY := PolicyState(Requests(false, false, false, false, false, false),
                                      DoorState(0, false, NoRequest, false, Unknown), RAMP_NONE, false, false)

  /** The controller with the ramp adapter and the servo it drives. */
  datatype Plant = Plant(policy: PolicyState, adapter: AdapterState, servo: ServoState)

  // ----- Requests --------------------------------------------------------------------------

  /** The calls by which the BLE and the CAN side leave a request. */
  datatype Hook =
    | BleSlopeAuto(slope: Request)
    | CanDoorManual(door: Request)
    | CanSlope(slope: Request, mode: SlopeMode)

  function Requested(r: Requests, h: Hook): Requests {
    match h
    case BleSlopeAuto(slope) =>
      if slope == OpenRequest then r.(slopeAutoOpen := true, slopeAutoClose := false)
      else if slope == CloseRequest then r.(slopeAutoClose := true, slopeAutoOpen := false)
      else r
    case CanDoorManual(door) =>
      if door == OpenRequest then r.(doorManualOpen := true)
      else if door == CloseRequest then r.(doorManualClose := true)
      else r
    case CanSlope(slope, mode) =>
      if mode == Manual then
        if slope == OpenRequest then r.(slopeManualOpen := true)
        else if slope == CloseRequest then r.(slopeManualClose := true)
        else r
      else if mode == Auto then
        if slope == OpenRequest then r.(slopeAutoOpen := true)
        else if slope == CloseRequest then r.(slopeAutoClose := true)
        else r
      else r
  }

  function AllRequested(r: Requests, hooks: seq<Hook>): Requests {
    if hooks == [] then r else Requested(AllRequested(r, hooks[..|hooks| - 1]), hooks[|hooks| - 1])
  }

  // ----- Door ------------------------------------------------------------------------------

  /** A motion in the given direction begins. */
  function Moving(d: DoorState, direction: Request, now: Word): DoorState {
    d.(lastActuation := direction, motionStartMs := now, motion := if direction == OpenRequest then Opening else Closing)
  }

  function Estimated(d: DoorState, now: Word): DoorState {
    var moving := Elapsed(now, d.motionStartMs) < MOVE_ASSUMED_MS;
    match d.lastActuation
    case OpenRequest =>
      if moving then d.(motion := Opening, reportedOpen := d.openEstimated)
      else d.(openEstimated := true, motion := Opened, lastActuation := NoRequest, reportedOpen := true)
    case CloseRequest =>
      if moving then d.(motion := Closing, reportedOpen := d.openEstimated)
      else d.(openEstimated := false, motion := Closed, lastActuation := NoRequest, reportedOpen := false)
    case NoRequest =>
      d.(motion := if d.openEstimated then Opened else Closed, reportedOpen := d.openEstimated)
  }

  function OpenSideCancelled(p: PolicyState): PolicyState {
    p.(requests := p.requests.(doorManualOpen := false, slopeManualOpen := false, slopeAutoOpen := false),
       slopeTxPending := if p.slopeTxPending == RAMP_OPEN then RAMP_NONE else p.slopeTxPending)
  }

  function CloseSideCancelled(p: PolicyState): PolicyState {
    p.(requests := p.requests.(doorManualClose := false, slopeManualClose := false, slopeAutoClose := false),
       slopeTxPending := if p.slopeTxPending == RAMP_CLOSE then RAMP_NONE else p.slopeTxPending)
  }

  /** The jam handler acts when the door is closing or asked to close. */
  predicate JamActs(p: PolicyState) {
    p.jam && (p.door.motion == Closing || p.requests.doorManualClose)
  }

  function JamHandled(pl: Plant, now: Word): Plant {
    if JamActs(pl.policy) then
      pl.(policy := CloseSideCancelled(pl.policy).(door := Moving(pl.policy.door, OpenRequest, now)),
          servo := pl.servo.(target := OPEN_DUTY))
    else pl
  }

  // ----- Ramp ------------------------------------------------------------------------------

  function SuccessHandled(pl: Plant): Plant {
    if !pl.adapter.successPending then pl
    else
      var slope := pl.adapter.successCmd % 4;
      pl.(adapter := pl.adapter.(successPending := false),
          policy := pl.policy.(
            slopeOpenEstimated := if slope == RAMP_OPEN then true
                                  else if slope == RAMP_CLOSE then false
                                  else pl.policy.slopeOpenEstimated,
            slopeTxPending := if (slope == RAMP_OPEN || slope == RAMP_CLOSE) && pl.policy.slopeTxPending == slope
                              then RAMP_NONE else pl.policy.slopeTxPending))
  }

  function Issued(pl: Plant): Plant {
    if pl.policy.slopeTxPending == RAMP_NONE || pl.adapter.sender.waitingAck then pl
    else if pl.policy.slopeTxPending == RAMP_OPEN then pl.(adapter := pl.adapter.(desired := RAMP_OPEN))
    else if pl.policy.slopeTxPending == RAMP_CLOSE then pl.(adapter := pl.adapter.(desired := RAMP_CLOSE))
    else pl
  }

  // ----- Policy ----------------------------------------------------------------------------

  predicate OpenedOrOpening(d: DoorState) {
    d.reportedOpen || d.motion == Opening || d.motion == Opened
  }

  /** The automatic ramp rules, which apply when no manual ramp or door close request was taken. */
  function AutoRules(p: PolicyState, busy: bool): PolicyState {
    if p.requests.slopeAutoOpen && OpenedOrOpening(p.door) then
      p.(requests := p.requests.(slopeAutoOpen := false),
         slopeTxPending := if !p.slopeOpenEstimated then RAMP_OPEN else p.slopeTxPending)
    else if p.requests.slopeAutoClose then
      if !p.slopeOpenEstimated && p.slopeTxPending != RAMP_OPEN && !busy then
        p.(requests := p.requests.(slopeAutoClose := false))
      else if p.door.motion == Closing then
        p.(requests := p.requests.(slopeAutoClose := false),
           slopeTxPending := if p.slopeOpenEstimated || p.slopeTxPending == RAMP_OPEN then RAMP_CLOSE
                             else p.slopeTxPending)
      else p
    else p
  }

  /** A manual ramp close wins over a manual ramp open. */
  function SlopeManualTaken(p: PolicyState): PolicyState {
    if p.requests.slopeManualClose then
      p.(requests := p.requests.(slopeManualClose := false, slopeAutoOpen := false, slopeManualOpen := false),
         slopeTxPending := RAMP_CLOSE)
    else
      p.(requests := p.requests.(slopeManualOpen := false, slopeAutoClose := false, slopeManualClose := false),
         slopeTxPending := RAMP_OPEN)
  }

  /** Closing the door cancels everything that opens and takes the ramp with it. */
  function DoorCloseTaken(p: PolicyState, now: Word): PolicyState {
    var q := OpenSideCancelled(p);
    q.(requests := q.requests.(doorManualClose := false, slopeAutoClose := true),
       door := Moving(p.door, CloseRequest, now), slopeTxPending := RAMP_CLOSE)
  }

  function DoorOpenTaken(p: PolicyState, now: Word): PolicyState {
    p.(requests := p.requests.(doorManualOpen := false), door := Moving(p.door, OpenRequest, now))
  }

  function PolicyDecided(p: PolicyState, busy: bool, now: Word): PolicyState {
    if p.requests.doorManualClose then DoorCloseTaken(p, now)
    else if p.requests.slopeManualClose || p.requests.slopeManualOpen then SlopeManualTaken(p)
    else AutoRules(if p.requests.doorManualOpen then DoorOpenTaken(p, now) else p, busy)
  }

  /** Where the servo is sent by the same decision. */
  function TargetDecided(r: Requests, target: int): int {
    if r.doorManualClose then CLOSE_DUTY
    else if !r.slopeManualClose && !r.slopeManualOpen && r.doorManualOpen then OPEN_DUTY
    else target
  }

  function PolicyRun(pl: Plant, now: Word): Plant {
    pl.(policy := PolicyDecided(pl.policy, pl.adapter.sender.waitingAck, now),
        servo := pl.servo.(target := TargetDecided(pl.policy.requests, pl.servo.target)))
  }

  /** What one poll reads: the requests left since the last poll, the jam sensor, the bytes received
      on the ramp link, and the clock each time it is read. */
  datatype PollInput = PollInput(
    hooks: seq<Hook>,
    jam: bool,
    rx: seq<Byte>,
    estimateNow: Word,
    jamNow: Word,
    retryNow: Word,
    startNow: Word,
    policyNow: Word,
    servoTick: nat)

  function Sensed(p: PolicyState, input: PollInput): PolicyState {
    p.(requests := AllRequested(p.requests, input.hooks),
       door := Estimated(p.door, input.estimateNow),
       jam := input.jam)
  }

  /** The first half of a poll, up to the ramp adapter. */
  function PollDoor(pl: Plant, input: PollInput): Plant {
    JamHandled(pl.(policy := Sensed(pl.policy, input)), input.jamNow)
  }

  function PollRamp(pl: Plant, input: PollInput): Plant {
    SuccessHandled(pl.(adapter := TxPolled(pl.adapter, input.rx, input.retryNow, input.startNow)))
  }

  function PollPolicy(pl: Plant, input: PollInput): Plant {
    var decided := PolicyRun(pl, input.policyNow);
    Issued(decided.(servo := Updated(decided.servo, input.servoTick)))
  }

  function PlantPolled(pl: Plant, input: PollInput): Plant {
    PollPolicy(PollRamp(PollDoor(pl, input), input), input)
  }

  function Polls(pl: Plant, inputs: seq<PollInput>): Plant {
    if inputs == [] then pl else PlantPolled(Polls(pl, inputs[..|inputs| - 1]), inputs[|inputs| - 1])
  }

  function InitialPlant(ready: bool, interval: nat, tick: nat): Plant {
    Plant(INITIAL_POLICY, INITIAL_ADAPTER, ServoState(ready, CLOSE_DUTY, CLOSE_DUTY, tick, interval))
  }

  // ----- The controller in place -----------------------------------------------------------

  class Controller {
    const adapter: Adapter
    const servo: Servo
    var doorManualOpenPending: bool
    var doorManualClosePending: bool
    var slopeManualOpenPending: bool
    var slopeManualClosePending: bool
    var slopeAutoOpenStocked: bool
    var slopeAutoCloseStocked: bool
    var slopeTxPending: Byte
    var slopeOpenEstimated: bool
    var doorMotionStartMs: Word
    var doorOpenEstimated: bool
    var lastDoorActuation: Request
    var doorOpened: bool
    var jamDetected: bool
    var doorMotion: Motion

    ghost predicate Valid()
      reads this, adapter, adapter.sender
    {
      adapter.Valid()
    }

    ghost function Policy(): PolicyState
      reads this
    {
      PolicyState(RequestsView(), DoorView(), slopeTxPending, slopeOpenEstimated, jamDetected)
    }

    ghost function RequestsView(): Requests
      reads this
    {
      Requests(doorManualOpenPending, doorManualClosePending, slopeManualOpenPending, slopeManualClosePending,
               slopeAutoOpenStocked, slopeAutoCloseStocked)
    }

    ghost function DoorView(): DoorState
      reads this
    {
      DoorState(doorMotionStartMs, doorOpenEstimated, lastDoorActuation, doorOpened, doorMotion)
    }

    ghost function View(): Plant
      reads this, servo, adapter, adapter.sender, adapter.sender.pendingFrame, adapter.parser
    {
      Plant(Policy(), adapter.View(), servo.View())
    }

    constructor (ready: bool, ticksPerMs: nat, tick: nat)
      ensures Valid() && View() == InitialPlant(ready, SPEED_MS * ticksPerMs, tick)
      ensures fresh(adapter) && fresh(servo)
      ensures fresh(adapter.sender) && fresh(adapter.sender.pendingFrame) && fresh(adapter.parser)
    {
      doorManualOpenPending := false;
      doorManualClosePending := false;
      slopeManualOpenPending := false;
      slopeManualClosePending := false;
      slopeAutoOpenStocked := false;
      slopeAutoCloseStocked := false;
      slopeTxPending := RAMP_NONE;
      slopeOpenEstimated := false;
      doorMotionStartMs := 0;
      doorOpenEstimated := false;
      lastDoorActuation := NoRequest;
      doorOpened := false;
      jamDetected := false;
      doorMotion := Unknown;
      adapter := new Adapter();
      servo := new Servo(ready, ticksPerMs, tick);
    }

    method OnBleSlopeAutoRequest(slope: Request)
      modifies this
      ensures Policy() == old(Policy()).(requests := Requested(old(RequestsView()), BleSlopeAuto(slope)))
    {
      if slope == OpenRequest {
        slopeAutoOpenStocked := true;
        slopeAutoCloseStocked := false;
      } else if slope == CloseRequest {
        slopeAutoCloseStocked := true;
        slopeAutoOpenStocked := false;
      }
    }

    method OnDriverCanDoorManualRequest(door: Request)
      modifies this
      ensures Policy() == old(Policy()).(requests := Requested(old(RequestsView()), CanDoorManual(door)))
    {
      if door == OpenRequest {
        doorManualOpenPending := true;
      } else if door == CloseRequest {
        doorManualClosePending := true;
      }
    }

    method OnDriverCanSlopeRequest(slope: Request, mode: SlopeMode)
      modifies this
      ensures Policy() == old(Policy()).(requests := Requested(old(RequestsView()), CanSlope(slope, mode)))
    {
      if mode == Manual {
        if slope == OpenRequest {
          slopeManualOpenPending := true;
        } else if slope == CloseRequest {
          slopeManualClosePending := true;
        }
      } else if mode == Auto {
        if slope == OpenRequest {
          slopeAutoOpenStocked := true;
        } else if slope == CloseRequest {
          slopeAutoCloseStocked := true;
        }
      }
    }

    method HandleRequests(hooks: seq<Hook>)
      modifies this
      ensures Policy() == old(Policy()).(requests := AllRequested(old(RequestsView()), hooks))
    {
      for i := 0 to |hooks|
        invariant Policy() == old(Policy()).(requests := AllRequested(old(RequestsView()), hooks[..i]))
      {
        assert hooks[..i + 1][..i] == hooks[..i];
        match hooks[i]
        case BleSlopeAuto(slope) => OnBleSlopeAutoRequest(slope);
        case CanDoorManual(door) => OnDriverCanDoorManualRequest(door);
        case CanSlope(slope, mode) => OnDriverCanSlopeRequest(slope, mode);
      }
      assert hooks[..|hooks|] == hooks;
    }

    method ApplyDoorOpen(now: Word)
      modifies this, servo
      ensures Policy() == old(Policy()).(door := Moving(old(DoorView()), OpenRequest, now))
      ensures servo.View() == old(servo.View()).(target := OPEN_DUTY)
    {
      servo.DriveOpen();
      lastDoorActuation := OpenRequest;
      doorMotionStartMs := now;
      doorMotion := Opening;
    }

    method ApplyDoorClose(now: Word)
      modifies this, servo
      ensures Policy() == old(Policy()).(door := Moving(old(DoorView()), CloseRequest, now))
      ensures servo.View() == old(servo.View()).(target := CLOSE_DUTY)
    {
      servo.DriveClose();
      lastDoorActuation := CloseRequest;
      doorMotionStartMs := now;
      doorMotion := Closing;
    }

    method UpdateSensors(jam: bool, now: Word)
      modifies this
      ensures Policy() == old(Policy()).(door := Estimated(old(DoorView()), now), jam := jam)
    {
      jamDetected := jam;
      var elapsed := Elapsed(now, doorMotionStartMs);
      match lastDoorActuation {
        case OpenRequest =>
          if elapsed < MOVE_ASSUMED_MS {
            doorMotion := Opening;
          } else {
            doorOpenEstimated := true;
            doorMotion := Opened;
            lastDoorActuation := NoRequest;
          }
        case CloseRequest =>
          if elapsed < MOVE_ASSUMED_MS {
            doorMotion := Closing;
          } else {
            doorOpenEstimated := false;
            doorMotion := Closed;
            lastDoorActuation := NoRequest;
          }
        case NoRequest =>
          doorMotion := if doorOpenEstimated then Opened else Closed;
      }
      doorOpened := doorOpenEstimated;
    }

    method CancelOpenSideRequests()
      modifies this
      ensures Policy() == OpenSideCancelled(old(Policy()))
    {
      doorManualOpenPending := false;
      slopeManualOpenPending := false;
      slopeAutoOpenStocked := false;
      if slopeTxPending == RAMP_OPEN {
        slopeTxPending := RAMP_NONE;
      }
    }

    method CancelCloseSideRequests()
      modifies this
      ensures Policy() == CloseSideCancelled(old(Policy()))
    {
      doorManualClosePending := false;
      slopeManualClosePending := false;
      slopeAutoCloseStocked := false;
      if slopeTxPending == RAMP_CLOSE {
        slopeTxPending := RAMP_NONE;
      }
    }

    method HandleJamDuringClosing(now: Word)
      modifies this, servo
      ensures View() == JamHandled(old(View()), now)
    {
      if !jamDetected {
        return;
      }
      if doorMotion != Closing && !doorManualClosePending {
        return;
      }
      CancelCloseSideRequests();
      ApplyDoorOpen(now);
    }

    method HandleSlopeTxSuccess()
      requires Valid()
      modifies this, adapter
      ensures Valid() && View() == SuccessHandled(old(View()))
    {
      var available, cmd := adapter.ConsumeTxSuccess();
      if !available {
        return;
      }
      var slope := cmd % 4;
      if slope == RAMP_OPEN {
        slopeOpenEstimated := true;
      } else if slope == RAMP_CLOSE {
        slopeOpenEstimated := false;
      }
      if (slope == RAMP_OPEN && slopeTxPending == RAMP_OPEN) || (slope == RAMP_CLOSE && slopeTxPending == RAMP_CLOSE) {
        slopeTxPending := RAMP_NONE;
      }
    }

    method IssuePendingSlopeCommand()
      requires Valid()
      modifies this, adapter
      ensures Valid() && View() == Issued(old(View()))
    {
      if slopeTxPending == RAMP_NONE {
        return;
      }
      var busy := adapter.TxIsBusy();
      if busy {
        return;
      }
      if slopeTxPending == RAMP_OPEN {
        adapter.RequestOpen();
      } else if slopeTxPending == RAMP_CLOSE {
        adapter.RequestClose();
      }
    }

    /** Rule 1: closing the door takes the ramp with it. */
    method TakeDoorManualClose(now: Word)
      requires doorManualClosePending
      modifies this, servo
      ensures Policy() == DoorCloseTaken(old(Policy()), now)
      ensures servo.View() == old(servo.View()).(target := CLOSE_DUTY)
    {
      ApplyDoorClose(now);
      doorManualClosePending := false;
      CancelOpenSideRequests();
      slopeAutoCloseStocked := true;
      slopeTxPending := RAMP_CLOSE;
    }

    /** Rules 2 and 3: manual ramp requests, whatever the door does. */
    method TakeSlopeManual()
      requires slopeManualClosePending || slopeManualOpenPending
      modifies this
      ensures Policy() == SlopeManualTaken(old(Policy()))
    {
      if slopeManualClosePending {
        slopeManualClosePending := false;
        slopeAutoOpenStocked := false;
        slopeManualOpenPending := false;
        slopeTxPending := RAMP_CLOSE;
        return;
      }
      slopeManualOpenPending := false;
      slopeAutoCloseStocked := false;
      slopeManualClosePending := false;
      slopeTxPending := RAMP_OPEN;
    }

    method RunPolicy(now: Word)
      requires Valid()
      modifies this, servo
      ensures Valid()
      ensures Policy() == PolicyDecided(old(Policy()), adapter.sender.waitingAck, now)
      ensures servo.View() == old(servo.View()).(target := TargetDecided(old(RequestsView()), old(servo.targetDuty)))
    {
      hide AutoRules, DoorCloseTaken, SlopeManualTaken;
      if doorManualClosePending {
        TakeDoorManualClose(now);
        return;
      }
      if slopeManualClosePending || slopeManualOpenPending {
        TakeSlopeManual();
        return;
      }
      var doorOpenAboutToHappen := false;
      if doorManualOpenPending {
        ApplyDoorOpen(now);
        doorOpenAboutToHappen := true;
        doorManualOpenPending := false;
      }
      RunAutoSlopeRules(doorOpenAboutToHappen, false);
    }

    /** The last two rules of the policy. */
    method RunAutoSlopeRules(doorOpenAboutToHappen: bool, doorCloseAboutToHappen: bool)
      requires doorOpenAboutToHappen ==> doorMotion == Opening
      requires doorCloseAboutToHappen ==> doorMotion == Closing
      modifies this
      ensures Policy() == AutoRules(old(Policy()), adapter.sender.waitingAck)
    {
      if slopeAutoOpenStocked {
        if doorOpened || doorMotion == Opening || doorMotion == Opened || doorOpenAboutToHappen {
          slopeAutoOpenStocked := false;
          if !slopeOpenEstimated {
            slopeTxPending := RAMP_OPEN;
          }
          return;
        }
      }

      if slopeAutoCloseStocked {
        var busy := adapter.TxIsBusy();
        var slopeOpenOrOpening := slopeOpenEstimated || slopeTxPending == RAMP_OPEN || busy;
        if !slopeOpenOrOpening {
          slopeAutoCloseStocked := false;
        } else if doorMotion == Closing || doorCloseAboutToHappen {
          slopeAutoCloseStocked := false;
          if slopeOpenEstimated || slopeTxPending == RAMP_OPEN {
            slopeTxPending := RAMP_CLOSE;
          }
          return;
        }
      }
    }

    method Poll(input: PollInput)
      requires Valid()
      modifies this, servo, adapter, adapter.sender, adapter.sender.pendingFrame, adapter.parser
      ensures Valid() && View() == PlantPolled(old(View()), input)
    {
      HandleRequests(input.hooks);
      UpdateSensors(input.jam, input.estimateNow);
      HandleJamDuringClosing(input.jamNow);
      assert View() == PollDoor(old(View()), input);
      adapter.TxPoll(input.rx, input.retryNow, input.startNow);
      HandleSlopeTxSuccess();
      assert View() == PollRamp(PollDoor(old(View()), input), input);
      RunPolicy(input.policyNow);
      servo.Update(input.servoTick);
      IssuePendingSlopeCommand();
    }
  }
}
