/** A pending ramp command is sent: the controller hands it to an idle adapter, the next poll transmits it, and it stays in
    flight until the ramp was told. */
module RampProgress {
  import opened Bytes
  import opened Wire
  import opened Arq
  import opened Link
  import opened RampAdapter
  import opened DoorServo
  import opened DoorEcu
  import opened DoorSafety
  import opened RampSystem

  // ----- The adapter -----------------------------------------------------------------------

  /** An idle adapter has no command queued. */
  predicate QueueInv(a: AdapterState) {
    !a.sender.waitingAck ==> a.lastQueued == RAMP_NONE || a.lastQueued == NOTHING_QUEUED
  }

  /** A poll that leaves the sender idle leaves nothing to send. */
  lemma TxPollLeavesNothing(a: AdapterState, rx: seq<Byte>, retryNow: Word, startNow: Word)
    requires AdapterInv(a) && QueueInv(a)
    ensures
      var b := TxPolled(a, rx, retryNow, startNow);
      QueueInv(b) && (!b.sender.waitingAck ==> b.desired == b.lastQueued == RAMP_NONE)
  {
    hide Elapsed, OnBytes;
    Reading(a, rx);
    assert forall c: Byte | c <= 2 :: Sendable(RampLink, c);
  }

  /** What holds after every poll: an idle adapter desires exactly the pending command, which it has not queued. */
  predicate IdleRule(pl: Plant) {
    pl.policy.slopeTxPending <= 2 && AdapterInv(pl.adapter) && QueueInv(pl.adapter) &&
    (!pl.adapter.sender.waitingAck ==> pl.adapter.lastQueued == 0 && pl.adapter.desired == pl.policy.slopeTxPending)
  }

  predicate BeforeRule(pl: Plant) {
    pl.policy.slopeTxPending <= 2 && AdapterInv(pl.adapter) && QueueInv(pl.adapter)
  }

  lemma PendingIsACommand(pl: Plant, input: PollInput)
    requires pl.policy.slopeTxPending <= 2
    ensures PlantPolled(pl, input).policy.slopeTxPending <= 2
  {
    hide TxPolled, Estimated, AllRequested, Updated;
  }

  /** The end of a poll: an idle adapter is given the pending command. */
  lemma IssuesPending(pl: Plant, input: PollInput)
    requires pl.policy.slopeTxPending <= 2
    ensures
      var polled := TxPolled(pl.adapter, input.rx, input.retryNow, input.startNow);
      var after := PlantPolled(pl, input);
      after.adapter ==
      polled.(successPending := false,
              desired := if !polled.sender.waitingAck && after.policy.slopeTxPending != 0 then after.policy.slopeTxPending
                         else polled.desired)
  {
    hide TxPolled, Estimated, AllRequested, Updated, PolicyDecided;
    PendingIsACommand(pl, input);
  }

  lemma PollGivesIdleRule(pl: Plant, input: PollInput)
    requires BeforeRule(pl)
    ensures IdleRule(PlantPolled(pl, input))
  {
    hide PlantPolled, TxPolled, AdapterInv;
    PendingIsACommand(pl, input);
    IssuesPending(pl, input);
    TxPollLeavesNothing(pl.adapter, input.rx, input.retryNow, input.startNow);
    AdapterInvKept(pl, input);
  }

  /** An idle adapter that desires a command starts it in its poll, and writes its frame; one that desires none writes
      nothing. */
  lemma IdleAdapterPolled(a: AdapterState, rx: seq<Byte>, retryNow: Word, startNow: Word)
    requires !a.sender.waitingAck && a.lastQueued == 0 && a.desired <= 2 && !a.successPending
    ensures
      var b := TxPolled(a, rx, retryNow, startNow);
      !b.successPending &&
      if a.desired == 0 then b == a.(parser := b.parser) && TxWritten(a, rx, retryNow, startNow) == []
      else
        b.sender == Started(a.sender, a.desired, startNow) && b.inflight == b.desired == a.desired &&
        TxWritten(a, rx, retryNow, startNow) == Encode(DataFrame(a.sender.nextSeq, a.desired))
  {
    hide Elapsed, OnBytes, Encode;
    Reading(a, rx);
    assert forall c: Byte | c <= 2 :: Sendable(RampLink, c);
  }

  // ----- The system ------------------------------------------------------------------------

  /** What reading leaves of an idle adapter and of its link. */
  lemma IdleReads(a: AdapterState, l: State, offset: nat, open: bool, n: nat)
    requires RampInv(a, l, open) && LinkOk(l) && Within(l, 0x100) && ParserAt(a.parser, l.acks, offset)
    requires n <= |Unread(l.acks, offset)| && !a.sender.waitingAck
    ensures
      var b, m := OnBytes(a, Unread(l.acks, offset)[..n]), TakeBytes(l, offset, n).0;
      && b == a.(parser := b.parser) && m.sender == l.sender == a.sender && m.kind == RampLink
      && m.started == l.started && m.data == l.data && m.sender.nextSeq == SeqOf(|l.started|)
  {
    hide OnBytes, TakeBytes, Within, Unread, ParserAt, AcksProven, RampOpen;
    Reading(a, Unread(l.acks, offset)[..n]);
    ReadBytes(a, l, offset, open, n);
    NextNumber(TakeBytes(l, offset, n).0);
  }

  lemma NextNumber(l: State)
    requires LinkOk(l)
    ensures l.sender.nextSeq == SeqOf(|l.started|)
  {
  }

  /** An idle sender is not polled into anything, and the link starts what the adapter starts. */
  lemma IdleLinkPolled(a: AdapterState, l: State, offset: nat, open: bool, n: nat, retryNow: Word, startNow: Word)
    requires RampInv(a, l, open) && LinkOk(l) && Within(l, 0x100) && ParserAt(a.parser, l.acks, offset)
    requires n <= |Unread(l.acks, offset)| && !a.sender.waitingAck && a.lastQueued == 0 && a.desired <= 2
    ensures
      var m := LinkPolled(l, offset, a, n, retryNow, startNow);
      if a.desired == 0 then m.started == l.started && m.data == l.data
      else
        m.started == l.started + [a.desired] &&
        m.data == l.data + [Tagged(|l.started|, Encode(DataFrame(SeqOf(|l.started|), a.desired)))]
  {
    hide OnBytes, TakeBytes, Within, Unread, ParserAt, RampInv, LinkOk, Elapsed, Encode;
    IdleReads(a, l, offset, open, n);
    assert forall c: Byte | c <= 2 :: Sendable(RampLink, c);
  }

  predicate HasPolled(es: seq<SystemEvent>) {
    exists i :: 0 <= i < |es| && es[i].Poll?
  }

  lemma NextKeepsIdleRule(s: System, e: SystemEvent)
    requires BeforeRule(s.plant)
    ensures BeforeRule(Next(s, e).plant) && (e.Poll? || IdleRule(s.plant) ==> IdleRule(Next(s, e).plant))
  {
    hide PlantPolled, BeforeRule, IdleRule, LinkPolled;
    if e.Poll? {
      PollGivesIdleRule(s.plant, PollRead(s, e));
      IdleIsBefore(Next(s, e).plant);
    }
  }

  lemma IdleIsBefore(pl: Plant)
    ensures IdleRule(pl) ==> BeforeRule(pl)
  {
  }

  lemma {:induction false} RunsKeepIdleRule(s: System, es: seq<SystemEvent>)
    requires BeforeRule(s.plant)
    ensures BeforeRule(Runs(s, es).plant) && (HasPolled(es) ==> IdleRule(Runs(s, es).plant))
  {
    hide BeforeRule, IdleRule, Next;
    if es != [] {
      var n := |es| - 1;
      RunsKeepIdleRule(s, es[..n]);
      NextKeepsIdleRule(Runs(s, es[..n]), es[n]);
      if i :| 0 <= i < |es| && es[i].Poll? {
        assert i < n ==> es[..n][i].Poll?;
      }
    }
  }

  /** The facts of a poll of an idle, reachable system. */
  lemma IdlePoll(s: System, e: SystemEvent)
    requires SystemInv(s) && Within(s.link, 0x100) && IdleRule(s.plant) && e.Poll? && !s.plant.adapter.sender.waitingAck
    ensures Transmits(s, e, s.plant.policy.slopeTxPending)
  {
    hide PlantPolled, TxPolled, TxWritten, LinkPolled, Within, LinkOk, RampInv, ParserAt, Encode, Started, Unread, AdapterInv;
    var a, l, input := s.plant.adapter, s.link, PollRead(s, e);
    NoSuccessBetween(a);
    IdleAdapterPolled(a, input.rx, input.retryNow, input.startNow);
    IssuesPending(s.plant, input);
    IdleLinkPolled(a, l, s.offset, s.plant.policy.slopeOpenEstimated, Arrived(s, e), input.retryNow, input.startNow);
    StartedWaits(a.sender, a.desired, input.startNow);
    NextNumberOf(s);
  }

  lemma NoSuccessBetween(a: AdapterState)
    requires AdapterInv(a)
    ensures !a.successPending
  {
  }

  lemma NextNumberOf(s: System)
    requires SystemInv(s)
    ensures s.plant.adapter.sender.nextSeq == SeqOf(|s.link.started|)
  {
    hide RampOpen, ParserAt, LinkOk;
    NextNumber(s.link);
  }

  /** In this poll the controller sends exactly the command `c`, or nothing if there is none: its frame with the next number is
      written to the UART and put on the link, the command is recorded as started, and the sender waits with it in
      flight. */
  predicate Transmits(s: System, e: SystemEvent, c: Byte)
    requires e.Poll?
  {
    var after, input := Next(s, e), PollRead(s, e);
    var written := TxWritten(s.plant.adapter, input.rx, input.retryNow, input.startNow);
    if c == 0 then after.link.started == s.link.started && after.link.data == s.link.data && written == []
    else
      && after.link.started == s.link.started + [c]
      && written == Encode(DataFrame(SeqOf(|s.link.started|), c))
      && after.link.data == s.link.data + [Tagged(|s.link.started|, written)]
      && after.plant.adapter.sender.waitingAck && after.plant.adapter.inflight == c
  }

  /** On every run: whenever, some time after the first poll, the ramp sender is idle, the next poll sends the command that is
      pending, open or close, and nothing if none is. */
  lemma PendingIsSent(ready: bool, interval: nat, tick: nat, es: seq<SystemEvent>, e: SystemEvent)
    requires e.Poll? && HasPolled(es) && WindowKept(InitialSystem(ready, interval, tick), es + [e])
    requires !Runs(InitialSystem(ready, interval, tick), es).plant.adapter.sender.waitingAck
    ensures
      var s := Runs(InitialSystem(ready, interval, tick), es);
      s.plant.policy.slopeTxPending in {0, 1, 2} && Transmits(s, e, s.plant.policy.slopeTxPending)
  {
    hide Next, SystemInv, Within, HasPolled, Transmits;
    var s0 := InitialSystem(ready, interval, tick);
    WindowBefore(s0, es, e);
    InitialInvariants(ready, interval, tick);
    RunKeepsSystemInv(s0, es);
    RunsKeepIdleRule(s0, es);
    IdlePoll(Runs(s0, es), e);
  }

  lemma WindowBefore(s: System, es: seq<SystemEvent>, e: SystemEvent)
    requires WindowKept(s, es + [e])
    ensures WindowKept(s, es) && Within(Runs(s, es).link, 0x100)
  {
    hide Within, Next;
    var longer := es + [e];
    assert forall n | 0 <= n <= |es| :: longer[..n] == es[..n];
    assert es[..|es|] == es && Within(Runs(s, longer[..|es|]).link, 0x100);
  }

  lemma InitialInvariants(ready: bool, interval: nat, tick: nat)
    ensures SystemInv(InitialSystem(ready, interval, tick)) && BeforeRule(InitialSystem(ready, interval, tick).plant)
  {
  }

  /** At the start nothing is requested, pending or in flight, the door and the ramp are held for closed; and the first poll,
      unlike later ones, sends the command 0, which asks the ramp for nothing. */
  lemma FirstPoll(ready: bool, interval: nat, tick: nat, input: PollInput)
    ensures
      var s := InitialSystem(ready, interval, tick);
      var after := Next(s, Poll(0, input));
      && s.plant.policy == PolicyState(Requests(false, false, false, false, false, false),
                                       DoorState(0, false, NoRequest, false, Unknown), 0, false, false)
      && !s.plant.adapter.sender.waitingAck && s.plant.servo == ServoState(ready, 25, 25, tick, interval)
      && after.link.started == [0] && after.link.data == [Tagged(0, Encode(DataFrame(0, 0)))]
      && after.plant.adapter.sender.waitingAck && after.plant.adapter.inflight == 0
  {
    hide Encode, PlantPolled, Elapsed;
    var s := InitialSystem(ready, interval, tick);
    var none: seq<Tagged> := [];
    assert Unread(none, 0)[..0] == [];
    FirstAdapterPoll(input);
    IssuesPending(s.plant, PollRead(s, Poll(0, input)));
  }

  lemma FirstAdapterPoll(input: PollInput)
    ensures
      var b := TxPolled(INITIAL_ADAPTER, [], input.retryNow, input.startNow);
      b.sender.waitingAck && b.inflight == 0
  {
    hide Encode, Elapsed;
  }

  // ----- In flight -------------------------------------------------------------------------

  /** The sender waits with the command `c`, the last one started. */
  predicate InFlight(s: System, c: Byte) {
    s.plant.adapter.sender.waitingAck && s.plant.adapter.inflight == c
  }

  /** The sender is idle, and the last command it started, `c`, was delivered and has set the estimate. */
  predicate Done(s: System, c: Byte) {
    && !s.plant.adapter.sender.waitingAck && CurrentDelivered(s.link) && s.link.started[|s.link.started| - 1] == c
    && s.plant.policy.slopeOpenEstimated == RampOpen(s.link.delivered)
  }

  /** Any event leaves the command in flight, or it is done. */
  lemma FlightGoesOn(s: System, e: SystemEvent, c: Byte)
    requires SystemInv(s) && Within(s.link, 0x100) && BeforeRule(s.plant) && InFlight(s, c)
    ensures InFlight(Next(s, e), c) || Done(Next(s, e), c)
  {
    hide Next, BeforeRule, Within;
    NextKeepsSystemInv(s, e);
    if e.Poll? {
      FlightPolled(s, e, c);
      if !Next(s, e).plant.adapter.sender.waitingAck {
        IdleIsDone(Next(s, e), c);
      }
    } else {
      OnlyPollsTouchThePlant(s, e);
    }
  }

  /** A poll that leaves the sender idle has started nothing. */
  lemma IdleStartsNothing(a: AdapterState, l: State, offset: nat, open: bool, n: nat, retryNow: Word, startNow: Word)
    requires RampInv(a, l, open) && LinkOk(l) && Within(l, 0x100) && ParserAt(a.parser, l.acks, offset)
    requires n <= |Unread(l.acks, offset)|
    requires !TxPolled(a, Unread(l.acks, offset)[..n], retryNow, startNow).sender.waitingAck
    ensures LinkPolled(l, offset, a, n, retryNow, startNow).started == l.started
  {
    hide OnBytes, TakeBytes, Within, Unread, ParserAt, RampInv, LinkOk, Polled, PollOutcome, Encode;
    ReadBytes(a, l, offset, open, n);
  }

  lemma FlightPolled(s: System, e: SystemEvent, c: Byte)
    requires SystemInv(s) && Within(s.link, 0x100) && BeforeRule(s.plant) && InFlight(s, c) && e.Poll?
    ensures
      var t := Next(s, e);
      if t.plant.adapter.sender.waitingAck then InFlight(t, c)
      else t.link.started == s.link.started && s.link.started != [] && s.link.started[|s.link.started| - 1] == c
  {
    hide PlantPolled, TxPolled, LinkPolled, Within, LinkOk, ParserAt, Unread, RampOpen;
    var a, l, input := s.plant.adapter, s.link, PollRead(s, e);
    TxPollOutcome(a, input.rx, input.retryNow, input.startNow);
    IssuesPending(s.plant, input);
    if !TxPolled(a, input.rx, input.retryNow, input.startNow).sender.waitingAck {
      IdleStartsNothing(a, l, s.offset, s.plant.policy.slopeOpenEstimated, Arrived(s, e), input.retryNow, input.startNow);
    }
  }

  lemma OnlyPollsTouchThePlant(s: System, e: SystemEvent)
    requires !e.Poll?
    ensures Next(s, e).plant == s.plant
  {
    hide AfterData;
  }

  lemma IdleIsDone(s: System, c: Byte)
    requires SystemInv(s) && !s.plant.adapter.sender.waitingAck
    requires s.link.started != [] && s.link.started[|s.link.started| - 1] == c
    ensures Done(s, c)
  {
    hide RampOpen, ParserAt, AcksProven, SenderInv, ReceiverInv, DataInv, AckInv;
  }

  /** A command in flight stays in flight, through every loss, resend and give-up, until at some point it has been
      delivered and the estimate says so. */
  lemma {:induction false} InFlightUntilDone(s: System, es: seq<SystemEvent>, c: Byte) returns (n: nat)
    requires SystemInv(s) && BeforeRule(s.plant) && InFlight(s, c) && WindowKept(s, es)
    ensures n <= |es|
    ensures forall k | 0 <= k < n :: InFlight(Runs(s, es[..k]), c)
    ensures InFlight(Runs(s, es[..n]), c) || Done(Runs(s, es[..n]), c)
    ensures n == |es| || Done(Runs(s, es[..n]), c)
  {
    hide SystemInv, BeforeRule, InFlight, Done, Next, Within;
    if es == [] {
      n := 0;
    } else {
      var m := |es| - 1;
      assert forall k | 0 <= k <= m :: es[..m][..k] == es[..k];
      n := InFlightUntilDone(s, es[..m], c);
      if n == m && !Done(Runs(s, es[..m]), c) {
        RunKeepsSystemInv(s, es[..m]);
        RunsKeepIdleRule(s, es[..m]);
        FlightGoesOn(Runs(s, es[..m]), es[m], c);
        assert es[..m + 1] == es;
        n := m + 1;
      }
    }
  }
}
