/** The door controller, the lossy ramp link and the receiver at its other end as one system: what
    the controller believes about the ramp is what the ramp was last told. */
module RampSystem {
  import opened Bytes
  import opened Wire
  import opened Arq
  import opened Link
  import opened RampAdapter
  import opened DoorServo
  import opened DoorEcu
  import opened DoorSafety

  /** `offset` bytes of the first acknowledgement in the channel have been read. */
  datatype System = System(plant: Plant, link: State, offset: nat)

  datatype SystemEvent =
    /** The controller polls after `arrived` more bytes have arrived, which may end inside a frame. */
    | Poll(arrived: nat, input: PollInput)
    | PeerReceives
    | FrameLost(at: nat)
    /** A frame of which bytes have been read can no longer be lost. */
    | AckLost(at: nat)

  function Flatten(frames: seq<Tagged>): seq<Byte> {
    if frames == [] then [] else Flatten(frames[..|frames| - 1]) + frames[|frames| - 1].bytes
  }

  /** The bytes in the channel that have not been read. */
  function Unread(acks: seq<Tagged>, offset: nat): seq<Byte> {
    if offset <= |Flatten(acks)| then Flatten(acks)[offset..] else []
  }

  /** The link and the offset once `n` more bytes are read: an acknowledgement takes effect with its last byte. */
  function TakeBytes(l: State, offset: nat, n: nat): (State, nat) {
    if n == 0 then (l, offset)
    else
      var (before, o) := TakeBytes(l, offset, n - 1);
      if o + 1 < FRAME_SIZE then (before, o + 1) else (AfterAck(before), 0)
  }

  /** What a poll of the adapter does to the link: it reads the bytes that arrived, may resend, and may start the desired
      command. */
  function LinkPolled(l: State, offset: nat, a: AdapterState, arrived: nat, retryNow: Word, startNow: Word): State
    requires arrived <= |Unread(l.acks, offset)|
  {
    var retried := Retried(OnBytes(a, Unread(l.acks, offset)[..arrived]), retryNow);
    var polled := AfterPoll(TakeBytes(l, offset, arrived).0, retryNow);
    if Sends(retried) then AfterStart(polled, retried.desired, startNow) else polled
  }

  function Arrived(s: System, e: SystemEvent): nat
    requires e.Poll?
  {
    var unread := |Unread(s.link.acks, s.offset)|;
    if e.arrived <= unread then e.arrived else unread
  }

  function PollRead(s: System, e: SystemEvent): PollInput
    requires e.Poll?
  {
    e.input.(rx := Unread(s.link.acks, s.offset)[..Arrived(s, e)])
  }

  function Next(s: System, e: SystemEvent): System {
    match e
    case Poll(_, input) =>
      System(PlantPolled(s.plant, PollRead(s, e)),
             LinkPolled(s.link, s.offset, s.plant.adapter, Arrived(s, e), input.retryNow, input.startNow),
             TakeBytes(s.link, s.offset, Arrived(s, e)).1)
    case PeerReceives => s.(link := AfterData(s.link))
    case FrameLost(at) => s.(link := s.link.(data := Without(s.link.data, at)))
    case AckLost(at) =>
      if at == 0 && s.offset > 0 then s else s.(link := s.link.(acks := Without(s.link.acks, at)))
  }

  function Runs(s: System, es: seq<SystemEvent>): System {
    if es == [] then s else Next(Runs(s, es[..|es| - 1]), es[|es| - 1])
  }

  function InitialSystem(ready: bool, interval: nat, tick: nat): System {
    System(InitialPlant(ready, interval, tick),
           Link.Initial(RampLink, DEFAULT_ACK_TIMEOUT_MS, DEFAULT_RETRY_LIMIT), 0)
  }

  // ----- Where the ramp is -----------------------------------------------------------------

  /** The position of the ramp, true for open, after a command. */
  function Applied(open: bool, cmd: Byte): bool {
    if cmd == RAMP_OPEN then true else if cmd == RAMP_CLOSE then false else open
  }

  /** The last open or close that was delivered; closed when there was none. */
  function RampOpen(delivered: seq<Delivery>): bool {
    if delivered == [] then false
    else Applied(RampOpen(delivered[..|delivered| - 1]), delivered[|delivered| - 1].cmd)
  }

  lemma RampAppend(delivered: seq<Delivery>, d: Delivery)
    ensures RampOpen(delivered + [d]) == Applied(RampOpen(delivered), d.cmd)
  {
    assert (delivered + [d])[..|delivered|] == delivered;
  }

  /** The receiver has delivered the command started last, or nothing was ever started. */
  predicate UpToDate(l: State) {
    Remembered(l) == |l.started| - 1
  }

  /** All commands started since the last delivery are the one in flight. */
  predicate OnlyInflight(l: State, cmd: Byte) {
    forall i | Remembered(l) < i < |l.started| && 0 <= i :: l.started[i] == cmd
  }

  /** The adapter and the link agree, and the estimate is off by at most the command in flight. */
  predicate RampInv(a: AdapterState, l: State, open: bool) {
    && a.sender == l.sender && l.kind == RampLink
    && a.desired <= RAMP_CLOSE
    && if a.sender.waitingAck then
         && !a.successPending
         && a.desired == a.lastQueued == a.inflight
         && l.started != [] && l.started[|l.started| - 1] == a.inflight && OnlyInflight(l, a.inflight)
         && (RampOpen(l.delivered) == open || RampOpen(l.delivered) == Applied(open, a.inflight))
       else
         && UpToDate(l)
         && (if a.successPending then
               && a.desired == a.lastQueued == RAMP_NONE && a.successCmd <= RAMP_CLOSE
               && RampOpen(l.delivered) == Applied(open, a.successCmd)
             else RampOpen(l.delivered) == open)
  }

  predicate LinkOk(l: State) {
    Inv(l) && AcksProven(l)
  }

  // ----- Reading acknowledgements ----------------------------------------------------------

  /** The parser is as far into the first acknowledgement as bytes of it have been read. */
  predicate ParserAt(p: ParserState, acks: seq<Tagged>, offset: nat) {
    offset < FRAME_SIZE &&
    if offset == 0 then p.phase == WaitSof0
    else acks != [] && |acks[0].bytes| == FRAME_SIZE && Partial(p) == acks[0].bytes[..offset]
  }

  /** One byte of a frame takes the parser one byte further, and the last one decodes it. */
  lemma FeedNext(p: ParserState, f: Frame, offset: nat)
    requires WellFormed(f) && offset < FRAME_SIZE && Partial(p) == Encode(f)[..offset]
    ensures
      var (q, event) := Feed(p, Encode(f)[offset]);
      if offset + 1 < FRAME_SIZE then event == Nothing && Partial(q) == Encode(f)[..offset + 1]
      else event == Decoded(f) && q.phase == WaitSof0
  {
    hide FrameCrc;
    assert |Partial(p)| == offset;
    assert offset > 2 ==> Partial(p)[2] == f.kind;
    assert offset > 3 ==> Partial(p)[3] == f.seqNo;
    assert offset > 4 ==> Partial(p)[4] == f.cmd;
  }

  lemma RampInvIgnoresParser(a: AdapterState, l: State, open: bool, p: ParserState)
    requires RampInv(a, l, open)
    ensures RampInv(a.(parser := p), l, open)
  {
  }

  /** The last byte of an acknowledgement does what the link step says. */
  lemma AckTakesEffect(a: AdapterState, l: State, open: bool, f: Frame)
    requires RampInv(a, l, open) && LinkOk(l) && Within(l, 0x100) && l.acks != []
    requires f == AckFrame(SeqOf(l.acks[0].idx))
    ensures RampInv(OnDecoded(a, f), AfterAck(l), open)
  {
    hide Encode, Inv, AcksProven, Within, RampOpen;
    assert IsAckOf(l.started, l.acks[0]) by {
      HeadIsAck(l);
    }
    DecodeIs(f);
    if Acknowledges(a.sender, f) {
      CompletionProven(l);
      RampOfCurrent(l, a.inflight);
    }
  }

  /** One byte, read into a state of the link. */
  lemma ReadByte(a: AdapterState, l: State, offset: nat, open: bool, b: Byte)
    requires RampInv(a, l, open) && LinkOk(l) && Within(l, 0x100) && ParserAt(a.parser, l.acks, offset)
    requires l.acks != [] && |l.acks[0].bytes| == FRAME_SIZE && b == l.acks[0].bytes[offset]
    ensures
      var after := OnByte(a, b);
      if offset + 1 < FRAME_SIZE then RampInv(after, l, open) && ParserAt(after.parser, l.acks, offset + 1)
      else RampInv(after, AfterAck(l), open) && after.parser.phase == WaitSof0
  {
    hide RampInv, LinkOk, Within, AfterAck, Feed, OnDecoded, Encode;
    HeadIsAckOf(l);
    var f := AckFrame(SeqOf(l.acks[0].idx));
    FeedNext(a.parser, f, offset);
    var p := Feed(a.parser, b).0;
    RampInvIgnoresParser(a, l, open, p);
    if offset + 1 == FRAME_SIZE {
      AckTakesEffect(a.(parser := p), l, open, f);
      OnDecodedKeepsParser(a, f, p);
      assert OnDecoded(a.(parser := p), f).parser == p;
    }
  }

  lemma HeadIsAckOf(l: State)
    requires LinkOk(l) && l.acks != []
    ensures l.acks[0].bytes == Encode(AckFrame(SeqOf(l.acks[0].idx)))
  {
    hide Inv, Encode;
    HeadIsAck(l);
  }

  lemma HeadIsAck(l: State)
    requires Inv(l) && l.acks != []
    ensures IsAckOf(l.started, l.acks[0])
  {
    hide SenderInv, ReceiverInv, InOrder, DataInv, IsAckOf;
  }

  lemma RampOfCurrent(l: State, cmd: Byte)
    requires CurrentDelivered(l) && l.started[|l.started| - 1] == cmd
    ensures exists before :: RampOpen(l.delivered) == Applied(before, cmd)
    ensures UpToDate(l)
  {
    var n := |l.delivered| - 1;
    assert RampOpen(l.delivered) == Applied(RampOpen(l.delivered[..n]), cmd);
  }

  lemma AfterAckOk(l: State)
    requires LinkOk(l) && Within(l, 0x100)
    ensures LinkOk(AfterAck(l)) && Within(AfterAck(l), 0x100)
    ensures AfterAck(l).started == l.started && AfterAck(l).delivered == l.delivered && AfterAck(l).data == l.data
    ensures AfterAck(l).acks == if l.acks == [] then [] else l.acks[1..]
  {
    hide Inv, HeadAckCompletes;
    AckKeepsInv(l);
  }

  lemma {:induction false} FlattenHead(acks: seq<Tagged>)
    requires acks != []
    ensures Flatten(acks) == acks[0].bytes + Flatten(acks[1..])
  {
    if |acks| > 1 {
      var n := |acks| - 1;
      FlattenHead(acks[..n]);
      assert acks[..n][1..] == acks[1..][..n - 1];
    }
  }

  /** The first unread byte is that of the first acknowledgement, and the rest follows it. */
  lemma UnreadHead(acks: seq<Tagged>, offset: nat)
    requires offset < FRAME_SIZE && Unread(acks, offset) != []
    requires acks != [] ==> |acks[0].bytes| == FRAME_SIZE
    ensures acks != [] && Unread(acks, offset)[0] == acks[0].bytes[offset]
    ensures Unread(acks, offset)[1..] == if offset + 1 < FRAME_SIZE then Unread(acks, offset + 1) else Unread(acks[1..], 0)
  {
    if acks != [] {
      FlattenHead(acks);
    }
  }

  /** Reading bytes, wherever they end, is what the link steps of the acknowledgements read to their end say. */
  lemma {:induction false} ReadBytes(a: AdapterState, l: State, offset: nat, open: bool, n: nat)
    requires RampInv(a, l, open) && LinkOk(l) && Within(l, 0x100) && ParserAt(a.parser, l.acks, offset)
    requires n <= |Unread(l.acks, offset)|
    ensures
      var b := OnBytes(a, Unread(l.acks, offset)[..n]);
      var (m, o) := TakeBytes(l, offset, n);
      && RampInv(b, m, open) && LinkOk(m) && Within(m, 0x100) && ParserAt(b.parser, m.acks, o)
      && Unread(m.acks, o) == Unread(l.acks, offset)[n..] && m.data == l.data && m.started == l.started
  {
    hide RampInv, LinkOk, Within, AfterAck, OnByte, Unread;
    var unread := Unread(l.acks, offset);
    if n > 0 {
      hide ParserAt;
      var k: nat := n - 1;
      ReadBytes(a, l, offset, open, k);
      var b := OnBytes(a, unread[..k]);
      var (m, o) := TakeBytes(l, offset, k);
      assert unread[..n][..k] == unread[..k];
      AcksAreFrames(m);
      OffsetFits(b.parser, m.acks, o);
      UnreadHead(m.acks, o);
      ReadByte(b, m, o, open, unread[k]);
      AfterAckOk(m);
      NoneRead(OnByte(b, unread[k]).parser, AfterAck(m).acks);
    }
  }

  lemma OffsetFits(p: ParserState, acks: seq<Tagged>, offset: nat)
    requires ParserAt(p, acks, offset)
    ensures offset < FRAME_SIZE
  {
  }

  lemma NoneRead(p: ParserState, acks: seq<Tagged>)
    ensures p.phase == WaitSof0 ==> ParserAt(p, acks, 0)
  {
  }

  lemma AcksAreFrames(l: State)
    requires LinkOk(l)
    ensures l.acks != [] ==> |l.acks[0].bytes| == FRAME_SIZE
  {
    hide Encode;
    if l.acks != [] {
      HeadIsAckOf(l);
    }
  }

  // ----- Resending, giving up and starting -------------------------------------------------

  lemma AfterPollOk(l: State, now: Word)
    requires LinkOk(l)
    ensures LinkOk(AfterPoll(l, now))
    ensures AfterPoll(l, now).started == l.started && AfterPoll(l, now).delivered == l.delivered
    ensures AfterPoll(l, now).sender == Arq.Polled(l.sender, now) && AfterPoll(l, now).kind == l.kind
  {
    hide Inv, Arq.Polled, PollOutcome;
    PollKeepsInv(l, now);
  }

  lemma AfterStartOk(l: State, cmd: Byte, now: Word)
    requires LinkOk(l)
    ensures LinkOk(AfterStart(l, cmd, now))
    ensures AfterStart(l, cmd, now).delivered == l.delivered && AfterStart(l, cmd, now).kind == l.kind
    ensures CanStart(l.sender, l.kind, cmd) ==>
              && AfterStart(l, cmd, now).sender == Started(l.sender, cmd, now)
              && AfterStart(l, cmd, now).started == l.started + [cmd]
  {
    hide Inv, Started, CanStart;
    StartKeepsInv(l, cmd, now);
  }

  /** After a give-up the same command is started again in the same poll, so a busy adapter stays
      busy with it; an idle adapter may start what is desired. */
  lemma RetryAndSend(a: AdapterState, l: State, open: bool, retryNow: Word, startNow: Word)
    requires RampInv(a, l, open) && LinkOk(l)
    ensures var retried, polled := Retried(a, retryNow), AfterPoll(l, retryNow);
            var after := if Sends(retried) then AfterStart(polled, retried.desired, startNow) else polled;
            RampInv(Sent(retried, startNow), after, open) && LinkOk(after)
  {
    hide LinkOk, Elapsed, RampOpen, AfterPoll, AfterStart, Started;
    var retried, polled := Retried(a, retryNow), AfterPoll(l, retryNow);
    AfterPollOk(l, retryNow);
    assert RAMP_CLOSE == 2 && forall c: Byte | c <= 2 :: Sendable(RampLink, c);
    if Sends(retried) {
      AfterStartOk(polled, retried.desired, startNow);
      StartedWaits(retried.sender, retried.desired, startNow);
    }
  }

  lemma StartedWaits(s: SenderState, cmd: Byte, now: Word)
    ensures Started(s, cmd, now).waitingAck
  {
  }

  // ----- One poll --------------------------------------------------------------------------

  lemma PlantPollOnRamp(pl: Plant, input: PollInput)
    ensures var a := TxPolled(pl.adapter, input.rx, input.retryNow, input.startNow);
            var b, open, open' := PlantPolled(pl, input).adapter, pl.policy.slopeOpenEstimated,
                                  PlantPolled(pl, input).policy.slopeOpenEstimated;
            && b == a.(successPending := false, desired := b.desired)
            && open' == (if a.successPending then Applied(open, a.successCmd % 4) else open)
            && (b.desired != a.desired ==>
                  !a.sender.waitingAck && (b.desired == RAMP_OPEN || b.desired == RAMP_CLOSE))
  {
    hide TxPolled, Sensed, PollPolicy, PolicyRun;
    var c := PollRamp(PollDoor(pl, input), input);
    PolicyHalf(c, input);
    DecisionKeepsEstimate(c, input.policyNow);
    SensedKeepsEstimate(pl.policy, input);
  }

  lemma SensedKeepsEstimate(p: PolicyState, input: PollInput)
    ensures Sensed(p, input).slopeOpenEstimated == p.slopeOpenEstimated
  {
    hide AllRequested, Estimated;
  }

  lemma DecisionKeepsEstimate(pl: Plant, now: Word)
    ensures PolicyRun(pl, now).policy.slopeOpenEstimated == pl.policy.slopeOpenEstimated
  {
  }

  predicate SystemInv(s: System) {
    && RampInv(s.plant.adapter, s.link, s.plant.policy.slopeOpenEstimated)
    && LinkOk(s.link)
    && !s.plant.adapter.successPending
    && ParserAt(s.plant.adapter.parser, s.link.acks, s.offset)
  }

  lemma ConsumeKeepsRampInv(a: AdapterState, b: AdapterState, l: State, open: bool, open': bool)
    requires RampInv(a, l, open)
    requires b == a.(successPending := false, desired := b.desired)
    requires open' == (if a.successPending then Applied(open, a.successCmd % 4) else open)
    requires b.desired != a.desired ==> !a.sender.waitingAck && (b.desired == RAMP_OPEN || b.desired == RAMP_CLOSE)
    ensures RampInv(b, l, open')
  {
    hide RampOpen;
  }

  /** What follows the reading in a poll touches neither the parser nor the acknowledgements. */
  lemma ReadingStands(a: AdapterState, l: State, offset: nat, n: nat, retryNow: Word, startNow: Word)
    requires n <= |Unread(l.acks, offset)|
    ensures TxPolled(a, Unread(l.acks, offset)[..n], retryNow, startNow).parser == OnBytes(a, Unread(l.acks, offset)[..n]).parser
    ensures LinkPolled(l, offset, a, n, retryNow, startNow).acks == TakeBytes(l, offset, n).0.acks
  {
    hide OnBytes, Unread, TakeBytes, Elapsed, Started;
  }

  lemma PollKeepsSystemInv(s: System, e: SystemEvent)
    requires SystemInv(s) && Within(s.link, 0x100) && e.Poll?
    ensures SystemInv(Next(s, e))
  {
    hide RampInv, LinkOk, Within, ParserAt, OnBytes, Retried, Sent, AfterPoll, AfterStart, TakeBytes, Sends, PlantPolled, Unread;
    var a, l, open := s.plant.adapter, s.link, s.plant.policy.slopeOpenEstimated;
    var n, input := Arrived(s, e), PollRead(s, e);
    ReadBytes(a, l, s.offset, open, n);
    RetryAndSend(OnBytes(a, input.rx), TakeBytes(l, s.offset, n).0, open, input.retryNow, input.startNow);
    ReadingStands(a, l, s.offset, n, input.retryNow, input.startNow);
    PlantPollOnRamp(s.plant, input);
    var polled := TxPolled(a, input.rx, input.retryNow, input.startNow);
    ConsumeKeepsRampInv(polled, PlantPolled(s.plant, input).adapter, Next(s, e).link, open,
                        PlantPolled(s.plant, input).policy.slopeOpenEstimated);
  }

  // ----- The other end ---------------------------------------------------------------------

  lemma PeerKeepsRampInv(a: AdapterState, l: State, open: bool)
    requires RampInv(a, l, open) && LinkOk(l) && Within(l, 0x100)
    ensures RampInv(a, AfterData(l), open) && LinkOk(AfterData(l))
  {
    hide Encode, Decode, Inv, AcksProven, Within, AfterData, RampInv;
    PeerKeepsLinkOk(l);
    if l.data != [] {
      HeadData(l);
      var after := AfterData(l);
      if after.delivered != l.delivered {
        NewDelivery(l, after);
        DeliveryKeepsRampInv(a, l, after, open);
      } else {
        DuplicateKeepsRampInv(a, l, after, open);
      }
    } else {
      EmptyChannel(l);
    }
  }

  lemma DuplicateKeepsRampInv(a: AdapterState, l: State, after: State, open: bool)
    requires RampInv(a, l, open)
    requires after == l.(data := after.data, receiver := after.receiver, acks := after.acks)
    ensures RampInv(a, after, open)
  {
    hide RampOpen;
  }

  lemma DeliveryKeepsRampInv(a: AdapterState, l: State, after: State, open: bool)
    requires RampInv(a, l, open) && l.data != []
    requires Remembered(l) < Remembered(after) == l.data[0].idx < |l.started|
    requires after == l.(data := after.data, receiver := after.receiver, acks := after.acks,
                         delivered := l.delivered + [Delivery(l.data[0].idx, l.started[l.data[0].idx])])
    ensures RampInv(a, after, open)
  {
    hide RampOpen;
    RampAppend(l.delivered, Delivery(l.data[0].idx, l.started[l.data[0].idx]));
  }

  lemma EmptyChannel(l: State)
    requires l.data == []
    ensures AfterData(l) == l
  {
  }

  lemma PeerKeepsLinkOk(l: State)
    requires LinkOk(l) && Within(l, 0x100)
    ensures LinkOk(AfterData(l))
  {
    hide AcksProven, Within, Inv, AfterData;
    DataKeepsInv(l);
    StepKeepsAcksProven(l, ReceiveData);
  }

  /** A delivery is new: it comes after the remembered one. */
  lemma NewDelivery(l: State, after: State)
    requires Inv(l) && l.data != [] && after == AfterData(l) && after.delivered != l.delivered
    ensures Remembered(l) < Remembered(after) == l.data[0].idx < |l.started|
  {
    hide Encode, Decode, AfterData;
    HeadData(l);
  }

  lemma LossKeepsSystemInv(s: System, at: nat)
    requires SystemInv(s)
    ensures SystemInv(Next(s, FrameLost(at))) && SystemInv(Next(s, AckLost(at)))
  {
    hide Inv, RampOpen, Partial;
    LossKeepsInv(s.link, at);
  }

  /** New acknowledgements come behind the one being read. */
  lemma PeerKeepsParserAt(p: ParserState, l: State, offset: nat)
    requires ParserAt(p, l.acks, offset)
    ensures ParserAt(p, AfterData(l).acks, offset)
  {
    hide Encode, Decode, Partial;
  }

  lemma NextKeepsSystemInv(s: System, e: SystemEvent)
    requires SystemInv(s) && Within(s.link, 0x100)
    ensures SystemInv(Next(s, e))
  {
    hide RampInv, LinkOk, Within, ParserAt;
    match e
    case Poll(_, _) => PollKeepsSystemInv(s, e);
    case PeerReceives =>
      PeerKeepsRampInv(s.plant.adapter, s.link, s.plant.policy.slopeOpenEstimated);
      PeerKeepsParserAt(s.plant.adapter.parser, s.link, s.offset);
    case FrameLost(at) => LossKeepsSystemInv(s, at);
    case AckLost(at) => LossKeepsSystemInv(s, at);
  }

  // ----- Every run -------------------------------------------------------------------------

  /** Fewer than 256 commands are started during the life of a frame or of the receiver's memory. */
  predicate WindowKept(s: System, es: seq<SystemEvent>) {
    forall n | 0 <= n < |es| :: Within(Runs(s, es[..n]).link, 0x100)
  }

  lemma {:induction false} RunKeepsSystemInv(s: System, es: seq<SystemEvent>)
    requires SystemInv(s) && WindowKept(s, es)
    ensures SystemInv(Runs(s, es))
  {
    if es != [] {
      hide SystemInv, Next, Within;
      var n := |es| - 1;
      assert forall k | 0 <= k <= n :: es[..n][..k] == es[..k];
      RunKeepsSystemInv(s, es[..n]);
      NextKeepsSystemInv(Runs(s, es[..n]), es[n]);
    }
  }

  /** On every run, whatever is lost, resent, given up and requested: whenever the ramp sender is idle
      the controller's estimate of the ramp is what the ramp was last told to do. While it is busy
      the two differ by at most the command in flight. */
  lemma EstimateIsTrue(ready: bool, interval: nat, tick: nat, es: seq<SystemEvent>)
    requires WindowKept(InitialSystem(ready, interval, tick), es)
    ensures var s := Runs(InitialSystem(ready, interval, tick), es);
            var open, told := s.plant.policy.slopeOpenEstimated, RampOpen(s.link.delivered);
            && (!s.plant.adapter.sender.waitingAck ==> told == open)
            && (s.plant.adapter.sender.waitingAck ==> told == open || told == Applied(open, s.plant.adapter.inflight))
  {
    RunKeepsSystemInv(InitialSystem(ready, interval, tick), es);
  }

  /** On every run, a ramp that the controller holds for stowed after closing the door was last told
      to close, or never told to open. */
  lemma StowedIsClosed(ready: bool, interval: nat, tick: nat, es: seq<SystemEvent>)
    requires WindowKept(InitialSystem(ready, interval, tick), es)
    requires Stowed(Runs(InitialSystem(ready, interval, tick), es).plant)
    ensures !RampOpen(Runs(InitialSystem(ready, interval, tick), es).link.delivered)
  {
    EstimateIsTrue(ready, interval, tick, es);
  }

  // ----- The bytes on the wire -------------------------------------------------------------

  /** The frames a poll adds to the channel are the bytes the adapter writes. */
  lemma WrittenIsSent(s: System, e: SystemEvent)
    requires SystemInv(s) && Within(s.link, 0x100) && e.Poll?
    ensures var after, input := Next(s, e).link, PollRead(s, e);
            && |s.link.data| <= |after.data| && after.data[..|s.link.data|] == s.link.data
            && Flatten(after.data[|s.link.data|..]) ==
               TxWritten(s.plant.adapter, input.rx, input.retryNow, input.startNow)
  {
    hide RampInv, LinkOk, Within, ParserAt, OnBytes, TakeBytes, PlantPolled, RampOpen, Elapsed, Encode, Unread;
    var a, l, open := s.plant.adapter, s.link, s.plant.policy.slopeOpenEstimated;
    var n, input := Arrived(s, e), PollRead(s, e);
    ReadBytes(a, l, s.offset, open, n);
    SendWrites(OnBytes(a, input.rx), TakeBytes(l, s.offset, n).0, open, input.retryNow, input.startNow);
  }

  lemma FlattenOne(t: Tagged)
    ensures Flatten([t]) == t.bytes
  {
    assert [t][..0] == [];
  }

  lemma SendWrites(a: AdapterState, l: State, open: bool, retryNow: Word, startNow: Word)
    requires RampInv(a, l, open) && LinkOk(l)
    ensures var retried, polled := Retried(a, retryNow), AfterPoll(l, retryNow);
            var after := if Sends(retried) then AfterStart(polled, retried.desired, startNow) else polled;
            && |l.data| <= |after.data| && after.data[..|l.data|] == l.data
            && Flatten(after.data[|l.data|..]) ==
               (if PollOutcome(a.sender, retryNow) == Resend then a.sender.pendingFrame else []) +
               (if Sends(retried) then Sent(retried, startNow).sender.pendingFrame else [])
  {
    hide RampOpen, LinkOk, Elapsed, Encode, OnlyInflight;
    var retried, polled := Retried(a, retryNow), AfterPoll(l, retryNow);
    if PollOutcome(a.sender, retryNow) == Resend {
      FlattenOne(Tagged(|l.started| - 1, a.sender.pendingFrame));
    } else if Sends(retried) {
      FlattenOne(Tagged(|l.started|, Started(retried.sender, retried.desired, startNow).pendingFrame));
    }
  }
}
