/** The commands of the two links: which requests each end may send and accepts, and that a command that may be
    sent gets through. The bytes are made with the masks and shifts of the firmware. */
module Commands {
  import opened Bytes
  import opened Wire
  import opened Arq
  import opened Link

  const NOP: Byte := 0
  const OPEN: Byte := 1
  const CLOSE: Byte := 2

  /** A request has two bits. */
  type TwoBits = x: int | 0 <= x < 4

  function RampCmd(slope: TwoBits): Byte {
    ((slope as bv8) & 0x03) as Byte
  }

  function BleCmd(door: TwoBits, slope: TwoBits): Byte {
    (((door as bv8) & 0x03) | (((slope as bv8) & 0x03) << 2)) as Byte
  }

  /** What the receiving end reads from a command byte. */
  function SlopeOfRampCmd(cmd: Byte): Byte {
    ((cmd as bv8) & 0x03) as Byte
  }

  function DoorOfBleCmd(cmd: Byte): Byte {
    ((cmd as bv8) & 0x03) as Byte
  }

  function SlopeOfBleCmd(cmd: Byte): Byte {
    (((cmd as bv8) >> 2) & 0x03) as Byte
  }

  // ----- Which commands --------------------------------------------------------------------

  lemma RampCmdIs(slope: TwoBits)
    ensures RampCmd(slope) == slope
  {
    if slope == 0 {
    } else if slope == 1 {
    } else if slope == 2 {
    } else {
    }
  }

  lemma BleCmdIs(door: TwoBits, slope: TwoBits)
    ensures BleCmd(door, slope) == door + 4 * slope
  {
    var d, s := door as bv8, slope as bv8;
    assert d == 0 || d == 1 || d == 2 || d == 3;
    assert s == 0 || s == 1 || s == 2 || s == 3;
  }

  /** A ramp command may be sent, and is accepted, exactly when its request is at most close. */
  lemma RampCommands(slope: TwoBits)
    ensures Sendable(RampLink, RampCmd(slope)) <==> slope <= CLOSE
    ensures Acceptable(RampLink, RampCmd(slope)) <==> slope <= CLOSE
  {
    RampCmdIs(slope);
  }

  /** A BLE command may be sent exactly when both requests are at most open, and is accepted exactly when both are
      at most close. */
  lemma BleCommands(door: TwoBits, slope: TwoBits)
    ensures Sendable(BleLink, BleCmd(door, slope)) <==> door <= OPEN && slope <= OPEN
    ensures Acceptable(BleLink, BleCmd(door, slope)) <==> door <= CLOSE && slope <= CLOSE
  {
    BleCmdIs(door, slope);
  }

  /** No byte passes that is not made of such requests. */
  lemma OnlyMadeCommands(cmd: Byte)
    ensures Sendable(RampLink, cmd) || Acceptable(RampLink, cmd) ==> cmd < 4 && cmd == RampCmd(cmd)
    ensures Sendable(BleLink, cmd) || Acceptable(BleLink, cmd) ==> cmd < 16 && cmd == BleCmd(cmd % 4, cmd / 4)
  {
    if cmd < 4 {
      RampCmdIs(cmd);
    }
    if cmd < 16 {
      BleCmdIs(cmd % 4, cmd / 4);
    }
  }

  /** The receiving end reads from a command the requests it was made of. */
  lemma RequestsReadBack(door: TwoBits, slope: TwoBits)
    ensures DoorOfBleCmd(BleCmd(door, slope)) == door && SlopeOfBleCmd(BleCmd(door, slope)) == slope
    ensures SlopeOfRampCmd(RampCmd(slope)) == slope
  {
    var d, s := door as bv8, slope as bv8;
    assert d == 0 || d == 1 || d == 2 || d == 3;
    assert s == 0 || s == 1 || s == 2 || s == 3;
  }

  // ----- A command gets through ------------------------------------------------------------

  /** The requests that may be sent on a link; a ramp command has none for the door. */
  predicate MayAsk(link: LinkKind, door: TwoBits, slope: TwoBits) {
    match link
    case RampLink => door == NOP && slope <= CLOSE
    case BleLink => door <= OPEN && slope <= OPEN
  }

  function Cmd(link: LinkKind, door: TwoBits, slope: TwoBits): Byte {
    match link
    case RampLink => RampCmd(slope)
    case BleLink => BleCmd(door, slope)
  }

  lemma MayBeSent(link: LinkKind, door: TwoBits, slope: TwoBits)
    requires MayAsk(link, door, slope)
    ensures Sendable(link, Cmd(link, door, slope)) && Acceptable(link, Cmd(link, door, slope))
  {
    RampCommands(slope);
    BleCommands(door, slope);
  }

  /** An idle sender, asked for what may be asked, starts; its bytes are decoded to a frame that a fresh receiver of the same
      link delivers with this command and acknowledges; and the bytes of the acknowledgement complete the
      command. */
  lemma CommandGetsThrough(link: LinkKind, s: SenderState, door: TwoBits, slope: TwoBits, now: Word, p: ParserState, q: ParserState)
    requires !s.waitingAck && MayAsk(link, door, slope) && Hunting(p) && Hunting(q)
    ensures
      var cmd := Cmd(link, door, slope);
      var f, g, after := Frame(0x01, s.nextSeq, cmd), Frame(0x02, s.nextSeq, 0), Started(s, cmd, now);
      && CanStart(s, link, cmd) && after.waitingAck
      && Reports(p, after.pendingFrame) == [Decoded(f)]
      && Delivers(INITIAL_RECEIVER, link, f) && SendsAck(link, f)
      && Reports(q, Encode(AckFrame(f.seqNo))) == [Decoded(g)] && Acknowledges(after, g) && !Acked(after, g).waitingAck
  {
    hide Sendable, Acceptable, Encode, Cmd;
    MayBeSent(link, door, slope);
    DecodeEncoded(p, DataFrame(s.nextSeq, Cmd(link, door, slope)));
    DecodeEncoded(q, AckFrame(s.nextSeq));
  }

  /** On a run: started on an idle link and received, the command is the next delivery, whatever happened before,
      if fewer than 256 commands were started since the last one. */
  lemma StartedIsDelivered(s: State, door: TwoBits, slope: TwoBits, now: Word)
    requires Inv(s) && !s.sender.waitingAck && s.data == [] && MayAsk(s.kind, door, slope)
    requires |s.started| < Remembered(s) + 0x100
    ensures
      var cmd := Cmd(s.kind, door, slope);
      var after := Step(Step(s, StartCommand(cmd, now)), ReceiveData);
      && after.started == s.started + [cmd] && after.delivered == s.delivered + [Delivery(|s.started|, cmd)]
      && after.sender.waitingAck
  {
    hide Sendable, Acceptable, Encode, Decode, Cmd;
    var cmd := Cmd(s.kind, door, slope);
    MayBeSent(s.kind, door, slope);
    var started := Step(s, StartCommand(cmd, now));
    StartKeepsInv(s, cmd, now);
    HeadData(started);
    if s.delivered != [] && SeqOf(Remembered(s)) == SeqOf(|s.started|) {
      SameSeqSameIndex(Remembered(s), |s.started|);
    }
  }

  /** Only acknowledgements complete commands, and only data is delivered or acknowledged: a data frame leaves every
      sender as it is, an acknowledgement every receiver. */
  lemma FrameTypesAreKeptApart(link: LinkKind, s: SenderState, r: ReceiverState, seqNo: Byte, cmd: Byte)
    ensures Acked(s, DataFrame(seqNo, cmd)) == s && !Acknowledges(s, DataFrame(seqNo, cmd))
    ensures Received(r, link, Frame(0x02, seqNo, cmd)) == r && !SendsAck(link, Frame(0x02, seqNo, cmd)) &&
            !Delivers(r, link, Frame(0x02, seqNo, cmd))
  {
  }
}
