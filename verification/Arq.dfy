/** The stop-and-wait sender and the duplicate-suppressing receiver of the UART links. */
module Arq {
  import opened Bytes
  import opened Wire

  const DEFAULT_ACK_TIMEOUT_MS: Word := 20
  const DEFAULT_RETRY_LIMIT: Byte := 5

  /** The links that share this code. They differ in which command bytes each end accepts: on the
      BLE link the module may only ask for nothing or open, while the ECU also accepts close. */
  datatype LinkKind = RampLink | BleLink

  predicate Sendable(link: LinkKind, cmd: Byte) {
    match link
    case RampLink => cmd / 4 == 0 && cmd % 4 <= 2
    case BleLink => cmd / 16 == 0 && cmd % 4 <= 1 && cmd / 4 % 4 <= 1
  }

  predicate Acceptable(link: LinkKind, cmd: Byte) {
    match link
    case RampLink => cmd / 4 == 0 && cmd % 4 <= 2
    case BleLink => cmd / 16 == 0 && cmd % 4 <= 2 && cmd / 4 % 4 <= 2
  }

  /** Every command one end sends is accepted by the other, and neither its frame nor its acknowledgement embeds
      start bytes. */
  lemma SendableIsAcceptable(link: LinkKind, cmd: Byte, seqNo: Byte)
    requires Sendable(link, cmd)
    ensures Acceptable(link, cmd) && !EmbedsStart(DataFrame(seqNo, cmd))
    ensures !EmbedsStart(AckFrame(seqNo))
  {
  }

  // ----- Sender ----------------------------------------------------------------------------

  datatype SenderState = SenderState(
    waitingAck: bool,
    pendingSeq: Byte,
    retryCount: Byte,
    retryLimit: Byte,
    nextSeq: Byte,
    ackTimeoutMs: Word,
    lastTxMs: Word,
    pendingFrame: seq<Byte>)

  datatype PollResult = Idle | Resend | GiveUp

  const BLANK_FRAME: seq<Byte> := [0, 0, 0, 0, 0, 0]

  /** A sender as initialised: zero stands for the default timeout and retry limit. */
  function InitialSender(ackTimeoutMs: Word, retryLimit: Byte): SenderState {
    SenderState(false, 0, 0, if retryLimit == 0 then DEFAULT_RETRY_LIMIT else retryLimit, 0,
                if ackTimeoutMs == 0 then DEFAULT_ACK_TIMEOUT_MS else ackTimeoutMs, 0, BLANK_FRAME)
  }

  predicate CanStart(s: SenderState, link: LinkKind, cmd: Byte) {
    !s.waitingAck && Sendable(link, cmd)
  }

  function Started(s: SenderState, cmd: Byte, now: Word): SenderState {
    s.(waitingAck := true,
       pendingSeq := s.nextSeq,
       nextSeq := (s.nextSeq + 1) % 0x100,
       retryCount := 0,
       lastTxMs := now,
       pendingFrame := Encode(DataFrame(s.nextSeq, cmd)))
  }

  /** Whether a frame acknowledges the pending command. */
  predicate Acknowledges(s: SenderState, f: Frame) {
    s.waitingAck && f.kind == TYPE_ACK && f.seqNo == s.pendingSeq
  }

  function Acked(s: SenderState, f: Frame): SenderState {
    if Acknowledges(s, f) then s.(waitingAck := false) else s
  }

  function PollOutcome(s: SenderState, now: Word): PollResult {
    if !s.waitingAck || Elapsed(now, s.lastTxMs) < s.ackTimeoutMs then Idle
    else if s.retryCount < s.retryLimit then Resend
    else GiveUp
  }

  function Polled(s: SenderState, now: Word): SenderState {
    match PollOutcome(s, now)
    case Idle => s
    case Resend => s.(retryCount := s.retryCount + 1, lastTxMs := now)
    case GiveUp => s.(waitingAck := false)
  }

  class Sender {
    const link: LinkKind
    var waitingAck: bool
    var pendingSeq: Byte
    var retryCount: Byte
    var retryLimit: Byte
    var nextSeq: Byte
    var ackTimeoutMs: Word
    var lastTxMs: Word
    const pendingFrame: array<Byte>

    ghost predicate Valid()
      reads this
    {
      pendingFrame.Length == FRAME_SIZE
    }

    ghost function View(): SenderState
      reads this, pendingFrame
    {
      SenderState(waitingAck, pendingSeq, retryCount, retryLimit, nextSeq, ackTimeoutMs, lastTxMs, pendingFrame[..])
    }

    constructor (link: LinkKind, ackTimeoutMs: Word, retryLimit: Byte)
      ensures Valid() && fresh(pendingFrame) && this.link == link
      ensures View() == InitialSender(ackTimeoutMs, retryLimit)
    {
      this.link := link;
      waitingAck := false;
      pendingSeq := 0;
      retryCount := 0;
      this.retryLimit := if retryLimit == 0 then DEFAULT_RETRY_LIMIT else retryLimit;
      nextSeq := 0;
      this.ackTimeoutMs := if ackTimeoutMs == 0 then DEFAULT_ACK_TIMEOUT_MS else ackTimeoutMs;
      lastTxMs := 0;
      pendingFrame := new Byte[FRAME_SIZE](_ => 0);
    }

    method IsBusy() returns (busy: bool)
      ensures busy == waitingAck
    {
      busy := waitingAck;
    }

    method Start(cmd: Byte, now: Word, out: array<Byte>) returns (ok: bool)
      requires Valid() && out.Length == FRAME_SIZE && out != pendingFrame
      modifies this, pendingFrame, out
      ensures Valid()
      ensures ok == CanStart(old(View()), link, cmd)
      ensures View() == if ok then Started(old(View()), cmd, now) else old(View())
      ensures out[..] == if ok then View().pendingFrame else old(out[..])
    {
      if waitingAck {
        return false;
      }
      if !Sendable(link, cmd) {
        return false;
      }
      var seqNo := nextSeq;
      nextSeq := (nextSeq + 1) % 0x100;
      EncodeData(seqNo, cmd, pendingFrame);
      waitingAck := true;
      pendingSeq := seqNo;
      retryCount := 0;
      lastTxMs := now;
      CopyFrame(pendingFrame, out);
      return true;
    }

    method OnFrame(f: Frame) returns (accepted: bool)
      modifies this
      ensures accepted == Acknowledges(old(View()), f)
      ensures View() == Acked(old(View()), f)
    {
      if !waitingAck || f.kind != TYPE_ACK || f.seqNo != pendingSeq {
        return false;
      }
      waitingAck := false;
      return true;
    }

    method Poll(now: Word, out: array<Byte>) returns (result: PollResult)
      requires Valid() && out.Length == FRAME_SIZE && out != pendingFrame
      modifies this, out
      ensures Valid()
      ensures result == PollOutcome(old(View()), now)
      ensures View() == Polled(old(View()), now)
      ensures out[..] == if result == Resend then View().pendingFrame else old(out[..])
    {
      if !waitingAck {
        return Idle;
      }
      var elapsed := Elapsed(now, lastTxMs);
      if elapsed < ackTimeoutMs {
        return Idle;
      }
      if retryCount < retryLimit {
        retryCount := retryCount + 1;
        lastTxMs := now;
        CopyFrame(pendingFrame, out);
        return Resend;
      }
      waitingAck := false;
      return GiveUp;
    }
  }

  method CopyFrame(from: array<Byte>, to: array<Byte>)
    requires from.Length == to.Length == FRAME_SIZE && from != to
    modifies to
    ensures to[..] == from[..]
  {
    forall i | 0 <= i < FRAME_SIZE {
      to[i] := from[i];
    }
  }

  // ----- Receiver --------------------------------------------------------------------------

  datatype ReceiverState = ReceiverState(hasLastSeq: bool, lastSeq: Byte)

  const INITIAL_RECEIVER := ReceiverState(false, 0)

  predicate SendsAck(link: LinkKind, f: Frame) {
    f.kind == TYPE_DATA && Acceptable(link, f.cmd)
  }

  predicate Delivers(r: ReceiverState, link: LinkKind, f: Frame) {
    SendsAck(link, f) && !(r.hasLastSeq && r.lastSeq == f.seqNo)
  }

  function Received(r: ReceiverState, link: LinkKind, f: Frame): ReceiverState {
    if Delivers(r, link, f) then ReceiverState(true, f.seqNo) else r
  }

  class Receiver {
    const link: LinkKind
    var hasLastSeq: bool
    var lastSeq: Byte

    constructor (link: LinkKind)
      ensures this.link == link && View() == INITIAL_RECEIVER
    {
      this.link := link;
      hasLastSeq := false;
      lastSeq := 0;
    }

    ghost function View(): ReceiverState
      reads this
    {
      ReceiverState(hasLastSeq, lastSeq)
    }

    /** `deliver` says whether the command of the frame goes to the application; `ack` holds the
        acknowledgement when one is to be sent. */
    method OnFrame(f: Frame, ack: array<Byte>) returns (sendAck: bool, deliver: bool)
      requires ack.Length == FRAME_SIZE
      modifies this, ack
      ensures sendAck == SendsAck(link, f)
      ensures deliver == Delivers(old(View()), link, f)
      ensures View() == Received(old(View()), link, f)
      ensures ack[..] == if sendAck then Encode(AckFrame(f.seqNo)) else old(ack[..])
    {
      sendAck, deliver := false, false;
      if f.kind != TYPE_DATA {
        return;
      }
      if !Acceptable(link, f.cmd) {
        return;
      }
      EncodeAck(f.seqNo, ack);
      sendAck := true;
      if !hasLastSeq || lastSeq != f.seqNo {
        hasLastSeq := true;
        lastSeq := f.seqNo;
        deliver := true;
      }
    }
  }
}
