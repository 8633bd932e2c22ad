/** A sender and a receiver joined by two channels that keep the order of frames and may lose any
    of them. Frames in the channels carry the index of the command they belong to; the firmware
    only sees that index modulo 256, as the sequence number. */
module Link {
  import opened Bytes
  import opened Wire
  import opened Arq

  datatype Tagged = Tagged(idx: nat, bytes: seq<Byte>)

  datatype Delivery = Delivery(idx: nat, cmd: Byte)

  datatype State = State(
    kind: LinkKind,
    sender: SenderState,
    receiver: ReceiverState,
    data: seq<Tagged>,
    acks: seq<Tagged>,
    started: seq<Byte>,
    delivered: seq<Delivery>)

  datatype LinkEvent =
    | StartCommand(cmd: Byte, now: Word)
    | PollSender(now: Word)
    | ReceiveData
    | ReceiveAck
    | LoseData(at: nat)
    | LoseAck(at: nat)

  function Initial(kind: LinkKind, ackTimeoutMs: Word, retryLimit: Byte): State {
    State(kind, InitialSender(ackTimeoutMs, retryLimit), INITIAL_RECEIVER, [], [], [], [])
  }

  datatype Decoding = Parsed(frame: Frame) | Garbage

  /** What a parser between frames makes of the bytes of one transmission. */
  function Decode(bytes: seq<Byte>): Decoding {
    var reports := Reports(FRESH, bytes);
    if |reports| == 1 && reports[0].Decoded? then Parsed(reports[0].frame) else Garbage
  }

  function Without(channel: seq<Tagged>, at: nat): seq<Tagged> {
    if at < |channel| then channel[..at] + channel[at + 1..] else channel
  }

  function AfterStart(s: State, cmd: Byte, now: Word): State {
    if CanStart(s.sender, s.kind, cmd) then
      var sender := Started(s.sender, cmd, now);
      s.(sender := sender,
         data := s.data + [Tagged(|s.started|, sender.pendingFrame)],
         started := s.started + [cmd])
    else s
  }

  function AfterPoll(s: State, now: Word): State {
    var sender := Polled(s.sender, now);
    s.(sender := sender,
       data := if PollOutcome(s.sender, now) == Resend && |s.started| > 0
               then s.data + [Tagged(|s.started| - 1, sender.pendingFrame)] else s.data)
  }

  function AfterData(s: State): State {
    if s.data == [] then s
    else
      var head := s.data[0];
      var rest := s.(data := s.data[1..]);
      match Decode(head.bytes)
      case Garbage => rest
      case Parsed(f) =>
        rest.(receiver := Received(s.receiver, s.kind, f),
              acks := if SendsAck(s.kind, f) then s.acks + [Tagged(head.idx, Encode(AckFrame(f.seqNo)))] else s.acks,
              delivered := if Delivers(s.receiver, s.kind, f) then s.delivered + [Delivery(head.idx, f.cmd)]
                           else s.delivered)
  }

  /** Whether the first acknowledgement in the channel completes the pending command. */
  predicate HeadAckCompletes(s: State) {
    s.acks != [] && Decode(s.acks[0].bytes).Parsed? && Acknowledges(s.sender, Decode(s.acks[0].bytes).frame)
  }

  function AfterAck(s: State): State {
    if s.acks == [] then s
    else if HeadAckCompletes(s) then s.(acks := s.acks[1..], sender := s.sender.(waitingAck := false))
    else s.(acks := s.acks[1..])
  }

  function Step(s: State, e: LinkEvent): State {
    match e
    case StartCommand(cmd, now) => AfterStart(s, cmd, now)
    case PollSender(now) => AfterPoll(s, now)
    case ReceiveData => AfterData(s)
    case ReceiveAck => AfterAck(s)
    case LoseData(at) => s.(data := Without(s.data, at))
    case LoseAck(at) => s.(acks := Without(s.acks, at))
  }

  function Run(s: State, es: seq<LinkEvent>): State {
    if es == [] then s else Step(Run(s, es[..|es| - 1]), es[|es| - 1])
  }

  // ----- The invariant of every run --------------------------------------------------------

  function SeqOf(idx: nat): Byte {
    idx % 0x100
  }

  /** The index of the command the receiver delivered last, -1 before the first. */
  function Remembered(s: State): int {
    if s.delivered == [] then -1 else s.delivered[|s.delivered| - 1].idx
  }

  predicate SenderInv(s: State) {
    && s.sender.nextSeq == SeqOf(|s.started|)
    && (forall i | 0 <= i < |s.started| :: Sendable(s.kind, s.started[i]))
    && (s.sender.waitingAck ==>
          && |s.started| > 0
          && s.sender.pendingSeq == SeqOf(|s.started| - 1)
          && s.sender.pendingFrame == Encode(DataFrame(SeqOf(|s.started| - 1), s.started[|s.started| - 1])))
  }

  predicate ReceiverInv(s: State) {
    && s.receiver.hasLastSeq == (s.delivered != [])
    && (s.delivered != [] ==> s.receiver.lastSeq == SeqOf(s.delivered[|s.delivered| - 1].idx))
  }

  /** The deliveries are a strictly increasing selection of the commands that were started. */
  predicate InOrder(s: State) {
    && (forall i | 0 <= i < |s.delivered| ::
          s.delivered[i].idx < |s.started| && s.delivered[i].cmd == s.started[s.delivered[i].idx])
    && (forall i, j | 0 <= i < j < |s.delivered| :: s.delivered[i].idx < s.delivered[j].idx)
  }

  predicate IsDataOf(started: seq<Byte>, t: Tagged) {
    t.idx < |started| && t.bytes == Encode(DataFrame(SeqOf(t.idx), started[t.idx]))
  }

  predicate IsAckOf(started: seq<Byte>, t: Tagged) {
    t.idx < |started| && t.bytes == Encode(AckFrame(SeqOf(t.idx)))
  }

  predicate Ascending(channel: seq<Tagged>) {
    forall i, j | 0 <= i < j < |channel| :: channel[i].idx <= channel[j].idx
  }

  predicate DataInv(s: State) {
    && (forall i | 0 <= i < |s.data| :: IsDataOf(s.started, s.data[i]) && Remembered(s) <= s.data[i].idx)
    && Ascending(s.data)
  }

  predicate AckInv(s: State) {
    forall i | 0 <= i < |s.acks| :: IsAckOf(s.started, s.acks[i])
  }

  predicate Inv(s: State) {
    SenderInv(s) && ReceiverInv(s) && InOrder(s) && DataInv(s) && AckInv(s)
  }

  lemma DecodeIs(f: Frame)
    requires WellFormed(f)
    ensures Decode(Encode(f)) == Parsed(f)
  {
    DecodeEncoded(FRESH, f);
  }

  lemma StartKeepsInv(s: State, cmd: Byte, now: Word)
    requires Inv(s)
    ensures Inv(AfterStart(s, cmd, now))
  {
    hide Encode, Sendable, Elapsed;
    assert forall i | 0 <= i < |s.data| :: IsDataOf(s.started, s.data[i]);
    assert forall i | 0 <= i < |s.acks| :: IsAckOf(s.started, s.acks[i]);
  }

  lemma PollKeepsInv(s: State, now: Word)
    requires Inv(s)
    ensures Inv(AfterPoll(s, now))
  {
    hide SenderInv, ReceiverInv, InOrder, DataInv, AckInv;
    PollKeepsSender(s, now);
    PollKeepsData(s, now);
    PollKeepsOthers(s, now);
  }

  lemma PollKeepsSender(s: State, now: Word)
    requires SenderInv(s)
    ensures SenderInv(AfterPoll(s, now))
  {
    hide Encode, Elapsed;
  }

  lemma PollKeepsData(s: State, now: Word)
    requires Inv(s)
    ensures DataInv(AfterPoll(s, now))
  {
    hide Encode, Elapsed, AckInv, ReceiverInv;
    var data := AfterPoll(s, now).data;
    if data != s.data {
      assert data == s.data + [Tagged(|s.started| - 1, s.sender.pendingFrame)];
      assert IsDataOf(s.started, data[|s.data|]);
    }
  }

  lemma PollKeepsOthers(s: State, now: Word)
    requires Inv(s)
    ensures ReceiverInv(AfterPoll(s, now)) && InOrder(AfterPoll(s, now)) && AckInv(AfterPoll(s, now))
  {
    hide Encode, Polled, SenderInv, DataInv;
  }

  lemma LossKeepsInv(s: State, at: nat)
    requires Inv(s)
    ensures Inv(s.(data := Without(s.data, at)))
    ensures Inv(s.(acks := Without(s.acks, at)))
  {
    hide Encode, Sendable;
  }

  lemma AckKeepsInv(s: State)
    requires Inv(s)
    ensures Inv(AfterAck(s))
  {
    hide Encode, Decode, Acknowledges;
  }

  /** What the receiver does with the first data frame: it is delivered exactly when its sequence
      number differs from the remembered one, and acknowledged in any case. */
  lemma HeadData(s: State)
    requires Inv(s) && s.data != []
    ensures var t := s.data[0]; var s' := AfterData(s);
            && IsDataOf(s.started, t) && Remembered(s) <= t.idx
            && s' == s.(data := s.data[1..], receiver := s'.receiver,
                        acks := s.acks + [Tagged(t.idx, Encode(AckFrame(SeqOf(t.idx))))], delivered := s'.delivered)
            && (if s.delivered == [] || SeqOf(t.idx) != SeqOf(s.delivered[|s.delivered| - 1].idx)
                then s'.receiver == ReceiverState(true, SeqOf(t.idx)) &&
                     s'.delivered == s.delivered + [Delivery(t.idx, s.started[t.idx])]
                else s'.receiver == s.receiver && s'.delivered == s.delivered)
  {
    var t := s.data[0];
    assert IsDataOf(s.started, t);
    DecodeIs(DataFrame(SeqOf(t.idx), s.started[t.idx]));
    SendableIsAcceptable(s.kind, s.started[t.idx], SeqOf(t.idx));
  }

  lemma DataKeepsInv(s: State)
    requires Inv(s)
    ensures Inv(AfterData(s))
  {
    hide Encode, Decode, Inv;
    if s.data != [] {
      HeadData(s);
      HeadDataKeepsInv(s, AfterData(s));
    }
  }

  lemma HeadDataKeepsInv(s: State, s': State)
    requires Inv(s) && s.data != []
    requires var t := s.data[0];
             && IsDataOf(s.started, t) && Remembered(s) <= t.idx
             && s' == s.(data := s.data[1..], receiver := s'.receiver,
                         acks := s.acks + [Tagged(t.idx, Encode(AckFrame(SeqOf(t.idx))))], delivered := s'.delivered)
             && (if s.delivered == [] || SeqOf(t.idx) != SeqOf(s.delivered[|s.delivered| - 1].idx)
                 then s'.receiver == ReceiverState(true, SeqOf(t.idx)) &&
                      s'.delivered == s.delivered + [Delivery(t.idx, s.started[t.idx])]
                 else s'.receiver == s.receiver && s'.delivered == s.delivered)
    ensures Inv(s')
  {
    hide Encode, Sendable;
    forall i | 0 <= i < |s'.data|
      ensures IsDataOf(s'.started, s'.data[i]) && Remembered(s') <= s'.data[i].idx
    {
      assert IsDataOf(s.started, s.data[i + 1]) && s.data[0].idx <= s.data[i + 1].idx;
    }
  }

  lemma StepKeepsInv(s: State, e: LinkEvent)
    requires Inv(s)
    ensures Inv(Step(s, e))
  {
    match e
    case StartCommand(cmd, now) => StartKeepsInv(s, cmd, now);
    case PollSender(now) => PollKeepsInv(s, now);
    case ReceiveData => DataKeepsInv(s);
    case ReceiveAck => AckKeepsInv(s);
    case LoseData(at) => LossKeepsInv(s, at);
    case LoseAck(at) => LossKeepsInv(s, at);
  }

  lemma {:induction false} RunKeepsInv(s: State, es: seq<LinkEvent>)
    requires Inv(s)
    ensures Inv(Run(s, es))
  {
    if es != [] {
      RunKeepsInv(s, es[..|es| - 1]);
      StepKeepsInv(Run(s, es[..|es| - 1]), es[|es| - 1]);
    }
  }

  /** At most once and in order: on every run the delivered commands are a strictly increasing
      selection of the started ones, whatever is resent, given up or lost, and although sequence
      numbers wrap around. */
  lemma AtMostOnceInOrder(kind: LinkKind, ackTimeoutMs: Word, retryLimit: Byte, es: seq<LinkEvent>)
    ensures InOrder(Run(Initial(kind, ackTimeoutMs, retryLimit), es))
  {
    RunKeepsInv(Initial(kind, ackTimeoutMs, retryLimit), es);
  }

  /** What was started or delivered is never taken back. */
  lemma {:induction false} HistoryGrows(s: State, es: seq<LinkEvent>)
    ensures s.started <= Run(s, es).started && s.delivered <= Run(s, es).delivered
    ensures Run(s, es).kind == s.kind
  {
    hide Polled, Decode;
    if es != [] {
      HistoryGrows(s, es[..|es| - 1]);
    }
  }

  // ----- Acknowledgements ------------------------------------------------------------------

  /** Fewer than `bound` commands were started since any that is still in a channel or remembered
      by the receiver. */
  predicate Within(s: State, bound: nat) {
    && (forall i | 0 <= i < |s.data| :: |s.started| - 1 < s.data[i].idx + bound)
    && (forall i | 0 <= i < |s.acks| :: |s.started| - 1 < s.acks[i].idx + bound)
    && (s.delivered != [] ==> |s.started| - 1 < Remembered(s) + bound)
  }

  predicate AlwaysWithin(s: State, es: seq<LinkEvent>, bound: nat) {
    forall n | 0 <= n <= |es| :: Within(Run(s, es[..n]), bound)
  }

  /** No acknowledgement is ahead of the receiver. */
  predicate AcksProven(s: State) {
    forall i | 0 <= i < |s.acks| :: s.acks[i].idx <= Remembered(s)
  }

  lemma SameSeqSameIndex(i: nat, j: nat)
    requires i <= j < i + 0x100 && SeqOf(i) == SeqOf(j)
    ensures i == j
  {
  }

  lemma DataKeepsAcksProven(s: State)
    requires Inv(s) && Within(s, 0x100) && AcksProven(s) && s.data != []
    ensures AcksProven(AfterData(s))
  {
    hide Encode, Decode;
    HeadData(s);
    var t := s.data[0];
    if s.delivered != [] && SeqOf(t.idx) == SeqOf(s.delivered[|s.delivered| - 1].idx) {
      SameSeqSameIndex(Remembered(s), t.idx);
    }
  }

  lemma StepKeepsAcksProven(s: State, e: LinkEvent)
    requires Inv(s) && Within(s, 0x100) && AcksProven(s)
    ensures AcksProven(Step(s, e))
  {
    hide Inv, Within, Encode, HeadAckCompletes, Polled, Started;
    if e.ReceiveData? && s.data != [] {
      DataKeepsAcksProven(s);
    }
  }

  lemma {:induction false} RunKeepsAcksProven(s: State, es: seq<LinkEvent>)
    requires Inv(s) && AcksProven(s) && AlwaysWithin(s, es, 0x100)
    ensures AcksProven(Run(s, es))
  {
    if es != [] {
      var n := |es| - 1;
      assert forall k | 0 <= k <= n :: es[..n][..k] == es[..k];
      RunKeepsAcksProven(s, es[..n]);
      RunKeepsInv(s, es[..n]);
      StepKeepsAcksProven(Run(s, es[..n]), es[n]);
    }
  }

  /** The command started last is the one delivered last. */
  predicate CurrentDelivered(s: State) {
    && s.started != [] && s.delivered != []
    && s.delivered[|s.delivered| - 1] == Delivery(|s.started| - 1, s.started[|s.started| - 1])
  }

  lemma CompletionProven(s: State)
    requires Inv(s) && Within(s, 0x100) && AcksProven(s) && HeadAckCompletes(s)
    ensures CurrentDelivered(s)
  {
    var t := s.acks[0];
    assert IsAckOf(s.started, t);
    DecodeIs(AckFrame(SeqOf(t.idx)));
    SameSeqSameIndex(t.idx, |s.started| - 1);
  }

  /** Acknowledgements are sound: while fewer than 256 commands are started during the life of a
      frame or of the receiver's memory, an accepted acknowledgement means that the receiver has
      delivered exactly the command the sender is waiting for. */
  lemma AcknowledgementSound(kind: LinkKind, ackTimeoutMs: Word, retryLimit: Byte, es: seq<LinkEvent>)
    requires var s0 := Initial(kind, ackTimeoutMs, retryLimit);
             AlwaysWithin(s0, es, 0x100) && HeadAckCompletes(Run(s0, es))
    ensures CurrentDelivered(Run(Initial(kind, ackTimeoutMs, retryLimit), es))
  {
    var s0 := Initial(kind, ackTimeoutMs, retryLimit);
    RunKeepsAcksProven(s0, es);
    RunKeepsInv(s0, es);
    assert es[..|es|] == es;
    CompletionProven(Run(s0, es));
  }
}
