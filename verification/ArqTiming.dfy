/** How often and for how long the sender tries: bounds on the transmissions of one command and on
    the true time until it gives up, although it only sees a 32-bit clock. */
module ArqTiming {
  import opened Bytes
  import opened Wire
  import opened Arq

  /** What can happen to a busy sender: a poll at a true time, or a frame that arrives. */
  datatype Happening = PollAt(time: nat) | Arrival(frame: Frame)

  function Occur(s: SenderState, h: Happening): SenderState {
    match h
    case PollAt(time) => Polled(s, ToWord(time))
    case Arrival(f) => Acked(s, f)
  }

  function Run(s: SenderState, hs: seq<Happening>): SenderState {
    if hs == [] then s else Occur(Run(s, hs[..|hs| - 1]), hs[|hs| - 1])
  }

  predicate Resends(s: SenderState, h: Happening) {
    h.PollAt? && PollOutcome(s, ToWord(h.time)) == Resend
  }

  /** The frames written during a run. */
  function Written(s: SenderState, hs: seq<Happening>): seq<seq<Byte>> {
    if hs == [] then []
    else
      var n := |hs| - 1;
      var before := Run(s, hs[..n]);
      Written(s, hs[..n]) + if Resends(before, hs[n]) then [Occur(before, hs[n]).pendingFrame] else []
  }

  /** The time of the last poll, or `start` before the first. */
  function Now(start: nat, hs: seq<Happening>): nat {
    if hs == [] then start
    else if hs[|hs| - 1].PollAt? then hs[|hs| - 1].time
    else Now(start, hs[..|hs| - 1])
  }

  /** Polls happen in the order of time, at most `gap` apart. */
  predicate Clocked(start: nat, hs: seq<Happening>) {
    hs == [] ||
    (var n := |hs| - 1;
     Clocked(start, hs[..n]) && (hs[n].PollAt? ==> Now(start, hs[..n]) <= hs[n].time))
  }

  predicate Frequent(start: nat, hs: seq<Happening>, gap: nat) {
    hs == [] ||
    (var n := |hs| - 1;
     Frequent(start, hs[..n], gap) && (hs[n].PollAt? ==> hs[n].time <= Now(start, hs[..n]) + gap))
  }

  /** The true time of the last transmission. */
  function LastTx(s: SenderState, start: nat, hs: seq<Happening>): nat {
    if hs == [] then start
    else
      var n := |hs| - 1;
      if Resends(Run(s, hs[..n]), hs[n]) then hs[n].time else LastTx(s, start, hs[..n])
  }

  predicate JustStarted(s: SenderState, start: nat) {
    s.waitingAck && s.retryCount == 0 && s.lastTxMs == ToWord(start)
  }

  /** A start begins the count of retries and of time anew, with the limits of the sender; these are 20 ms and 5 retries unless
      others are given. */
  lemma StartBegins(s: SenderState, cmd: Byte, start: nat, ackTimeoutMs: Word, retryLimit: Byte)
    ensures
      var t := Started(s, cmd, ToWord(start));
      JustStarted(t, start) && t.retryLimit == s.retryLimit && t.ackTimeoutMs == s.ackTimeoutMs
    ensures
      var t := InitialSender(ackTimeoutMs, retryLimit);
      !t.waitingAck && t.nextSeq == 0 && t.ackTimeoutMs == (if ackTimeoutMs == 0 then 20 else ackTimeoutMs) &&
      t.retryLimit == if retryLimit == 0 then 5 else retryLimit
  {
  }

  /** One start leads to at most 1 + retryLimit transmissions of the same bytes: the first by the
      start itself, the others during the run. */
  lemma {:induction false} TransmissionBound(s: SenderState, hs: seq<Happening>)
    requires s.retryCount == 0
    ensures |Written(s, hs)| == Run(s, hs).retryCount <= s.retryLimit
    ensures forall w | w in Written(s, hs) :: w == s.pendingFrame
    ensures Run(s, hs).pendingFrame == s.pendingFrame && Run(s, hs).retryLimit == s.retryLimit
    ensures Run(s, hs).ackTimeoutMs == s.ackTimeoutMs
  {
    if hs != [] {
      TransmissionBound(s, hs[..|hs| - 1]);
    }
  }

  /** What holds while the sender still waits. */
  lemma {:induction false} WaitingInvariant(s: SenderState, start: nat, hs: seq<Happening>)
    requires JustStarted(s, start) && Clocked(start, hs) && Run(s, hs).waitingAck
    ensures var last := LastTx(s, start, hs);
            && start <= last <= Now(start, hs)
            && Run(s, hs).lastTxMs == ToWord(last)
            && start + Rounds(Run(s, hs).retryCount, s.ackTimeoutMs) <= last
  {
    if hs != [] {
      var n := |hs| - 1;
      var before := Run(s, hs[..n]);
      WaitingInvariant(s, start, hs[..n]);
      TransmissionBound(s, hs[..n]);
      if Resends(before, hs[n]) {
        ElapsedOfReadings(hs[n].time, LastTx(s, start, hs[..n]));
      }
    }
  }

  /** The sender gives up no earlier than (retryLimit + 1) timeouts of true time after the start,
      however often it is polled and whatever arrives meanwhile. */
  lemma GiveUpNotEarly(s: SenderState, start: nat, hs: seq<Happening>, time: nat)
    requires JustStarted(s, start) && Clocked(start, hs + [PollAt(time)])
    requires PollOutcome(Run(s, hs), ToWord(time)) == GiveUp
    ensures start + (s.retryLimit + 1) * s.ackTimeoutMs <= time
  {
    assert (hs + [PollAt(time)])[..|hs|] == hs;
    WaitingInvariant(s, start, hs);
    TransmissionBound(s, hs);
    ElapsedOfReadings(time, LastTx(s, start, hs));
    RoundsIsProduct(s.retryLimit + 1, s.ackTimeoutMs);
  }

  lemma {:induction false} WaitingIsShort(s: SenderState, start: nat, hs: seq<Happening>, gap: nat)
    requires JustStarted(s, start) && Clocked(start, hs) && Frequent(start, hs, gap) && Run(s, hs).waitingAck
    requires 0 < s.ackTimeoutMs && s.ackTimeoutMs + gap < WORD_RANGE
    ensures var last := LastTx(s, start, hs);
            && last <= start + Rounds(Run(s, hs).retryCount, s.ackTimeoutMs + gap)
            && Now(start, hs) < last + s.ackTimeoutMs
  {
    if hs != [] {
      var n := |hs| - 1;
      var before := Run(s, hs[..n]);
      WaitingIsShort(s, start, hs[..n], gap);
      WaitingInvariant(s, start, hs[..n]);
      TransmissionBound(s, hs[..n]);
      if hs[n].PollAt? {
        ElapsedOfReadings(hs[n].time, LastTx(s, start, hs[..n]));
      }
    }
  }

  /** Polled at most `gap` apart, the sender no longer waits once (retryLimit + 1) times the timeout
      plus the gap has passed: it was acknowledged or gave up. */
  lemma GiveUpInTime(s: SenderState, start: nat, hs: seq<Happening>, gap: nat)
    requires JustStarted(s, start) && Clocked(start, hs) && Frequent(start, hs, gap)
    requires 0 < s.ackTimeoutMs && s.ackTimeoutMs + gap < WORD_RANGE
    requires start + (s.retryLimit + 1) * (s.ackTimeoutMs + gap) <= Now(start, hs)
    ensures !Run(s, hs).waitingAck
  {
    if Run(s, hs).waitingAck {
      WaitingIsShort(s, start, hs, gap);
      TransmissionBound(s, hs);
      RoundsMonotone(Run(s, hs).retryCount, s.retryLimit, s.ackTimeoutMs + gap);
      RoundsIsProduct(s.retryLimit + 1, s.ackTimeoutMs + gap);
    }
  }
}
