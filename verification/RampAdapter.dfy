/** The register between the door controller and the ramp link: which request is desired, which one
    was queued last, which one is in flight, and whether a success waits to be consumed. */
module RampAdapter {
  import opened Bytes
  import opened Wire
  import opened Arq

  const RAMP_NONE: Byte := 0
  const RAMP_OPEN: Byte := 1
  const RAMP_CLOSE: Byte := 2
  const NOTHING_QUEUED: Byte := 0xFF

  datatype AdapterState = AdapterState(
    sender: SenderState,
    parser: ParserState,
    desired: Byte,
    lastQueued: Byte,
    inflight: Byte,
    successPending: bool,
    successCmd: Byte)

  const INITIAL_ADAPTER := AdapterState(InitialSender(DEFAULT_ACK_TIMEOUT_MS, DEFAULT_RETRY_LIMIT), FRESH,
                                        RAMP_NONE, NOTHING_QUEUED, RAMP_NONE, false, RAMP_NONE)

  /** A decoded frame completes the command in flight when it acknowledges it. */
  function OnDecoded(a: AdapterState, f: Frame): AdapterState {
    if Acknowledges(a.sender, f) then
      a.(sender := Acked(a.sender, f), successPending := true, successCmd := a.inflight,
         desired := RAMP_NONE, lastQueued := RAMP_NONE)
    else a
  }

  function OnByte(a: AdapterState, b: Byte): AdapterState {
    var (parser, event) := Feed(a.parser, b);
    if event.Decoded? then OnDecoded(a.(parser := parser), event.frame) else a.(parser := parser)
  }

  function OnBytes(a: AdapterState, rx: seq<Byte>): AdapterState {
    if rx == [] then a else OnByte(OnBytes(a, rx[..|rx| - 1]), rx[|rx| - 1])
  }

  function Retried(a: AdapterState, now: Word): AdapterState {
    a.(sender := Polled(a.sender, now),
       lastQueued := if PollOutcome(a.sender, now) == GiveUp then NOTHING_QUEUED else a.lastQueued)
  }

  /** Whether the desired command is started now. */
  predicate Sends(a: AdapterState) {
    a.desired != a.lastQueued && CanStart(a.sender, RampLink, a.desired)
  }

  function Sent(a: AdapterState, now: Word): AdapterState {
    if Sends(a) then
      a.(sender := Started(a.sender, a.desired, now), inflight := a.desired, lastQueued := a.desired)
    else a
  }

  /** One poll of the adapter; the two clock readings are those of the retry and of the start. */
  function TxPolled(a: AdapterState, rx: seq<Byte>, retryNow: Word, startNow: Word): AdapterState {
    Sent(Retried(OnBytes(a, rx), retryNow), startNow)
  }

  /** The bytes the same poll writes to the UART. */
  function TxWritten(a: AdapterState, rx: seq<Byte>, retryNow: Word, startNow: Word): seq<Byte> {
    var read := OnBytes(a, rx);
    var retried := Retried(read, retryNow);
    (if PollOutcome(read.sender, retryNow) == Resend then read.sender.pendingFrame else []) +
    (if Sends(retried) then Sent(retried, startNow).sender.pendingFrame else [])
  }

  class Adapter {
    const sender: Sender
    const parser: Parser
    var desired: Byte
    var lastQueued: Byte
    var inflight: Byte
    var successPending: bool
    var successCmd: Byte
    /** Everything written to the UART so far. */
    var wire: seq<Byte>

    ghost predicate Valid()
      reads this, sender
    {
      sender.Valid() && sender.link == RampLink
    }

    ghost function View(): AdapterState
      reads this, sender, sender.pendingFrame, parser
    {
      AdapterState(sender.View(), parser.View(), desired, lastQueued, inflight, successPending, successCmd)
    }

    constructor ()
      ensures Valid() && View() == INITIAL_ADAPTER && wire == []
      ensures fresh(sender) && fresh(sender.pendingFrame) && fresh(parser)
    {
      sender := new Sender(RampLink, DEFAULT_ACK_TIMEOUT_MS, DEFAULT_RETRY_LIMIT);
      parser := new Parser();
      desired := RAMP_NONE;
      lastQueued := NOTHING_QUEUED;
      inflight := RAMP_NONE;
      successPending := false;
      successCmd := RAMP_NONE;
      wire := [];
    }

    method WriteFrame(frame: array<Byte>)
      modifies this`wire
      ensures wire == old(wire) + frame[..]
    {
      wire := wire + frame[..];
    }

    /** Reads what the UART has received, `rx`, byte by byte. */
    method ProcessRx(rx: seq<Byte>)
      requires Valid()
      modifies this, sender, parser
      ensures Valid() && wire == old(wire)
      ensures View() == OnBytes(old(View()), rx)
    {
      for i := 0 to |rx|
        invariant Valid() && wire == old(wire)
        invariant View() == OnBytes(old(View()), rx[..i])
      {
        ghost var prefix := rx[..i + 1];
        assert prefix[..|prefix| - 1] == rx[..i];
        var event := parser.FeedByte(rx[i]);
        if event.Decoded? {
          var accepted := sender.OnFrame(event.frame);
          if accepted {
            successPending := true;
            successCmd := inflight;
            desired := RAMP_NONE;
            lastQueued := RAMP_NONE;
          }
        }
      }
      assert rx[..|rx|] == rx;
    }

    method PollRetry(now: Word)
      requires Valid()
      modifies this, sender
      ensures Valid()
      ensures View() == Retried(old(View()), now)
      ensures wire == old(wire) +
                      if PollOutcome(old(View()).sender, now) == Resend then old(View()).sender.pendingFrame else []
    {
      var frame := new Byte[FRAME_SIZE];
      var rc := sender.Poll(now, frame);
      if rc == Resend {
        WriteFrame(frame);
      } else if rc == GiveUp {
        lastQueued := NOTHING_QUEUED;
      }
    }

    method TrySendDesired(now: Word)
      requires Valid()
      modifies this, sender, sender.pendingFrame
      ensures Valid()
      ensures View() == Sent(old(View()), now)
      ensures wire == old(wire) + if Sends(old(View())) then View().sender.pendingFrame else []
    {
      var busy := sender.IsBusy();
      if busy {
        return;
      }
      if desired == lastQueued {
        return;
      }
      var frame := new Byte[FRAME_SIZE];
      var ok := sender.Start(desired, now, frame);
      if ok {
        inflight := desired;
        WriteFrame(frame);
        lastQueued := desired;
      }
    }

    method TxPoll(rx: seq<Byte>, retryNow: Word, startNow: Word)
      requires Valid()
      modifies this, sender, sender.pendingFrame, parser
      ensures Valid()
      ensures View() == TxPolled(old(View()), rx, retryNow, startNow)
      ensures wire == old(wire) + TxWritten(old(View()), rx, retryNow, startNow)
    {
      ProcessRx(rx);
      PollRetry(retryNow);
      TrySendDesired(startNow);
    }

    method RequestOpen()
      modifies this`desired
      ensures desired == RAMP_OPEN
    {
      desired := RAMP_OPEN;
    }

    method RequestClose()
      modifies this`desired
      ensures desired == RAMP_CLOSE
    {
      desired := RAMP_CLOSE;
    }

    method TxIsBusy() returns (busy: bool)
      ensures busy == sender.waitingAck
    {
      busy := sender.IsBusy();
    }

    method ConsumeTxSuccess() returns (available: bool, cmd: Byte)
      modifies this`successPending
      ensures available == old(successPending) && !successPending
      ensures available ==> cmd == successCmd
    {
      available, cmd := false, RAMP_NONE;
      if successPending {
        cmd := successCmd;
        successPending := false;
        available := true;
      }
    }
  }

  // ----- From bytes to frames --------------------------------------------------------------

  function OnReports(a: AdapterState, reports: seq<Event>): AdapterState {
    if reports == [] then a
    else
      var before := OnReports(a, reports[..|reports| - 1]);
      var last := reports[|reports| - 1];
      if last.Decoded? then OnDecoded(before, last.frame) else before
  }

  lemma {:induction false} OnReportsKeepsParser(a: AdapterState, reports: seq<Event>, p: ParserState)
    ensures OnReports(a, reports).parser == a.parser
    ensures OnReports(a.(parser := p), reports) == OnReports(a, reports).(parser := p)
  {
    if reports != [] {
      OnReportsKeepsParser(a, reports[..|reports| - 1], p);
    }
  }

  /** Reading bytes amounts to handling the frames the parser decodes from them. */
  lemma {:induction false} OnBytesIsOnReports(a: AdapterState, rx: seq<Byte>)
    ensures OnBytes(a, rx) == OnReports(a, Reports(a.parser, rx)).(parser := After(a.parser, rx))
  {
    if rx != [] {
      hide Feed, OnDecoded, Acknowledges;
      var n := |rx| - 1;
      OnBytesIsOnReports(a, rx[..n]);
      var event := Feed(After(a.parser, rx[..n]), rx[n]).1;
      var reports := Reports(a.parser, rx[..n]);
      if event == Nothing {
        assert reports + Report(event) == reports;
      } else {
        assert (reports + [event])[..|reports + [event]| - 1] == reports;
        if event.Decoded? {
          OnDecodedKeepsParser(OnReports(a, reports), event.frame, After(a.parser, rx));
        }
      }
    }
  }

  lemma OnDecodedKeepsParser(a: AdapterState, f: Frame, p: ParserState)
    ensures OnDecoded(a.(parser := p), f) == OnDecoded(a, f).(parser := p)
  {
  }
}
