/** The bound of 256 on the acknowledgement theorem is exact: one more start and a stale
    acknowledgement is taken for the current command. */
module LinkWindow {
  import opened Bytes
  import opened Wire
  import opened Arq
  import opened Link

  const OPEN: Byte := 1
  const CLOSE: Byte := 2
  const BOUND: nat := 0x101

  ghost predicate Reachable(s: State) {
    exists es :: AlwaysWithin(Initial(RampLink, 1, 1), es, BOUND) && Run(Initial(RampLink, 1, 1), es) == s
  }

  lemma ReachInitial()
    ensures Reachable(Initial(RampLink, 1, 1))
  {
    var s0 := Initial(RampLink, 1, 1);
    var none: seq<LinkEvent> := [];
    assert Run(s0, none) == s0;
    assert AlwaysWithin(s0, none, BOUND);
  }

  lemma ReachStep(s: State, e: LinkEvent)
    requires Reachable(s) && Within(Step(s, e), BOUND)
    ensures Reachable(Step(s, e))
  {
    hide Step, Within, Initial;
    var s0 := Initial(RampLink, 1, 1);
    var es :| AlwaysWithin(s0, es, BOUND) && Run(s0, es) == s;
    var longer := es + [e];
    assert longer[..|longer| - 1] == es;
    forall n | 0 <= n <= |longer|
      ensures Within(Run(s0, longer[..n]), BOUND)
    {
      if n <= |es| {
        assert longer[..n] == es[..n];
      } else {
        assert longer[..n] == longer;
      }
    }
    assert Run(s0, longer) == Step(s, e);
  }

  /** The acknowledgement of command 0 is still on its way after `n` commands, all of which the
      sender has given up. */
  predicate Stale(s: State, n: nat) {
    && s.kind == RampLink && !s.sender.waitingAck
    && s.sender.ackTimeoutMs == 1 && s.sender.retryLimit == 1 && s.sender.nextSeq == SeqOf(n)
    && s.data == [] && s.acks == [Tagged(0, Encode(AckFrame(0)))]
    && |s.started| == n && s.delivered == [Delivery(0, OPEN)]
  }

  lemma OneStale() returns (s: State)
    ensures Reachable(s) && Stale(s, 1)
  {
    hide Encode, Reachable;
    var s0 := Initial(RampLink, 1, 1);
    ReachInitial();
    ReachStep(s0, StartCommand(OPEN, 0));
    var s1 := Step(s0, StartCommand(OPEN, 0));
    DecodeIs(DataFrame(0, OPEN));
    ReachStep(s1, ReceiveData);
    var s2 := Step(s1, ReceiveData);
    s := GiveUpLast(s2, 1, 0);
  }

  /** The sender waits for an acknowledgement of command `n - 1` and was last polled at `now`. */
  predicate Waiting(s: State, n: nat, now: Word, retries: nat) {
    && s.kind == RampLink && s.sender.waitingAck
    && s.sender.ackTimeoutMs == 1 && s.sender.retryLimit == 1 && s.sender.nextSeq == SeqOf(n)
    && s.sender.retryCount == retries && s.sender.lastTxMs == now
    && s.acks == [Tagged(0, Encode(AckFrame(0)))]
    && 0 < n == |s.started| <= 0x100 && s.delivered == [Delivery(0, OPEN)]
  }

  lemma PollResends(s: State, n: nat, now: Word) returns (s': State)
    requires Reachable(s) && Waiting(s, n, now, 0) && now < 0x1000 && |s.data| <= 1
    ensures Reachable(s') && Waiting(s', n, now + 1, 1) && |s'.data| <= 2
  {
    hide Encode;
    s' := Step(s, PollSender(now + 1));
    assert Within(s', BOUND);
    ReachStep(s, PollSender(now + 1));
  }

  lemma PollGivesUp(s: State, n: nat, now: Word) returns (s': State)
    requires Reachable(s) && Waiting(s, n, now, 1) && now < 0x1001 && |s.data| <= 2
    ensures Reachable(s') && s' == s.(sender := s.sender.(waitingAck := false))
  {
    hide Encode;
    s' := Step(s, PollSender(now + 1));
    assert Within(s', BOUND);
    ReachStep(s, PollSender(now + 1));
  }

  lemma LoseHead(s: State, n: nat) returns (s': State)
    requires Reachable(s) && |s.started| <= 0x100
    requires s.acks == [Tagged(0, Encode(AckFrame(0)))] && s.delivered == [Delivery(0, OPEN)]
    ensures Reachable(s') && s' == s.(data := if s.data == [] then [] else s.data[1..])
  {
    hide Encode, Reachable;
    s' := Step(s, LoseData(0));
    assert s' == s.(data := if s.data == [] then [] else s.data[1..]);
    assert Within(s', BOUND);
    ReachStep(s, LoseData(0));
  }

  /** A command the sender has just started can be given up without any frame getting through. */
  lemma GiveUpLast(s: State, n: nat, now: Word) returns (s': State)
    requires Reachable(s) && Waiting(s, n, now, 0) && now < 0x1000 && |s.data| <= 1
    ensures Reachable(s') && Stale(s', n)
  {
    hide Encode, Reachable;
    var s1 := PollResends(s, n, now);
    var s2 := PollGivesUp(s1, n, now + 1);
    var s3 := LoseHead(s2, n);
    s' := LoseHead(s3, n);
  }

  lemma StartsNext(s: State, n: nat, now: Word)
    requires Stale(s, n) && 0 < n < 0x100
    ensures var s' := AfterStart(s, CLOSE, now);
            Waiting(s', n + 1, now, 0) && |s'.data| == 1 && Within(s', BOUND)
  {
    hide Encode;
    assert Sendable(RampLink, CLOSE);
  }

  lemma OneMoreStale(s: State, n: nat) returns (s': State)
    requires Reachable(s) && Stale(s, n) && 0 < n < 0x100
    ensures Reachable(s') && Stale(s', n + 1)
  {
    hide Encode, Reachable, Stale, Waiting, Within, AfterStart;
    StartsNext(s, n, 3 * n);
    ReachStep(s, StartCommand(CLOSE, 3 * n));
    s' := GiveUpLast(AfterStart(s, CLOSE, 3 * n), n + 1, 3 * n);
  }

  lemma {:induction false} ManyStale(n: nat) returns (s: State)
    requires 0 < n <= 0x100
    ensures Reachable(s) && Stale(s, n)
  {
    if n == 1 {
      s := OneStale();
    } else {
      var before := ManyStale(n - 1);
      s := OneMoreStale(before, n - 1);
    }
  }

  /** With a window of 257 a run exists on which the acknowledgement of an OPEN completes a CLOSE
      that the receiver never delivered. */
  lemma WindowIsExact()
    ensures exists s :: Reachable(s) && HeadAckCompletes(s) && !CurrentDelivered(s)
  {
    var before := ManyStale(0x100);
    ReachStep(before, StartCommand(CLOSE, 0x1000));
    var s := Step(before, StartCommand(CLOSE, 0x1000));
    DecodeIs(AckFrame(0));
    assert HeadAckCompletes(s) && !CurrentDelivered(s);
  }
}
