/** What a poll says about events, bit by bit, and which calls are refused before the driver is asked. */
module CanEvents {
  import opened Bytes
  import opened CanCore
  import opened CanBlocking

  const RX_READY: bv32 := 1
  const TX_READY: bv32 := 2
  const ERROR: bv32 := 4
  const STATE: bv32 := 8

  predicate IsEvent(e: bv32) {
    e == RX_READY || e == TX_READY || e == ERROR || e == STATE
  }

  predicate Has(mask: bv32, e: bv32) {
    mask & e != 0
  }

  /** A valid interest has an event, and nothing else. */
  predicate OnlyEvents(interest: bv32) {
    interest & 0xFFFF_FFF0 == 0 && (Has(interest, RX_READY) || Has(interest, TX_READY) || Has(interest, ERROR) || Has(interest, STATE))
  }

  /** Some event is of interest and occurred. */
  predicate Meets(mask: bv32, interest: bv32) {
    (Has(mask, RX_READY) && Has(interest, RX_READY)) || (Has(mask, TX_READY) && Has(interest, TX_READY)) ||
    (Has(mask, ERROR) && Has(interest, ERROR)) || (Has(mask, STATE) && Has(interest, STATE))
  }

  lemma ValidIsOnlyEvents(interest: bv32)
    ensures ValidInterest(interest) <==> OnlyEvents(interest)
  {
  }

  lemma ReadyIsMeeting(mask: bv32, interest: bv32)
    requires OnlyEvents(interest)
    ensures Ready(mask, interest) != 0 <==> Meets(mask, interest)
    ensures Ready(mask, interest) & 0xFFFF_FFF0 == 0
  {
  }

  lemma ReadyHas(mask: bv32, interest: bv32, e: bv32)
    requires IsEvent(e)
    ensures Has(Ready(mask, interest), e) <==> Has(mask, e) && Has(interest, e)
  {
  }

  /** The ready mask a poll returns has exactly the events of interest that the driver reported. */
  ghost predicate RightEvents(ready: bv32, mask: bv32, interest: bv32) {
    ready != 0 && ready & 0xFFFF_FFF0 == 0 && forall e :: IsEvent(e) ==> (Has(ready, e) <==> Has(mask, e) && Has(interest, e))
  }

  lemma ReadyIsRight(mask: bv32, interest: bv32)
    requires OnlyEvents(interest) && Meets(mask, interest)
    ensures RightEvents(Ready(mask, interest), mask, interest)
  {
    hide Ready, Has, IsEvent, OnlyEvents, Meets;
    ReadyIsMeeting(mask, interest);
    forall e | IsEvent(e)
      ensures Has(Ready(mask, interest), e) <==> Has(mask, e) && Has(interest, e)
    {
      ReadyHas(mask, interest, e);
    }
  }

  /** The reply to the query number `k` of a poll. */
  function QueryAt(w: World, c: CoreState, k: nat): QueryReply {
    if c.hasQueries then w.queries(c.taken.queries + k) else QueryReply(EUnsupported, 0)
  }

  /** No event of interest in the first `n` replies. */
  ghost predicate NothingWithin(w: World, c: CoreState, interest: bv32, n: nat) {
    forall k: nat :: k < n ==> QueryAt(w, c, k).status == Ok && !Meets(QueryAt(w, c, k).mask, interest)
  }

  lemma TurnedDownIsNothing(w: World, c: CoreState, interest: bv32, k: nat)
    requires OnlyEvents(interest)
    ensures TurnsDown(ReplyAt(w, c, PollKind, k), PollKind, interest) <==>
            QueryAt(w, c, k).status == Ok && !Meets(QueryAt(w, c, k).mask, interest)
  {
    hide Ready, Meets, OnlyEvents;
    ReadyIsMeeting(QueryAt(w, c, k).mask, interest);
  }

  /** A poll that returns with Ok has found, in the last reply of the driver and in none before, an event of interest,
      and returns exactly those; with any other status it returns none. */
  lemma PollReturnsEvents(w: World, c: CoreState, interest: bv32, timeout: Word, n: nat)
    requires Blocking(w, c, PollKind, interest, timeout, n).Returned?
    ensures
      var p := Blocking(w, c, PollKind, interest, timeout, n);
      if p.status != Ok then p.ready == 0
      else
        exists k: nat ::
          k < n && NothingWithin(w, c, interest, k) && QueryAt(w, c, k).status == Ok &&
          Meets(QueryAt(w, c, k).mask, interest) && RightEvents(p.ready, QueryAt(w, c, k).mask, interest)
  {
    hide GoesOn, Ready, Meets, OnlyEvents, RightEvents, Ends, ValidInterest, AfterRounds, NothingWithin;
    if Refusal(c, PollKind, interest, timeout) == Ok {
      ValidIsOnlyEvents(interest);
      ReturnsExactlyWhen(w, c, PollKind, interest, timeout, n);
      var k := FirstThatEnds(w, c, PollKind, interest, timeout, n);
      FirstDecides(w, c, PollKind, interest, timeout, k);
      ReturnedStays(w, c, PollKind, interest, timeout, k + 1, n);
      TurnedDownIsNothing(w, c, interest, k);
      if Blocking(w, c, PollKind, interest, timeout, n).status == Ok {
        ReadyIsRight(QueryAt(w, c, k).mask, interest);
        NothingBefore(w, c, interest, timeout, k);
      }
    }
  }

  lemma NothingBefore(w: World, c: CoreState, interest: bv32, timeout: Word, k: nat)
    requires OnlyEvents(interest) && AllGoOn(w, c, PollKind, interest, timeout, k)
    ensures NothingWithin(w, c, interest, k)
  {
    hide Meets, OnlyEvents, LateAt, TurnsDown;
    forall i: nat | i < k
      ensures QueryAt(w, c, i).status == Ok && !Meets(QueryAt(w, c, i).mask, interest)
    {
      assert GoesOn(w, c, PollKind, interest, timeout, i);
      TurnedDownIsNothing(w, c, interest, i);
    }
  }

  /** And an event of interest is not missed: the round that meets one returns it. */
  lemma PollFindsEvents(w: World, c: CoreState, interest: bv32, timeout: Word, n: nat)
    requires Refusal(c, PollKind, interest, timeout) == Ok && AllGoOn(w, c, PollKind, interest, timeout, n)
    requires QueryAt(w, c, n).status == Ok && Meets(QueryAt(w, c, n).mask, interest)
    ensures
      var p := Blocking(w, c, PollKind, interest, timeout, n + 1);
      p.Returned? && p.status == Ok && RightEvents(p.ready, QueryAt(w, c, n).mask, interest)
  {
    hide Ready, Meets, OnlyEvents, RightEvents, Ends, ValidInterest, AfterRounds, AllGoOn, Blocking;
    ValidIsOnlyEvents(interest);
    TurnedDownIsNothing(w, c, interest, n);
    FirstDecides(w, c, PollKind, interest, timeout, n);
    ReadyIsRight(QueryAt(w, c, n).mask, interest);
  }

  /** Which calls are refused, before the driver or the clock is asked, and with what: an interest that is empty or
      has anything but events, then a core that is not started, then a timeout without a clock. */
  lemma RefusedExactlyWhen(w: World, c: CoreState, kind: Kind, interest: bv32, timeout: Word)
    ensures
      var p := Blocking(w, c, kind, interest, timeout, 0);
      var bad := kind == PollKind && !OnlyEvents(interest);
      && (p.Returned? <==> bad || !c.started || (timeout != 0 && !c.hasRuntime))
      && (p.Returned? ==> p.core == c.(lastStatus := p.status) && p.ready == 0 &&
                          p.status == if bad then EInval else if !c.started then EBusy else EUnsupported)
  {
    hide OnlyEvents, ValidInterest;
    ValidIsOnlyEvents(interest);
  }
}
