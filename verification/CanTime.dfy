/** The timeouts of the CAN calls and operations in true time, although the code only sees a 32-bit clock. */
module CanTime {
  import opened Bytes
  import opened CanCore
  import opened CanOperation
  import opened CanEquivalence
  import opened CanBlocking
  import opened CanAnyDriver

  /** The clock shows a true time that never runs backwards: `time(i)` is the time of reading `i`. */
  ghost predicate OnClock(w: World, time: nat -> nat) {
    (forall i: nat :: w.clock(i) == ToWord(time(i))) && forall i: nat, j: nat :: i <= j ==> time(i) <= time(j)
  }

  /** True milliseconds from the start of a call to the reading after attempt `k`. */
  function Since(c: CoreState, time: nat -> nat, k: nat): int {
    time(c.taken.readings + 1 + k) - time(c.taken.readings)
  }

  predicate HasDeadline(timeout: Word) {
    0 < timeout < 0xFFFF_FFFF
  }

  lemma LateInTrueTime(w: World, c: CoreState, timeout: Word, time: nat -> nat, k: nat)
    requires OnClock(w, time) && HasDeadline(timeout)
    ensures LateAt(w, c, timeout, k) ==> Since(c, time, k) >= timeout
    ensures Since(c, time, k) < WORD_RANGE ==> (LateAt(w, c, timeout, k) <==> Since(c, time, k) >= timeout)
  {
    var start, now := time(c.taken.readings), time(c.taken.readings + 1 + k);
    assert start <= now;
    assert w.clock(c.taken.readings) == ToWord(start) && w.clock(c.taken.readings + 1 + k) == ToWord(now);
    ElapsedOfReadings(now, start);
  }

  // ----- Blocking calls --------------------------------------------------------------------

  /** The driver turns attempt `k` down. */
  predicate No(w: World, c: CoreState, kind: Kind, interest: bv32, k: nat) {
    TurnsDown(ReplyAt(w, c, kind, k), kind, interest)
  }

  /** All of the first `n` attempts are turned down, and looked at the clock in time. */
  ghost predicate TurnedDownInTime(w: World, c: CoreState, kind: Kind, interest: bv32, timeout: Word, time: nat -> nat, n: nat) {
    forall k: nat :: k < n ==> No(w, c, kind, interest, k) && Since(c, time, k) < timeout
  }

  lemma InTimeGoesOn(w: World, c: CoreState, kind: Kind, interest: bv32, timeout: Word, time: nat -> nat, n: nat)
    requires OnClock(w, time) && HasDeadline(timeout) && TurnedDownInTime(w, c, kind, interest, timeout, time, n)
    ensures AllGoOn(w, c, kind, interest, timeout, n)
  {
    hide TurnsDown, LateAt, Since, OnClock;
    forall k: nat | k < n
      ensures GoesOn(w, c, kind, interest, timeout, k)
    {
      assert No(w, c, kind, interest, k);
      LateInTrueTime(w, c, timeout, time, k);
    }
  }

  /** Before the timeout a call whose attempts are turned down still tries. */
  lemma StillTrying(w: World, c: CoreState, kind: Kind, interest: bv32, timeout: Word, time: nat -> nat, n: nat)
    requires Refusal(c, kind, interest, timeout) == Ok && OnClock(w, time) && HasDeadline(timeout)
    requires TurnedDownInTime(w, c, kind, interest, timeout, time, n)
    ensures Blocking(w, c, kind, interest, timeout, n).Trying?
  {
    hide AllGoOn, TurnedDownInTime, OnClock, AfterRounds;
    InTimeGoesOn(w, c, kind, interest, timeout, time, n);
    ReturnsExactlyWhen(w, c, kind, interest, timeout, n);
  }

  /** The first reading at least the timeout, and less than 2^32 ms, after the start makes it return a timeout. */
  lemma TimesOut(w: World, c: CoreState, kind: Kind, interest: bv32, timeout: Word, time: nat -> nat, n: nat)
    requires Refusal(c, kind, interest, timeout) == Ok && OnClock(w, time) && HasDeadline(timeout)
    requires TurnedDownInTime(w, c, kind, interest, timeout, time, n)
    requires No(w, c, kind, interest, n) && timeout <= Since(c, time, n) < WORD_RANGE
    ensures
      var p := Blocking(w, c, kind, interest, timeout, n + 1);
      p.Returned? && p.status == ETimeout && p.ready == 0
  {
    hide AllGoOn, TurnedDownInTime, OnClock, AfterRounds, LateAt, TurnsDown, Since, Ends, Blocking;
    InTimeGoesOn(w, c, kind, interest, timeout, time, n);
    LateInTrueTime(w, c, timeout, time, n);
    FirstDecides(w, c, kind, interest, timeout, n);
  }

  /** A call never returns a timeout early: unless the driver itself replies so, the last reading it took was at least the
      timeout after the start. */
  lemma NotEarly(w: World, c: CoreState, kind: Kind, interest: bv32, timeout: Word, time: nat -> nat, n: nat)
    requires Refusal(c, kind, interest, timeout) == Ok && OnClock(w, time) && HasDeadline(timeout)
    requires forall k: nat :: k < n ==> ReplyAt(w, c, kind, k).status != ETimeout
    requires
      var p := Blocking(w, c, kind, interest, timeout, n);
      p.Returned? && p.status == ETimeout
    ensures
      var last := Blocking(w, c, kind, interest, timeout, n).core.taken.readings - 1;
      last > c.taken.readings && time(last) >= time(c.taken.readings) + timeout
  {
    hide OnClock, AfterRounds, LateAt, TurnsDown, AllGoOn, LastCounted, CountedBy;
    ReturnsExactlyWhen(w, c, kind, interest, timeout, n);
    var k := FirstThatEnds(w, c, kind, interest, timeout, n);
    FirstDecides(w, c, kind, interest, timeout, k);
    ReturnedStays(w, c, kind, interest, timeout, k + 1, n);
    LateInTrueTime(w, c, timeout, time, k);
  }

  /** A call with the largest timeout has none: it tries as long as it is turned down. */
  lemma InfiniteTriesOn(w: World, c: CoreState, kind: Kind, interest: bv32, n: nat)
    requires Refusal(c, kind, interest, 0xFFFF_FFFF) == Ok && forall k: nat :: k < n ==> No(w, c, kind, interest, k)
    ensures Blocking(w, c, kind, interest, 0xFFFF_FFFF, n).Trying?
  {
    hide AfterRounds, TurnsDown;
    var timeout: Word := 0xFFFF_FFFF;
    forall k: nat | k < n
      ensures GoesOn(w, c, kind, interest, timeout, k)
    {
      assert No(w, c, kind, interest, k);
    }
    ReturnsExactlyWhen(w, c, kind, interest, timeout, n);
  }

  /** A call without timeout makes one attempt and returns what it met, without looking at the clock. */
  lemma ZeroTriesOnce(w: World, c: CoreState, kind: Kind, interest: bv32)
    requires Refusal(c, kind, interest, 0) == Ok
    ensures
      var p, reply := Blocking(w, c, kind, interest, 0, 1), ReplyAt(w, c, kind, 0);
      && p.Returned? && p.core.taken.readings == c.taken.readings
      && p.status == if !No(w, c, kind, interest, 0) then reply.status else if kind == SendKind then EBusy else ENoData
  {
    hide AfterRounds, TurnsDown, CountedBy, LastCounted;
    FirstDecides(w, c, kind, interest, 0, 0);
  }

  // ----- Operations ------------------------------------------------------------------------

  /** The driver has nothing for attempt `k` of an operation, which takes "no data" for a query without events. */
  predicate NoYet(w: World, c: CoreState, kind: Kind, interest: bv32, k: nat) {
    No(w, c, kind, interest, k) || (kind == PollKind && ReplyAt(w, c, kind, k).status == ENoData)
  }

  lemma QuietedSaysNo(w: World, c: CoreState, kind: Kind, interest: bv32, k: nat)
    ensures No(Quieted(w), c, kind, interest, k) <==> NoYet(w, c, kind, interest, k)
    ensures ReplyAt(Quieted(w), c, kind, k).status == ETimeout <==> ReplyAt(w, c, kind, k).status == ETimeout
  {
    hide CanCore.Ready;
    NoBits(interest);
  }

  ghost predicate NotYetInTime(w: World, c: CoreState, kind: Kind, interest: bv32, timeout: Word, time: nat -> nat, n: nat) {
    forall k: nat :: k < n ==> NoYet(w, c, kind, interest, k) && Since(c, time, k) < timeout
  }

  lemma QuietedInTime(w: World, c: CoreState, kind: Kind, interest: bv32, timeout: Word, time: nat -> nat, n: nat)
    requires OnClock(w, time) && NotYetInTime(w, c, kind, interest, timeout, time, n)
    ensures OnClock(Quieted(w), time) && TurnedDownInTime(Quieted(w), c, kind, interest, timeout, time, n)
  {
    hide No, NoYet, Since;
    forall k: nat | k < n
      ensures No(Quieted(w), c, kind, interest, k) && Since(c, time, k) < timeout
    {
      QuietedSaysNo(w, c, kind, interest, k);
      assert NoYet(w, c, kind, interest, k);
    }
  }

  /** An operation is pending while its attempts fail before the timeout, and completes with a timeout at the first reading
      at least the timeout, and less than 2^32 ms, after its first. */
  lemma OperationTimesOut(w: World, c: CoreState, kind: Kind, interest: bv32, timeout: Word, mask: bv32, time: nat -> nat, n: nat)
    requires Refusal(c, kind, interest, timeout) == Ok && OnClock(w, time) && HasDeadline(timeout)
    requires NotYetInTime(w, c, kind, interest, timeout, time, n)
    ensures Steps(w, Fresh(kind, interest, timeout, mask), c, n).op.phase == Pending
    ensures
      var op := Steps(w, Fresh(kind, interest, timeout, mask), c, n + 1).op;
      NoYet(w, c, kind, interest, n) && timeout <= Since(c, time, n) < WORD_RANGE ==>
        op.phase == Completed && op.result == ETimeout
  {
    hide Refusal, Blocking, OnClock, NotYetInTime, TurnedDownInTime, Since, No, NoYet, Quieted, RunStep, SameCalls;
    QuietedInTime(w, c, kind, interest, timeout, time, n);
    StillTrying(Quieted(w), c, kind, interest, timeout, time, n);
    if n > 0 {
      OperationIsCall(w, c, kind, interest, timeout, mask, n);
    } else {
      FreshIsPending(kind, interest, timeout, mask);
    }
    QuietedSaysNo(w, c, kind, interest, n);
    if NoYet(w, c, kind, interest, n) && timeout <= Since(c, time, n) < WORD_RANGE {
      TimesOut(Quieted(w), c, kind, interest, timeout, time, n);
      OperationIsCall(w, c, kind, interest, timeout, mask, n + 1);
    }
  }

  lemma FreshIsPending(kind: Kind, interest: bv32, timeout: Word, mask: bv32)
    ensures Fresh(kind, interest, timeout, mask).phase == Pending
  {
  }

  /** And never completes with a timeout early. */
  lemma OperationNotEarly(w: World, c: CoreState, kind: Kind, interest: bv32, timeout: Word, mask: bv32, time: nat -> nat, n: nat)
    requires Refusal(c, kind, interest, timeout) == Ok && OnClock(w, time) && HasDeadline(timeout) && n > 0
    requires forall k: nat :: k < n ==> ReplyAt(w, c, kind, k).status != ETimeout
    requires
      var op := Steps(w, Fresh(kind, interest, timeout, mask), c, n).op;
      op.phase == Completed && op.result == ETimeout
    ensures
      var last := Steps(w, Fresh(kind, interest, timeout, mask), c, n).core.taken.readings - 1;
      last > c.taken.readings && time(last) >= time(c.taken.readings) + timeout
  {
    hide Refusal, Blocking, ReplyAt, Quieted, Steps;
    QuietedOnClock(w, time);
    hide OnClock;
    OperationIsCall(w, c, kind, interest, timeout, mask, n);
    forall k: nat | k < n
      ensures ReplyAt(Quieted(w), c, kind, k).status != ETimeout
    {
      QuietedSaysNo(w, c, kind, interest, k);
    }
    NotEarly(Quieted(w), c, kind, interest, timeout, time, n);
  }

  lemma QuietedOnClock(w: World, time: nat -> nat)
    requires OnClock(w, time)
    ensures OnClock(Quieted(w), time)
  {
  }
}
