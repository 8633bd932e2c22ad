/** What the blocking calls of the CAN core return, said without their loops: the first attempt that
    is not turned down in time decides. */
module CanBlocking {
  import opened Bytes
  import opened CanCore

  /** What the driver replies to the attempt number `k` of a call. */
  function ReplyAt(w: World, c: CoreState, kind: Kind, k: nat): QueryReply {
    match kind
    case SendKind => QueryReply(w.sends(c.taken.sends + k), 0)
    case ReceiveKind => QueryReply(w.receives(c.taken.receives + k), 0)
    case PollKind => if c.hasQueries then w.queries(c.taken.queries + k) else QueryReply(EUnsupported, 0)
  }

  /** The driver has no room, no frame, or no event of interest. */
  predicate TurnsDown(reply: QueryReply, kind: Kind, interest: bv32) {
    match kind
    case SendKind => reply.status == EBusy
    case ReceiveKind => reply.status == ENoData
    case PollKind => reply.status == Ok && Ready(reply.mask, interest) == 0
  }

  /** The deadline, looked at after attempt `k`, has passed; reading 0 was the start. */
  predicate LateAt(w: World, c: CoreState, timeout: Word, k: nat) {
    timeout != TIMEOUT_INFINITE && Expired(StartOf(w, c, timeout), timeout, w.clock(c.taken.readings + 1 + k))
  }

  predicate GoesOn(w: World, c: CoreState, kind: Kind, interest: bv32, timeout: Word, k: nat) {
    TurnsDown(ReplyAt(w, c, kind, k), kind, interest) && timeout != 0 && !LateAt(w, c, timeout, k)
  }

  /** What the call returns if attempt `k` is its last. */
  function Verdict(w: World, c: CoreState, kind: Kind, interest: bv32, timeout: Word, k: nat): (Status, bv32) {
    var reply := ReplyAt(w, c, kind, k);
    if TurnsDown(reply, kind, interest) then (if timeout == 0 then (if kind == SendKind then EBusy else ENoData) else ETimeout, 0)
    else (reply.status, if kind == PollKind && reply.status == Ok then Ready(reply.mask, interest) else 0)
  }

  /** The replies and readings taken by `n` attempts that were turned down. */
  function TakenBy(c: CoreState, kind: Kind, timeout: Word, n: nat): Taken {
    var t := c.taken.(readings := c.taken.readings + if timeout == 0 then 0 else if timeout == TIMEOUT_INFINITE then 1 else 1 + n);
    match kind
    case SendKind => t.(sends := t.sends + n)
    case ReceiveKind => t.(receives := t.receives + n)
    case PollKind => if c.hasQueries then t.(queries := t.queries + n) else t
  }

  /** The counters after `n` attempts that were turned down: each is counted as a call and as a refusal. */
  function CountedBy(s: Stats, kind: Kind, n: nat): Stats {
    match kind
    case SendKind => s.(txCalls := (s.txCalls + n) % WORD_RANGE, txBusy := (s.txBusy + n) % WORD_RANGE)
    case ReceiveKind => s.(rxCalls := (s.rxCalls + n) % WORD_RANGE, rxEmpty := (s.rxEmpty + n) % WORD_RANGE)
    case PollKind => s
  }

  /** The core after `n` attempts that were turned down, apart from its last status. */
  predicate After(c: CoreState, d: CoreState, kind: Kind, timeout: Word, n: nat) {
    d == c.(taken := TakenBy(c, kind, timeout, n), stats := CountedBy(c.stats, kind, n), lastStatus := d.lastStatus)
  }

  /** The core when attempt `n` was the last: every attempt is counted as a call, a refusal or a success by what the driver
      replied, and a deadline that passed as a timeout. */
  predicate Ends(c: CoreState, d: CoreState, kind: Kind, timeout: Word, n: nat, reply: Status, turnedDown: bool, status: Status) {
    var late := turnedDown && timeout != 0;
    var taken := TakenBy(c, kind, timeout, n + 1);
    d.lastStatus == status &&
    d.taken == (if late || timeout == 0 || timeout == TIMEOUT_INFINITE then taken else taken.(readings := taken.readings - 1)) &&
    d.stats == LastCounted(CountedBy(c.stats, kind, n), kind, reply) &&
    d.timeouts == (match kind
                   case SendKind => c.timeouts.(tx := (c.timeouts.tx + if late then 1 else 0) % WORD_RANGE)
                   case ReceiveKind => c.timeouts.(rx := (c.timeouts.rx + if late then 1 else 0) % WORD_RANGE)
                   case PollKind => c.timeouts) &&
    d.started == c.started && d.hasRuntime == c.hasRuntime && d.hasQueries == c.hasQueries
  }

  function LastCounted(s: Stats, kind: Kind, reply: Status): Stats {
    match kind
    case SendKind =>
      Stats((s.txCalls + 1) % WORD_RANGE,
            (s.txOk + if reply == Ok then 1 else 0) % WORD_RANGE,
            (s.txBusy + if reply == EBusy then 1 else 0) % WORD_RANGE, s.rxCalls, s.rxOk, s.rxEmpty)
    case ReceiveKind =>
      Stats(s.txCalls, s.txOk, s.txBusy, (s.rxCalls + 1) % WORD_RANGE,
            (s.rxOk + if reply == Ok then 1 else 0) % WORD_RANGE,
            (s.rxEmpty + if reply == ENoData then 1 else 0) % WORD_RANGE)
    case PollKind => s
  }

  lemma CountsLast(s: Stats, reply: Status)
    ensures CountSend(s, reply) == LastCounted(s, SendKind, reply)
    ensures CountReceive(s, reply) == LastCounted(s, ReceiveKind, reply)
  {
  }

  lemma CountOneMore(x: Word, n: nat)
    ensures Next((x + n) % WORD_RANGE) == (x + n + 1) % WORD_RANGE
  {
  }

  lemma SendsCounted(s: Stats, n: nat)
    ensures CountSend(CountedBy(s, SendKind, n), EBusy) == CountedBy(s, SendKind, n + 1)
  {
    hide Next;
    CountOneMore(s.txCalls, n);
    CountOneMore(s.txBusy, n);
  }

  lemma ReceivesCounted(s: Stats, n: nat)
    ensures CountReceive(CountedBy(s, ReceiveKind, n), ENoData) == CountedBy(s, ReceiveKind, n + 1)
  {
    hide Next;
    CountOneMore(s.rxCalls, n);
    CountOneMore(s.rxEmpty, n);
  }

  lemma PollsNotCounted(s: Stats, n: nat)
    ensures CountedBy(s, PollKind, n) == s && LastCounted(s, PollKind, Ok) == s
  {
  }

  lemma NextSend(w: World, c: CoreState, d: CoreState, interest: bv32, timeout: Word, n: nat)
    requires c.started && After(c, d, SendKind, timeout, n) && (timeout == 0 ==> n == 0)
    ensures RoundIs(w, c, d, SendKind, interest, timeout, n)
  {
    hide Expired, StartOf, CountedBy, CountSend, LastCounted;
    SendsCounted(c.stats, n);
    CountsLast(d.stats, SendReply(w, d));
  }

  lemma NextReceive(w: World, c: CoreState, d: CoreState, interest: bv32, timeout: Word, n: nat)
    requires c.started && After(c, d, ReceiveKind, timeout, n) && (timeout == 0 ==> n == 0)
    ensures RoundIs(w, c, d, ReceiveKind, interest, timeout, n)
  {
    hide Expired, StartOf, CountedBy, CountReceive, LastCounted;
    ReceivesCounted(c.stats, n);
    CountsLast(d.stats, ReceiveReply(w, d));
  }

  lemma NextPoll(w: World, c: CoreState, d: CoreState, interest: bv32, timeout: Word, n: nat)
    requires c.started && After(c, d, PollKind, timeout, n) && (timeout == 0 ==> n == 0)
    ensures RoundIs(w, c, d, PollKind, interest, timeout, n)
  {
    hide Ready, Expired, StartOf, CountedBy;
    PollsNotCounted(c.stats, n);
    PollsNotCounted(c.stats, n + 1);
  }

  /** Round `n + 1`, made by the core `d` after `n` attempts that were turned down: it goes on, or returns the
      verdict. */
  predicate RoundIs(w: World, c: CoreState, d: CoreState, kind: Kind, interest: bv32, timeout: Word, n: nat) {
    var p := Round(w, d, kind, interest, StartOf(w, c, timeout), timeout);
    if GoesOn(w, c, kind, interest, timeout, n) then p.Trying? && After(c, p.core, kind, timeout, n + 1)
    else
      p.Returned? && (p.status, p.ready) == Verdict(w, c, kind, interest, timeout, n) &&
      Ends(c, p.core, kind, timeout, n, ReplyAt(w, c, kind, n).status,
           TurnsDown(ReplyAt(w, c, kind, n), kind, interest), p.status)
  }

  lemma NextRound(w: World, c: CoreState, d: CoreState, kind: Kind, interest: bv32, timeout: Word, n: nat)
    requires c.started && After(c, d, kind, timeout, n) && (timeout == 0 ==> n == 0)
    ensures RoundIs(w, c, d, kind, interest, timeout, n)
  {
    hide RoundIs, After;
    match kind
    case SendKind => NextSend(w, c, d, interest, timeout, n);
    case ReceiveKind => NextReceive(w, c, d, interest, timeout, n);
    case PollKind => NextPoll(w, c, d, interest, timeout, n);
  }

  predicate AllGoOn(w: World, c: CoreState, kind: Kind, interest: bv32, timeout: Word, n: nat) {
    forall k: nat :: k < n ==> GoesOn(w, c, kind, interest, timeout, k)
  }

  lemma AtOnce(w: World, c: CoreState, kind: Kind, interest: bv32, timeout: Word, n: nat)
    requires AllGoOn(w, c, kind, interest, timeout, n)
    ensures timeout == 0 ==> n == 0
  {
    assert n > 0 ==> GoesOn(w, c, kind, interest, timeout, 0);
  }

  /** While attempts are turned down in time, the call goes on, and has taken exactly one reply for each. */
  lemma {:induction false} CallGoesOn(w: World, c: CoreState, kind: Kind, interest: bv32, timeout: Word, n: nat)
    requires c.started && AllGoOn(w, c, kind, interest, timeout, n)
    ensures
      var p := AfterRounds(w, c, kind, interest, timeout, n);
      p.Trying? && After(c, p.core, kind, timeout, n)
  {
    if n == 0 {
      FirstBegins(c, kind, timeout);
    } else {
      hide After, Round, GoesOn;
      var k: nat := n - 1;
      CallGoesOn(w, c, kind, interest, timeout, k);
      AtOnce(w, c, kind, interest, timeout, k);
      NextRound(w, c, AfterRounds(w, c, kind, interest, timeout, k).core, kind, interest, timeout, k);
    }
  }

  lemma FirstBegins(c: CoreState, kind: Kind, timeout: Word)
    ensures After(c, Begun(c, timeout), kind, timeout, 0)
  {
  }

  /** The first attempt that is not turned down in time decides what the call returns. */
  lemma FirstDecides(w: World, c: CoreState, kind: Kind, interest: bv32, timeout: Word, n: nat)
    requires Refusal(c, kind, interest, timeout) == Ok
    requires AllGoOn(w, c, kind, interest, timeout, n) && !GoesOn(w, c, kind, interest, timeout, n)
    ensures
      var p := Blocking(w, c, kind, interest, timeout, n + 1);
      p.Returned? && (p.status, p.ready) == Verdict(w, c, kind, interest, timeout, n) &&
      Ends(c, p.core, kind, timeout, n, ReplyAt(w, c, kind, n).status,
           TurnsDown(ReplyAt(w, c, kind, n), kind, interest), p.status)
  {
    hide After, Round, GoesOn, Verdict, Ends;
    CallGoesOn(w, c, kind, interest, timeout, n);
    AtOnce(w, c, kind, interest, timeout, n);
    NextRound(w, c, AfterRounds(w, c, kind, interest, timeout, n).core, kind, interest, timeout, n);
  }

  /** A call that is not refused has returned after `n` rounds exactly when one of its first `n` attempts is not
      turned down in time. */
  lemma ReturnsExactlyWhen(w: World, c: CoreState, kind: Kind, interest: bv32, timeout: Word, n: nat)
    requires Refusal(c, kind, interest, timeout) == Ok
    ensures Blocking(w, c, kind, interest, timeout, n).Returned? <==> !AllGoOn(w, c, kind, interest, timeout, n)
  {
    hide GoesOn, Round, After, Begun, StartOf;
    if AllGoOn(w, c, kind, interest, timeout, n) {
      CallGoesOn(w, c, kind, interest, timeout, n);
    } else {
      var k := FirstThatEnds(w, c, kind, interest, timeout, n);
      FirstDecides(w, c, kind, interest, timeout, k);
      StaysReturned(w, c, kind, interest, timeout, k + 1, n);
    }
  }

  lemma {:induction false} FirstThatEnds(w: World, c: CoreState, kind: Kind, interest: bv32, timeout: Word, n: nat)
    returns (k: nat)
    requires !AllGoOn(w, c, kind, interest, timeout, n)
    ensures k < n && AllGoOn(w, c, kind, interest, timeout, k) && !GoesOn(w, c, kind, interest, timeout, k)
  {
    hide GoesOn;
    var m: nat := n - 1;
    if AllGoOn(w, c, kind, interest, timeout, m) {
      k := m;
    } else {
      k := FirstThatEnds(w, c, kind, interest, timeout, m);
    }
  }
}
