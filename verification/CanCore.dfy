/** The CAN core: single attempts at the driver and the blocking calls that repeat them until a
    deadline. The driver and the clock are streams of replies, of which every call takes the next. */
module CanCore {
  import opened Bytes

  datatype Status = Ok | EInval | ENotFound | EUnsupported | EBusy | ENoSpc | ENoData | ETimeout | EIo

  const TIMEOUT_INFINITE: Word := 0xFFFF_FFFF

  /** Receive ready, transmit ready, error and state. */
  const VALID_EVENTS: bv32 := 0xF

  predicate ValidInterest(interest: bv32) {
    interest != 0 && interest & !VALID_EVENTS == 0
  }

  /** The events of interest among those that occurred. */
  function Ready(mask: bv32, interest: bv32): bv32 {
    mask & interest
  }

  datatype QueryReply = QueryReply(status: Status, mask: bv32)

  datatype World = World(
    sends: nat -> Status,
    receives: nat -> Status,
    queries: nat -> QueryReply,
    clock: nat -> Word)

  /** How many replies of each stream have been taken. */
  datatype Taken = Taken(sends: nat, receives: nat, queries: nat, readings: nat)

  datatype Stats = Stats(
    txCalls: Word,
    txOk: Word,
    txBusy: Word,
    rxCalls: Word,
    rxOk: Word,
    rxEmpty: Word)

  datatype Timeouts = Timeouts(tx: Word, rx: Word)

  datatype CoreState = CoreState(
    started: bool,
    hasRuntime: bool,
    hasQueries: bool,
    taken: Taken,
    stats: Stats,
    timeouts: Timeouts,
    lastStatus: Status)

  function Next(x: Word): Word {
    (x + 1) % WORD_RANGE
  }

  // ----- Single attempts -------------------------------------------------------------------

  function CountSend(s: Stats, status: Status): Stats {
    var t := s.(txCalls := Next(s.txCalls));
    if status == Ok then t.(txOk := Next(t.txOk)) else if status == EBusy then t.(txBusy := Next(t.txBusy)) else t
  }

  function CountReceive(s: Stats, status: Status): Stats {
    var t := s.(rxCalls := Next(s.rxCalls));
    if status == Ok then t.(rxOk := Next(t.rxOk)) else if status == ENoData then t.(rxEmpty := Next(t.rxEmpty)) else t
  }

  function SendReply(w: World, c: CoreState): Status {
    if c.started then w.sends(c.taken.sends) else EBusy
  }

  function AfterSend(w: World, c: CoreState): CoreState {
    if c.started then
      c.(taken := c.taken.(sends := c.taken.sends + 1), stats := CountSend(c.stats, SendReply(w, c)),
         lastStatus := SendReply(w, c))
    else c.(lastStatus := EBusy)
  }

  function ReceiveReply(w: World, c: CoreState): Status {
    if c.started then w.receives(c.taken.receives) else EBusy
  }

  function AfterReceive(w: World, c: CoreState): CoreState {
    if c.started then
      c.(taken := c.taken.(receives := c.taken.receives + 1), stats := CountReceive(c.stats, ReceiveReply(w, c)),
         lastStatus := ReceiveReply(w, c))
    else c.(lastStatus := EBusy)
  }

  /** The reply to a query of events on a core that is open. */
  function EventReply(w: World, c: CoreState): QueryReply {
    if c.hasQueries then w.queries(c.taken.queries) else QueryReply(EUnsupported, 0)
  }

  function AfterQuery(w: World, c: CoreState): CoreState {
    (if c.hasQueries then c.(taken := c.taken.(queries := c.taken.queries + 1)) else c)
      .(lastStatus := EventReply(w, c).status)
  }

  function AfterReading(c: CoreState): CoreState {
    c.(taken := c.taken.(readings := c.taken.readings + 1))
  }

  predicate Expired(start: Word, timeout: Word, now: Word) {
    Elapsed(now, start) >= timeout
  }

  // ----- Blocking calls --------------------------------------------------------------------

  datatype Kind = SendKind | ReceiveKind | PollKind

  /** A blocking call that is still trying, or has returned. */
  datatype Progress = Trying(core: CoreState) | Returned(core: CoreState, status: Status, ready: bv32)

  function CountTimeout(c: CoreState, kind: Kind): CoreState {
    match kind
    case SendKind => c.(timeouts := c.timeouts.(tx := Next(c.timeouts.tx)), lastStatus := ETimeout)
    case ReceiveKind => c.(timeouts := c.timeouts.(rx := Next(c.timeouts.rx)), lastStatus := ETimeout)
    case PollKind => c.(lastStatus := ETimeout)
  }

  /** What a round does when its attempt was turned down: a call without timeout returns `busy`, a
      finite one looks at the clock, and an infinite one goes on. */
  function TurnedDown(w: World, c: CoreState, kind: Kind, start: Word, timeout: Word, busy: Status): Progress {
    if timeout == 0 then Returned(c.(lastStatus := busy), busy, 0)
    else if timeout == TIMEOUT_INFINITE then Trying(c)
    else if Expired(start, timeout, w.clock(c.taken.readings))
    then Returned(CountTimeout(AfterReading(c), kind), ETimeout, 0)
    else Trying(AfterReading(c))
  }

  function SendRound(w: World, c: CoreState, start: Word, timeout: Word): Progress {
    if SendReply(w, c) == EBusy then TurnedDown(w, AfterSend(w, c), SendKind, start, timeout, EBusy)
    else Returned(AfterSend(w, c), SendReply(w, c), 0)
  }

  function ReceiveRound(w: World, c: CoreState, start: Word, timeout: Word): Progress {
    if ReceiveReply(w, c) == ENoData then TurnedDown(w, AfterReceive(w, c), ReceiveKind, start, timeout, ENoData)
    else Returned(AfterReceive(w, c), ReceiveReply(w, c), 0)
  }

  function PollRound(w: World, c: CoreState, interest: bv32, start: Word, timeout: Word): Progress {
    var reply := EventReply(w, c);
    if reply.status != Ok then Returned(AfterQuery(w, c), reply.status, 0)
    else if Ready(reply.mask, interest) != 0 then Returned(AfterQuery(w, c), Ok, Ready(reply.mask, interest))
    else TurnedDown(w, AfterQuery(w, c), PollKind, start, timeout, ENoData)
  }

  function Round(w: World, c: CoreState, kind: Kind, interest: bv32, start: Word, timeout: Word): Progress {
    match kind
    case SendKind => SendRound(w, c, start, timeout)
    case ReceiveKind => ReceiveRound(w, c, start, timeout)
    case PollKind => PollRound(w, c, interest, start, timeout)
  }

  /** A call with a timeout reads the clock before its first attempt. */
  function Begun(c: CoreState, timeout: Word): CoreState {
    if timeout == 0 then c else AfterReading(c)
  }

  function StartOf(w: World, c: CoreState, timeout: Word): Word {
    if timeout == 0 then 0 else w.clock(c.taken.readings)
  }

  /** The call after `n` rounds. */
  function AfterRounds(w: World, c: CoreState, kind: Kind, interest: bv32, timeout: Word, n: nat): Progress {
    if n == 0 then Trying(Begun(c, timeout))
    else
      var before := AfterRounds(w, c, kind, interest, timeout, n - 1);
      if before.Trying? then Round(w, before.core, kind, interest, StartOf(w, c, timeout), timeout) else before
  }

  /** The status with which a call is refused before its first round, Ok when it is not. */
  function Refusal(c: CoreState, kind: Kind, interest: bv32, timeout: Word): Status {
    if kind == PollKind && !ValidInterest(interest) then EInval
    else if !c.started then EBusy
    else if timeout != 0 && !c.hasRuntime then EUnsupported
    else Ok
  }

  /** The blocking call, after at most `n` rounds. */
  function Blocking(w: World, c: CoreState, kind: Kind, interest: bv32, timeout: Word, n: nat): Progress {
    var refusal := Refusal(c, kind, interest, timeout);
    if refusal != Ok then Returned(c.(lastStatus := refusal), refusal, 0)
    else AfterRounds(w, c, kind, interest, timeout, n)
  }

  /** The core with its driver, as the object the blocking calls run on. */
  class Core {
    const world: World
    var started: bool
    var hasRuntime: bool
    var hasQueries: bool
    var taken: Taken
    var stats: Stats
    var timeouts: Timeouts
    var lastStatus: Status

    constructor (world: World, started: bool, hasRuntime: bool, hasQueries: bool)
      ensures this.world == world
      ensures View() == CoreState(started, hasRuntime, hasQueries, Taken(0, 0, 0, 0), Stats(0, 0, 0, 0, 0, 0),
                                  Timeouts(0, 0), Ok)
    {
      this.world := world;
      this.started := started;
      this.hasRuntime := hasRuntime;
      this.hasQueries := hasQueries;
      taken := Taken(0, 0, 0, 0);
      stats := Stats(0, 0, 0, 0, 0, 0);
      timeouts := Timeouts(0, 0);
      lastStatus := Ok;
    }

    ghost function View(): CoreState
      reads this
    {
      CoreState(started, hasRuntime, hasQueries, taken, stats, timeouts, lastStatus)
    }

    method NowMs() returns (now: Word)
      modifies this`taken
      ensures now == world.clock(old(taken.readings))
      ensures View() == AfterReading(old(View()))
    {
      now := world.clock(taken.readings);
      taken := taken.(readings := taken.readings + 1);
    }

    method Send() returns (status: Status)
      modifies this
      ensures status == SendReply(world, old(View()))
      ensures View() == AfterSend(world, old(View()))
    {
      if !started {
        lastStatus := EBusy;
        return EBusy;
      }
      stats := stats.(txCalls := Next(stats.txCalls));
      status := world.sends(taken.sends);
      taken := taken.(sends := taken.sends + 1);
      lastStatus := status;
      if status == Ok {
        stats := stats.(txOk := Next(stats.txOk));
      } else if status == EBusy {
        stats := stats.(txBusy := Next(stats.txBusy));
      }
    }

    method Receive() returns (status: Status)
      modifies this
      ensures status == ReceiveReply(world, old(View()))
      ensures View() == AfterReceive(world, old(View()))
    {
      if !started {
        lastStatus := EBusy;
        return EBusy;
      }
      stats := stats.(rxCalls := Next(stats.rxCalls));
      status := world.receives(taken.receives);
      taken := taken.(receives := taken.receives + 1);
      lastStatus := status;
      if status == Ok {
        stats := stats.(rxOk := Next(stats.rxOk));
      } else if status == ENoData {
        stats := stats.(rxEmpty := Next(stats.rxEmpty));
      }
    }

    method QueryEvents() returns (status: Status, mask: bv32)
      modifies this
      ensures QueryReply(status, mask) == EventReply(world, old(View()))
      ensures View() == AfterQuery(world, old(View()))
    {
      if !hasQueries {
        lastStatus := EUnsupported;
        return EUnsupported, 0;
      }
      var reply := world.queries(taken.queries);
      taken := taken.(queries := taken.queries + 1);
      lastStatus := reply.status;
      return reply.status, reply.mask;
    }

    /** The blocking send. It loops until some round returns; `last` is the round after which it
        does, so a call that never returns is not described. */
    method SendTimeout(timeout: Word, ghost last: nat) returns (status: Status)
      requires Blocking(world, View(), SendKind, 0, timeout, last).Returned?
      modifies this
      ensures Blocking(world, old(View()), SendKind, 0, timeout, last) == Returned(View(), status, 0)
    {
      hide Ready, ValidInterest, Expired, CountSend, CountReceive;
      ghost var c := View();
      if !started {
        lastStatus := EBusy;
        return EBusy;
      }
      if timeout == 0 {
        status := Send();
        ReturnedStays(world, c, SendKind, 0, timeout, 1, last);
        return;
      }
      if !hasRuntime {
        lastStatus := EUnsupported;
        return EUnsupported;
      }
      var start := NowMs();
      ghost var n := 0;
      while true
        invariant n <= last && started
        invariant AfterRounds(world, c, SendKind, 0, timeout, n) == Trying(View())
        invariant start == StartOf(world, c, timeout)
        decreases last - n
      {
        status := Send();
        n := n + 1;
        if status == Ok {
          break;
        }
        if status != EBusy {
          break;
        }
        if timeout != TIMEOUT_INFINITE {
          var now := NowMs();
          if Expired(start, timeout, now) {
            timeouts := timeouts.(tx := Next(timeouts.tx));
            lastStatus := ETimeout;
            status := ETimeout;
            break;
          }
        }
      }
      ReturnedStays(world, c, SendKind, 0, timeout, n, last);
    }

    method ReceiveTimeout(timeout: Word, ghost last: nat) returns (status: Status)
      requires Blocking(world, View(), ReceiveKind, 0, timeout, last).Returned?
      modifies this
      ensures Blocking(world, old(View()), ReceiveKind, 0, timeout, last) == Returned(View(), status, 0)
    {
      hide Ready, ValidInterest, Expired, CountSend, CountReceive;
      ghost var c := View();
      if !started {
        lastStatus := EBusy;
        return EBusy;
      }
      if timeout == 0 {
        status := Receive();
        ReturnedStays(world, c, ReceiveKind, 0, timeout, 1, last);
        return;
      }
      if !hasRuntime {
        lastStatus := EUnsupported;
        return EUnsupported;
      }
      var start := NowMs();
      ghost var n := 0;
      while true
        invariant n <= last && started
        invariant AfterRounds(world, c, ReceiveKind, 0, timeout, n) == Trying(View())
        invariant start == StartOf(world, c, timeout)
        decreases last - n
      {
        status := Receive();
        n := n + 1;
        if status == Ok {
          break;
        }
        if status != ENoData {
          break;
        }
        if timeout != TIMEOUT_INFINITE {
          var now := NowMs();
          if Expired(start, timeout, now) {
            timeouts := timeouts.(rx := Next(timeouts.rx));
            lastStatus := ETimeout;
            status := ETimeout;
            break;
          }
        }
      }
      ReturnedStays(world, c, ReceiveKind, 0, timeout, n, last);
    }

    method Poll(interest: bv32, timeout: Word, ghost last: nat) returns (status: Status, ready: bv32)
      requires Blocking(world, View(), PollKind, interest, timeout, last).Returned?
      modifies this
      ensures Blocking(world, old(View()), PollKind, interest, timeout, last) == Returned(View(), status, ready)
    {
      hide Ready, ValidInterest, Expired, CountSend, CountReceive;
      ghost var c := View();
      if !ValidInterest(interest) {
        lastStatus := EInval;
        return EInval, 0;
      }
      if !started {
        lastStatus := EBusy;
        return EBusy, 0;
      }
      if timeout != 0 && !hasRuntime {
        lastStatus := EUnsupported;
        return EUnsupported, 0;
      }
      var start := 0;
      if timeout != 0 {
        start := NowMs();
      }
      ghost var n := 0;
      while true
        invariant n <= last && started
        invariant AfterRounds(world, c, PollKind, interest, timeout, n) == Trying(View())
        invariant start == StartOf(world, c, timeout)
        decreases last - n
      {
        var mask;
        status, mask := QueryEvents();
        ready := 0;
        n := n + 1;
        if status != Ok {
          break;
        }
        ready := Ready(mask, interest);
        if ready != 0 {
          lastStatus := Ok;
          break;
        }
        if timeout == 0 {
          lastStatus := ENoData;
          status := ENoData;
          break;
        }
        if timeout != TIMEOUT_INFINITE {
          var now := NowMs();
          if Expired(start, timeout, now) {
            lastStatus := ETimeout;
            status := ETimeout;
            break;
          }
        }
      }
      ReturnedStays(world, c, PollKind, interest, timeout, n, last);
    }
  }

  /** Once returned, a call has returned; and the round after which it does is unique. */
  lemma {:induction false} ReturnedStays(w: World, c: CoreState, kind: Kind, interest: bv32, timeout: Word, m: nat, n: nat)
    requires AfterRounds(w, c, kind, interest, timeout, m).Returned? && AfterRounds(w, c, kind, interest, timeout, n).Returned?
    ensures AfterRounds(w, c, kind, interest, timeout, m) == AfterRounds(w, c, kind, interest, timeout, n)
    decreases m + n
  {
    hide Round, Begun, StartOf;
    if m < n {
      StaysReturned(w, c, kind, interest, timeout, m, n);
    } else {
      StaysReturned(w, c, kind, interest, timeout, n, m);
    }
  }

  lemma {:induction false} StaysReturned(w: World, c: CoreState, kind: Kind, interest: bv32, timeout: Word, m: nat, n: nat)
    requires AfterRounds(w, c, kind, interest, timeout, m).Returned? && m <= n
    ensures AfterRounds(w, c, kind, interest, timeout, m) == AfterRounds(w, c, kind, interest, timeout, n)
  {
    hide Round, Begun, StartOf;
    if m < n {
      StaysReturned(w, c, kind, interest, timeout, m, n - 1);
    }
  }
}
