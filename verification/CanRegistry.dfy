/** The node and module registries of the TC3xx CAN driver, and the channels that hold their entries. */
module CanRegistry {
  import opened CanCore

  const MAX_MODULES := 2
  const MAX_NODES := 4

  datatype ModuleContext = ModuleContext(initialized: bool, refCount: nat)

  /** A port of the board: the CAN instance and node it is wired to, and whether it has a transceiver. */
  datatype Port = Port(inst: nat, node: nat, hasPhy: bool)

  /** What the checks and the hardware answer while a channel is opened. */
  datatype Answers = Answers(config: Status, pins: Status, powered: bool, hasRegisters: bool, filter: Status)

  class Channel {
    var isOpen: bool
    var isStarted: bool
    var inst: nat
    var node: nat
    var moduleIndex: nat

    constructor ()
      ensures !isOpen
    {
      isOpen, isStarted, inst, node, moduleIndex := false, false, 0, 0, 0;
    }

    method Clear()
      modifies this
      ensures !isOpen
    {
      isOpen, isStarted, inst, node, moduleIndex := false, false, 0, 0, 0;
    }
  }

  // ----- The books -------------------------------------------------------------------------

  /** What an open channel remembers. */
  datatype Entry = Entry(inst: nat, node: nat, moduleIndex: nat)

  /** The registries, and the entries of the open channels. */
  datatype Books = Books(used: set<(nat, nat)>, modules: seq<ModuleContext>, held: map<Channel, Entry>)

  /** The channels open on a module. */
  function OpenOn(held: map<Channel, Entry>, index: nat): set<Channel> {
    set c | c in held && held[c].moduleIndex == index
  }

  predicate Holds(held: map<Channel, Entry>, node: (nat, nat)) {
    exists c :: c in held && (held[c].inst, held[c].node) == node
  }

  /** An open channel holds a node of its own. */
  predicate EntriesOk(held: map<Channel, Entry>) {
    (forall c :: c in held ==> held[c].moduleIndex == held[c].inst < MAX_MODULES && held[c].node < MAX_NODES) &&
    forall c, d :: c in held && d in held && held[c] == held[d] ==> c == d
  }

  /** A node is in use exactly when an open channel holds it. */
  ghost predicate NodesOk(used: set<(nat, nat)>, held: map<Channel, Entry>) {
    forall u :: u in used <==> Holds(held, u)
  }

  /** A module counts its open channels, and is initialised while there are any. */
  predicate ModulesOk(modules: seq<ModuleContext>, held: map<Channel, Entry>)
    requires |modules| == MAX_MODULES
  {
    forall i :: 0 <= i < MAX_MODULES ==>
      modules[i].refCount == |OpenOn(held, i)| && (modules[i].initialized <==> modules[i].refCount > 0)
  }

  /** The registries account for the open channels. */
  ghost predicate Balanced(b: Books) {
    |b.modules| == MAX_MODULES && EntriesOk(b.held) && NodesOk(b.used, b.held) && ModulesOk(b.modules, b.held)
  }

  function Acquired(m: ModuleContext): ModuleContext {
    if m.initialized then m.(refCount := (m.refCount + 1) % 0x100) else ModuleContext(true, 1)
  }

  function Released(m: ModuleContext): ModuleContext {
    var left := if m.refCount > 0 then m.refCount - 1 else 0;
    ModuleContext(m.initialized && left > 0, left)
  }

  /** The checks before anything is taken, in the order of the source. */
  function Precheck(port: Port, answers: Answers): Status {
    if answers.config != Ok then answers.config
    else if port.inst >= MAX_MODULES || port.node >= MAX_NODES then ENotFound
    else if port.hasPhy then answers.pins
    else Ok
  }

  function OpenStatus(b: Books, c: Channel, port: Port, answers: Answers): Status {
    if c in b.held then EBusy
    else if Precheck(port, answers) != Ok then Precheck(port, answers)
    else if (port.inst, port.node) in b.used then EBusy
    else if !answers.powered then EIo
    else if !answers.hasRegisters then EInval
    else answers.filter
  }

  /** The books once a channel is open on a port. */
  function Entered(b: Books, c: Channel, port: Port): Books
    requires port.inst < |b.modules|
  {
    Books(b.used + {(port.inst, port.node)}, b.modules[port.inst := Acquired(b.modules[port.inst])],
          b.held[c := Entry(port.inst, port.node, port.inst)])
  }

  /** The books once a channel is closed. */
  function Cancelled(b: Books, c: Channel): Books
    requires c in b.held && b.held[c].moduleIndex < |b.modules|
  {
    var e := b.held[c];
    Books(b.used - {(e.inst, e.node)}, b.modules[e.moduleIndex := Released(b.modules[e.moduleIndex])], b.held - {c})
  }

  // ----- What opening and closing keep -----------------------------------------------------

  lemma {:induction false} AtMostOne<T>(s: set<T>)
    requires forall x, y :: x in s && y in s ==> x == y
    ensures |s| <= 1
  {
    if x :| x in s {
      assert s == {x};
    }
  }

  function OpenAt(held: map<Channel, Entry>, index: nat, node: nat): set<Channel> {
    set c | c in OpenOn(held, index) && held[c].node == node
  }

  lemma OneOpenAt(held: map<Channel, Entry>, i: nat, j: nat)
    requires EntriesOk(held)
    ensures |OpenAt(held, i, j)| <= 1
  {
    AtMostOne(OpenAt(held, i, j));
  }

  lemma FourOpenOn(held: map<Channel, Entry>, i: nat)
    requires EntriesOk(held)
    ensures |OpenOn(held, i)| <= |OpenAt(held, i, 0)| + |OpenAt(held, i, 1)| + |OpenAt(held, i, 2)| + |OpenAt(held, i, 3)|
  {
    var low, high := OpenAt(held, i, 0) + OpenAt(held, i, 1), OpenAt(held, i, 2) + OpenAt(held, i, 3);
    assert OpenOn(held, i) == low + high;
  }

  /** The reference counter of a module is far from the end of its byte. */
  lemma RefCountFits(b: Books, i: nat)
    requires Balanced(b) && i < MAX_MODULES
    ensures b.modules[i].refCount <= MAX_NODES
  {
    hide EntriesOk, OpenAt, OpenOn;
    FourOpenOn(b.held, i);
    OneOpenAt(b.held, i, 0);
    OneOpenAt(b.held, i, 1);
    OneOpenAt(b.held, i, 2);
    OneOpenAt(b.held, i, 3);
  }

  /** Giving a module back undoes taking it, unless its counter wraps. */
  lemma ReleaseUndoesAcquire(m: ModuleContext)
    requires (m.initialized <==> m.refCount > 0) && m.refCount < 0x100
    ensures Released(Acquired(m)) == m <==> m.refCount != 0xFF
  {
  }

  lemma ModulesRollBack(b: Books)
    requires Balanced(b)
    ensures |b.modules| == MAX_MODULES
    ensures forall i :: 0 <= i < MAX_MODULES ==> Released(Acquired(b.modules[i])) == b.modules[i]
  {
    hide EntriesOk, NodesOk, Acquired, Released;
    forall i: nat | i < MAX_MODULES
      ensures Released(Acquired(b.modules[i])) == b.modules[i]
    {
      RefCountFits(b, i);
      ReleaseUndoesAcquire(b.modules[i]);
    }
  }

  lemma EnteredBalances(b: Books, c: Channel, port: Port)
    requires Balanced(b) && c !in b.held && port.inst < MAX_MODULES && port.node < MAX_NODES
    requires (port.inst, port.node) !in b.used
    ensures Balanced(Entered(b, c, port))
  {
    hide EntriesOk, ModulesOk, Holds, OpenOn, Acquired;
    var d, e := Entered(b, c, port), Entry(port.inst, port.node, port.inst);
    EntriesEntered(b.held, c, e);
    RefCountFits(b, port.inst);
    ModulesEntered(b.modules, b.held, c, e);
    forall u
      ensures u in d.used <==> Holds(d.held, u)
    {
      HoldsEntered(b.held, c, e, u);
    }
  }

  lemma EntriesEntered(held: map<Channel, Entry>, c: Channel, e: Entry)
    requires EntriesOk(held) && e.moduleIndex == e.inst < MAX_MODULES && e.node < MAX_NODES
    requires !Holds(held, (e.inst, e.node))
    ensures EntriesOk(held[c := e])
  {
  }

  lemma ModulesEntered(modules: seq<ModuleContext>, held: map<Channel, Entry>, c: Channel, e: Entry)
    requires |modules| == MAX_MODULES && ModulesOk(modules, held) && c !in held && e.moduleIndex < MAX_MODULES
    requires modules[e.moduleIndex].refCount <= MAX_NODES
    ensures ModulesOk(modules[e.moduleIndex := Acquired(modules[e.moduleIndex])], held[c := e])
  {
    hide OpenOn;
    forall i: nat | i < MAX_MODULES
      ensures |OpenOn(held[c := e], i)| == |OpenOn(held, i)| + if i == e.moduleIndex then 1 else 0
    {
      OpenOnEntered(held, c, e, i);
    }
  }

  lemma OpenOnEntered(held: map<Channel, Entry>, c: Channel, e: Entry, i: nat)
    requires c !in held
    ensures |OpenOn(held[c := e], i)| == |OpenOn(held, i)| + if i == e.moduleIndex then 1 else 0
  {
    if i == e.moduleIndex {
      assert OpenOn(held[c := e], i) == OpenOn(held, i) + {c};
    } else {
      assert OpenOn(held[c := e], i) == OpenOn(held, i);
    }
  }

  lemma HoldsEntered(held: map<Channel, Entry>, c: Channel, e: Entry, u: (nat, nat))
    requires c !in held
    ensures Holds(held[c := e], u) <==> Holds(held, u) || u == (e.inst, e.node)
  {
    var after := held[c := e];
    if u == (e.inst, e.node) {
      assert c in after;
    }
    if d :| d in held && (held[d].inst, held[d].node) == u {
      assert d in after;
    }
  }

  lemma HoldsCancelled(held: map<Channel, Entry>, c: Channel, u: (nat, nat))
    requires c in held
    requires forall x, y :: x in held && y in held && held[x].inst == held[y].inst && held[x].node == held[y].node ==> x == y
    ensures Holds(held - {c}, u) <==> Holds(held, u) && u != (held[c].inst, held[c].node)
  {
    var after := held - {c};
    if d :| d in held && d != c && (held[d].inst, held[d].node) == u {
      assert d in after;
    }
  }

  lemma CancelledBalances(b: Books, c: Channel)
    requires Balanced(b) && c in b.held
    ensures Balanced(Cancelled(b, c))
  {
    var d := Cancelled(b, c);
    ModulesCancelled(b.modules, b.held, c);
    forall u
      ensures u in d.used <==> Holds(d.held, u)
    {
      HoldsCancelled(b.held, c, u);
    }
  }

  lemma ModulesCancelled(modules: seq<ModuleContext>, held: map<Channel, Entry>, c: Channel)
    requires |modules| == MAX_MODULES && ModulesOk(modules, held) && c in held && held[c].moduleIndex < MAX_MODULES
    ensures ModulesOk(modules[held[c].moduleIndex := Released(modules[held[c].moduleIndex])], held - {c})
  {
    hide OpenOn;
    forall i: nat | i < MAX_MODULES
      ensures |OpenOn(held, i)| == |OpenOn(held - {c}, i)| + if i == held[c].moduleIndex then 1 else 0
    {
      OpenOnCancelled(held, c, i);
    }
  }

  lemma OpenOnCancelled(held: map<Channel, Entry>, c: Channel, i: nat)
    requires c in held
    ensures |OpenOn(held, i)| == |OpenOn(held - {c}, i)| + if i == held[c].moduleIndex then 1 else 0
  {
    if i == held[c].moduleIndex {
      assert OpenOn(held, i) == OpenOn(held - {c}, i) + {c};
    } else {
      assert OpenOn(held, i) == OpenOn(held - {c}, i);
    }
  }

  /** Closing a channel that was just opened leaves no trace. */
  lemma CloseUndoesOpen(b: Books, c: Channel, port: Port)
    requires Balanced(b) && c !in b.held && port.inst < MAX_MODULES && (port.inst, port.node) !in b.used
    ensures Cancelled(Entered(b, c, port), c) == b
  {
    RefCountFits(b, port.inst);
    ReleaseUndoesAcquire(b.modules[port.inst]);
    var d := Cancelled(Entered(b, c, port), c);
    assert d.used == b.used && d.held == b.held;
    assert d.modules == b.modules;
  }

  // ----- Runs ------------------------------------------------------------------------------

  datatype Request = Opening(channel: Channel, port: Port, answers: Answers) | Closing(channel: Channel)

  ghost function StatusOf(b: Books, r: Request): Status {
    match r
    case Opening(c, port, answers) => OpenStatus(b, c, port, answers)
    case Closing(c) => if c in b.held then Ok else EInval
  }

  /** The books after a request: it is entered or cancelled, or it fails and leaves no trace. */
  ghost function Served(b: Books, r: Request): Books
    requires Balanced(b)
  {
    if StatusOf(b, r) != Ok then b
    else
      match r
      case Opening(c, port, _) => Entered(b, c, port)
      case Closing(c) => Cancelled(b, c)
  }

  /** An open succeeds exactly when the channel is closed, the configuration is valid, the port names a CAN node that is free, a
      transceiver's pins are found, the board powers it, and the module and the receive filter can be set up. */
  lemma OpenSucceedsExactlyWhen(b: Books, c: Channel, port: Port, answers: Answers)
    requires Balanced(b)
    ensures StatusOf(b, Opening(c, port, answers)) == Ok <==>
            c !in b.held && answers.config == Ok && port.inst < 2 && port.node < 4 &&
            (forall x :: x in b.held ==> (b.held[x].inst, b.held[x].node) != (port.inst, port.node)) &&
            (port.hasPhy ==> answers.pins == Ok) && answers.powered && answers.hasRegisters && answers.filter == Ok
  {
    var node := (port.inst, port.node);
    assert node in b.used <==> Holds(b.held, node);
  }

  /** A failing open says why, with the first thing that is wrong. */
  lemma OpenFailsWith(b: Books, c: Channel, port: Port, answers: Answers)
    requires Balanced(b)
    ensures
      var status := StatusOf(b, Opening(c, port, answers));
      var found := answers.config == Ok && port.inst < 2 && port.node < 4 && (port.hasPhy ==> answers.pins == Ok);
      && (c in b.held ==> status == EBusy)
      && (c !in b.held && answers.config != Ok ==> status == answers.config)
      && (c !in b.held && answers.config == Ok && (port.inst >= 2 || port.node >= 4) ==> status == ENotFound)
      && (c !in b.held && !found && answers.config == Ok && port.inst < 2 && port.node < 4 ==> status == answers.pins)
      && (c !in b.held && found && (port.inst, port.node) in b.used ==> status == EBusy)
      && (c !in b.held && found && (port.inst, port.node) !in b.used && !answers.powered ==> status == EIo)
      && (c !in b.held && found && (port.inst, port.node) !in b.used && answers.powered ==>
            status == if answers.hasRegisters then answers.filter else EInval)
  {
  }

  /** A successful open: the channel holds the node of its port. */
  lemma OpenHoldsItsNode(b: Books, c: Channel, port: Port, answers: Answers)
    requires Balanced(b) && StatusOf(b, Opening(c, port, answers)) == Ok
    ensures
      var d := Served(b, Opening(c, port, answers));
      && d.held.Keys == b.held.Keys + {c} && d.held[c] == Entry(port.inst, port.node, port.inst)
      && d.used == b.used + {(port.inst, port.node)}
      && d.modules[port.inst].refCount == b.modules[port.inst].refCount + 1
      && forall x :: x in b.held ==> d.held[x] == b.held[x]
  {
    hide EntriesOk, NodesOk, OpenOn;
    RefCountFits(b, port.inst);
  }

  lemma ServedBalances(b: Books, r: Request)
    requires Balanced(b)
    ensures Balanced(Served(b, r))
  {
    hide Balanced, Entered, Cancelled;
    BalancedIndices(b, r.channel);
    match r {
      case Opening(c, port, answers) =>
        if StatusOf(b, r) == Ok {
          EnteredBalances(b, c, port);
        }
      case Closing(c) =>
        if c in b.held {
          CancelledBalances(b, c);
        }
    }
  }

  lemma BalancedIndices(b: Books, c: Channel)
    requires Balanced(b)
    ensures |b.modules| == MAX_MODULES && (c in b.held ==> b.held[c].moduleIndex < MAX_MODULES)
  {
  }

  ghost function AfterAll(b: Books, rs: seq<Request>): Books
    requires Balanced(b)
    decreases |rs|
  {
    if rs == [] then b
    else
      ServedBalances(b, rs[0]);
      AfterAll(Served(b, rs[0]), rs[1..])
  }

  const EMPTY_BOOKS := Books({}, [ModuleContext(false, 0), ModuleContext(false, 0)], map[])

  /** After any opens, failed opens and closes, the registries account for the channels that are open. */
  lemma {:induction false} AlwaysBalanced(b: Books, rs: seq<Request>)
    requires Balanced(b)
    ensures Balanced(AfterAll(b, rs))
    decreases |rs|
  {
    hide Balanced, Served;
    if rs != [] {
      ServedBalances(b, rs[0]);
      AlwaysBalanced(Served(b, rs[0]), rs[1..]);
    }
  }

  /** In particular when the driver starts with nothing open. */
  lemma BalancedFromTheStart(rs: seq<Request>)
    ensures Balanced(EMPTY_BOOKS) && Balanced(AfterAll(EMPTY_BOOKS, rs))
  {
    assert Balanced(EMPTY_BOOKS);
    AlwaysBalanced(EMPTY_BOOKS, rs);
  }

  // ----- The driver ------------------------------------------------------------------------

  class Registry {
    const nodeInUse: array2<bool>
    const modules: array<ModuleContext>

    constructor ()
      ensures Shaped() && fresh(nodeInUse) && fresh(modules) && View({}) == EMPTY_BOOKS
    {
      nodeInUse := new bool[MAX_MODULES, MAX_NODES]((i, j) => false);
      modules := new ModuleContext[MAX_MODULES](i => ModuleContext(false, 0));
      new;
      assert UsedView() == {};
      assert HeldView({}) == map[];
    }

    ghost predicate Shaped() {
      nodeInUse.Length0 == MAX_MODULES && nodeInUse.Length1 == MAX_NODES && modules.Length == MAX_MODULES
    }

    ghost function UsedView(): set<(nat, nat)>
      requires Shaped()
      reads nodeInUse
    {
      set i: nat, j: nat | i < MAX_MODULES && j < MAX_NODES && nodeInUse[i, j] :: (i, j)
    }

    ghost function HeldView(channels: set<Channel>): map<Channel, Entry>
      reads channels
    {
      map c | c in channels && c.isOpen :: Entry(c.inst, c.node, c.moduleIndex)
    }

    ghost function View(channels: set<Channel>): Books
      requires Shaped()
      reads nodeInUse, modules, channels
    {
      Books(UsedView(), modules[..], HeldView(channels))
    }

    lemma HeldSplit(channels: set<Channel>, c: Channel)
      requires c in channels
      ensures c in HeldView(channels) <==> c.isOpen
      ensures HeldView(channels) ==
              if c.isOpen then HeldView(channels - {c})[c := Entry(c.inst, c.node, c.moduleIndex)] else HeldView(channels - {c})
    {
    }

    method ReserveNode(inst: nat, node: nat) returns (status: Status, index: nat)
      requires Shaped()
      modifies nodeInUse
      ensures status == if inst >= MAX_MODULES || node >= MAX_NODES then ENotFound
                        else if (inst, node) in old(UsedView()) then EBusy else Ok
      ensures status == Ok ==> index == inst
      ensures UsedView() == old(UsedView()) + if status == Ok then {(inst, node)} else {}
    {
      if inst >= MAX_MODULES || node >= MAX_NODES {
        return ENotFound, 0;
      }
      if nodeInUse[inst, node] {
        return EBusy, 0;
      }
      nodeInUse[inst, node] := true;
      return Ok, inst;
    }

    method ReleaseNode(inst: nat, node: nat)
      requires Shaped()
      modifies nodeInUse
      ensures UsedView() == old(UsedView()) - {(inst, node)}
    {
      if inst < MAX_MODULES && node < MAX_NODES {
        nodeInUse[inst, node] := false;
      }
    }

    method AcquireModule(hasRegisters: bool, index: nat) returns (status: Status)
      requires Shaped()
      modifies modules
      ensures status == if !hasRegisters then EInval else if index >= MAX_MODULES then ENotFound else Ok
      ensures modules[..] == if status == Ok then old(modules[..])[index := Acquired(old(modules[index]))] else old(modules[..])
    {
      if !hasRegisters {
        return EInval;
      }
      if index >= MAX_MODULES {
        return ENotFound;
      }
      if !modules[index].initialized {
        modules[index] := ModuleContext(true, 1);
      } else {
        modules[index] := modules[index].(refCount := (modules[index].refCount + 1) % 0x100);
      }
      return Ok;
    }

    method ReleaseModule(index: nat)
      requires Shaped()
      modifies modules
      ensures modules[..] == if index < MAX_MODULES then old(modules[..])[index := Released(old(modules[index]))] else old(modules[..])
    {
      if index >= MAX_MODULES {
        return;
      }
      if modules[index].refCount > 0 {
        modules[index] := modules[index].(refCount := modules[index].refCount - 1);
      }
      if modules[index].refCount == 0 {
        modules[index] := modules[index].(initialized := false);
      }
    }

    /** Opens a channel on a port. */
    method Open(channel: Channel, port: Port, answers: Answers, ghost channels: set<Channel>) returns (status: Status)
      requires Shaped() && Balanced(View(channels)) && channel in channels
      modifies nodeInUse, modules, channel
      ensures status == StatusOf(old(View(channels)), Opening(channel, port, answers))
      ensures View(channels) == Served(old(View(channels)), Opening(channel, port, answers))
    {
      hide Balanced, UsedView, HeldView, Acquired, Released;
      ghost var was := View(channels);
      ModulesRollBack(was);
      HeldSplit(channels, channel);
      if channel.isOpen {
        return EBusy;
      }
      status := Precheck(port, answers);
      if status != Ok {
        return;
      }
      var index;
      status, index := ReserveNode(port.inst, port.node);
      if status != Ok {
        return;
      }
      var acquired := false;
      if !answers.powered {
        status := EIo;
      } else {
        channel.Clear();
        status := AcquireModule(answers.hasRegisters, index);
        if status == Ok {
          acquired := true;
          channel.inst, channel.node, channel.moduleIndex := port.inst, port.node, index;
          status := answers.filter;
        }
        if status == Ok {
          channel.isOpen, channel.isStarted := true, false;
          HeldSplit(channels, channel);
          return;
        }
      }
      Fail(channel, port, acquired, answers.powered);
      HeldSplit(channels, channel);
      assert UsedView() == was.used;
    }

    /** The failure path of an open: what was taken is given back in reverse order. */
    method Fail(channel: Channel, port: Port, acquired: bool, cleared: bool)
      requires Shaped() && !channel.isOpen
      modifies nodeInUse, modules, channel
      ensures UsedView() == old(UsedView()) - {(port.inst, port.node)}
      ensures
        var i := old(channel.moduleIndex);
        modules[..] == if acquired && i < MAX_MODULES then old(modules[..])[i := Released(old(modules[i]))] else old(modules[..])
      ensures !channel.isOpen
    {
      if acquired {
        ReleaseModule(channel.moduleIndex);
      }
      ReleaseNode(port.inst, port.node);
      if cleared {
        channel.Clear();
      }
    }

    method Close(channel: Channel, ghost channels: set<Channel>) returns (status: Status)
      requires Shaped() && Balanced(View(channels)) && channel in channels
      modifies nodeInUse, modules, channel
      ensures status == StatusOf(old(View(channels)), Closing(channel))
      ensures View(channels) == Served(old(View(channels)), Closing(channel))
    {
      if !channel.isOpen {
        return EInval;
      }
      ReleaseModule(channel.moduleIndex);
      ReleaseNode(channel.inst, channel.node);
      channel.Clear();
      return Ok;
    }
  }
}
