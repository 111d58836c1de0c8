/** The selector's table, the sessions' lives and their states together: runs of the whole proxy (pop3_client_nio.c, selector.c). */
module WholeProgram {
  import opened Bytes
  import opened Options
  import opened Capacity
  import opened StateMachines
  import opened SelectorTable
  import opened ProxySession
  import opened SessionRuns
  import opened SessionAborts
  import opened SessionEntries
  import CommandParser
  import SinglelineResponse
  import MultilineResponse
  import L = SessionLifetime

  /** The events of a session are those since it was accepted. */
  datatype Program = Program(table: Table, world: L.World<nat>, histories: map<nat, seq<ProxySession.Event>>)

  const BEGINNING := Program(New(), L.Start(), map[])

  // ----- What the program keeps -----

  /** The slots of a session's descriptors ask for what its state subscribes to. */
  predicate Tied(t: Table, entries: map<nat, nat>, x: L.Struct, st: Session) {
    && st.state < UPDATE
    && Shows(t, x.client_fd, st.wire.client)
    && (st.wire.origin.Some? <==> x.origin_fd >= 0 && x.origin_fd in entries)
    && (st.wire.origin.Some? ==> Shows(t, x.origin_fd, st.wire.origin.value))
    && (st.state <= RESOLV_CONNECTION ==> x.origin_fd == L.NO_FD)
  }

  ghost predicate Sound(t: Table, w: L.World<nat>) {
    Orderly(t) && SelectorTable.Inv(t) && Matches(t, w) && L.Inv(w) && L.Wired(w)
  }

  predicate SessionTied(p: Program, s: nat)
    requires s in p.histories && s in p.world.sessions
  {
    && SessionRuns.After(p.histories[s]).Some?
    && Tied(p.table, p.world.entries, p.world.sessions[s], SessionRuns.After(p.histories[s]).value)
  }

  ghost predicate AllTied(p: Program) {
    && p.histories.Keys == p.world.sessions.Keys
    && forall s :: s in p.histories ==> SessionTied(p, s)
  }

  ghost predicate Inv(p: Program) {
    Sound(p.table, p.world) && AllTied(p)
  }

  // ----- What can happen -----

  datatype Happening =
    | Accepting(fd: nat, memory: Option<nat>)                      // a client
    | Serving(fd: nat, kind: Ready, io: Io, socket: nat)           // a callback of a session; socket is the descriptor it may open
    | Elsewhere(op: Op)                                            // what others do with the selector

  function StateOf(p: Program, s: nat): Session
    requires s in p.histories && SessionRuns.After(p.histories[s]).Some?
  {
    SessionRuns.After(p.histories[s]).value
  }

  function SideOf(x: L.Struct, fd: nat): Side {
    if x.client_fd == fd then Client else Origin
  }

  /** connect() is done at once. */
  predicate AtOnce(st: Session, io: Io) {
    st.state <= RESOLV_CONNECTION && io.ConnectedAtOnce?
  }

  /** A descriptor just opened is nobody's. */
  predicate Unknown(p: Program, fd: nat) {
    !Used(p.table, fd) && L.NotOpen(p.world, fd)
  }

  /** The selector takes the origin's descriptor exactly if it is in range. */
  predicate Opens(p: Program, io: Io, socket: nat) {
    match io
    case Connecting => Unknown(p, socket) && socket < ITEMS_MAX_SIZE
    case Refused => Unknown(p, socket) && socket >= ITEMS_MAX_SIZE
    case NotConnecting(left_open) => left_open ==> Unknown(p, socket)
    case _ => true
  }

  /** The selector reports what the slot asks for; of a name looked up it is told. */
  predicate Ripe(slot: Item, st: Session, side: Side, kind: Ready) {
    match kind
    case OnRead => slot.interest.read
    case OnWrite => slot.interest.write
    case OnBlock => st.state == RESOLV_CONNECTION && side == Client
  }

  /** What others do with the selector is not done to the sessions' slots. */
  predicate Foreign(t: Table, op: Op) {
    match op
    case DoRegister(_, handler, _, _) => handler != Some(SUSCRIPTIONS)
    case DoUnregister(fd) => fd < 0 || !HoldsSession(t, fd)
    case DoSetInterest(fd, _) => fd < 0 || !HoldsSession(t, fd)
  }

  ghost predicate CanHappen(p: Program, h: Happening)
    requires Inv(p)
  {
    match h
    case Accepting(fd, memory) => Unknown(p, fd) && L.Fresh(p.world, memory)
    case Serving(fd, kind, io, socket) =>
      && HoldsSession(p.table, fd) && p.table.items[fd].data in p.histories
      && var s := p.table.items[fd].data;
         && Ripe(p.table.items[fd], StateOf(p, s), SideOf(p.world.sessions[s], fd), kind)
         && (Aborts(StateOf(p, s), kind) || AtOnce(StateOf(p, s), io) || Possible(StateOf(p, s), io))
         && Opens(p, io, socket)
    case Elsewhere(op) => Foreign(p.table, op)
  }

  // ----- What happens -----

  /** What a step makes of the origin's descriptor. */
  function Attempted(st: Session, io: Io, socket: nat): Option<L.Attempt> {
    if st.state > RESOLV_CONNECTION then None
    else
      match io
      case Connecting => Some(L.Registered(socket))
      case Refused => Some(L.Failed)
      case NotConnecting(left_open) => Some(if left_open then L.LeftOpen(socket) else L.Failed)
      case _ => None
  }

  /** What the calls of a step leave in the selector. */
  function WireOps(x: L.Struct, s: nat, before: Wire, after: Wire, socket: nat): seq<Op> {
    var a := DoSetInterest(x.client_fd, after.client);
    if after.origin.None? then [a]
    else if before.origin.Some? then [a, DoSetInterest(x.origin_fd, after.origin.value)]
    else [a, DoRegister(socket, Some(SUSCRIPTIONS), after.origin.value, s)]
  }

  function OpsOfFinish(x: L.Struct): seq<Op> {
    if x.origin_fd == L.NO_FD then [DoUnregister(x.client_fd)]
    else [DoUnregister(x.client_fd), DoUnregister(x.origin_fd)]
  }

  /** finished_suscription; None where it aborts. */
  function Finished(p: Program, s: nat): Option<Program>
    requires Tidy(p.table) && s in p.world.sessions
  {
    var w := L.Finish(p.world, s);
    if w.None? then None
    else Some(Program(ApplyAll(p.table, OpsOfFinish(p.world.sessions[s])), w.value, p.histories - {s}))
  }

  ghost function Accepted(p: Program, fd: nat, memory: Option<nat>): Program
    requires Inv(p)
  {
    var s := L.New(p.world, fd, memory).1;
    var registered := fd < ITEMS_MAX_SIZE;
    var world := L.Accept(p.world, fd, memory, registered);
    if s.Some? && registered then
      Program(ApplyAll(p.table, [DoRegister(fd, Some(SUSCRIPTIONS), ProxySession.OP_WRITE, s.value)]), world,
              p.histories[s.value := []])
    else p.(world := world)
  }

  function WorldAfter(w: L.World<nat>, s: nat, attempt: Option<L.Attempt>): (r: L.World<nat>)
    requires s in w.sessions && (attempt.Some? ==> !attempt.value.AtOnce?)
    ensures r.sessions.Keys == w.sessions.Keys
  {
    if attempt.Some? then L.Connect(w, s, attempt.value) else w
  }

  /** A step of the session from st to st', before it is looked at whether it is over. */
  function Served(p: Program, s: nat, e: ProxySession.Event, st: Session, st': Session, socket: nat): (r: Program)
    requires Tidy(p.table) && s in p.histories && s in p.world.sessions
    ensures Tidy(r.table) && r.world.sessions.Keys == p.world.sessions.Keys
  {
    Program(ApplyAll(p.table, WireOps(p.world.sessions[s], s, st.wire, st'.wire, socket)),
            WorldAfter(p.world, s, Attempted(st, e.io, socket)),
            p.histories[s := p.histories[s] + [e]])
  }

  /** And after that. */
  function Settled(p: Program, s: nat, e: ProxySession.Event, st: Session, st': Session, socket: nat): Option<Program>
    requires Tidy(p.table) && s in p.histories && s in p.world.sessions
  {
    var p' := Served(p, s, e, st, st', socket);
    if st'.state == ERROR then Finished(p', s) else Some(p')
  }

  /** The slot is a session's, which is registered for it on the side told. */
  lemma SlotIsSessions(p: Program, fd: nat)
    requires Inv(p) && HoldsSession(p.table, fd)
    ensures var s := p.table.items[fd].data;
            && fd in p.world.entries && p.world.entries[fd] == s && s in p.histories && fd < ITEMS_MAX_SIZE
            && var x := p.world.sessions[s];
               (fd == x.client_fd || (fd == x.origin_fd && fd in p.world.entries))
  {
    var s := p.table.items[fd].data;
    assert fd in Entries(p.table);
    assert L.WiredUp(p.world.entries, s, p.world.sessions[s]);
    assert fd in L.Holders(p.world.entries, s);
  }

  lemma TiedReports(t: Table, entries: map<nat, nat>, x: L.Struct, st: Session, fd: nat, kind: Ready)
    requires Tied(t, entries, x, st) && fd < |t.items|
    requires fd == x.client_fd || (fd == x.origin_fd && fd in entries)
    requires Ripe(t.items[fd], st, SideOf(x, fd), kind)
    ensures Reported(st, SideOf(x, fd), kind)
  {
  }

  /** Whatever the selector reports of a session's slot is reported for the session's state. */
  lemma RipeIsReported(p: Program, fd: nat, kind: Ready)
    requires Inv(p) && HoldsSession(p.table, fd) && p.table.items[fd].data in p.histories
    requires var s := p.table.items[fd].data;
             Ripe(p.table.items[fd], StateOf(p, s), SideOf(p.world.sessions[s], fd), kind)
    ensures var s := p.table.items[fd].data;
            Reported(StateOf(p, s), SideOf(p.world.sessions[s], fd), kind)
  {
    SlotIsSessions(p, fd);
    var s := p.table.items[fd].data;
    TiedReports(p.table, p.world.entries, p.world.sessions[s], StateOf(p, s), fd, kind);
  }

  /** None where the program is aborted. */
  ghost function Happen(p: Program, h: Happening): Option<Program>
    requires Inv(p) && CanHappen(p, h)
  {
    match h
    case Accepting(fd, memory) => Some(Accepted(p, fd, memory))
    case Serving(fd, kind, io, socket) =>
      var s := p.table.items[fd].data;
      var st := StateOf(p, s);
      if Aborts(st, kind) || AtOnce(st, io) then None
      else
        RipeIsReported(p, fd, kind);
        var e := ProxySession.Event(SideOf(p.world.sessions[s], fd), kind, io);
        Settled(p, s, e, st, ProxySession.Step(st, e), socket)
    case Elsewhere(op) => Some(p.(table := Apply(p.table, op)))
  }

  // ----- What each happening keeps -----

  lemma ArrivalWire(st: Session)
    ensures ProxySession.Arrive(st).wire == st.wire
  {
  }

  lemma EarlyWire(st: Session, e: ProxySession.Event)
    requires ProxySession.Enabled(st, e) && st.state <= GREETING_CWRITE
    ensures var st' := ProxySession.Handler(st, e);
            && (st'.wire.origin.Some? <==> st.wire.origin.Some? || (st.state <= RESOLV_CONNECTION && e.io.Connecting?))
            && (st'.state <= RESOLV_CONNECTION ==> st.state <= RESOLV_CONNECTION && e.io.Resolving?)
  {
  }

  lemma CommandWire(st: Session, all: seq<byte>, r: CommandParser.Command)
    requires st.state == COMMAND_CREAD && r.read <= |all|
    ensures var st' := CommandBuilt(st, all, r);
            (st'.wire.origin.Some? <==> st.wire.origin.Some?) && st'.state > RESOLV_CONNECTION
  {
  }

  lemma ResponseWire(st: Session, io: Io, judged: bool, multiline: bool, finished: bool)
    requires st.state == RESPONSE_SREAD && io.Received?
    ensures var st' := ResponseBegun(st, io, judged, multiline, finished);
            (st'.wire.origin.Some? <==> st.wire.origin.Some?) && st'.state > RESOLV_CONNECTION
  {
  }

  lemma RelayWire(st: Session, e: ProxySession.Event)
    requires ProxySession.Enabled(st, e)
    requires st.state == COMMAND_SWRITE || st.state == DOT_DATA_SREAD || st.state == DOT_DATA_CWRITE || st.state == RESPONSE_CWRITE
    ensures var st' := ProxySession.Handler(st, e);
            (st'.wire.origin.Some? <==> st.wire.origin.Some?) && st'.state > RESOLV_CONNECTION
  {
  }

  lemma LateWire(st: Session, e: ProxySession.Event)
    requires ProxySession.Enabled(st, e) && st.state >= COMMAND_CREAD
    ensures var st' := ProxySession.Handler(st, e);
            (st'.wire.origin.Some? <==> st.wire.origin.Some?) && st'.state > RESOLV_CONNECTION
  {
    if st.state == COMMAND_SWRITE || st.state == DOT_DATA_SREAD || st.state == DOT_DATA_CWRITE || st.state == RESPONSE_CWRITE {
      RelayWire(st, e);
    } else if st.state == COMMAND_CREAD && e.io.Received? {
      var all := st.read_buffer + e.io.octets;
      CommandWire(st, all, CommandParser.Split(all));
    } else if st.state == RESPONSE_SREAD && e.io.Received? {
      ResponseWire(st, e.io, SinglelineResponse.Judge(e.io.octets).BuildFinished?,
                   RespondsInLines(st), MultilineResponse.Finished(e.io.octets));
    }
  }

  /** The origin comes in with a connection in progress, and stays; nothing goes back to connecting. */
  lemma StepWire(st: Session, e: ProxySession.Event)
    requires ProxySession.Enabled(st, e)
    ensures var st' := ProxySession.Step(st, e);
            && (st'.wire.origin.Some? <==> st.wire.origin.Some? || (st.state <= RESOLV_CONNECTION && e.io.Connecting?))
            && (st'.state <= RESOLV_CONNECTION ==> st.state <= RESOLV_CONNECTION && e.io.Resolving?)
            && st'.state <= ERROR
  {
    ArrivalWire(ProxySession.Handler(st, e));
    HandlerAnswers(st, e);
    if st.state <= GREETING_CWRITE {
      EarlyWire(st, e);
    } else {
      LateWire(st, e);
    }
  }

  /** What a step's calls leave in the table. */
  lemma WireOpsTable(t: Table, x: L.Struct, s: nat, before: Wire, after: Wire, socket: nat)
    requires Orderly(t) && x.client_fd >= 0 && x.client_fd in Entries(t)
    requires before.origin.Some? ==> after.origin.Some? && x.origin_fd >= 0 && x.origin_fd in Entries(t) && x.origin_fd != x.client_fd
    requires before.origin.None? && after.origin.Some? ==> socket < ITEMS_MAX_SIZE && !Used(t, socket)
    ensures var t' := ApplyAll(t, WireOps(x, s, before, after, socket));
            var origin_fd := if before.origin.Some? then x.origin_fd else socket;
            && Orderly(t') && Shows(t', x.client_fd, after.client)
            && (after.origin.Some? ==> Shows(t', origin_fd, after.origin.value))
            && SameBut(t, t', {x.client_fd} + if after.origin.Some? then {origin_fd} else {})
            && Entries(t') == if before.origin.None? && after.origin.Some? then Entries(t)[socket := s] else Entries(t)
  {
    var a := DoSetInterest(x.client_fd, after.client);
    SetSlot(t, x.client_fd, after.client);
    if after.origin.None? {
      OneOp(t, a);
    } else if before.origin.Some? {
      TwoOps(t, a, DoSetInterest(x.origin_fd, after.origin.value));
      SetSlot(Apply(t, a), x.origin_fd, after.origin.value);
    } else {
      TwoOps(t, a, DoRegister(socket, Some(SUSCRIPTIONS), after.origin.value, s));
      assert !Used(Apply(t, a), socket);
      TakeSlot(Apply(t, a), socket, after.origin.value, s);
    }
  }

  lemma FinishTable(t: Table, x: L.Struct)
    requires Orderly(t) && x.client_fd >= 0 && x.client_fd in Entries(t) && x.client_fd != x.origin_fd
    requires x.origin_fd == L.NO_FD || (x.origin_fd >= 0 && x.origin_fd in Entries(t))
    ensures var t' := ApplyAll(t, OpsOfFinish(x));
            && Orderly(t') && SameBut(t, t', L.Own(x)) && Entries(t') == L.EntriesWithout(Entries(t), x)
  {
    LeaveSlot(t, x.client_fd);
    if x.origin_fd == L.NO_FD {
      OneOp(t, DoUnregister(x.client_fd));
    } else {
      TwoOps(t, DoUnregister(x.client_fd), DoUnregister(x.origin_fd));
      LeaveSlot(Apply(t, DoUnregister(x.client_fd)), x.origin_fd);
    }
  }

  /** A session none of whose slots has been touched is tied as before. */
  lemma StillTied(t: Table, t': Table, entries: map<nat, nat>, entries': map<nat, nat>, x: L.Struct, st: Session, fds: set<int>)
    requires Tied(t, entries, x, st) && SameBut(t, t', fds)
    requires x.client_fd !in fds && (x.origin_fd >= 0 && x.origin_fd in entries ==> x.origin_fd !in fds)
    requires x.origin_fd >= 0 ==> (x.origin_fd in entries <==> x.origin_fd in entries')
    ensures Tied(t', entries', x, st)
  {
  }

  lemma WorldKeeps(w: L.World<nat>, s: nat, attempt: Option<L.Attempt>)
    requires L.Inv(w) && L.Wired(w) && s in w.sessions
    requires attempt.Some? ==>
               !attempt.value.AtOnce? && L.CanAttempt(w, attempt.value) && w.sessions[s].origin_fd == L.NO_FD
    ensures L.Inv(WorldAfter(w, s, attempt)) && L.Wired(WorldAfter(w, s, attempt))
  {
    if attempt.Some? {
      L.ConnectKeeps(w, s, attempt.value);
      L.ConnectWires(w, s, attempt.value);
    }
  }

  /** How the wire and the state may go in a step. */
  predicate WireGoes(st: Session, st': Session, io: Io) {
    && (st'.wire.origin.Some? <==> st.wire.origin.Some? || (st.state <= RESOLV_CONNECTION && io.Connecting?))
    && (st'.state <= RESOLV_CONNECTION ==> st.state <= RESOLV_CONNECTION && io.Resolving?)
  }

  /** A session's descriptors are its own. */
  predicate OwnFds(w: L.World<nat>, s: nat, x: L.Struct) {
    && x.client_fd >= 0 && x.client_fd in w.entries && w.entries[x.client_fd] == s && x.client_fd != x.origin_fd
    && L.NO_FD <= x.origin_fd && (x.origin_fd >= 0 && x.origin_fd in w.entries ==> w.entries[x.origin_fd] == s)
  }

  /** So are its slots, and what it opens is nobody's. */
  predicate Own(t: Table, w: L.World<nat>, s: nat, st: Session, io: Io, socket: nat) {
    && s in w.sessions && Orderly(t) && Matches(t, w)
    && OwnFds(w, s, w.sessions[s]) && Tied(t, w.entries, w.sessions[s], st)
    && (io.Connecting? ==> socket < ITEMS_MAX_SIZE && !Used(t, socket) && L.NotOpen(w, socket))
    && (io == NotConnecting(true) ==> L.NotOpen(w, socket))
  }

  lemma OwnSlots(p: Program, s: nat, io: Io, socket: nat)
    requires Inv(p) && s in p.histories && Opens(p, io, socket)
    ensures Own(p.table, p.world, s, StateOf(p, s), io, socket)
  {
    L.HoldersOf(p.world, s);
  }

  lemma SoundAfter(t: Table, w: L.World<nat>, s: nat, st: Session, st': Session, io: Io, socket: nat)
    requires Own(t, w, s, st, io, socket) && WireGoes(st, st', io)
    requires SelectorTable.Inv(t) && L.Inv(w) && L.Wired(w)
    ensures Sound(ApplyAll(t, WireOps(w.sessions[s], s, st.wire, st'.wire, socket)),
                  WorldAfter(w, s, Attempted(st, io, socket)))
  {
    WorldKeeps(w, s, Attempted(st, io, socket));
    TableAfterStep(t, w, s, st, st', io, socket);
  }

  lemma TableAfterStep(t: Table, w: L.World<nat>, s: nat, st: Session, st': Session, io: Io, socket: nat)
    requires Own(t, w, s, st, io, socket) && WireGoes(st, st', io) && SelectorTable.Inv(t)
    ensures var t' := ApplyAll(t, WireOps(w.sessions[s], s, st.wire, st'.wire, socket));
            && Orderly(t') && SelectorTable.Inv(t')
            && Matches(t', WorldAfter(w, s, Attempted(st, io, socket)))
  {
    WireOpsTable(t, w.sessions[s], s, st.wire, st'.wire, socket);
    ApplyAllKeeps(t, WireOps(w.sessions[s], s, st.wire, st'.wire, socket));
  }

  lemma SelfTied(t: Table, w: L.World<nat>, s: nat, st: Session, st': Session, io: Io, socket: nat)
    requires Own(t, w, s, st, io, socket) && WireGoes(st, st', io) && st'.state < UPDATE
    ensures var w' := WorldAfter(w, s, Attempted(st, io, socket));
            Tied(ApplyAll(t, WireOps(w.sessions[s], s, st.wire, st'.wire, socket)), w'.entries, w'.sessions[s], st')
  {
    WireOpsTable(t, w.sessions[s], s, st.wire, st'.wire, socket);
  }

  lemma OtherTied(t: Table, w: L.World<nat>, s: nat, st: Session, st': Session, io: Io, socket: nat, o: nat, ost: Session)
    requires Own(t, w, s, st, io, socket) && WireGoes(st, st', io)
    requires Own(t, w, o, ost, io, socket) && o != s
    ensures var w' := WorldAfter(w, s, Attempted(st, io, socket));
            && o in w'.sessions && w'.sessions[o] == w.sessions[o]
            && Tied(ApplyAll(t, WireOps(w.sessions[s], s, st.wire, st'.wire, socket)), w'.entries, w.sessions[o], ost)
  {
    var x := w.sessions[s];
    WireOpsTable(t, x, s, st.wire, st'.wire, socket);
    var fds := {x.client_fd} + if st'.wire.origin.None? then {} else {if st.wire.origin.Some? then x.origin_fd else socket};
    StillTied(t, ApplyAll(t, WireOps(x, s, st.wire, st'.wire, socket)), w.entries,
              WorldAfter(w, s, Attempted(st, io, socket)).entries, w.sessions[o], ost, fds);
  }

  lemma HistoryGrows(p: Program, s: nat, e: ProxySession.Event)
    requires s in p.histories && SessionRuns.After(p.histories[s]).Some? && ProxySession.Enabled(StateOf(p, s), e)
    ensures SessionRuns.After(p.histories[s] + [e]) == Some(ProxySession.Step(StateOf(p, s), e))
  {
    SessionRuns.AfterPush(p.histories[s], e);
  }

  /** Everything but, maybe, the session served is as it has to be. */
  ghost predicate AllTiedBut(p: Program, s: nat) {
    && p.histories.Keys == p.world.sessions.Keys
    && forall t :: t in p.histories && t != s ==> SessionTied(p, t)
  }

  ghost predicate AllOwn(p: Program, io: Io, socket: nat) {
    && p.histories.Keys == p.world.sessions.Keys
    && forall s :: s in p.histories ==>
         SessionRuns.After(p.histories[s]).Some? && Own(p.table, p.world, s, StateOf(p, s), io, socket)
  }

  lemma AllOwnSlots(p: Program, io: Io, socket: nat)
    requires Inv(p) && Opens(p, io, socket)
    ensures AllOwn(p, io, socket)
  {
    forall s | s in p.histories
      ensures SessionRuns.After(p.histories[s]).Some? && Own(p.table, p.world, s, StateOf(p, s), io, socket)
    {
      OwnSlots(p, s, io, socket);
    }
  }

  lemma SelfServed(p: Program, s: nat, e: ProxySession.Event, st': Session, socket: nat)
    requires AllOwn(p, e.io, socket) && s in p.histories && WireGoes(StateOf(p, s), st', e.io)
    requires SessionRuns.After(p.histories[s] + [e]) == Some(st') && st'.state < UPDATE
    ensures SessionTied(Served(p, s, e, StateOf(p, s), st', socket), s)
  {
    SelfTied(p.table, p.world, s, StateOf(p, s), st', e.io, socket);
  }

  lemma OtherServed(p: Program, s: nat, e: ProxySession.Event, st': Session, socket: nat, t: nat)
    requires AllOwn(p, e.io, socket) && s in p.histories && WireGoes(StateOf(p, s), st', e.io)
    requires t in p.histories && t != s
    ensures SessionTied(Served(p, s, e, StateOf(p, s), st', socket), t)
  {
    OtherTied(p.table, p.world, s, StateOf(p, s), st', e.io, socket, t, StateOf(p, t));
  }

  lemma OthersServed(p: Program, s: nat, e: ProxySession.Event, st': Session, socket: nat)
    requires AllOwn(p, e.io, socket) && s in p.histories && WireGoes(StateOf(p, s), st', e.io)
    ensures AllTiedBut(Served(p, s, e, StateOf(p, s), st', socket), s)
  {
    forall t | t in p.histories && t != s
      ensures SessionTied(Served(p, s, e, StateOf(p, s), st', socket), t)
    {
      OtherServed(p, s, e, st', socket, t);
    }
  }

  lemma SoundServed(p: Program, s: nat, e: ProxySession.Event, st': Session, socket: nat)
    requires Inv(p) && s in p.histories && Opens(p, e.io, socket) && WireGoes(StateOf(p, s), st', e.io)
    ensures var p' := Served(p, s, e, StateOf(p, s), st', socket);
            Sound(p'.table, p'.world)
  {
    AllOwnSlots(p, e.io, socket);
    SoundAfter(p.table, p.world, s, StateOf(p, s), st', e.io, socket);
  }

  lemma ButOneAndOne(p: Program, s: nat)
    requires s in p.histories && AllTiedBut(p, s) && SessionTied(p, s)
    ensures AllTied(p)
  {
  }

  lemma ServedKeeps(p: Program, s: nat, e: ProxySession.Event, st': Session, socket: nat)
    requires Inv(p) && s in p.histories && Opens(p, e.io, socket) && WireGoes(StateOf(p, s), st', e.io)
    requires SessionRuns.After(p.histories[s] + [e]) == Some(st')
    ensures var p' := Served(p, s, e, StateOf(p, s), st', socket);
            && Sound(p'.table, p'.world) && AllTiedBut(p', s)
            && (st'.state < UPDATE ==> Inv(p'))
  {
    SoundServed(p, s, e, st', socket);
    AllOwnSlots(p, e.io, socket);
    OthersServed(p, s, e, st', socket);
    if st'.state < UPDATE {
      SelfServed(p, s, e, st', socket);
      ButOneAndOne(Served(p, s, e, StateOf(p, s), st', socket), s);
    }
  }

  /** A session that comes to an error has its origin registered: it has got past the connection. */
  lemma ErrorHasOrigin(events: seq<ProxySession.Event>, e: ProxySession.Event)
    requires SessionRuns.After(events).Some? && ProxySession.Enabled(SessionRuns.After(events).value, e)
    requires ProxySession.Step(SessionRuns.After(events).value, e).state == ERROR
    ensures SessionRuns.After(events).value.wire.origin.Some?
  {
    RunStrands(events);
    var st := SessionRuns.After(events).value;
    if FailedAs(events).Some? {
      StrandedStays(st, e, FailedAs(events).value);
    }
  }

  /** No two sessions share a registered descriptor. */
  lemma FdsApart(w: L.World<nat>, s: nat, t: nat)
    requires L.Wired(w) && s in w.sessions && t in w.sessions && s != t && !L.Loose(w, s)
    ensures var x, y := w.sessions[s], w.sessions[t];
            && y.client_fd !in L.Own(x)
            && (y.origin_fd >= 0 && y.origin_fd in w.entries ==> y.origin_fd !in L.Own(x))
            && (y.origin_fd >= 0 && y.origin_fd !in w.entries ==> y.origin_fd !in L.EntriesWithout(w.entries, x))
  {
    L.HoldersOf(w, s);
    L.HoldersOf(w, t);
  }

  lemma TiedPastFinish(t: Table, t': Table, entries: map<nat, nat>, x: L.Struct, y: L.Struct, st: Session)
    requires Tied(t, entries, y, st) && SameBut(t, t', L.Own(x)) && y.client_fd !in L.Own(x)
    requires y.origin_fd >= 0 && y.origin_fd in entries ==> y.origin_fd !in L.Own(x)
    ensures Tied(t', L.EntriesWithout(entries, x), y, st)
  {
    StillTied(t, t', entries, L.EntriesWithout(entries, x), y, st, L.Own(x));
  }

  /** The table and the entries after a session is over. */
  lemma FinishedTable(p: Program, s: nat)
    requires Sound(p.table, p.world) && s in p.world.sessions && !L.Loose(p.world, s) && Finished(p, s).Some?
    ensures var p', x := Finished(p, s).value, p.world.sessions[s];
            && SameBut(p.table, p'.table, L.Own(x)) && p'.world.entries == L.EntriesWithout(p.world.entries, x)
            && Orderly(p'.table) && Entries(p'.table) == p'.world.entries
  {
    L.FinishEntries(p.world, s);
    L.HoldersOf(p.world, s);
    FinishTable(p.table, p.world.sessions[s]);
  }

  lemma FinishedSound(p: Program, s: nat)
    requires Sound(p.table, p.world) && s in p.world.sessions && !L.Loose(p.world, s)
    ensures Finished(p, s).Some?
    ensures var p' := Finished(p, s).value;
            && Sound(p'.table, p'.world) && p'.histories == p.histories - {s}
            && p'.world.sessions == p.world.sessions - {s}
  {
    L.FinishReturns(p.world, s);
    L.FinishWires(p.world, s);
    FinishedTable(p, s);
    ApplyAllKeeps(p.table, OpsOfFinish(p.world.sessions[s]));
  }

  /** Finishing a session that has its origin never aborts, and leaves the others as they have to be. */
  lemma FinishedKeeps(p: Program, s: nat)
    requires Sound(p.table, p.world) && AllTiedBut(p, s) && s in p.world.sessions && !L.Loose(p.world, s)
    ensures Finished(p, s).Some? && Inv(Finished(p, s).value)
    ensures var p' := Finished(p, s).value;
            p'.histories == p.histories - {s} && p'.world.sessions == p.world.sessions - {s}
  {
    FinishedSound(p, s);
    FinishedTable(p, s);
    var p' := Finished(p, s).value;
    forall t | t in p'.histories
      ensures SessionTied(p', t)
    {
      assert SessionTied(p, t);
      FdsApart(p.world, s, t);
      TiedPastFinish(p.table, p'.table, p.world.entries, p.world.sessions[s], p.world.sessions[t], StateOf(p, t));
    }
  }

  /** A session just accepted is where every session starts. */
  lemma NewTied(t: Table, entries: map<nat, nat>, fd: nat)
    requires Shows(t, fd, ProxySession.OP_WRITE)
    ensures SessionRuns.After([]) == Some(ProxySession.START)
    ensures Tied(t, entries, L.Struct(fd, L.NO_FD, 1), ProxySession.START)
  {
  }

  lemma AcceptedSound(p: Program, fd: nat, memory: Option<nat>)
    requires Inv(p) && Unknown(p, fd) && L.Fresh(p.world, memory)
    ensures var p' := Accepted(p, fd, memory);
            Sound(p'.table, p'.world)
  {
    L.AcceptRegistered(p.world, fd, memory);
    L.AcceptRefused(p.world, fd, memory);
    L.AcceptWires(p.world, fd, memory, fd < ITEMS_MAX_SIZE);
    L.NewAccounts(p.world, fd, memory);
    var s := L.New(p.world, fd, memory).1;
    if s.Some? && fd < ITEMS_MAX_SIZE {
      var op := DoRegister(fd, Some(SUSCRIPTIONS), ProxySession.OP_WRITE, s.value);
      OneOp(p.table, op);
      TakeSlot(p.table, fd, ProxySession.OP_WRITE, s.value);
      ApplyAllKeeps(p.table, [op]);
    } else if s.Some? {
      L.RefusedGoesBack(p.world, fd, memory);
    }
  }

  /** The slots of all that is registered are as they were. */
  predicate SlotsKept(t: Table, t': Table, entries: map<nat, nat>) {
    |t'.items| == |t.items| && forall fd :: fd in entries && fd < |t.items| ==> t'.items[fd] == t.items[fd]
  }

  /** Then so are the sessions. */
  lemma TiedBySlots(t: Table, t': Table, entries: map<nat, nat>, x: L.Struct, st: Session)
    requires Tied(t, entries, x, st) && SlotsKept(t, t', entries) && x.client_fd >= 0 && x.client_fd in entries
    ensures Tied(t', entries, x, st)
  {
  }

  lemma AllTiedBySlots(p: Program, t: Table)
    requires Inv(p) && SlotsKept(p.table, t, p.world.entries)
    ensures AllTied(p.(table := t))
  {
    forall s | s in p.histories
      ensures SessionTied(p.(table := t), s)
    {
      assert SessionTied(p, s);
      L.HoldersOf(p.world, s);
      TiedBySlots(p.table, t, p.world.entries, p.world.sessions[s], StateOf(p, s));
    }
  }

  /** What accepting a client has made of the table, if the selector takes it. */
  lemma AcceptedTable(p: Program, fd: nat, memory: Option<nat>)
    requires Inv(p) && Unknown(p, fd) && fd < ITEMS_MAX_SIZE && L.New(p.world, fd, memory).1.Some?
    ensures var s, p' := L.New(p.world, fd, memory).1.value, Accepted(p, fd, memory);
            && SameBut(p.table, p'.table, {fd}) && Shows(p'.table, fd, ProxySession.OP_WRITE)
            && HoldsSession(p'.table, fd) && p'.table.items[fd].data == s
            && p'.histories == p.histories[s := []]
  {
    var s := L.New(p.world, fd, memory).1.value;
    OneOp(p.table, DoRegister(fd, Some(SUSCRIPTIONS), ProxySession.OP_WRITE, s));
    TakeSlot(p.table, fd, ProxySession.OP_WRITE, s);
  }

  lemma AcceptedWorld(p: Program, fd: nat, memory: Option<nat>)
    requires Inv(p) && Unknown(p, fd) && L.Fresh(p.world, memory)
    ensures var s, p' := L.New(p.world, fd, memory).1, Accepted(p, fd, memory);
            if s.Some? && fd < ITEMS_MAX_SIZE then
              && s.value !in p.world.sessions && p'.world.entries == p.world.entries[fd := s.value]
              && p'.world.sessions == p.world.sessions[s.value := L.Struct(fd, L.NO_FD, 1)]
            else p'.world.entries == p.world.entries && p'.world.sessions == p.world.sessions
  {
    L.NewAccounts(p.world, fd, memory);
    if L.New(p.world, fd, memory).1.Some? {
      L.RefusedGoesBack(p.world, fd, memory);
    }
  }

  lemma OtherAccepted(p: Program, fd: nat, memory: Option<nat>, t: nat)
    requires Inv(p) && Unknown(p, fd) && L.Fresh(p.world, memory) && t in p.histories
    ensures var p' := Accepted(p, fd, memory);
            t in p'.histories && t in p'.world.sessions && SessionTied(p', t)
  {
    AcceptedWorld(p, fd, memory);
    if L.New(p.world, fd, memory).1.Some? && fd < ITEMS_MAX_SIZE {
      AcceptedTable(p, fd, memory);
    }
    assert SessionTied(p, t);
    L.HoldersOf(p.world, t);
    var p' := Accepted(p, fd, memory);
    StillTied(p.table, p'.table, p.world.entries, p'.world.entries, p.world.sessions[t], StateOf(p, t), {fd});
  }

  lemma AcceptedKeys(p: Program, fd: nat, memory: Option<nat>)
    requires Inv(p) && Unknown(p, fd) && L.Fresh(p.world, memory)
    ensures Accepted(p, fd, memory).histories.Keys == Accepted(p, fd, memory).world.sessions.Keys
  {
    AcceptedWorld(p, fd, memory);
  }

  lemma AcceptedOthers(p: Program, fd: nat, memory: Option<nat>)
    requires Inv(p) && Unknown(p, fd) && L.Fresh(p.world, memory)
    ensures var p' := Accepted(p, fd, memory);
            forall t :: t in p.histories ==> t in p'.histories && t in p'.world.sessions && SessionTied(p', t)
  {
    var p' := Accepted(p, fd, memory);
    forall t | t in p.histories
      ensures t in p'.histories && t in p'.world.sessions && SessionTied(p', t)
    {
      OtherAccepted(p, fd, memory, t);
    }
  }

  lemma AcceptedSelf(p: Program, fd: nat, memory: Option<nat>)
    requires Inv(p) && Unknown(p, fd) && L.Fresh(p.world, memory)
    requires L.New(p.world, fd, memory).1.Some? && fd < ITEMS_MAX_SIZE
    ensures var s, p' := L.New(p.world, fd, memory).1.value, Accepted(p, fd, memory);
            && s in p'.histories && s in p'.world.sessions && SessionTied(p', s)
            && p'.histories.Keys == p.histories.Keys + {s}
  {
    var p' := Accepted(p, fd, memory);
    AcceptedWorld(p, fd, memory);
    AcceptedTable(p, fd, memory);
    NewTied(p'.table, p'.world.entries, fd);
  }

  lemma AcceptedTied(p: Program, fd: nat, memory: Option<nat>)
    requires Inv(p) && Unknown(p, fd) && L.Fresh(p.world, memory)
    ensures AllTied(Accepted(p, fd, memory))
  {
    AcceptedKeys(p, fd, memory);
    AcceptedOthers(p, fd, memory);
    if L.New(p.world, fd, memory).1.Some? && fd < ITEMS_MAX_SIZE {
      AcceptedSelf(p, fd, memory);
    }
  }

  /** And leaves them alone. */
  lemma ForeignOp(t: Table, op: Op)
    requires Orderly(t) && SelectorTable.Inv(t) && Foreign(t, op)
    ensures var t' := Apply(t, op);
            && Orderly(t') && SelectorTable.Inv(t') && Entries(t') == Entries(t)
            && forall fd: nat :: fd in Entries(t) ==> t'.items[fd] == t.items[fd]
  {
    var t' := Apply(t, op);
    ApplyTidy(t, op);
    ApplyKeeps(t, op);
    assert forall n: nat :: n < |t.items| && n != op.fd ==> t'.items[n] == t.items[n];
    assert forall n: nat :: n < |t.items| ==> (HoldsSession(t', n) <==> HoldsSession(t, n));
    assert forall n: nat :: n < |t.items| && HoldsSession(t, n) ==> t'.items[n] == t.items[n];
  }

  lemma ElsewhereKeeps(p: Program, op: Op)
    requires Inv(p) && Foreign(p.table, op)
    ensures Inv(p.(table := Apply(p.table, op)))
  {
    ForeignOp(p.table, op);
    AllTiedBySlots(p, Apply(p.table, op));
  }

  // ----- What aborts -----

  /** Where the greeting has been lost there is a callback missing whatever is reported; elsewhere none is. */
  lemma MissingExactly(events: seq<ProxySession.Event>, side: Side, kind: Ready)
    requires SessionRuns.After(events).Some? && SessionRuns.After(events).value.state < UPDATE
    requires Reported(SessionRuns.After(events).value, side, kind)
    ensures Aborts(SessionRuns.After(events).value, kind) <==> GreetingLost(events)
  {
    var st := SessionRuns.After(events).value;
    AbortDueExactly(events);
    RunStrands(events);
    if FailedAs(events).Some? {
      StrandedDue(st, FailedAs(events).value);
    }
  }

  /** The happening is an event of a session that ends the program. */
  ghost predicate Fatal(p: Program, h: Happening)
    requires Inv(p) && CanHappen(p, h)
  {
    h.Serving? &&
    var s := p.table.items[h.fd].data;
    GreetingLost(p.histories[s]) || AtOnce(StateOf(p, s), h.io)
  }

  lemma ServingKeeps(p: Program, h: Happening)
    requires Inv(p) && h.Serving? && CanHappen(p, h)
    ensures Happen(p, h).None? <==> Fatal(p, h)
    ensures Happen(p, h).Some? ==> Inv(Happen(p, h).value)
  {
    var s := p.table.items[h.fd].data;
    var events, st := p.histories[s], StateOf(p, s);
    RipeIsReported(p, h.fd, h.kind);
    var e := ProxySession.Event(SideOf(p.world.sessions[s], h.fd), h.kind, h.io);
    MissingExactly(events, e.side, h.kind);
    if !Aborts(st, h.kind) && !AtOnce(st, h.io) {
      EnabledKeeps(p, s, e, h.socket);
    }
  }

  /** A step that the session can take, and its end if it is over then. */
  lemma EnabledKeeps(p: Program, s: nat, e: ProxySession.Event, socket: nat)
    requires Inv(p) && s in p.histories && ProxySession.Enabled(StateOf(p, s), e) && Opens(p, e.io, socket)
    ensures var st' := ProxySession.Step(StateOf(p, s), e);
            var p' := Served(p, s, e, StateOf(p, s), st', socket);
            if st'.state == ERROR then
              && Finished(p', s).Some? && Inv(Finished(p', s).value)
              && Finished(p', s).value.histories == p'.histories - {s}
              && Finished(p', s).value.world.sessions == p'.world.sessions - {s}
            else Inv(p')
  {
    var st := StateOf(p, s);
    var st' := ProxySession.Step(st, e);
    StepWire(st, e);
    HistoryGrows(p, s, e);
    RunStrands(p.histories[s] + [e]);
    ServedKeeps(p, s, e, st', socket);
    if st'.state == ERROR {
      ErrorHasOrigin(p.histories[s], e);
      OverHasOrigin(p, s, e, st', socket);
      FinishedKeeps(Served(p, s, e, st, st', socket), s);
    }
  }

  lemma OverHasOrigin(p: Program, s: nat, e: ProxySession.Event, st': Session, socket: nat)
    requires Inv(p) && s in p.histories && StateOf(p, s).wire.origin.Some?
    ensures !L.Loose(Served(p, s, e, StateOf(p, s), st', socket).world, s)
  {
    assert SessionTied(p, s);
  }

  lemma HappenKeeps(p: Program, h: Happening)
    requires Inv(p) && CanHappen(p, h)
    ensures Happen(p, h).None? <==> Fatal(p, h)
    ensures Happen(p, h).Some? ==> Inv(Happen(p, h).value)
  {
    match h
    case Accepting(fd, memory) =>
      AcceptedSound(p, fd, memory);
      AcceptedTied(p, fd, memory);
    case Serving(_, _, _, _) => ServingKeeps(p, h);
    case Elsewhere(op) => ElsewhereKeeps(p, op);
  }

  // ----- Whole runs -----

  datatype Outcome = Running(program: Program) | Aborted | Impossible

  /** What has become of the program after these happenings; Impossible if one of them could not have come. */
  ghost function Run(hs: seq<Happening>): Outcome {
    if hs == [] then Running(BEGINNING)
    else
      var before := Run(Front(hs));
      if !before.Running? || !Inv(before.program) || !CanHappen(before.program, Last(hs)) then
        if before == Aborted then Aborted else Impossible
      else
        var r := Happen(before.program, Last(hs));
        if r.Some? then Running(r.value) else Aborted
  }

  lemma BeginningIsSound()
    ensures Inv(BEGINNING)
  {
    NewKeeps();
    L.RunKeeps<nat>([]);
    assert Entries(New()) == map[];
  }

  /**
   * Over every run of the program: the selector's table, its sets and largest descriptor agree; the sessions' slots
   * are where their lives have them, and ask for what their states subscribe to.
   */
  lemma {:induction false} RunKeeps(hs: seq<Happening>)
    requires Run(hs).Running?
    ensures Inv(Run(hs).program)
  {
    if hs == [] {
      BeginningIsSound();
    } else {
      RunKeeps(Front(hs));
      HappenKeeps(Run(Front(hs)).program, Last(hs));
    }
  }

  /**
   * And what happens next aborts the program exactly if it is a callback of a session that has lost its greeting,
   * or one in which connect() is done at once. Finishing a session never does.
   */
  lemma RunAborts(hs: seq<Happening>, h: Happening)
    requires Run(hs).Running?
    ensures Inv(Run(hs).program)
    ensures CanHappen(Run(hs).program, h) ==>
              && Run(hs + [h]).Impossible? == false
              && (Run(hs + [h]) == Aborted <==> Fatal(Run(hs).program, h))
  {
    RunKeeps(hs);
    assert Front(hs + [h]) == hs;
    if CanHappen(Run(hs).program, h) {
      HappenKeeps(Run(hs).program, h);
    }
  }

  /** No session whose descriptor has been left open is ever finished: it has not got past the greeting. */
  lemma LooseIsNotOver(hs: seq<Happening>, s: nat)
    requires Run(hs).Running? && s in Run(hs).program.world.sessions && L.Loose(Run(hs).program.world, s)
    ensures s in Run(hs).program.histories && SessionRuns.After(Run(hs).program.histories[s]).Some?
    ensures var events := Run(hs).program.histories[s];
            FailedAs(events).Some? && SessionRuns.After(events).value.state <= GREETING_CWRITE
  {
    RunKeeps(hs);
    var p := Run(hs).program;
    assert SessionTied(p, s);
    RunStrands(p.histories[s]);
  }

  /** A session has as many references as the selector has slots in use for it. */
  lemma RunReferences(hs: seq<Happening>, s: nat)
    requires Run(hs).Running? && s in Run(hs).program.world.sessions
    ensures var p := Run(hs).program;
            p.world.sessions[s].references ==
            |set fd: nat | fd < |p.table.items| && HoldsSession(p.table, fd) && p.table.items[fd].data == s|
  {
    RunKeeps(hs);
    ReferencesCountSlots(Run(hs).program.table, Run(hs).program.world, s);
  }

  /** The selector takes every interest that a step sets: the descriptors a session's wire tells of are registered. */
  lemma CallsSucceed(hs: seq<Happening>, s: nat, side: Side, i: Interest)
    requires Run(hs).Running? && s in Run(hs).program.histories && SessionRuns.After(Run(hs).program.histories[s]).Some?
    requires side == Client || StateOf(Run(hs).program, s).wire.origin.Some?
    ensures s in Run(hs).program.world.sessions
    ensures var p := Run(hs).program;
            var fd := if side == Client then p.world.sessions[s].client_fd else p.world.sessions[s].origin_fd;
            && !InvalidFd(fd) && fd < |p.table.items|
            && SelectorTable.SetInterest(p.table, fd, i).1 == Success
  {
    RunKeeps(hs);
    var p := Run(hs).program;
    assert SessionTied(p, s);
    L.HoldersOf(p.world, s);
    var fd := if side == Client then p.world.sessions[s].client_fd else p.world.sessions[s].origin_fd;
    SetSlot(p.table, fd, i);
  }

  function KindOf(direction: Direction): Ready {
    if direction == Reading then OnRead else OnWrite
  }

  /** Every callback of a session that a pass of the selector makes is an event its state's interests report. */
  lemma DueIsReported(hs: seq<Happening>, c: Callback, slave_r: set<nat>, slave_w: set<nat>)
    requires Run(hs).Running? && Due(c, slave_r, slave_w)
    requires var t := Run(hs).program.table;
             c.fd < |t.items| && c.slot == t.items[c.fd] && c.slot.handler == Some(SUSCRIPTIONS)
    ensures var p, s := Run(hs).program, c.slot.data;
            && s in p.histories && s in p.world.sessions && SessionRuns.After(p.histories[s]).Some?
            && Reported(StateOf(p, s), SideOf(p.world.sessions[s], c.fd), KindOf(c.direction))
            && (Aborts(StateOf(p, s), KindOf(c.direction)) <==> GreetingLost(p.histories[s]))
  {
    RunKeeps(hs);
    var p, s := Run(hs).program, c.slot.data;
    SlotIsSessions(p, c.fd);
    assert SessionTied(p, s);
    RipeIsReported(p, c.fd, KindOf(c.direction));
    MissingExactly(p.histories[s], SideOf(p.world.sessions[s], c.fd), KindOf(c.direction));
  }

  lemma RunPush(hs: seq<Happening>, h: Happening)
    requires Run(hs).Running? && Inv(Run(hs).program) && CanHappen(Run(hs).program, h)
    ensures var r := Happen(Run(hs).program, h);
            Run(hs + [h]) == if r.Some? then Running(r.value) else Aborted
  {
    assert Front(hs + [h]) == hs;
  }

  lemma NewcomerState(p: Program, fd: nat, memory: Option<nat>)
    requires Inv(p) && Unknown(p, fd) && fd < ITEMS_MAX_SIZE && L.New(p.world, fd, memory).1.Some?
    ensures var p', s := Accepted(p, fd, memory), L.New(p.world, fd, memory).1.value;
            && s in p'.histories && SessionRuns.After(p'.histories[s]) == Some(ProxySession.START)
            && HoldsSession(p'.table, fd) && p'.table.items[fd].data == s
            && p'.table.items[fd].interest == ProxySession.OP_WRITE
  {
    AcceptedTable(p, fd, memory);
    var p' := Accepted(p, fd, memory);
    NewTied(p'.table, p'.world.entries, fd);
  }

  lemma NewcomerAtOnce(p: Program, fd: nat, s: nat, socket: nat)
    requires Inv(p) && s in p.histories && SessionRuns.After(p.histories[s]) == Some(ProxySession.START)
    requires HoldsSession(p.table, fd) && p.table.items[fd].data == s && p.table.items[fd].interest == ProxySession.OP_WRITE
    ensures var h := Serving(fd, OnWrite, ConnectedAtOnce, socket);
            CanHappen(p, h) && Happen(p, h).None?
  {
    assert AtOnce(StateOf(p, s), ConnectedAtOnce);
    assert Opens(p, ConnectedAtOnce, socket);
  }

  /** Whatever has come before, a client accepted and connected to its origin at once ends the program. */
  lemma AbortedAtOnce(hs: seq<Happening>, fd: nat, memory: Option<nat>, socket: nat)
    requires Run(hs).Running?
    requires fd < ITEMS_MAX_SIZE && Unknown(Run(hs).program, fd) && L.Fresh(Run(hs).program.world, memory)
    requires L.New(Run(hs).program.world, fd, memory).1.Some?
    ensures Run(hs + [Accepting(fd, memory)] + [Serving(fd, OnWrite, ConnectedAtOnce, socket)]) == Aborted
  {
    RunKeeps(hs);
    var p, a, b := Run(hs).program, Accepting(fd, memory), Serving(fd, OnWrite, ConnectedAtOnce, socket);
    HappenKeeps(p, a);
    RunPush(hs, a);
    NewcomerState(p, fd, memory);
    NewcomerAtOnce(Accepted(p, fd, memory), fd, L.New(p.world, fd, memory).1.value, socket);
    RunPush(hs + [a], b);
  }
}
