/** Passes of the selector are parts of the program's runs: what handle_iteration calls is what happens to the sessions (selector.c). */
module Passes {
  import opened Bytes
  import opened Options
  import opened Capacity
  import opened StateMachines
  import opened SelectorTable
  import opened ProxySession
  import opened SessionRuns
  import opened SessionEntries
  import opened WholeProgram
  import SessionAborts
  import L = SessionLifetime

  // ----- What happens, as operations on the selector -----

  ghost function OpsOf(p: Program, h: Happening): seq<Op>
    requires WholeProgram.Inv(p) && CanHappen(p, h)
  {
    match h
    case Accepting(fd, memory) =>
      var s := L.New(p.world, fd, memory).1;
      if s.Some? && fd < ITEMS_MAX_SIZE then [DoRegister(fd, Some(SUSCRIPTIONS), ProxySession.OP_WRITE, s.value)] else []
    case Serving(fd, kind, io, socket) =>
      var s := p.table.items[fd].data;
      var st := StateOf(p, s);
      if Aborts(st, kind) || AtOnce(st, io) then []
      else
        RipeIsReported(p, fd, kind);
        var e := ProxySession.Event(SideOf(p.world.sessions[s], fd), kind, io);
        var st' := ProxySession.Step(st, e);
        WireOps(p.world.sessions[s], s, st.wire, st'.wire, socket)
        + if st'.state == ERROR then OpsOfFinish(Served(p, s, e, st, st', socket).world.sessions[s]) else []
    case Elsewhere(op) => [op]
  }

  lemma {:induction false} ApplyAllConcat(t: Table, a: seq<Op>, b: seq<Op>)
    requires Tidy(t)
    ensures ApplyAll(t, a + b) == ApplyAll(ApplyAll(t, a), b)
  {
    if b == [] {
      assert a + b == a;
    } else {
      FrontConcat(a, b);
      ApplyAllConcat(t, a, Front(b));
    }
  }

  lemma OpsOfHappening(p: Program, h: Happening)
    requires WholeProgram.Inv(p) && CanHappen(p, h) && Happen(p, h).Some?
    ensures Happen(p, h).value.table == ApplyAll(p.table, OpsOf(p, h))
  {
    match h
    case Accepting(fd, memory) =>
    case Serving(fd, kind, io, socket) =>
      var s := p.table.items[fd].data;
      var st, x := StateOf(p, s), p.world.sessions[s];
      RipeIsReported(p, fd, kind);
      var e := ProxySession.Event(SideOf(x, fd), kind, io);
      var st' := ProxySession.Step(st, e);
      var a := WireOps(x, s, st.wire, st'.wire, socket);
      if st'.state == ERROR {
        ApplyAllConcat(p.table, a, OpsOfFinish(Served(p, s, e, st, st', socket).world.sessions[s]));
      } else {
        EmptyConcat(a);
      }
    case Elsewhere(op) => OneOp(p.table, op);
  }

  /** The part of a run that a running program has behind it. */
  lemma FrontRuns(hs: seq<Happening>, doing: seq<Happening>)
    requires Run(hs + doing).Running? && doing != []
    ensures var before := Run(hs + Front(doing));
            && before.Running? && WholeProgram.Inv(before.program) && CanHappen(before.program, Last(doing))
            && Happen(before.program, Last(doing)) == Some(Run(hs + doing).program)
  {
    FrontConcat(hs, doing);
  }

  ghost function OpsOfAll(hs: seq<Happening>, doing: seq<Happening>): seq<Op>
    requires Run(hs + doing).Running?
  {
    if doing == [] then []
    else
      FrontRuns(hs, doing);
      OpsOfAll(hs, Front(doing)) + OpsOf(Run(hs + Front(doing)).program, Last(doing))
  }

  ghost predicate FullTable(hs: seq<Happening>) {
    Run(hs).Running? && Tidy(Run(hs).program.table) && |Run(hs).program.table.items| == CAPACITY
  }

  lemma {:induction false} RunsFull(hs: seq<Happening>)
    requires Run(hs).Running?
    ensures FullTable(hs)
  {
    if hs != [] {
      RunsFull(Front(hs));
      var p := Run(Front(hs)).program;
      OpsOfHappening(p, Last(hs));
    }
  }

  lemma {:induction false} OpsOfDoing(hs: seq<Happening>, doing: seq<Happening>)
    requires Run(hs + doing).Running? && FullTable(hs)
    ensures Run(hs + doing).program.table == ApplyAll(Run(hs).program.table, OpsOfAll(hs, doing))
  {
    if doing == [] {
      EmptyConcat(hs);
    } else {
      FrontRuns(hs, doing);
      OpsOfDoing(hs, Front(doing));
      var before := Run(hs + Front(doing)).program;
      OpsOfHappening(before, Last(doing));
      ApplyAllConcat(Run(hs).program.table, OpsOfAll(hs, Front(doing)), OpsOf(before, Last(doing)));
    }
  }

  // ----- What callbacks do -----

  /** A session's callback is one event; others accept clients and use the selector, but their own descriptor stays open. */
  predicate Proper(slot: Item, fd: nat, direction: Direction, doing: seq<Happening>) {
    if slot.handler == Some(SUSCRIPTIONS) then
      |doing| == 1 && doing[0].Serving? && doing[0].fd == fd && doing[0].kind == KindOf(direction)
    else
      forall i :: 0 <= i < |doing| ==> !doing[i].Serving? && !(doing[i].Accepting? && doing[i].fd == fd)
  }

  /** This can happen in the callback, does not abort the program, and does these operations to the selector. */
  ghost predicate Does(run: seq<Happening>, c: Callback, doing: seq<Happening>, ops: seq<Op>) {
    Proper(c.slot, c.fd, c.direction, doing) && Run(run + doing).Running? && ops == OpsOfAll(run, doing)
  }

  /** The run after n callbacks. */
  function Upto(hs: seq<Happening>, doings: seq<seq<Happening>>, n: nat): seq<Happening>
    requires n <= |doings|
  {
    if n == 0 then hs else Upto(hs, doings, n - 1) + doings[n - 1]
  }

  ghost predicate AllDo(hs: seq<Happening>, calls: seq<Callback>, doings: seq<seq<Happening>>, script: seq<seq<Op>>) {
    && |calls| <= |doings| && |calls| <= |script|
    && forall i :: 0 <= i < |calls| ==> Does(Upto(hs, doings, i), calls[i], doings[i], script[i])
  }

  // ----- The sessions' events -----

  /** The events of sessions among what happens. */
  function Servings(hs: seq<Happening>): seq<(nat, Ready)> {
    if hs == [] then []
    else Servings(Front(hs)) + if Last(hs).Serving? then [(Last(hs).fd, Last(hs).kind)] else []
  }

  /** The sessions' callbacks among those made. */
  function SessionCalls(calls: seq<Callback>): seq<(nat, Ready)> {
    if calls == [] then []
    else
      var c := Last(calls);
      SessionCalls(Front(calls)) + if c.slot.handler == Some(SUSCRIPTIONS) then [(c.fd, KindOf(c.direction))] else []
  }

  lemma {:induction false} ServingsConcat(a: seq<Happening>, b: seq<Happening>)
    ensures Servings(a + b) == Servings(a) + Servings(b)
  {
    if b == [] {
      assert a + b == a;
      EmptyConcat(Servings(a));
    } else {
      FrontConcat(a, b);
      ServingsConcat(a, Front(b));
      Assoc(Servings(a), Servings(Front(b)), if Last(b).Serving? then [(Last(b).fd, Last(b).kind)] else []);
    }
  }

  lemma {:induction false} NoServings(hs: seq<Happening>)
    requires forall i :: 0 <= i < |hs| ==> !hs[i].Serving?
    ensures Servings(hs) == []
  {
    if hs != [] {
      NoServings(Front(hs));
    }
  }

  /** Sessions' callbacks get their own session. */
  predicate OwnData(calls: seq<Callback>) {
    forall i :: 0 <= i < |calls| && calls[i].slot.handler == Some(SUSCRIPTIONS) ==> calls[i].data == calls[i].slot.data
  }

  lemma DoingServes(slot: Item, fd: nat, direction: Direction, doing: seq<Happening>)
    requires Proper(slot, fd, direction, doing)
    ensures Servings(doing) == if slot.handler == Some(SUSCRIPTIONS) then [(fd, KindOf(direction))] else []
  {
    if slot.handler == Some(SUSCRIPTIONS) {
      assert doing == [doing[0]] && Front(doing) == [];
    } else {
      NoServings(doing);
    }
  }

  /** The entries that a step leaves: one more at most, on a descriptor that was nobody's. */
  lemma ServedEntries(p: Program, s: nat, e: ProxySession.Event, st': Session, socket: nat)
    requires Tidy(p.table) && s in p.histories && s in p.world.sessions && SessionRuns.After(p.histories[s]).Some?
    ensures var p', st := Served(p, s, e, StateOf(p, s), st', socket), StateOf(p, s);
            p'.world.entries ==
              if st.state <= RESOLV_CONNECTION && e.io.Connecting? then p.world.entries[socket := s] else p.world.entries
  {
  }

  /** No session has been given the slot that did not have it. */
  predicate GivesNot(p: Program, p': Program, fd: nat) {
    fd in p'.world.entries ==> fd in p.world.entries && p'.world.entries[fd] == p.world.entries[fd]
  }

  /** What happens gives a session a slot only if it was nobody's. */
  lemma ServingGives(p: Program, h: Happening, fd: nat)
    requires WholeProgram.Inv(p) && h.Serving? && CanHappen(p, h) && Happen(p, h).Some? && Used(p.table, fd)
    ensures GivesNot(p, Happen(p, h).value, fd)
  {
    var s := p.table.items[h.fd].data;
    var st, x := StateOf(p, s), p.world.sessions[s];
    RipeIsReported(p, h.fd, h.kind);
    var e := ProxySession.Event(SideOf(x, h.fd), h.kind, h.io);
    var st' := ProxySession.Step(st, e);
    ServedEntries(p, s, e, st', h.socket);
    var p' := Served(p, s, e, st, st', h.socket);
    if st'.state == ERROR {
      L.FinishEntries(p'.world, s);
    }
  }

  lemma OthersGive(p: Program, h: Happening, fd: nat)
    requires WholeProgram.Inv(p) && CanHappen(p, h) && Happen(p, h).Some?
    requires !h.Serving? && (h.Accepting? ==> h.fd != fd)
    ensures GivesNot(p, Happen(p, h).value, fd)
  {
    if h.Accepting? {
      AcceptedWorld(p, h.fd, h.memory);
    }
  }

  lemma HappeningGives(p: Program, h: Happening, fd: nat)
    requires WholeProgram.Inv(p) && CanHappen(p, h) && Happen(p, h).Some?
    requires h.Serving? ==> Used(p.table, fd)
    requires h.Accepting? ==> h.fd != fd
    ensures GivesNot(p, Happen(p, h).value, fd)
  {
    if h.Serving? {
      ServingGives(p, h, fd);
    } else {
      OthersGive(p, h, fd);
    }
  }

  /** A callback leaves its own descriptor open, and is one event where it is a session's. */
  lemma ProperLeaves(slot: Item, fd: nat, direction: Direction, doing: seq<Happening>)
    requires Proper(slot, fd, direction, doing)
    ensures Leaves(doing, fd)
  {
  }

  predicate Leaves(doing: seq<Happening>, fd: nat) {
    && (forall i :: 0 <= i < |doing| && doing[i].Accepting? ==> doing[i].fd != fd)
    && (|doing| > 1 ==> forall i :: 0 <= i < |doing| ==> !doing[i].Serving?)
  }

  /** A session's slot has been the session's before. */
  lemma {:induction false} SlotStaysSessions(hs: seq<Happening>, doing: seq<Happening>, fd: nat, p: Program, p': Program)
    requires Run(hs) == Running(p) && Run(hs + doing) == Running(p') && Used(p.table, fd) && Leaves(doing, fd)
    ensures GivesNot(p, p', fd)
    decreases |doing|
  {
    if doing == [] {
      EmptyConcat(hs);
    } else {
      FrontRuns(hs, doing);
      var q := Run(hs + Front(doing)).program;
      SlotStaysSessions(hs, Front(doing), fd, p, q);
      if |doing| == 1 {
        assert Front(doing) == [];
        EmptyConcat(hs);
      }
      HappeningGives(q, Last(doing), fd);
    }
  }

  /** The entry of a slot is its data. */
  lemma EntryOfSlot(p: Program, fd: nat)
    requires WholeProgram.Inv(p) && fd < |p.table.items|
    ensures HoldsSession(p.table, fd) ==> fd in p.world.entries && p.world.entries[fd] == p.table.items[fd].data
    ensures fd in p.world.entries ==> HoldsSession(p.table, fd)
  {
    assert fd in Entries(p.table) <==> HoldsSession(p.table, fd);
  }

  /** What a callback has done leaves its slot the same session's, if any's. */
  lemma SlotKeepsData(hs: seq<Happening>, doing: seq<Happening>, fd: nat, p: Program, p': Program)
    requires Run(hs) == Running(p) && Run(hs + doing) == Running(p') && Used(p.table, fd) && Leaves(doing, fd)
    requires HoldsSession(p'.table, fd)
    ensures HoldsSession(p.table, fd) && p'.table.items[fd].data == p.table.items[fd].data
  {
    WholeProgram.RunKeeps(hs);
    WholeProgram.RunKeeps(hs + doing);
    SlotStaysSessions(hs, doing, fd, p, p');
    EntryOfSlot(p, fd);
    EntryOfSlot(p', fd);
  }

  // ----- A pass -----

  ghost predicate Stands(run: seq<Happening>, t: Table) {
    FullTable(run) && Run(run).program.table == t
  }

  /** Others than sessions lack a callback. */
  ghost predicate OthersLack(t: Table) {
    exists d: Direction, fd: nat :: Used(t, fd) && !HasCallback(t.items[fd], d) && t.items[fd].handler != Some(SUSCRIPTIONS)
  }

  /** The table is that of the run after as many callbacks as have been made. */
  ghost predicate InStep(hs: seq<Happening>, doings: seq<seq<Happening>>, script: seq<seq<Op>>, p: Pass) {
    && |p.calls| <= |doings| && |p.calls| <= |script| && p.script == script[|p.calls|..]
    && Stands(Upto(hs, doings, |p.calls|), p.table)
    && OwnData(p.calls) && (p.aborted ==> OthersLack(p.table))
  }

  lemma DoneOps(run: seq<Happening>, t: Table, c: Callback, doing: seq<Happening>, ops: seq<Op>)
    requires Stands(run, t) && Does(run, c, doing, ops)
    ensures Stands(run + doing, ApplyAll(t, ops))
  {
    RunsFull(run + doing);
    OpsOfDoing(run, doing);
  }

  lemma InvokeNext(p: Pass, n: nat, script: seq<seq<Op>>, direction: Direction, fd: nat, data: nat)
    requires Tidy(p.table) && !p.aborted && fd < |p.table.items| && HasCallback(p.table.items[fd], direction)
    requires n < |script| && p.script == script[n..]
    ensures Invoke(p, direction, fd, data) ==
            Pass(ApplyAll(p.table, script[n]), p.calls + [Callback(direction, fd, data, p.table.items[fd])], script[n + 1..], false)
  {
    assert script[n..][0] == script[n] && script[n..][1..] == script[n + 1..];
  }

  lemma DoesNext(hs: seq<Happening>, calls: seq<Callback>, c: Callback, doings: seq<seq<Happening>>, script: seq<seq<Op>>)
    requires AllDo(hs, calls + [c], doings, script)
    ensures |calls| < |doings| && |calls| < |script|
    ensures Does(Upto(hs, doings, |calls|), c, doings[|calls|], script[|calls|])
  {
    assert (calls + [c])[|calls|] == c;
  }

  /** One callback, by what it does. */
  lemma StepInStep(hs: seq<Happening>, doings: seq<seq<Happening>>, script: seq<seq<Op>>, p: Pass, c: Callback)
    requires InStep(hs, doings, script, p) && !p.aborted && Tidy(p.table) && |p.calls| < |doings| && |p.calls| < |script|
    requires c.slot.handler == Some(SUSCRIPTIONS) ==> c.data == c.slot.data
    requires Does(Upto(hs, doings, |p.calls|), c, doings[|p.calls|], script[|p.calls|])
    ensures var n := |p.calls|;
            InStep(hs, doings, script, Pass(ApplyAll(p.table, script[n]), p.calls + [c], script[n + 1..], false))
  {
    var n := |p.calls|;
    DoneOps(Upto(hs, doings, n), p.table, c, doings[n], script[n]);
    OwnDataPush(p.calls, c);
    NextUpto(hs, doings, n);
    NowInStep(hs, doings, script, ApplyAll(p.table, script[n]), p.calls + [c]);
  }

  lemma NowInStep(hs: seq<Happening>, doings: seq<seq<Happening>>, script: seq<seq<Op>>, t: Table, calls: seq<Callback>)
    requires |calls| <= |doings| && |calls| <= |script| && Stands(Upto(hs, doings, |calls|), t) && OwnData(calls)
    ensures InStep(hs, doings, script, Pass(t, calls, script[|calls|..], false))
  {
  }

  lemma OwnDataPush(calls: seq<Callback>, c: Callback)
    requires OwnData(calls) && (c.slot.handler == Some(SUSCRIPTIONS) ==> c.data == c.slot.data)
    ensures OwnData(calls + [c])
  {
  }

  lemma NextUpto(hs: seq<Happening>, doings: seq<seq<Happening>>, n: nat)
    requires n < |doings|
    ensures Upto(hs, doings, n + 1) == Upto(hs, doings, n) + doings[n]
  {
  }

  lemma InvokeInStep(hs: seq<Happening>, doings: seq<seq<Happening>>, script: seq<seq<Op>>, p: Pass,
                     direction: Direction, fd: nat, data: nat)
    requires InStep(hs, doings, script, p) && !p.aborted && Tidy(p.table) && fd < |p.table.items| && Used(p.table, fd)
    requires p.table.items[fd].handler == Some(SUSCRIPTIONS) ==> data == p.table.items[fd].data
    requires AllDo(hs, Invoke(p, direction, fd, data).calls, doings, script)
    ensures InStep(hs, doings, script, Invoke(p, direction, fd, data))
  {
    var slot := p.table.items[fd];
    if HasCallback(slot, direction) {
      var c := Callback(direction, fd, data, slot);
      DoesNext(hs, p.calls, c, doings, script);
      InvokeNext(p, |p.calls|, script, direction, fd, data);
      StepInStep(hs, doings, script, p, c);
    } else {
      InvokeLacks(hs, doings, script, p, direction, fd, data);
    }
  }

  lemma InvokeLacks(hs: seq<Happening>, doings: seq<seq<Happening>>, script: seq<seq<Op>>, p: Pass,
                    direction: Direction, fd: nat, data: nat)
    requires InStep(hs, doings, script, p) && !p.aborted && Tidy(p.table) && fd < |p.table.items| && Used(p.table, fd)
    requires !HasCallback(p.table.items[fd], direction)
    ensures InStep(hs, doings, script, Invoke(p, direction, fd, data))
  {
    assert p.table.items[fd].handler != Some(SUSCRIPTIONS);
  }

  /** The calls that have been made are those of what is done. */
  lemma AllDoEarlier(hs: seq<Happening>, early: seq<Callback>, calls: seq<Callback>, doings: seq<seq<Happening>>, script: seq<seq<Op>>)
    requires AllDo(hs, calls, doings, script) && early <= calls
    ensures AllDo(hs, early, doings, script)
  {
  }

  /** After reading, the data read before is still that of the slot, if it is a session's. */
  lemma ReadKeepsData(hs: seq<Happening>, doings: seq<seq<Happening>>, script: seq<seq<Op>>, p: Pass, fd: nat)
    requires InStep(hs, doings, script, p) && !p.aborted && Tidy(p.table) && fd < |p.table.items| && Used(p.table, fd)
    requires HasCallback(p.table.items[fd], Reading)
    requires AllDo(hs, p.calls + [Callback(Reading, fd, p.table.items[fd].data, p.table.items[fd])], doings, script)
    ensures var t' := Invoke(p, Reading, fd, p.table.items[fd].data).table;
            HoldsSession(t', fd) ==> t'.items[fd].data == p.table.items[fd].data
  {
    var slot, n := p.table.items[fd], |p.calls|;
    var c := Callback(Reading, fd, slot.data, slot);
    DoesNext(hs, p.calls, c, doings, script);
    InvokeNext(p, n, script, Reading, fd, slot.data);
    var run := Upto(hs, doings, n);
    DoneOps(run, p.table, c, doings[n], script[n]);
    ProperLeaves(slot, fd, Reading, doings[n]);
    if HoldsSession(ApplyAll(p.table, script[n]), fd) {
      SlotKeepsData(run, doings[n], fd, Run(run).program, Run(run + doings[n]).program);
    }
  }

  /** A slot that asks for something is in use. */
  lemma AskingIsUsed(t: Table, fd: nat)
    requires Tidy(t) && fd < |t.items| && t.items[fd].interest != OP_NOOP
    ensures Used(t, fd)
  {
  }

  lemma SlotInStep(hs: seq<Happening>, doings: seq<seq<Happening>>, script: seq<seq<Op>>, p: Pass,
                   fd: nat, slave_r: set<nat>, slave_w: set<nat>)
    requires InStep(hs, doings, script, p) && Tidy(p.table) && fd < |p.table.items|
    requires AllDo(hs, VisitSlot(p, fd, slave_r, slave_w).calls, doings, script)
    ensures InStep(hs, doings, script, VisitSlot(p, fd, slave_r, slave_w))
  {
    if !p.aborted && Used(p.table, fd) {
      var slot := p.table.items[fd];
      var p' := p;
      if fd in slave_r && slot.interest.read {
        p' := Invoke(p, Reading, fd, slot.data);
        AllDoEarlier(hs, p'.calls, VisitSlot(p, fd, slave_r, slave_w).calls, doings, script);
        InvokeInStep(hs, doings, script, p, Reading, fd, slot.data);
        if !p'.aborted {
          ReadKeepsData(hs, doings, script, p, fd);
        }
      }
      if !p'.aborted && fd in slave_w && p'.table.items[fd].interest.write {
        AskingIsUsed(p'.table, fd);
        InvokeInStep(hs, doings, script, p', Writing, fd, slot.data);
      }
    }
  }

  /** What each slot keeps, the pass keeps. */
  lemma {:induction false} VisitKeeps(good: Pass -> bool, p: Pass, k: nat, slave_r: set<nat>, slave_w: set<nat>)
    requires Tidy(p.table) && k <= |p.table.items| && good(p)
    requires forall q: Pass, fd: nat ::
               Tidy(q.table) && fd < |q.table.items| && good(q) ==> good(VisitSlot(q, fd, slave_r, slave_w))
    ensures good(Visit(p, k, slave_r, slave_w))
    decreases k
  {
    if k > 0 {
      VisitKeeps(good, p, k - 1, slave_r, slave_w);
    }
  }

  /** In step, if what its callbacks have done is what they did. */
  ghost predicate Keeps(hs: seq<Happening>, doings: seq<seq<Happening>>, script: seq<seq<Op>>, p: Pass) {
    AllDo(hs, p.calls, doings, script) ==> InStep(hs, doings, script, p)
  }

  lemma SlotKeeps(hs: seq<Happening>, doings: seq<seq<Happening>>, script: seq<seq<Op>>, p: Pass,
                  fd: nat, slave_r: set<nat>, slave_w: set<nat>)
    requires Keeps(hs, doings, script, p) && Tidy(p.table) && fd < |p.table.items|
    ensures Keeps(hs, doings, script, VisitSlot(p, fd, slave_r, slave_w))
  {
    var calls := VisitSlot(p, fd, slave_r, slave_w).calls;
    assert p.calls <= calls;
    if AllDo(hs, calls, doings, script) {
      AllDoEarlier(hs, p.calls, calls, doings, script);
      SlotInStep(hs, doings, script, p, fd, slave_r, slave_w);
    }
  }

  lemma PassInStep(hs: seq<Happening>, doings: seq<seq<Happening>>, script: seq<seq<Op>>, p: Pass,
                   k: nat, slave_r: set<nat>, slave_w: set<nat>)
    requires InStep(hs, doings, script, p) && Tidy(p.table) && k <= |p.table.items|
    ensures Keeps(hs, doings, script, Visit(p, k, slave_r, slave_w))
  {
    forall q: Pass, fd: nat | Tidy(q.table) && fd < |q.table.items| && Keeps(hs, doings, script, q)
      ensures Keeps(hs, doings, script, VisitSlot(q, fd, slave_r, slave_w))
    {
      SlotKeeps(hs, doings, script, q, fd, slave_r, slave_w);
    }
    VisitKeeps(q => Keeps(hs, doings, script, q), p, k, slave_r, slave_w);
  }

  // ----- Passes are runs -----

  lemma DoingsGo(hs: seq<Happening>, doings: seq<seq<Happening>>, n: nat)
    requires n <= |doings|
    ensures hs <= Upto(hs, doings, n)
  {
    if n > 0 {
      DoingsGo(hs, doings, n - 1);
    }
  }

  lemma CallsPushed(a: seq<(nat, Ready)>, run: seq<Happening>, calls: seq<Callback>, doing: seq<Happening>, c: Callback)
    requires Servings(run) == a + SessionCalls(calls) && Proper(c.slot, c.fd, c.direction, doing)
    ensures Servings(run + doing) == a + SessionCalls(calls + [c])
  {
    DoingServes(c.slot, c.fd, c.direction, doing);
    ServingsConcat(run, doing);
    assert Front(calls + [c]) == calls;
    Assoc(a, SessionCalls(calls), Servings(doing));
  }

  /** The sessions' events are the calls made of them. */
  lemma {:induction false} DoingsServe(hs: seq<Happening>, doings: seq<seq<Happening>>, calls: seq<Callback>)
    requires |calls| <= |doings|
    requires forall i :: 0 <= i < |calls| ==> Proper(calls[i].slot, calls[i].fd, calls[i].direction, doings[i])
    ensures Servings(Upto(hs, doings, |calls|)) == Servings(hs) + SessionCalls(calls)
    decreases |calls|
  {
    if calls == [] {
      EmptyConcat(Servings(hs));
    } else {
      var early, c := Front(calls), Last(calls);
      FrontLast(calls);
      DoingsServe(hs, doings, early);
      CallsPushed(Servings(hs), Upto(hs, doings, |early|), early, doings[|early|], c);
    }
  }

  lemma ServedSince(hs: seq<Happening>, run: seq<Happening>, calls: seq<Callback>)
    requires hs <= run && Servings(run) == Servings(hs) + SessionCalls(calls)
    ensures Servings(run[|hs|..]) == SessionCalls(calls)
  {
    assert run == hs + run[|hs|..];
    ServingsConcat(hs, run[|hs|..]);
    var a := Servings(hs);
    assert (a + SessionCalls(calls))[|a|..] == SessionCalls(calls);
    assert (a + Servings(run[|hs|..]))[|a|..] == Servings(run[|hs|..]);
  }

  /**
   * A pass of the selector over the table of a run continues the run: the sessions' callbacks it makes, each with its own session,
   * are in their order the events of sessions in it, and the table is left as the run leaves it. A callback is lacking of others only.
   */
  lemma PassIsRun(hs: seq<Happening>, doings: seq<seq<Happening>>, script: seq<seq<Op>>, n: nat, slave_r: set<nat>, slave_w: set<nat>)
    requires Run(hs).Running? && n <= CAPACITY
    ensures FullTable(hs)
    ensures var r := Visit(Pass(Run(hs).program.table, [], script, false), n, slave_r, slave_w);
            AllDo(hs, r.calls, doings, script) ==>
              var run := Upto(hs, doings, |r.calls|);
              && hs <= run && Run(run).Running? && Run(run).program.table == r.table
              && Servings(run[|hs|..]) == SessionCalls(r.calls) && OwnData(r.calls)
              && (r.aborted ==> OthersLack(r.table))
  {
    RunsFull(hs);
    var p := Pass(Run(hs).program.table, [], script, false);
    var r := Visit(p, n, slave_r, slave_w);
    assert script[0..] == script;
    PassInStep(hs, doings, script, p, n, slave_r, slave_w);
    if AllDo(hs, r.calls, doings, script) {
      var run := Upto(hs, doings, |r.calls|);
      DoingsGo(hs, doings, |r.calls|);
      DoingsServe(hs, doings, r.calls);
      ServedSince(hs, run, r.calls);
    }
  }

  // ----- There is always something a session's callback can do -----

  function AnyIo(st: Session): Io {
    if st.state <= RESOLV_CONNECTION then NotConnecting(false)
    else if st.state == ESTABL_CONNECTION then Connected
    else if st.state == GREETING_SREAD || st.state == COMMAND_CREAD || st.state == RESPONSE_SREAD || st.state == DOT_DATA_SREAD
    then NotReceived(false)
    else NotSent
  }

  lemma AnyIoIsPossible(st: Session)
    requires st.state < UPDATE && st.state != PIPE_DREAM
    ensures Possible(st, AnyIo(st)) && !AtOnce(st, AnyIo(st))
  {
  }

  /** A callback of a session that is due can do something: it aborts the program exactly if the greeting has been lost. */
  lemma CallbackGoesOn(hs: seq<Happening>, fd: nat, direction: Direction) returns (h: Happening)
    requires FullTable(hs) && fd < CAPACITY && HoldsSession(Run(hs).program.table, fd)
    requires var interest := Run(hs).program.table.items[fd].interest;
             if direction.Reading? then interest.read else interest.write
    ensures Proper(Run(hs).program.table.items[fd], fd, direction, [h])
    ensures var s := Run(hs).program.table.items[fd].data;
            && s in Run(hs).program.histories
            && (Run(hs + [h]).Running? <==> !SessionAborts.GreetingLost(Run(hs).program.histories[s]))
            && (Run(hs + [h]) == Aborted <==> SessionAborts.GreetingLost(Run(hs).program.histories[s]))
  {
    WholeProgram.RunKeeps(hs);
    var p := Run(hs).program;
    SlotIsSessions(p, fd);
    var s := p.table.items[fd].data;
    var st := StateOf(p, s);
    h := Serving(fd, KindOf(direction), AnyIo(st), 0);
    Answers(p, fd, h);
    assert Fatal(p, h) <==> SessionAborts.GreetingLost(p.histories[s]);
    RunAborts(hs, h);
  }

  lemma Answers(p: Program, fd: nat, h: Happening)
    requires WholeProgram.Inv(p) && HoldsSession(p.table, fd) && p.table.items[fd].data in p.histories
    requires h.Serving? && h.fd == fd && h.io == AnyIo(StateOf(p, p.table.items[fd].data))
    requires match h.kind
             case OnRead => p.table.items[fd].interest.read
             case OnWrite => p.table.items[fd].interest.write
             case OnBlock => false
    ensures CanHappen(p, h) && !AtOnce(StateOf(p, p.table.items[fd].data), h.io)
  {
    var s := p.table.items[fd].data;
    assert SessionTied(p, s);
    RunStates(p.histories[s]);
    AnyIoIsPossible(StateOf(p, s));
  }

  /** No run comes to PIPE_DREAM. */
  lemma {:induction false} RunStates(events: seq<ProxySession.Event>)
    requires SessionRuns.After(events).Some?
    ensures SessionRuns.After(events).value.state != PIPE_DREAM
  {
    if events != [] {
      RunStates(Front(events));
      var e, before := Last(events), SessionRuns.After(Front(events)).value;
      SessionAborts.HandlerAnswers(before, e);
    }
  }
}
