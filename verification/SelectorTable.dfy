/** The descriptor table of the selector as a value: its operations, invariants, runs and dispatch (selector.c). */
module SelectorTable {
  import opened Bytes
  import opened Options
  import opened Capacity

  /** OP_READ and OP_WRITE, on or off. */
  datatype Interest = Interest(read: bool, write: bool)

  const OP_NOOP := Interest(false, false)

  /** A handler: which one it is, and which callbacks it has. */
  datatype FdHandler = FdHandler(id: nat, read: bool, write: bool, block: bool, close: bool)

  datatype Item = Item(fd: int, interest: Interest, handler: Option<FdHandler>, data: nat)

  const FD_UNUSED: int := -1

  /** What memset and item_init leave. */
  const BLANK := Item(FD_UNUSED, OP_NOOP, None, 0)

  datatype Status = Success | ENoMem | MaxFd | IArgs | FdInUse

  datatype Table = Table(items: seq<Item>, max_fd: nat, master_r: set<nat>, master_w: set<nat>)

  predicate InvalidFd(fd: int) { fd < 0 || fd >= ITEMS_MAX_SIZE }

  predicate Used(t: Table, fd: nat) {
    fd < |t.items| && t.items[fd].fd != FD_UNUSED
  }

  // ----- What the table keeps -----

  /** max_fd is the largest descriptor in use, or 0. */
  predicate MaxIsLargest(t: Table) {
    && (forall fd :: 0 <= fd < |t.items| && Used(t, fd) ==> fd <= t.max_fd)
    && (t.max_fd == 0 || Used(t, t.max_fd))
  }

  predicate SlotsAgree(t: Table) {
    forall fd :: 0 <= fd < |t.items| ==> t.items[fd].fd == FD_UNUSED || t.items[fd].fd == fd
  }

  /** The sets for select() are what the slots say. */
  ghost predicate SetsAgree(t: Table) {
    && (forall fd: nat :: fd in t.master_r <==> Used(t, fd) && t.items[fd].interest.read)
    && (forall fd: nat :: fd in t.master_w <==> Used(t, fd) && t.items[fd].interest.write)
  }

  predicate Sized(t: Table) {
    t.max_fd < |t.items|
  }

  /** Unused slots ask for nothing. */
  predicate UnusedAreQuiet(t: Table) {
    forall fd :: 0 <= fd < |t.items| && !Used(t, fd) ==> t.items[fd].interest == OP_NOOP
  }

  ghost predicate Inv(t: Table) {
    SlotsAgree(t) && MaxIsLargest(t) && SetsAgree(t)
  }

  // ----- Operations -----

  /** FD_CLR, then FD_SET for what the slot is interested in. */
  function UpdateSets(t: Table, fd: nat): Table
    requires fd < |t.items|
  {
    var item := t.items[fd];
    var used := item.fd != FD_UNUSED;
    t.(master_r := t.master_r - {fd} + (if used && item.interest.read then {fd} else {}),
       master_w := t.master_w - {fd} + (if used && item.interest.write then {fd} else {}))
  }

  /** The largest descriptor in use among the first n slots, or 0. */
  function Largest(items: seq<Item>, n: nat): (r: nat)
    requires n <= |items|
  {
    if n == 0 then 0
    else if items[n - 1].fd > Largest(items, n - 1) then items[n - 1].fd
    else Largest(items, n - 1)
  }

  /** Registration in a slot that exists. */
  function Register(t: Table, fd: int, handler: Option<FdHandler>, interest: Interest, data: nat): (Table, Status)
    requires !InvalidFd(fd) ==> fd < |t.items|
  {
    if InvalidFd(fd) || handler.None? then (t, IArgs)
    else if Used(t, fd) then (t, FdInUse)
    else
      var t' := t.(items := t.items[fd := Item(fd, interest, handler, data)],
                   max_fd := if fd > t.max_fd then fd else t.max_fd);
      (UpdateSets(t', fd), Success)
  }

  function SetInterest(t: Table, fd: int, interest: Interest): (Table, Status)
    requires !InvalidFd(fd) ==> fd < |t.items|
  {
    if InvalidFd(fd) || !Used(t, fd) then (t, IArgs)
    else (UpdateSets(t.(items := t.items[fd := t.items[fd].(interest := interest)]), fd), Success)
  }

  function Unregister(t: Table, fd: int): (Table, Status)
    requires !InvalidFd(fd) ==> fd < |t.items|
    requires t.max_fd < |t.items|
  {
    if InvalidFd(fd) || !Used(t, fd) then (t, IArgs)
    else
      var quiet := UpdateSets(t.(items := t.items[fd := t.items[fd].(interest := OP_NOOP)]), fd);
      var items := quiet.items[fd := BLANK];
      (quiet.(items := items, max_fd := Largest(items, t.max_fd + 1)), Success)
  }

  datatype Op =
    | DoRegister(fd: int, handler: Option<FdHandler>, interest: Interest, data: nat)
    | DoUnregister(fd: int)
    | DoSetInterest(fd: int, interest: Interest)

  /** A table with a slot for every descriptor there can be, as selector_new(1024) makes it. */
  predicate Roomy(t: Table) {
    |t.items| >= ITEMS_MAX_SIZE && Sized(t)
  }

  function Apply(t: Table, op: Op): (r: Table)
    requires Roomy(t)
    ensures |r.items| == |t.items|
  {
    match op
    case DoRegister(fd, handler, interest, data) => Register(t, fd, handler, interest, data).0
    case DoUnregister(fd) => Unregister(t, fd).0
    case DoSetInterest(fd, interest) => SetInterest(t, fd, interest).0
  }

  const CAPACITY := 1025

  function New(): Table {
    Table(seq(CAPACITY, _ => BLANK), 0, {}, {})
  }

  // ----- Every run -----

  lemma {:induction false} LargestIsLargest(items: seq<Item>, n: nat)
    requires n <= |items|
    requires forall fd :: 0 <= fd < n ==> items[fd].fd == FD_UNUSED || items[fd].fd == fd
    ensures forall fd :: 0 <= fd < n && items[fd].fd != FD_UNUSED ==> fd <= Largest(items, n)
    ensures Largest(items, n) == 0 || (Largest(items, n) < n && items[Largest(items, n)].fd != FD_UNUSED)
  {
    if n > 0 {
      LargestIsLargest(items, n - 1);
    }
  }

  lemma RegisterKeeps(t: Table, fd: int, handler: Option<FdHandler>, interest: Interest, data: nat)
    requires Inv(t) && Sized(t) && (!InvalidFd(fd) ==> fd < |t.items|)
    ensures var t' := Register(t, fd, handler, interest, data).0;
            Inv(t') && Sized(t') && (UnusedAreQuiet(t) ==> UnusedAreQuiet(t'))
  {
    var t' := Register(t, fd, handler, interest, data).0;
    assert forall i: nat :: i < |t.items| && i != fd ==> t'.items[i] == t.items[i];
    assert forall i: nat :: i != fd ==> (Used(t', i) <==> Used(t, i));
  }

  lemma SetInterestKeeps(t: Table, fd: int, interest: Interest)
    requires Inv(t) && Sized(t) && (!InvalidFd(fd) ==> fd < |t.items|)
    ensures var t' := SetInterest(t, fd, interest).0;
            Inv(t') && Sized(t') && (UnusedAreQuiet(t) ==> UnusedAreQuiet(t'))
  {
    var t' := SetInterest(t, fd, interest).0;
    assert forall i: nat :: i < |t.items| && i != fd ==> t'.items[i] == t.items[i];
    assert forall i: nat :: i != fd ==> (Used(t', i) <==> Used(t, i));
  }

  lemma UnregisterKeeps(t: Table, fd: int)
    requires Inv(t) && Sized(t) && (!InvalidFd(fd) ==> fd < |t.items|)
    ensures var t' := Unregister(t, fd).0;
            Inv(t') && Sized(t') && (UnusedAreQuiet(t) ==> UnusedAreQuiet(t'))
  {
    var t' := Unregister(t, fd).0;
    if !InvalidFd(fd) && Used(t, fd) {
      assert forall i: nat :: i < |t.items| && i != fd ==> t'.items[i] == t.items[i];
      assert forall i: nat :: i != fd ==> (Used(t', i) <==> Used(t, i));
      assert t'.items[fd] == BLANK;
      LargestIsLargest(t'.items, t.max_fd + 1);
    }
  }

  /** g is t with more slots, more than n of them, and the new ones unused; whatever else memory has left in them. */
  predicate Grows(t: Table, g: Table, n: nat) {
    && g == t.(items := g.items) && t.items <= g.items && |g.items| > n
    && forall fd :: |t.items| <= fd < |g.items| ==> g.items[fd].fd == FD_UNUSED
  }

  lemma GrownKeeps(t: Table, g: Table, n: nat)
    requires Inv(t) && Sized(t) && Grows(t, g, n)
    ensures Inv(g) && Sized(g)
  {
    assert forall fd: nat :: fd < |t.items| ==> g.items[fd] == t.items[fd];
    assert forall fd: nat :: Used(g, fd) <==> Used(t, fd);
  }

  lemma ApplyKeeps(t: Table, op: Op)
    requires Inv(t) && Roomy(t)
    ensures Inv(Apply(t, op)) && Roomy(Apply(t, op))
    ensures UnusedAreQuiet(t) ==> UnusedAreQuiet(Apply(t, op))
  {
    match op
    case DoRegister(fd, handler, interest, data) => RegisterKeeps(t, fd, handler, interest, data);
    case DoUnregister(fd) => UnregisterKeeps(t, fd);
    case DoSetInterest(fd, interest) => SetInterestKeeps(t, fd, interest);
  }

  /** What of the invariant it takes to go on: slots for all, each its own descriptor's, and the unused ones quiet. */
  predicate Tidy(t: Table) {
    Roomy(t) && SlotsAgree(t) && UnusedAreQuiet(t)
  }

  lemma ApplyTidy(t: Table, op: Op)
    requires Tidy(t)
    ensures Tidy(Apply(t, op))
  {
    var t' := Apply(t, op);
    match op
    case DoUnregister(fd) =>
      if !InvalidFd(fd) && Used(t, fd) {
        assert forall i: nat :: i < |t.items| && i != fd ==> t'.items[i] == t.items[i];
        LargestIsLargest(t'.items, t.max_fd + 1);
      }
    case _ =>
  }

  /** Any number of operations, one after another. */
  function ApplyAll(t: Table, ops: seq<Op>): (r: Table)
    requires Tidy(t)
    ensures Tidy(r) && |r.items| == |t.items|
  {
    if ops == [] then t
    else
      var before := ApplyAll(t, Front(ops));
      ApplyTidy(before, Last(ops));
      Apply(before, Last(ops))
  }

  lemma {:induction false} ApplyAllKeeps(t: Table, ops: seq<Op>)
    requires Inv(t) && Tidy(t)
    ensures Inv(ApplyAll(t, ops))
  {
    if ops != [] {
      ApplyAllKeeps(t, Front(ops));
      ApplyKeeps(ApplyAll(t, Front(ops)), Last(ops));
    }
  }

  lemma NewKeeps()
    ensures Inv(New()) && Tidy(New())
  {
  }

  /** Whatever a program does with a new selector, table, largest descriptor and select sets agree. */
  lemma RunKeeps(ops: seq<Op>)
    ensures Inv(New()) && Tidy(New())
    ensures var t := ApplyAll(New(), ops);
            && Inv(t) && UnusedAreQuiet(t)
            && (forall fd: nat :: Used(t, fd) ==> t.items[fd].fd == fd <= t.max_fd)
  {
    NewKeeps();
    ApplyAllKeeps(New(), ops);
  }

  // ----- Dispatch: one pass over the slots, with callbacks free to change the table -----

  datatype Direction = Reading | Writing

  /** A callback that ran: for which descriptor, with which data, and the slot as it was then. */
  datatype Callback = Callback(direction: Direction, fd: nat, data: nat, slot: Item)

  predicate HasCallback(slot: Item, direction: Direction) {
    slot.handler.Some? &&
    match direction
    case Reading => slot.handler.value.read
    case Writing => slot.handler.value.write
  }

  /** The table, the callbacks that ran, what the callbacks still to come will do to the table, and whether the program has been aborted. */
  datatype Pass = Pass(table: Table, calls: seq<Callback>, script: seq<seq<Op>>, aborted: bool)

  /** The slot's callback, or an abort where it has none. */
  function Invoke(p: Pass, direction: Direction, fd: nat, data: nat): (r: Pass)
    requires Tidy(p.table) && !p.aborted && fd < |p.table.items|
    ensures Tidy(r.table) && |r.table.items| == |p.table.items|
    ensures r.aborted <==> !HasCallback(p.table.items[fd], direction)
    ensures r.calls == if r.aborted then p.calls else p.calls + [Callback(direction, fd, data, p.table.items[fd])]
  {
    var call := Callback(direction, fd, data, p.table.items[fd]);
    if !HasCallback(p.table.items[fd], direction) then p.(aborted := true)
    else if p.script == [] then p.(calls := p.calls + [call])
    else Pass(ApplyAll(p.table, p.script[0]), p.calls + [call], p.script[1..], false)
  }

  /** What handle_iteration does for one slot; the data is read once, before the first callback. */
  function VisitSlot(p: Pass, fd: nat, slave_r: set<nat>, slave_w: set<nat>): (r: Pass)
    requires Tidy(p.table) && fd < |p.table.items|
    ensures Tidy(r.table) && |r.table.items| == |p.table.items|
  {
    if p.aborted || !Used(p.table, fd) then p
    else
      var data := p.table.items[fd].data;
      var p' := if fd in slave_r && p.table.items[fd].interest.read then Invoke(p, Reading, fd, data) else p;
      if !p'.aborted && fd in slave_w && p'.table.items[fd].interest.write then Invoke(p', Writing, fd, data) else p'
  }

  /** The slots below k. */
  function Visit(p: Pass, k: nat, slave_r: set<nat>, slave_w: set<nat>): (r: Pass)
    requires Tidy(p.table) && k <= |p.table.items|
    ensures Tidy(r.table) && |r.table.items| == |p.table.items|
  {
    if k == 0 then p else VisitSlot(Visit(p, k - 1, slave_r, slave_w), k - 1, slave_r, slave_w)
  }

  /** The callback is due: its slot is in use, has it, asks for it now, and select() reported the descriptor. */
  predicate Due(c: Callback, slave_r: set<nat>, slave_w: set<nat>) {
    && c.slot.fd == c.fd && HasCallback(c.slot, c.direction)
    && match c.direction
       case Reading => c.slot.interest.read && c.fd in slave_r && c.data == c.slot.data
       case Writing => c.slot.interest.write && c.fd in slave_w
  }

  /** By descriptor, and for one descriptor reading before writing. */
  predicate Before(a: Callback, b: Callback) {
    a.fd < b.fd || (a.fd == b.fd && a.direction.Reading? && b.direction.Writing?)
  }

  predicate InOrder(calls: seq<Callback>) {
    forall i, j :: 0 <= i < j < |calls| ==> Before(calls[i], calls[j])
  }

  /** A writing callback may get data that is not its slot's any more only right after the reading one of that slot. */
  predicate DataIsFresh(calls: seq<Callback>) {
    forall i :: 0 <= i < |calls| && calls[i].data != calls[i].slot.data ==>
      && i > 0 && calls[i - 1].fd == calls[i].fd
      && calls[i - 1].direction.Reading? && calls[i].direction.Writing?
  }

  predicate Safe(calls: seq<Callback>, k: nat, slave_r: set<nat>, slave_w: set<nat>) {
    && (forall i :: 0 <= i < |calls| ==> Due(calls[i], slave_r, slave_w) && calls[i].fd < k)
    && InOrder(calls)
    && DataIsFresh(calls)
  }

  lemma SafePush(calls: seq<Callback>, c: Callback, k: nat, slave_r: set<nat>, slave_w: set<nat>)
    requires Safe(calls, k, slave_r, slave_w)
    requires Due(c, slave_r, slave_w) && c.fd < k
    requires calls != [] ==> Before(Last(calls), c)
    requires c.data == c.slot.data ||
             (calls != [] && Last(calls).fd == c.fd && Last(calls).direction.Reading? && c.direction.Writing?)
    ensures Safe(calls + [c], k, slave_r, slave_w)
  {
    var all := calls + [c];
    forall i, j | 0 <= i < j < |all|
      ensures Before(all[i], all[j])
    {
      if j == |calls| && i < |calls| - 1 {
        assert Before(calls[i], Last(calls));
      }
    }
  }

  lemma VisitSlotSafe(p: Pass, fd: nat, slave_r: set<nat>, slave_w: set<nat>)
    requires Tidy(p.table) && fd < |p.table.items|
    requires Safe(p.calls, fd, slave_r, slave_w)
    ensures Safe(VisitSlot(p, fd, slave_r, slave_w).calls, fd + 1, slave_r, slave_w)
  {
    assert Safe(p.calls, fd + 1, slave_r, slave_w);
    if !p.aborted && Used(p.table, fd) {
      var data := p.table.items[fd].data;
      var asks := fd in slave_r && p.table.items[fd].interest.read;
      var p' := if asks then Invoke(p, Reading, fd, data) else p;
      if asks && !p'.aborted {
        SafePush(p.calls, Last(p'.calls), fd + 1, slave_r, slave_w);
      }
      if !p'.aborted && fd in slave_w && p'.table.items[fd].interest.write && HasCallback(p'.table.items[fd], Writing) {
        assert Used(p'.table, fd);
        SafePush(p'.calls, Callback(Writing, fd, data, p'.table.items[fd]), fd + 1, slave_r, slave_w);
      }
    }
  }

  /** Once aborted, nothing more happens. */
  lemma {:induction false} VisitAborted(p: Pass, k: nat, n: nat, slave_r: set<nat>, slave_w: set<nat>)
    requires Tidy(p.table) && k <= n <= |p.table.items| && Visit(p, k, slave_r, slave_w).aborted
    ensures Visit(p, n, slave_r, slave_w) == Visit(p, k, slave_r, slave_w)
  {
    if k < n {
      VisitAborted(p, k, n - 1, slave_r, slave_w);
    }
  }

  /** Whatever the callbacks do to the table, one pass calls only what is due, each callback at most once. */
  lemma {:induction false} DispatchSafe(p: Pass, k: nat, slave_r: set<nat>, slave_w: set<nat>)
    requires Tidy(p.table) && k <= |p.table.items| && p.calls == []
    ensures Safe(Visit(p, k, slave_r, slave_w).calls, k, slave_r, slave_w)
  {
    if k > 0 {
      DispatchSafe(p, k - 1, slave_r, slave_w);
      var before := Visit(p, k - 1, slave_r, slave_w);
      VisitSlotSafe(before, k - 1, slave_r, slave_w);
      assert Visit(p, k, slave_r, slave_w) == VisitSlot(before, k - 1, slave_r, slave_w);
    }
  }

  predicate Calls(calls: seq<Callback>, direction: Direction, fd: nat) {
    exists i :: 0 <= i < |calls| && calls[i].direction == direction && calls[i].fd == fd
  }

  /** What a pass over the slots below k has to call. */
  predicate Wanted(t: Table, k: nat, direction: Direction, fd: nat, slave_r: set<nat>, slave_w: set<nat>) {
    && fd < k && Used(t, fd)
    && match direction
       case Reading => t.items[fd].interest.read && fd in slave_r
       case Writing => t.items[fd].interest.write && fd in slave_w
  }

  ghost predicate CallsAllWanted(calls: seq<Callback>, t: Table, k: nat, slave_r: set<nat>, slave_w: set<nat>) {
    forall d: Direction, fd: nat :: Calls(calls, d, fd) <==> Wanted(t, k, d, fd, slave_r, slave_w)
  }

  lemma CallsPush(calls: seq<Callback>, c: Callback)
    ensures forall d: Direction, fd: nat ::
              Calls(calls + [c], d, fd) <==> Calls(calls, d, fd) || (c.direction == d && c.fd == fd)
  {
    var all := calls + [c];
    forall d: Direction, fd: nat
      ensures Calls(all, d, fd) <==> Calls(calls, d, fd) || (c.direction == d && c.fd == fd)
    {
      if Calls(calls, d, fd) {
        var i :| 0 <= i < |calls| && calls[i].direction == d && calls[i].fd == fd;
        assert all[i] == calls[i];
      }
      assert all[|calls|] == c;
    }
  }

  /** Some callback wanted below k is not there. */
  ghost predicate Lacks(t: Table, k: nat, slave_r: set<nat>, slave_w: set<nat>) {
    exists d: Direction, fd: nat :: Wanted(t, k, d, fd, slave_r, slave_w) && !HasCallback(t.items[fd], d)
  }

  lemma LacksNext(t: Table, fd: nat, slave_r: set<nat>, slave_w: set<nat>)
    requires fd < |t.items|
    ensures Lacks(t, fd + 1, slave_r, slave_w) <==>
            || Lacks(t, fd, slave_r, slave_w)
            || (exists d: Direction :: Wanted(t, fd + 1, d, fd, slave_r, slave_w) && !HasCallback(t.items[fd], d))
  {
    assert forall d: Direction, n: nat :: n < fd ==>
        (Wanted(t, fd, d, n, slave_r, slave_w) <==> Wanted(t, fd + 1, d, n, slave_r, slave_w));
  }

  /** The state of a pass over a table that no callback changes: all that is wanted has been called, or something is lacking. */
  ghost predicate Visited(r: Pass, t: Table, k: nat, slave_r: set<nat>, slave_w: set<nat>) {
    && r.table == t && r.script == []
    && (r.aborted <==> Lacks(t, k, slave_r, slave_w))
    && (!r.aborted ==> CallsAllWanted(r.calls, t, k, slave_r, slave_w))
  }

  lemma VisitSlotComplete(p: Pass, fd: nat, slave_r: set<nat>, slave_w: set<nat>)
    requires Tidy(p.table) && fd < |p.table.items|
    requires Visited(p, p.table, fd, slave_r, slave_w)
    ensures Visited(VisitSlot(p, fd, slave_r, slave_w), p.table, fd + 1, slave_r, slave_w)
  {
    LacksNext(p.table, fd, slave_r, slave_w);
    if !p.aborted && Used(p.table, fd) {
      var item := p.table.items[fd];
      var asks := fd in slave_r && item.interest.read;
      var p' := if asks then Invoke(p, Reading, fd, item.data) else p;
      CallsPush(p.calls, Callback(Reading, fd, item.data, item));
      CallsPush(p'.calls, Callback(Writing, fd, item.data, item));
    }
  }

  /**
   * With callbacks that leave the table alone, the program is aborted exactly if something wanted is lacking,
   * and otherwise all that is wanted is called, and nothing else.
   */
  lemma {:induction false} DispatchComplete(p: Pass, k: nat, slave_r: set<nat>, slave_w: set<nat>)
    requires Tidy(p.table) && k <= |p.table.items| && p.calls == [] && p.script == [] && !p.aborted
    ensures Visited(Visit(p, k, slave_r, slave_w), p.table, k, slave_r, slave_w)
  {
    if k > 0 {
      DispatchComplete(p, k - 1, slave_r, slave_w);
      VisitSlotComplete(Visit(p, k - 1, slave_r, slave_w), k - 1, slave_r, slave_w);
    }
  }

  // ----- Handlers that have both callbacks -----

  predicate Able(handler: Option<FdHandler>) {
    handler.Some? && handler.value.read && handler.value.write
  }

  predicate AllAble(t: Table) {
    forall fd :: 0 <= fd < |t.items| && Used(t, fd) ==> Able(t.items[fd].handler)
  }

  /** Nothing is registered with less. */
  predicate AbleOps(ops: seq<Op>) {
    forall i :: 0 <= i < |ops| && ops[i].DoRegister? && ops[i].handler.Some? ==> Able(ops[i].handler)
  }

  predicate AbleScript(script: seq<seq<Op>>) {
    forall i :: 0 <= i < |script| ==> AbleOps(script[i])
  }

  lemma ApplyAble(t: Table, op: Op)
    requires Tidy(t) && AllAble(t) && AbleOps([op])
    ensures AllAble(Apply(t, op))
  {
    assert [op][0] == op;
    var t' := Apply(t, op);
    forall fd | 0 <= fd < |t'.items| && Used(t', fd)
      ensures Able(t'.items[fd].handler)
    {
      assert Used(t, fd) || t'.items[fd] != t.items[fd];
    }
  }

  lemma {:induction false} ApplyAllAble(t: Table, ops: seq<Op>)
    requires Tidy(t) && AllAble(t) && AbleOps(ops)
    ensures AllAble(ApplyAll(t, ops))
  {
    if ops != [] {
      ApplyAllAble(t, Front(ops));
      assert AbleOps([Last(ops)]) by {
        assert ops[|ops| - 1] == Last(ops);
      }
      ApplyAble(ApplyAll(t, Front(ops)), Last(ops));
    }
  }

  ghost predicate AblePass(p: Pass) {
    Tidy(p.table) && !p.aborted && AllAble(p.table) && AbleScript(p.script)
  }

  lemma InvokeAble(p: Pass, direction: Direction, fd: nat, data: nat)
    requires AblePass(p) && fd < |p.table.items| && Used(p.table, fd)
    ensures AblePass(Invoke(p, direction, fd, data))
  {
    if p.script != [] {
      ApplyAllAble(p.table, p.script[0]);
    }
  }

  lemma VisitSlotAble(p: Pass, fd: nat, slave_r: set<nat>, slave_w: set<nat>)
    requires AblePass(p) && fd < |p.table.items|
    ensures AblePass(VisitSlot(p, fd, slave_r, slave_w))
  {
    if Used(p.table, fd) {
      var data := p.table.items[fd].data;
      var asks := fd in slave_r && p.table.items[fd].interest.read;
      var p' := if asks then Invoke(p, Reading, fd, data) else p;
      if asks {
        InvokeAble(p, Reading, fd, data);
      }
      if fd in slave_w && p'.table.items[fd].interest.write {
        assert Used(p'.table, fd);
        InvokeAble(p', Writing, fd, data);
      }
    }
  }

  /** Where all handlers have both callbacks, and only such are registered, no pass aborts, whatever else its callbacks do. */
  lemma {:induction false} DispatchNeverAborts(p: Pass, k: nat, slave_r: set<nat>, slave_w: set<nat>)
    requires AblePass(p) && k <= |p.table.items|
    ensures AblePass(Visit(p, k, slave_r, slave_w))
  {
    if k > 0 {
      DispatchNeverAborts(p, k - 1, slave_r, slave_w);
      VisitSlotAble(Visit(p, k - 1, slave_r, slave_w), k - 1, slave_r, slave_w);
    }
  }
}
