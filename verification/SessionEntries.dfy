/** The sessions' entries are slots of the selector's table (selector.c, pop3_client_nio.c). */
module SessionEntries {
  import opened Bytes
  import opened Options
  import opened Capacity
  import opened SelectorTable
  import opened Selectors
  import L = SessionLifetime

  /** suscriptions_handler */
  const SUSCRIPTIONS := FdHandler(0, true, true, true, true)

  /** The slot is in use, for a session; its data says which. */
  predicate HoldsSession(t: Table, fd: nat) {
    Used(t, fd) && t.items[fd].handler == Some(SUSCRIPTIONS)
  }

  function Entries(t: Table): map<nat, nat> {
    map fd: nat | fd < |t.items| && HoldsSession(t, fd) :: t.items[fd].data
  }

  /** The selector's table holds the sessions where the world has them. */
  predicate Matches(t: Table, w: L.World<nat>) {
    Entries(t) == w.entries
  }

  // ----- One operation -----

  lemma RegisterEntries(t: Table, fd: nat, interest: Interest, s: nat)
    requires fd < ITEMS_MAX_SIZE && fd < |t.items| && !Used(t, fd)
    ensures Entries(Register(t, fd, Some(SUSCRIPTIONS), interest, s).0) == Entries(t)[fd := s]
  {
    var t' := Register(t, fd, Some(SUSCRIPTIONS), interest, s).0;
    assert forall n: nat :: n < |t.items| && n != fd ==> t'.items[n] == t.items[n];
  }

  lemma UnregisterEntries(t: Table, fd: nat)
    requires fd < ITEMS_MAX_SIZE && fd < |t.items| && t.max_fd < |t.items|
    ensures Entries(Unregister(t, fd).0) == Entries(t) - {fd}
  {
    var t' := Unregister(t, fd).0;
    assert forall n: nat :: n < |t.items| && n != fd ==> t'.items[n] == t.items[n];
  }

  lemma SetInterestEntries(t: Table, fd: nat, interest: Interest)
    requires fd < ITEMS_MAX_SIZE && fd < |t.items|
    ensures Entries(SelectorTable.SetInterest(t, fd, interest).0) == Entries(t)
  {
    var t' := SelectorTable.SetInterest(t, fd, interest).0;
    assert forall n: nat :: n < |t.items| && n != fd ==> t'.items[n] == t.items[n];
  }

  /** A session's references are the slots in use for it. */
  lemma ReferencesCountSlots(t: Table, w: L.World<nat>, s: nat)
    requires Matches(t, w) && L.Inv(w) && s in w.sessions
    ensures w.sessions[s].references == |set fd: nat | fd < |t.items| && HoldsSession(t, fd) && t.items[fd].data == s|
  {
    assert L.Holders(w.entries, s) == set fd: nat | fd < |t.items| && HoldsSession(t, fd) && t.items[fd].data == s;
  }

  /** Unregistering a session's descriptor: the close callback is made with its session, which then is one reference short, or goes back. */
  method HangUp(selector: Selector, fd: nat, ghost w: L.World<nat>) returns (ret: Status, ghost w': L.World<nat>)
    requires selector.Sound() && fd < ITEMS_MAX_SIZE && fd < selector.fd_size
    requires Matches(selector.Abs(), w) && L.Inv(w) && fd in w.entries
    modifies selector`max_fd, selector`master_r, selector`master_w, selector`closed, selector.fds
    ensures selector.Sound() && ret == Success
    ensures selector.closed == old(selector.closed) + [(fd, w.entries[fd])]
    ensures w' == L.Destroy(w, w.entries[fd]).(entries := w'.entries)
    ensures Matches(selector.Abs(), w') && L.Inv(w') && w' == L.Unregister(w, fd)
  {
    ghost var t := selector.Abs();
    assert fd in Entries(t);
    UnregisterEntries(t, fd);
    L.UnregisterKeeps(w, fd);
    ret := selector.UnregisterFd(fd);
    w' := L.Unregister(w, fd);
  }

  // ----- Operations on the sessions' slots, one by one and in pairs -----

  predicate SessionsInRange(t: Table) {
    forall fd :: 0 <= fd < |t.items| && HoldsSession(t, fd) ==> fd < ITEMS_MAX_SIZE
  }

  predicate SameBut(t: Table, t': Table, fds: set<int>) {
    && |t'.items| == |t.items|
    && forall n :: 0 <= n < |t.items| && n !in fds ==> t'.items[n] == t.items[n]
  }

  predicate Shows(t: Table, fd: int, i: Interest) {
    0 <= fd < |t.items| && t.items[fd].interest == i
  }

  predicate Orderly(t: Table) {
    Tidy(t) && SessionsInRange(t)
  }

  lemma InRangeStill(t: Table, t': Table, fd: nat)
    requires SessionsInRange(t) && SameBut(t, t', {fd}) && fd < ITEMS_MAX_SIZE
    ensures SessionsInRange(t')
  {
    forall n | 0 <= n < |t'.items| && HoldsSession(t', n)
      ensures n < ITEMS_MAX_SIZE
    {
      assert n != fd ==> HoldsSession(t, n);
    }
  }

  lemma SetSlot(t: Table, fd: nat, i: Interest)
    requires Orderly(t) && fd in Entries(t)
    ensures var t' := Apply(t, DoSetInterest(fd, i));
            && Orderly(t') && Entries(t') == Entries(t) && SameBut(t, t', {fd}) && Shows(t', fd, i)
            && SelectorTable.SetInterest(t, fd, i).1 == Success
  {
    ApplyTidy(t, DoSetInterest(fd, i));
    SetInterestEntries(t, fd, i);
    InRangeStill(t, Apply(t, DoSetInterest(fd, i)), fd);
  }

  lemma TakeSlot(t: Table, fd: nat, i: Interest, s: nat)
    requires Orderly(t) && fd < ITEMS_MAX_SIZE && !Used(t, fd)
    ensures var t' := Apply(t, DoRegister(fd, Some(SUSCRIPTIONS), i, s));
            && Orderly(t') && Entries(t') == Entries(t)[fd := s] && SameBut(t, t', {fd}) && Shows(t', fd, i)
            && Register(t, fd, Some(SUSCRIPTIONS), i, s).1 == Success
  {
    ApplyTidy(t, DoRegister(fd, Some(SUSCRIPTIONS), i, s));
    RegisterEntries(t, fd, i, s);
    InRangeStill(t, Apply(t, DoRegister(fd, Some(SUSCRIPTIONS), i, s)), fd);
  }

  lemma LeaveSlot(t: Table, fd: nat)
    requires Orderly(t) && fd in Entries(t)
    ensures var t' := Apply(t, DoUnregister(fd));
            && Orderly(t') && Entries(t') == Entries(t) - {fd} && SameBut(t, t', {fd})
            && Unregister(t, fd).1 == Success
  {
    ApplyTidy(t, DoUnregister(fd));
    UnregisterEntries(t, fd);
    InRangeStill(t, Apply(t, DoUnregister(fd)), fd);
  }

  lemma OneOp(t: Table, op: Op)
    requires Tidy(t)
    ensures ApplyAll(t, [op]) == Apply(t, op)
  {
    assert Front([op]) == [] && ApplyAll(t, []) == t;
  }

  lemma TwoOps(t: Table, a: Op, b: Op)
    requires Tidy(t)
    ensures Tidy(Apply(t, a)) && ApplyAll(t, [a, b]) == Apply(Apply(t, a), b)
  {
    assert Front([a, b]) == [a];
    OneOp(t, a);
    ApplyTidy(t, a);
  }
}
