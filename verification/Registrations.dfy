/** The selector's table as what it stands for: who is registered for which descriptor, and for what (selector.c). */
module Registrations {
  import opened Bytes
  import opened Options
  import opened SelectorTable

  datatype Entry = Entry(interest: Interest, handler: Option<FdHandler>, data: nat)

  type Entries = map<nat, Entry>

  /** The slots in use are those of the descriptors registered, and say what is registered for them. */
  ghost predicate Stands(t: Table, m: Entries) {
    && (forall fd: nat :: fd in m <==> Used(t, fd))
    && (forall fd: nat :: fd in m ==> m[fd] == Entry(t.items[fd].interest, t.items[fd].handler, t.items[fd].data))
  }

  predicate Named(fd: int) { 0 <= fd < 1024 }

  /** Registering takes a descriptor that is free; the others, one that is taken. Whatever fails changes nothing. */
  function Do(m: Entries, op: Op): (Entries, Status) {
    match op
    case DoRegister(fd, handler, interest, data) =>
      if !Named(fd) || handler.None? then (m, IArgs)
      else if fd in m then (m, FdInUse)
      else (m[fd as nat := Entry(interest, handler, data)], Success)
    case DoUnregister(fd) => if Named(fd) && fd in m then (m - {fd}, Success) else (m, IArgs)
    case DoSetInterest(fd, interest) =>
      if Named(fd) && fd in m then (m[fd as nat := m[fd].(interest := interest)], Success) else (m, IArgs)
  }

  function DoAll(ops: seq<Op>): Entries {
    if ops == [] then map[] else Do(DoAll(Front(ops)), Last(ops)).0
  }

  /** What the table's operations answer. */
  function Answer(t: Table, op: Op): Status
    requires Roomy(t)
  {
    match op
    case DoRegister(fd, handler, interest, data) => Register(t, fd, handler, interest, data).1
    case DoUnregister(fd) => Unregister(t, fd).1
    case DoSetInterest(fd, interest) => SetInterest(t, fd, interest).1
  }

  lemma RegisterIsDo(t: Table, m: Entries, fd: int, handler: Option<FdHandler>, interest: Interest, data: nat)
    requires Tidy(t) && Stands(t, m)
    ensures var r, d := Register(t, fd, handler, interest, data), Do(m, DoRegister(fd, handler, interest, data));
            Stands(r.0, d.0) && r.1 == d.1
  {
    var t' := Register(t, fd, handler, interest, data).0;
    assert forall n: nat :: n < |t.items| && n != fd ==> t'.items[n] == t.items[n];
  }

  lemma UnregisterIsDo(t: Table, m: Entries, fd: int)
    requires Tidy(t) && Stands(t, m)
    ensures var r, d := Unregister(t, fd), Do(m, DoUnregister(fd));
            Stands(r.0, d.0) && r.1 == d.1
  {
    var t' := Unregister(t, fd).0;
    assert forall n: nat :: n < |t.items| && n != fd ==> t'.items[n] == t.items[n];
  }

  lemma SetInterestIsDo(t: Table, m: Entries, fd: int, interest: Interest)
    requires Tidy(t) && Stands(t, m)
    ensures var r, d := SetInterest(t, fd, interest), Do(m, DoSetInterest(fd, interest));
            Stands(r.0, d.0) && r.1 == d.1
  {
    var t' := SetInterest(t, fd, interest).0;
    assert forall n: nat :: n < |t.items| && n != fd ==> t'.items[n] == t.items[n];
  }

  /** One operation on the table is that operation on what it stands for. */
  lemma ApplyIsDo(t: Table, m: Entries, op: Op)
    requires Tidy(t) && Stands(t, m)
    ensures Stands(Apply(t, op), Do(m, op).0) && Answer(t, op) == Do(m, op).1
  {
    match op
    case DoRegister(fd, handler, interest, data) => RegisterIsDo(t, m, fd, handler, interest, data);
    case DoUnregister(fd) => UnregisterIsDo(t, m, fd);
    case DoSetInterest(fd, interest) => SetInterestIsDo(t, m, fd, interest);
  }

  /** The greatest of the descriptors registered, or 0. */
  predicate Greatest(m: Entries, max_fd: nat) {
    && (forall fd :: fd in m ==> fd <= max_fd)
    && (max_fd == 0 || max_fd in m)
  }

  /**
   * After any operations on a new selector the table stands for what is registered then; select() is asked for just the
   * descriptors whose entries say so, and max_fd is the greatest of all.
   */
  lemma {:induction false} RunIsRegistrations(ops: seq<Op>)
    ensures var t, m := ApplyAll(New(), ops), DoAll(ops);
            && Stands(t, m) && Greatest(m, t.max_fd)
            && (forall fd: nat :: fd in t.master_r <==> fd in m && m[fd].interest.read)
            && (forall fd: nat :: fd in t.master_w <==> fd in m && m[fd].interest.write)
  {
    RunKeeps(ops);
    if ops != [] {
      RunIsRegistrations(Front(ops));
      ApplyIsDo(ApplyAll(New(), Front(ops)), DoAll(Front(ops)), Last(ops));
    }
  }

  /** And the next operation answers as it does on what is registered. */
  lemma RunAnswers(ops: seq<Op>, op: Op)
    ensures Answer(ApplyAll(New(), ops), op) == Do(DoAll(ops), op).1
  {
    RunIsRegistrations(ops);
    ApplyIsDo(ApplyAll(New(), ops), DoAll(ops), op);
  }
}
