/** How long a session lives: its references, the selector's entries and the pool (pop3_client_nio.c). */
module SessionLifetime {
  import opened Bytes
  import opened Options

  const MAX_POOL := 50

  const NO_FD := -1

  /** What counts here of a session in use. */
  datatype Struct = Struct(client_fd: int, origin_fd: int, references: int)

  /**
   * entries: which session each registered descriptor is for; sessions: those in use;
   * nodes: the list that pool heads; size: pool_size; made, freed: what malloc has given and free has had back;
   * reused: how often a session has been taken from the pool.
   */
  datatype World<S(==)> = World(
    entries: map<nat, S>,
    sessions: map<S, Struct>,
    nodes: seq<S>,
    size: nat,
    made: set<S>,
    freed: set<S>,
    reused: nat)

  /** The descriptors that a session is registered for. */
  function Holders<S(==)>(entries: map<nat, S>, s: S): set<nat> {
    set fd | fd in entries && entries[fd] == s
  }

  // ----- What the world keeps -----

  predicate Distinct<S(==)>(nodes: seq<S>) {
    forall i, j :: 0 <= i < j < |nodes| ==> nodes[i] != nodes[j]
  }

  /** Every struct made is in use, in the pool or freed, and only one of these. */
  ghost predicate Accounted<S>(w: World<S>) {
    && w.made == w.sessions.Keys + (set s | s in w.nodes) + w.freed
    && Distinct(w.nodes)
    && w.sessions.Keys !! w.freed
    && (forall s :: s in w.nodes ==> s !in w.sessions && s !in w.freed)
  }

  /** A session's references are the selector's entries that hold it. */
  ghost predicate Counted<S>(w: World<S>) {
    && (forall fd :: fd in w.entries ==> w.entries[fd] in w.sessions)
    && (forall s :: s in w.sessions ==> w.sessions[s].references == |Holders(w.entries, s)| > 0)
  }

  predicate Pooled<S(==)>(w: World<S>) {
    |w.nodes| + w.reused == w.size <= MAX_POOL
  }

  ghost predicate Inv<S>(w: World<S>) {
    Accounted(w) && Counted(w) && Pooled(w)
  }

  /** The session is registered for its client's descriptor, and for its origin's if anyone is. */
  ghost predicate WiredUp<S>(entries: map<nat, S>, s: S, x: Struct) {
    && 0 <= x.client_fd && NO_FD <= x.origin_fd && x.client_fd != x.origin_fd
    && forall fd: nat :: fd in Holders(entries, s) <==> fd == x.client_fd || (fd == x.origin_fd && fd in entries)
  }

  ghost predicate Wired<S>(w: World<S>) {
    forall s :: s in w.sessions ==> WiredUp(w.entries, s, w.sessions[s])
  }

  /** The session has a descriptor for its origin that nobody is registered for. */
  predicate Loose<S(==)>(w: World<S>, s: S)
    requires s in w.sessions
  {
    w.sessions[s].origin_fd >= 0 && w.sessions[s].origin_fd !in w.entries
  }

  // ----- Operations -----

  /** destroy_suscription */
  function Destroy<S(==)>(w: World<S>, s: S): World<S>
    requires s in w.sessions
  {
    var x := w.sessions[s];
    if x.references == 1 then
      var gone := w.(sessions := w.sessions - {s});
      if w.size < MAX_POOL then gone.(nodes := [s] + w.nodes, size := w.size + 1)
      else gone.(freed := w.freed + {s})
    else w.(sessions := w.sessions[s := x.(references := x.references - 1)])
  }

  /** selector_unregister_fd, whose close callback is close_suscription. */
  function Unregister<S(==)>(w: World<S>, fd: nat): World<S>
    requires fd in w.entries && w.entries[fd] in w.sessions
  {
    Destroy(w, w.entries[fd]).(entries := w.entries - {fd})
  }

  /** pop3_new; memory is what malloc gives where the pool is empty. */
  function New<S(==)>(w: World<S>, client_fd: nat, memory: Option<S>): (World<S>, Option<S>) {
    var x := Struct(client_fd, NO_FD, 1);
    if w.nodes != [] then
      var s := w.nodes[0];
      (w.(sessions := w.sessions[s := x], nodes := w.nodes[1..], reused := w.reused + 1), Some(s))
    else if memory.Some? then
      (w.(sessions := w.sessions[memory.value := x],
          made := w.made + {memory.value}, freed := w.freed - {memory.value}),
       memory)
    else (w, None)
  }

  /** pop3_passive_accept; registered tells whether the selector takes the descriptor. */
  function Accept<S(==)>(w: World<S>, fd: nat, memory: Option<S>, registered: bool): World<S> {
    var (w', s) := New(w, fd, memory);
    if s.None? then w'
    else if registered then w'.(entries := w'.entries[fd := s.value])
    else Destroy(w', s.value)
  }

  /**
   * What comes of a descriptor for the origin: it is closed again, registered, or left open because fcntl fails;
   * or connect() is done at once, and the program is aborted.
   */
  datatype Attempt = Failed | Registered(fd: nat) | LeftOpen(fd: nat) | AtOnce

  /** attempt_connection */
  function Connect<S(==)>(w: World<S>, s: S, attempt: Attempt): World<S>
    requires s in w.sessions && !attempt.AtOnce?
  {
    var x := w.sessions[s];
    match attempt
    case Failed => w.(sessions := w.sessions[s := x.(origin_fd := NO_FD)])
    case Registered(fd) =>
      w.(entries := w.entries[fd := s],
         sessions := w.sessions[s := x.(origin_fd := fd, references := x.references + 1)])
    case LeftOpen(fd) => w.(sessions := w.sessions[s := x.(origin_fd := fd)])
  }

  /** What finished_suscription does for one of the descriptors; None where it aborts. */
  function Close<S(==)>(w: World<S>, fd: int): Option<World<S>> {
    if fd == NO_FD then Some(w)
    else if fd < 0 || fd !in w.entries || w.entries[fd] !in w.sessions then None
    else Some(Unregister(w, fd))
  }

  function Finish<S(==)>(w: World<S>, s: S): Option<World<S>>
    requires s in w.sessions
  {
    var x := w.sessions[s];
    var w' := Close(w, x.client_fd);
    if w'.None? then None else Close(w'.value, x.origin_fd)
  }

  // ----- What each operation keeps -----

  lemma HoldersAdd<S>(entries: map<nat, S>, fd: nat, s: S, t: S)
    requires fd !in entries
    ensures Holders(entries[fd := s], t) == Holders(entries, t) + if s == t then {fd} else {}
    ensures |Holders(entries[fd := s], t)| == |Holders(entries, t)| + if s == t then 1 else 0
  {
    assert fd !in Holders(entries, t);
    assert Holders(entries[fd := s], t) == Holders(entries, t) + if s == t then {fd} else {};
  }

  lemma HoldersDrop<S>(entries: map<nat, S>, fd: nat, t: S)
    requires fd in entries
    ensures Holders(entries - {fd}, t) == Holders(entries, t) - {fd}
    ensures |Holders(entries - {fd}, t)| == |Holders(entries, t)| - if entries[fd] == t then 1 else 0
  {
    assert entries[fd] == t <==> fd in Holders(entries, t);
    assert Holders(entries - {fd}, t) == Holders(entries, t) - {fd};
  }

  lemma OnlyOne(holders: set<nat>, fd: nat)
    requires fd in holders
    ensures |holders| == 1 <==> holders == {fd}
  {
    assert |holders - {fd}| == |holders| - 1;
  }

  lemma UnregisterAccounts<S>(w: World<S>, fd: nat)
    requires Accounted(w) && fd in w.entries && w.entries[fd] in w.sessions
    ensures Accounted(Unregister(w, fd)) && Unregister(w, fd).made == w.made
  {
    var s, w' := w.entries[fd], Unregister(w, fd);
    if w'.nodes == [s] + w.nodes {
      assert forall t :: t in w'.nodes <==> t == s || t in w.nodes;
    }
    assert w'.made == w'.sessions.Keys + (set t | t in w'.nodes) + w'.freed;
  }

  lemma UnregisterCounts<S>(w: World<S>, fd: nat)
    requires Counted(w) && fd in w.entries
    ensures Counted(Unregister(w, fd))
    ensures w.entries[fd] !in Unregister(w, fd).sessions <==> Holders(w.entries, w.entries[fd]) == {fd}
  {
    var s, w' := w.entries[fd], Unregister(w, fd);
    OnlyOne(Holders(w.entries, s), fd);
    forall t | t in w.sessions
      ensures |Holders(w'.entries, t)| == |Holders(w.entries, t)| - if s == t then 1 else 0
    {
      HoldersDrop(w.entries, fd, t);
    }
    forall n | n in w'.entries
      ensures w'.entries[n] in w'.sessions
    {
      assert n in Holders(w.entries, w.entries[n]);
    }
  }

  /** One entry less: the session goes to the pool, or is freed, exactly if that was its last. */
  lemma UnregisterKeeps<S>(w: World<S>, fd: nat)
    requires Inv(w) && fd in w.entries
    ensures var s, w' := w.entries[fd], Unregister(w, fd);
            && Inv(w') && w'.made == w.made
            && (s !in w'.sessions <==> Holders(w.entries, s) == {fd})
            && w'.sessions - {s} == w.sessions - {s}
            && (if s in w'.sessions then w'.nodes == w.nodes && w'.freed == w.freed
                else if w.size < MAX_POOL then w'.nodes == [s] + w.nodes && w'.freed == w.freed
                else w'.nodes == w.nodes && w'.freed == w.freed + {s})
  {
    UnregisterAccounts(w, fd);
    UnregisterCounts(w, fd);
  }

  /** What malloc gives is not in use; it may well have been freed before. */
  predicate Fresh<S(==)>(w: World<S>, memory: Option<S>) {
    memory.Some? ==> memory.value !in w.sessions && memory.value !in w.nodes
  }

  /** A descriptor that is not open. */
  predicate NotOpen<S(==)>(w: World<S>, fd: nat) {
    fd !in w.entries && forall s :: s in w.sessions ==> w.sessions[s].origin_fd != fd
  }

  /** What pop3_new finds or gets is nowhere else. */
  lemma NewAccounts<S>(w: World<S>, fd: nat, memory: Option<S>)
    requires Accounted(w) && Pooled(w) && Fresh(w, memory)
    ensures var (w', s) := New(w, fd, memory);
            && Accounted(w') && Pooled(w') && w'.entries == w.entries
            && (s.Some? <==> w.nodes != [] || memory.Some?)
            && (s.None? ==> w' == w)
            && (s.Some? ==> s.value !in w.sessions && s.value !in w'.freed && s.value !in w'.nodes
                            && w'.sessions == w.sessions[s.value := Struct(fd, NO_FD, 1)])
  {
    var (w', s) := New(w, fd, memory);
    if w.nodes != [] {
      assert w.nodes[0] in w.nodes && w.nodes[0] !in w.freed;
      assert forall t :: t in w.nodes <==> t == w.nodes[0] || t in w.nodes[1..];
      assert w'.nodes == w.nodes[1..];
    }
    if s.Some? {
      assert s.value !in w.sessions && s.value !in w'.freed;
      assert w'.made == w'.sessions.Keys + (set t | t in w'.nodes) + w'.freed;
    }
  }

  /** Registering a session that has just got one more reference makes it count again. */
  lemma RegisterCounts<S>(w: World<S>, w': World<S>, fd: nat, s: S)
    requires Counted(w) && fd !in w.entries
    requires w'.entries == w.entries[fd := s]
    requires s in w'.sessions && w'.sessions.Keys == w.sessions.Keys + {s}
    requires forall t :: t in w.sessions && t != s ==> w'.sessions[t] == w.sessions[t]
    requires w'.sessions[s].references == if s in w.sessions then w.sessions[s].references + 1 else 1
    ensures Counted(w')
  {
    if s !in w.sessions {
      assert Holders(w.entries, s) == {};
    }
    forall t | t in w'.sessions
      ensures w'.sessions[t].references == |Holders(w'.entries, t)| > 0
    {
      HoldersAdd(w.entries, fd, s, t);
    }
  }

  lemma AcceptRegistered<S>(w: World<S>, fd: nat, memory: Option<S>)
    requires Inv(w) && fd !in w.entries && Fresh(w, memory)
    ensures Inv(Accept(w, fd, memory, true))
  {
    NewAccounts(w, fd, memory);
    var s := New(w, fd, memory).1;
    if s.Some? {
      RegisterCounts(w, Accept(w, fd, memory, true), fd, s.value);
    }
  }

  /** Refused by the selector, a session just made goes back, and the others see nothing of it. */
  lemma RefusedGoesBack<S>(w: World<S>, fd: nat, memory: Option<S>)
    requires Inv(w) && fd !in w.entries && Fresh(w, memory)
    ensures var w' := Accept(w, fd, memory, false);
            w'.entries == w.entries && w'.sessions == w.sessions && Accounted(w') && Pooled(w')
  {
    NewAccounts(w, fd, memory);
    var (w', s) := New(w, fd, memory);
    if s.Some? {
      assert w'.sessions - {s.value} == w.sessions;
      UnregisterAccounts(w'.(entries := w.entries[fd := s.value]), fd);
    }
  }

  lemma AcceptRefused<S>(w: World<S>, fd: nat, memory: Option<S>)
    requires Inv(w) && fd !in w.entries && Fresh(w, memory)
    ensures Inv(Accept(w, fd, memory, false))
  {
    RefusedGoesBack(w, fd, memory);
  }

  lemma AcceptWires<S>(w: World<S>, fd: nat, memory: Option<S>, registered: bool)
    requires Inv(w) && Wired(w) && NotOpen(w, fd) && Fresh(w, memory)
    ensures Wired(Accept(w, fd, memory, registered))
  {
    NewAccounts(w, fd, memory);
    var w' := Accept(w, fd, memory, registered);
    var s := New(w, fd, memory).1;
    if s.Some? && registered {
      assert Holders(w.entries, s.value) == {};
      forall t | t in w'.sessions
        ensures WiredUp(w'.entries, t, w'.sessions[t])
      {
        HoldersAdd(w.entries, fd, s.value, t);
        assert t != s.value ==> WiredUp(w.entries, t, w.sessions[t]);
      }
    } else if s.Some? {
      RefusedGoesBack(w, fd, memory);
    }
  }

  predicate CanAttempt<S(==)>(w: World<S>, attempt: Attempt) {
    attempt.Registered? || attempt.LeftOpen? ==> NotOpen(w, attempt.fd)
  }

  lemma ConnectKeeps<S>(w: World<S>, s: S, attempt: Attempt)
    requires Inv(w) && s in w.sessions && CanAttempt(w, attempt) && !attempt.AtOnce?
    ensures Inv(Connect(w, s, attempt))
  {
    var w' := Connect(w, s, attempt);
    assert w'.sessions.Keys == w.sessions.Keys;
    if attempt.Registered? {
      RegisterCounts(w, w', attempt.fd, s);
    }
  }

  /** One more descriptor registered for s, seen from any session. */
  lemma RegisterWired<S>(entries: map<nat, S>, fd: nat, s: S, t: S, x: Struct)
    requires fd !in entries && WiredUp(entries, t, x) && x.origin_fd != fd
    ensures t != s ==> WiredUp(entries[fd := s], t, x)
    ensures t == s && x.origin_fd == NO_FD ==>
              forall references :: WiredUp(entries[fd := s], s, Struct(x.client_fd, fd, references))
  {
    HoldersAdd(entries, fd, s, t);
    if 0 <= x.client_fd {
      assert x.client_fd as nat in Holders(entries, t);
    }
  }

  lemma ConnectWires<S>(w: World<S>, s: S, attempt: Attempt)
    requires Inv(w) && Wired(w) && s in w.sessions && w.sessions[s].origin_fd == NO_FD
    requires CanAttempt(w, attempt) && !attempt.AtOnce?
    ensures Wired(Connect(w, s, attempt))
  {
    var w' := Connect(w, s, attempt);
    forall t | t in w'.sessions
      ensures WiredUp(w'.entries, t, w'.sessions[t])
    {
      var x := w.sessions[t];
      assert WiredUp(w.entries, t, x);
      match attempt
      case Registered(fd) =>
        RegisterWired(w.entries, fd, s, t, x);
      case LeftOpen(fd) => assert x.client_fd as nat in Holders(w.entries, t);
      case Failed =>
    }
  }

  /** Where the holders are the descriptors known, unregistering one of another session's changes nothing for this one. */
  lemma UnregisterWires<S>(w: World<S>, fd: nat)
    requires Inv(w) && fd in w.entries
    ensures forall t :: t in w.sessions && t != w.entries[fd] ==>
              Holders(Unregister(w, fd).entries, t) == Holders(w.entries, t)
    ensures Holders(Unregister(w, fd).entries, w.entries[fd]) == Holders(w.entries, w.entries[fd]) - {fd}
  {
    forall t
      ensures Holders(Unregister(w, fd).entries, t) == Holders(w.entries, t) - {fd}
    {
      HoldersDrop(w.entries, fd, t);
    }
  }

  /** The pool, or free(), has got the session, and only that; the others are as they were. */
  ghost predicate Returned<S>(w: World<S>, w': World<S>, s: S) {
    && w'.sessions == w.sessions - {s} && w'.made == w.made
    && if w.size < MAX_POOL then w'.nodes == [s] + w.nodes && w'.freed == w.freed
       else w'.nodes == w.nodes && w'.freed == w.freed + {s}
  }

  /** What a session is registered for. */
  lemma HoldersOf<S>(w: World<S>, s: S)
    requires Wired(w) && s in w.sessions
    ensures var x := w.sessions[s];
            && x.client_fd >= 0 && x.client_fd in w.entries && w.entries[x.client_fd] == s
            && x.client_fd != x.origin_fd && NO_FD <= x.origin_fd
            && if x.origin_fd == NO_FD || Loose(w, s) then Holders(w.entries, s) == {x.client_fd as nat}
               else
                 && x.origin_fd in w.entries && w.entries[x.origin_fd] == s
                 && Holders(w.entries, s) == {x.client_fd as nat, x.origin_fd as nat}
  {
    var x, holders := w.sessions[s], Holders(w.entries, s);
    assert WiredUp(w.entries, s, x) && x.client_fd as nat in holders;
    if x.origin_fd != NO_FD && !Loose(w, s) {
      assert x.origin_fd as nat in holders;
    }
  }

  /** The first step of finishing is the last where the origin's descriptor is not registered. */
  lemma OnlyClosed<S>(w: World<S>, s: S)
    requires Inv(w) && Wired(w) && s in w.sessions && (w.sessions[s].origin_fd == NO_FD || Loose(w, s))
    ensures var x := w.sessions[s];
            && x.client_fd >= 0 && x.client_fd in w.entries && w.entries[x.client_fd] == s
            && var w1 := Unregister(w, x.client_fd);
               && Inv(w1) && Returned(w, w1, s)
               && (x.origin_fd >= 0 ==> x.origin_fd !in w1.entries)
  {
    HoldersOf(w, s);
    UnregisterKeeps(w, w.sessions[s].client_fd);
  }

  lemma OneOfTwo<S>(w: World<S>, c: nat, o: nat, s: S)
    requires Inv(w) && c in w.entries && w.entries[c] == s && o in w.entries && w.entries[o] == s
    requires c != o && Holders(w.entries, s) == {c, o}
    ensures var w1 := Unregister(w, c);
            && Inv(w1) && o in w1.entries && w1.entries[o] == s && Holders(w1.entries, s) == {o}
            && w1.sessions - {s} == w.sessions - {s} && w1.size == w.size && w1.made == w.made
            && w1.nodes == w.nodes && w1.freed == w.freed
  {
    assert Holders(w.entries, s) != {c} by {
      assert o in Holders(w.entries, s);
    }
    UnregisterKeeps(w, c);
    HoldersDrop(w.entries, c, s);
  }

  /** Otherwise it leaves the session to the second. */
  lemma FirstClosed<S>(w: World<S>, s: S)
    requires Inv(w) && Wired(w) && s in w.sessions && w.sessions[s].origin_fd != NO_FD && !Loose(w, s)
    ensures var x := w.sessions[s];
            && x.client_fd >= 0 && x.client_fd in w.entries && w.entries[x.client_fd] == s
            && var w1 := Unregister(w, x.client_fd);
               && Inv(w1)
               && x.origin_fd >= 0 && x.origin_fd in w1.entries && w1.entries[x.origin_fd] == s
               && Holders(w1.entries, s) == {x.origin_fd as nat}
               && w1.sessions - {s} == w.sessions - {s} && w1.size == w.size && w1.made == w.made
               && w1.nodes == w.nodes && w1.freed == w.freed
  {
    HoldersOf(w, s);
    OneOfTwo(w, w.sessions[s].client_fd, w.sessions[s].origin_fd, s);
  }

  /**
   * A session over: the program is aborted exactly if the origin's descriptor has been left open;
   * otherwise both are unregistered, and the struct goes back once, with the last of them.
   */
  lemma FinishReturns<S>(w: World<S>, s: S)
    requires Inv(w) && Wired(w) && s in w.sessions
    ensures Finish(w, s).None? <==> Loose(w, s)
    ensures !Loose(w, s) ==> Inv(Finish(w, s).value) && Returned(w, Finish(w, s).value, s)
  {
    var x := w.sessions[s];
    if x.origin_fd == NO_FD || Loose(w, s) {
      OnlyClosed(w, s);
    } else {
      FirstClosed(w, s);
      var w1 := Unregister(w, x.client_fd);
      UnregisterKeeps(w1, x.origin_fd);
      assert s !in Unregister(w1, x.origin_fd).sessions;
    }
  }

  /** The descriptors a session has. */
  function Own(x: Struct): set<int> {
    {x.client_fd} + if x.origin_fd == NO_FD then {} else {x.origin_fd}
  }

  /** The entries a session over leaves. */
  function EntriesWithout<S>(entries: map<nat, S>, x: Struct): map<nat, S> {
    entries - (if x.client_fd >= 0 then {x.client_fd as nat} else {}) - (if x.origin_fd >= 0 then {x.origin_fd as nat} else {})
  }

  lemma CloseEntries<S>(w: World<S>, fd: int)
    requires Close(w, fd).Some?
    ensures Close(w, fd).value.entries == w.entries - if fd >= 0 then {fd as nat} else {}
  {
  }

  lemma FinishEntries<S>(w: World<S>, s: S)
    requires s in w.sessions && Finish(w, s).Some?
    ensures Finish(w, s).value.entries == EntriesWithout(w.entries, w.sessions[s])
  {
    var x := w.sessions[s];
    CloseEntries(w, x.client_fd);
    CloseEntries(Close(w, x.client_fd).value, x.origin_fd);
  }

  lemma OthersKeepTheirs<S>(w: World<S>, s: S, t: S)
    requires Inv(w) && Wired(w) && s in w.sessions && !Loose(w, s) && t in w.sessions && t != s
    ensures Finish(w, s).Some? && Holders(Finish(w, s).value.entries, t) == Holders(w.entries, t)
    ensures Finish(w, s).value.entries.Keys <= w.entries.Keys
  {
    HoldersOf(w, s);
    var x := w.sessions[s];
    UnregisterWires(w, x.client_fd);
    if x.origin_fd == NO_FD {
      OnlyClosed(w, s);
    } else {
      FirstClosed(w, s);
      UnregisterWires(Unregister(w, x.client_fd), x.origin_fd);
    }
  }

  lemma FinishWires<S>(w: World<S>, s: S)
    requires Inv(w) && Wired(w) && s in w.sessions && !Loose(w, s)
    ensures Finish(w, s).Some? && Wired(Finish(w, s).value)
  {
    FinishReturns(w, s);
    var w' := Finish(w, s).value;
    forall t | t in w'.sessions
      ensures WiredUp(w'.entries, t, w'.sessions[t])
    {
      assert WiredUp(w.entries, t, w.sessions[t]);
      OthersKeepTheirs(w, s, t);
    }
  }

  // ----- Whole runs -----

  datatype Event<S> =
    | Accepted(fd: nat, memory: Option<S>, registered: bool)
    | Connecting(s: S, attempt: Attempt)
    | Finished(s: S)

  /** accept() and socket() give descriptors that are not open, and malloc memory that is not in use. */
  predicate Enabled<S(==)>(w: World<S>, e: Event<S>) {
    match e
    case Accepted(fd, memory, _) => NotOpen(w, fd) && Fresh(w, memory)
    case Connecting(s, attempt) =>
      s in w.sessions && w.sessions[s].origin_fd == NO_FD && CanAttempt(w, attempt)
    case Finished(s) => s in w.sessions
  }

  /** None where the program aborts. */
  function Step<S(==)>(w: World<S>, e: Event<S>): Option<World<S>>
    requires Enabled(w, e)
  {
    match e
    case Accepted(fd, memory, registered) => Some(Accept(w, fd, memory, registered))
    case Connecting(s, attempt) => if attempt.AtOnce? then None else Some(Connect(w, s, attempt))
    case Finished(s) => Finish(w, s)
  }

  function Start<S(==)>(): World<S> {
    World(map[], map[], [], 0, {}, {}, 0)
  }

  /** None if the events cannot come one after another, or the program has been aborted. */
  function After<S(==)>(events: seq<Event<S>>): Option<World<S>> {
    if events == [] then Some(Start())
    else
      var before := After(Front(events));
      if before.Some? && Enabled(before.value, Last(events)) then Step(before.value, Last(events)) else None
  }

  lemma StepKeeps<S>(w: World<S>, e: Event<S>)
    requires Inv(w) && Wired(w) && Enabled(w, e)
    ensures Step(w, e).None? <==> (e.Finished? && Loose(w, e.s)) || (e.Connecting? && e.attempt.AtOnce?)
    ensures Step(w, e).Some? ==> Inv(Step(w, e).value) && Wired(Step(w, e).value)
  {
    match e
    case Accepted(fd, memory, registered) =>
      AcceptRegistered(w, fd, memory);
      AcceptRefused(w, fd, memory);
      AcceptWires(w, fd, memory, registered);
    case Connecting(s, attempt) =>
      if !attempt.AtOnce? {
        ConnectKeeps(w, s, attempt);
        ConnectWires(w, s, attempt);
      }
    case Finished(s) =>
      FinishReturns(w, s);
      if !Loose(w, s) {
        FinishWires(w, s);
      }
  }

  /**
   * In every run of clients accepted, origins connected to and sessions finished, in any order:
   * references count the entries, and each struct is in one place.
   */
  lemma {:induction false} RunKeeps<S>(events: seq<Event<S>>)
    requires After(events).Some?
    ensures Inv(After(events).value) && Wired(After(events).value)
  {
    if events != [] {
      RunKeeps(Front(events));
      StepKeeps(After(Front(events)).value, Last(events));
    } else {
      assert Start<S>().made == Start<S>().sessions.Keys + (set t | t in Start<S>().nodes) + Start<S>().freed;
    }
  }

  /** Once no entry is left no session is: whatever malloc gave is in the pool or freed. */
  lemma NoEntriesNoSessions<S>(w: World<S>)
    requires Inv(w) && w.entries == map[]
    ensures w.sessions == map[] && w.made == (set s | s in w.nodes) + w.freed
  {
    forall s
      ensures Holders(w.entries, s) == {}
    {
    }
    assert w.sessions.Keys == {};
  }

  // ----- The pool's size -----

  /** pool_size is the pool's length only as long as nothing has ever been taken from it. */
  lemma SizeIsLength<S>(events: seq<Event<S>>)
    requires After(events).Some?
    ensures var w := After(events).value;
            |w.nodes| <= w.size <= 50 && (|w.nodes| == w.size <==> w.reused == 0)
  {
    RunKeeps(events);
  }

  /** The pool is a stack: the session that goes there last is the next to be taken, and malloc is not asked for it. */
  lemma LastGivenIsNext<S>(w: World<S>, fd: nat, next: nat, memory: Option<S>)
    requires Inv(w) && fd in w.entries && Holders(w.entries, w.entries[fd]) == {fd} && w.size < 50
    ensures var s, w' := w.entries[fd], Accept(Unregister(w, fd), next, memory, true);
            && w'.sessions == w.sessions[s := Struct(next, NO_FD, 1)] && w'.entries == (w.entries - {fd})[next := s]
            && w'.nodes == w.nodes && w'.made == w.made && w'.freed == w.freed
  {
    UnregisterKeeps(w, fd);
    var s, w1 := w.entries[fd], Unregister(w, fd);
    assert w1.sessions == w.sessions - {s};
    assert w1.nodes[1..] == w.nodes;
  }

  /** malloc is asked only where the pool is empty; where it has nothing either, nobody is accepted and nothing changes. */
  lemma MallocComesLast<S>(w: World<S>, fd: nat, memory: Option<S>)
    requires Inv(w) && Fresh(w, memory) && fd !in w.entries
    ensures var w' := Accept(w, fd, memory, true);
            && (w.nodes != [] ==> w'.made == w.made && w'.freed == w.freed && w'.sessions.Keys == w.sessions.Keys + {w.nodes[0]})
            && (w.nodes == [] ==> if memory.Some? then w'.sessions.Keys == w.sessions.Keys + {memory.value} && w'.nodes == []
                                  else w' == w)
  {
  }

  /** What a connection attempt leaves: a loose descriptor exactly if fcntl failed, one reference and entry more exactly if it goes on. */
  lemma ConnectLeaves<S>(w: World<S>, s: S, attempt: Attempt)
    requires s in w.sessions && CanAttempt(w, attempt) && !attempt.AtOnce? && w.sessions[s].origin_fd == NO_FD
    ensures var w' := Connect(w, s, attempt);
            && w'.sessions.Keys == w.sessions.Keys
            && (Loose(w', s) <==> attempt.LeftOpen?)
            && w'.sessions[s].references == w.sessions[s].references + (if attempt.Registered? then 1 else 0)
            && w'.entries == if attempt.Registered? then w.entries[attempt.fd := s] else w.entries
  {
  }

  predicate Shrinks<S(==)>(w: World<S>, w': World<S>) {
    w'.size == MAX_POOL && (w'.nodes == w.nodes || (w.nodes != [] && w'.nodes == w.nodes[1..]))
  }

  lemma AcceptAtMaximum<S>(w: World<S>, fd: nat, memory: Option<S>, registered: bool)
    requires w.size == MAX_POOL
    ensures Shrinks(w, Accept(w, fd, memory, registered))
  {
  }

  lemma CloseAtMaximum<S>(w: World<S>, fd: int)
    requires w.size == MAX_POOL && Close(w, fd).Some?
    ensures Close(w, fd).value.size == MAX_POOL && Close(w, fd).value.nodes == w.nodes
  {
  }

  /** For it is never counted down: once it has come to its maximum the pool can only shrink, and what is not reused is freed. */
  lemma PoolWearsOut<S>(w: World<S>, e: Event<S>)
    requires w.size == 50 && Enabled(w, e) && Step(w, e).Some?
    ensures Shrinks(w, Step(w, e).value)
  {
    match e
    case Accepted(fd, memory, registered) => AcceptAtMaximum(w, fd, memory, registered);
    case Connecting(_, _) =>
    case Finished(s) =>
      var x := w.sessions[s];
      CloseAtMaximum(w, x.client_fd);
      CloseAtMaximum(Close(w, x.client_fd).value, x.origin_fd);
  }
}
