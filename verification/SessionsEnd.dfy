/** When the program is done with a session, and what is left of it then (pop3_client_nio.c). */
module SessionsEnd {
  import opened Bytes
  import opened Options
  import opened Capacity
  import opened StateMachines
  import opened SelectorTable
  import opened ProxySession
  import opened SessionRuns
  import opened SessionEntries
  import opened SessionLedger
  import opened WholeProgram
  import L = SessionLifetime

  /** Nothing of the session is left: no struct in use, no entry, no slot. */
  ghost predicate Gone(p: Program, s: nat) {
    && s !in p.histories && s !in p.world.sessions
    && (forall fd :: fd in p.world.entries ==> p.world.entries[fd] != s)
    && (forall fd: nat :: fd < |p.table.items| && HoldsSession(p.table, fd) ==> p.table.items[fd].data != s)
  }

  lemma NoHistoryIsGone(p: Program, s: nat)
    requires WholeProgram.Inv(p) && s !in p.histories
    ensures Gone(p, s)
  {
    forall fd: nat | fd < |p.table.items| && HoldsSession(p.table, fd)
      ensures p.table.items[fd].data != s
    {
      SlotIsSessions(p, fd);
    }
    forall fd | fd in p.world.entries
      ensures p.world.entries[fd] != s
    {
      assert fd in Entries(p.table);
    }
  }

  /** What a callback is to its session. */
  ghost function EventOf(p: Program, h: Happening): ProxySession.Event
    requires WholeProgram.Inv(p) && h.Serving? && CanHappen(p, h)
  {
    ProxySession.Event(SideOf(p.world.sessions[p.table.items[h.fd].data], h.fd), h.kind, h.io)
  }

  lemma EventIsEnabled(p: Program, h: Happening)
    requires WholeProgram.Inv(p) && h.Serving? && CanHappen(p, h) && Happen(p, h).Some?
    ensures var s := p.table.items[h.fd].data;
            && s in p.world.sessions && SessionRuns.After(p.histories[s]).Some?
            && ProxySession.Enabled(StateOf(p, s), EventOf(p, h))
  {
    var s := p.table.items[h.fd].data;
    RipeIsReported(p, h.fd, h.kind);
    assert SessionTied(p, s);
  }

  /** The histories after a callback of a session. */
  lemma ServingHistories(p: Program, h: Happening, s: nat, e: ProxySession.Event)
    requires WholeProgram.Inv(p) && h.Serving? && CanHappen(p, h) && Happen(p, h).Some?
    requires s == p.table.items[h.fd].data && e == EventOf(p, h)
    requires s in p.world.sessions && SessionRuns.After(p.histories[s]).Some? && ProxySession.Enabled(StateOf(p, s), e)
    ensures var longer := p.histories[s := p.histories[s] + [e]];
            Happen(p, h).value.histories == if ProxySession.Step(StateOf(p, s), e).state == ERROR then longer - {s} else longer
  {
    SettledHistories(p, s, e, StateOf(p, s), ProxySession.Step(StateOf(p, s), e), h.socket);
  }

  lemma SettledHistories(p: Program, s: nat, e: ProxySession.Event, st: Session, st': Session, socket: nat)
    requires Tidy(p.table) && s in p.histories && s in p.world.sessions && Settled(p, s, e, st, st', socket).Some?
    ensures var longer := p.histories[s := p.histories[s] + [e]];
            Settled(p, s, e, st, st', socket).value.histories == if st'.state == ERROR then longer - {s} else longer
  {
  }

  lemma LeftAlone(histories: map<nat, seq<ProxySession.Event>>, s: nat, events: seq<ProxySession.Event>)
    ensures histories[s := events] - {s} == histories - {s}
  {
  }

  /** A callback of a session: it has happened to the session, or has ended it and nothing is left; the others go on. */
  lemma ServingEnds(p: Program, h: Happening)
    requires WholeProgram.Inv(p) && h.Serving? && CanHappen(p, h) && Happen(p, h).Some?
    ensures var s, p' := p.table.items[h.fd].data, Happen(p, h).value;
            && (Ends(Account(p.histories[s]), h.io) ==> Gone(p', s))
            && p'.histories == if Ends(Account(p.histories[s]), h.io) then p.histories - {s}
                               else p.histories[s := p.histories[s] + [EventOf(p, h)]]
  {
    var s := p.table.items[h.fd].data;
    EventIsEnabled(p, h);
    EndsExactly(p.histories[s], EventOf(p, h));
    ServingHistories(p, h, s, EventOf(p, h));
    LeftAlone(p.histories, s, p.histories[s] + [EventOf(p, h)]);
    HappenKeeps(p, h);
    NotThereIsGone(Happen(p, h).value, s);
  }

  lemma NotThereIsGone(p: Program, s: nat)
    requires WholeProgram.Inv(p)
    ensures s !in p.histories ==> Gone(p, s)
  {
    if s !in p.histories {
      NoHistoryIsGone(p, s);
    }
  }

  /** Anything else ends no session, and begins one where a client is accepted: with memory for it, and a descriptor in range. */
  lemma OthersBegin(p: Program, h: Happening)
    requires WholeProgram.Inv(p) && !h.Serving? && CanHappen(p, h)
    ensures Happen(p, h).Some?
    ensures var p' := Happen(p, h).value;
            if h.Accepting? && h.fd < ITEMS_MAX_SIZE && (p.world.nodes != [] || h.memory.Some?) then
              exists s: nat :: s !in p.histories && p'.histories == p.histories[s := []] && HoldsSession(p'.table, h.fd)
                              && p'.table.items[h.fd].data == s
            else p'.histories == p.histories
  {
    if h.Accepting? {
      var s := L.New(p.world, h.fd, h.memory).1;
      if s.Some? && h.fd < ITEMS_MAX_SIZE {
        AcceptedWorld(p, h.fd, h.memory);
        AcceptedTable(p, h.fd, h.memory);
        assert s.value !in p.histories;
      }
    }
  }

  /**
   * After any run of the program, what happens next ends a session exactly if it is a callback of that session which finds
   * one of the causes; of the session nothing is left then, in use, registered or remembered, and all others go on.
   */
  lemma RunEnds(hs: seq<Happening>, h: Happening)
    requires Run(hs).Running? && Run(hs + [h]).Running?
    ensures WholeProgram.Inv(Run(hs).program) && CanHappen(Run(hs).program, h)
    ensures var p, p' := Run(hs).program, Run(hs + [h]).program;
            if !h.Serving? then p.histories.Keys <= p'.histories.Keys && forall t :: t in p.histories ==> p'.histories[t] == p.histories[t]
            else
              var s := p.table.items[h.fd].data;
              if Ends(Account(p.histories[s]), h.io) then Gone(p', s) && p'.histories == p.histories - {s}
              else p'.histories == p.histories[s := p.histories[s] + [EventOf(p, h)]]
  {
    LastHappens(hs, h);
    var p := Run(hs).program;
    if h.Serving? {
      ServingEnds(p, h);
    } else {
      OthersBegin(p, h);
    }
  }

  lemma LastHappens(hs: seq<Happening>, h: Happening)
    requires Run(hs).Running? && Run(hs + [h]).Running?
    ensures WholeProgram.Inv(Run(hs).program) && CanHappen(Run(hs).program, h)
    ensures Happen(Run(hs).program, h) == Some(Run(hs + [h]).program)
  {
    WholeProgram.RunKeeps(hs);
    assert Front(hs + [h]) == hs;
  }
}
