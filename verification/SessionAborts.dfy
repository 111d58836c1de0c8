/** When an event finds its callback missing, and the session as a run of the state machine (pop3_client_nio.c, stm.c). */
module SessionAborts {
  import opened Bytes
  import opened Options
  import opened StateMachines
  import opened SelectorTable
  import opened ProxySession
  import opened SessionRuns
  import SinglelineResponse
  import MultilineResponse

  /** The selector can report an event that the state has no callback for. */
  predicate AbortDue(s: Session) {
    s.state < UPDATE && exists side, kind: Ready :: Reported(s, side, kind) && Aborts(s, kind)
  }

  /**
   * How a run has come to its first unfavourable step: a failed attempt that leaves the client waited for, as its
   * being ready to be written to had brought it about; one that leaves nobody waited for; or the greeting lost.
   */
  datatype Failure = AttemptFailed | AttemptMuted | GreetingMissed

  function FailureOf(s: Session, io: Io): Failure {
    if s.state == GREETING_SREAD then GreetingMissed
    else if s.state == PROCESS_CONNECTION && io.NotConnecting? then AttemptFailed
    else AttemptMuted
  }

  /** The first unfavourable step of a run. */
  function FailedAs(events: seq<Event>): Option<Failure> {
    if events == [] then None
    else if FailedAs(Front(events)).Some? then FailedAs(Front(events))
    else
      var before := After(Front(events));
      if before.Some? && Unfavourable(before.value, Last(events).io) then Some(FailureOf(before.value, Last(events).io))
      else None
  }

  /** Where a session can be after its first unfavourable step. */
  predicate Stranded(s: Session, failure: Failure) {
    match failure
    case AttemptFailed =>
      || (s.state == ESTABL_CONNECTION && s.wire == Wire(OP_WRITE, None))
      || (s.state == GREETING_SREAD && s.wire == Wire(OP_READ, None))
      || (s.state == GREETING_CWRITE && s.wire == Wire(OP_READ, None))
    case AttemptMuted => s.state == ESTABL_CONNECTION && s.wire == Wire(OP_NOOP, None)
    case GreetingMissed => s.state == GREETING_CWRITE && s.wire == Wire(OP_NOOP, Some(OP_READ))
  }

  lemma UnfavourableStrands(s: Session, e: Event)
    requires Subscribed(s.state, s.wire) && Enabled(s, e) && Unfavourable(s, e.io)
    ensures Stranded(Step(s, e), FailureOf(s, e.io))
  {
  }

  lemma StrandedStays(s: Session, e: Event, failure: Failure)
    requires Stranded(s, failure) && Enabled(s, e)
    ensures Stranded(Step(s, e), failure)
    ensures Step(s, e).state == GREETING_CWRITE <==> s.state == GREETING_SREAD && e.io == NotReceived(false)
  {
  }

  /** Over every run: the state's subscriptions, or stranded where the first unfavourable step has led. */
  lemma {:induction false} RunStrands(events: seq<Event>)
    requires After(events).Some?
    ensures var s := After(events).value;
            if FailedAs(events).None? then Subscribed(s.state, s.wire) else Stranded(s, FailedAs(events).value)
  {
    if events != [] {
      RunStrands(Front(events));
      var s, e := After(Front(events)).value, Last(events);
      if FailedAs(Front(events)).Some? {
        StrandedStays(s, e, FailedAs(events).value);
      } else if Unfavourable(s, e.io) {
        UnfavourableStrands(s, e);
      } else {
        StepSubscribes(s, e);
      }
    }
  }

  /** Subscriptions over whole runs: kept exactly as long as no step has been unfavourable. */
  lemma RunSubscribes(events: seq<Event>)
    requires After(events).Some?
    ensures Subscribed(After(events).value.state, After(events).value.wire) <==> FailedAs(events).None?
  {
    RunStrands(events);
  }

  lemma SubscribedNotDue(s: Session)
    requires Subscribed(s.state, s.wire)
    ensures !AbortDue(s)
  {
    forall side, kind: Ready | s.state < UPDATE && Reported(s, side, kind)
      ensures !Aborts(s, kind)
    {
      SubscribedHandles(s, side, kind);
    }
  }

  lemma StrandedDue(s: Session, failure: Failure)
    requires Stranded(s, failure)
    ensures AbortDue(s) <==> s.state == GREETING_CWRITE
  {
    var side := if failure.AttemptFailed? then Client else Origin;
    if s.state == GREETING_CWRITE {
      assert Reported(s, side, OnRead) && Aborts(s, OnRead);
    }
  }

  /** The step into s was a recv() for the greeting that failed for good. */
  predicate GreetingLost(events: seq<Event>) {
    && events != [] && After(Front(events)).Some?
    && After(Front(events)).value.state == GREETING_SREAD && Last(events).io == NotReceived(false)
  }

  /** Over every run: an event can find its callback missing exactly when the last step has lost the greeting. */
  lemma AbortDueExactly(events: seq<Event>)
    requires After(events).Some?
    ensures AbortDue(After(events).value) <==> GreetingLost(events)
  {
    RunStrands(events);
    var s' := After(events).value;
    if FailedAs(events).None? {
      SubscribedNotDue(s');
    } else {
      StrandedDue(s', FailedAs(events).value);
      RunStrands(Front(events));
      var s, e := After(Front(events)).value, Last(events);
      if FailedAs(Front(events)).Some? {
        StrandedStays(s, e, FailedAs(events).value);
      } else {
        UnfavourableStrands(s, e);
      }
    }
  }

  /** A run goes no further from where nothing is reported. */
  lemma {:induction false} NothingFollows(events: seq<Event>, more: seq<Event>)
    requires After(events).Some? && forall e: Event :: !Enabled(After(events).value, e)
    requires After(events + more).Some?
    ensures more == []
  {
    assert events + [] == events;
    if more != [] {
      FrontConcat(events, more);
      NothingFollows(events, Front(more));
    }
  }

  /** After a failed attempt that leaves nobody waited for nothing is reported any more: the session hangs, and nothing is aborted. */
  lemma MutedFailureHangs(events: seq<Event>, more: seq<Event>)
    requires After(events).Some? && FailedAs(events) == Some(AttemptMuted)
    requires After(events + more).Some?
    ensures more == [] && !AbortDue(After(events).value)
    ensures forall side, kind: Ready :: !Reported(After(events).value, side, kind)
  {
    RunStrands(events);
    var s := After(events).value;
    StrandedDue(s, AttemptMuted);
    NothingFollows(events, more);
  }

  /** After one that leaves the client waited for, its being ready to write and to read takes the session to an abort. */
  lemma FailureAborts(events: seq<Event>) returns (more: seq<Event>)
    requires After(events).Some? && FailedAs(events).Some? && FailedAs(events) != Some(AttemptMuted)
    ensures After(events + more).Some? && AbortDue(After(events + more).value)
  {
    RunStrands(events);
    var f := FailedAs(events).value;
    var s := After(events).value;
    var write, read := Event(Client, OnWrite, Connected), Event(Client, OnRead, NotReceived(false));
    var es := events;
    if s.state == ESTABL_CONNECTION {
      AfterPush(es, write);
      StrandedStays(s, write, f);
      es := es + [write];
    }
    if After(es).value.state == GREETING_SREAD {
      AfterPush(es, read);
      StrandedStays(After(es).value, read, f);
      es := es + [read];
    }
    StrandedDue(After(es).value, f);
    more := es[|events|..];
    assert events + more == es;
  }

  /** Once a step has been unfavourable an abort can be come to, exactly unless that has left nobody waited for. */
  lemma AbortReachable(events: seq<Event>)
    requires After(events).Some? && FailedAs(events).Some?
    ensures (exists more: seq<Event> :: After(events + more).Some? && AbortDue(After(events + more).value))
            <==> FailedAs(events) != Some(AttemptMuted)
  {
    if FailedAs(events) == Some(AttemptMuted) {
      forall more: seq<Event> | After(events + more).Some?
        ensures !AbortDue(After(events + more).value)
      {
        MutedFailureHangs(events, more);
        assert events + more == events;
      }
    } else {
      var more := FailureAborts(events);
    }
  }

  // ----- The session as a run of the state machine -----

  /** What the state machine sees of an event. */
  function StimulusOf(s: Session, e: Event): Stimulus
    requires Enabled(s, e)
  {
    Stimulus(e.kind, Handler(s, e).state)
  }

  function Stimuli(events: seq<Event>): seq<Stimulus>
    requires After(events).Some?
  {
    if events == [] then []
    else Stimuli(Front(events)) + [StimulusOf(After(Front(events)).value, Last(events))]
  }

  lemma ArrivalStays(s: Session)
    ensures ProxySession.Arrive(s).state == s.state
  {
  }

  lemma EarlyAnswers(s: Session, e: Event)
    requires Enabled(s, e) && s.state <= GREETING_CWRITE
    ensures Handler(s, e).state <= ERROR
  {
  }

  lemma HandlerAnswers(s: Session, e: Event)
    requires Enabled(s, e)
    ensures Handler(s, e).state == Step(s, e).state <= ERROR
  {
    ArrivalStays(Handler(s, e));
    if s.state <= GREETING_CWRITE {
      EarlyAnswers(s, e);
    } else if s.state == RESPONSE_SREAD && e.io.Received? {
      ResponseBegunKeeps(s, e.io, SinglelineResponse.Judge(e.io.octets).BuildFinished?,
                         RespondsInLines(s), MultilineResponse.Finished(e.io.octets));
    }
  }

  /** Every run of the session is a run of the machine over the session's table, and both are in the same state. */
  lemma {:induction false} RunsAsMachine(events: seq<Event>)
    requires After(events).Some?
    ensures Runs(TABLE, PROCESS_CONNECTION, Stimuli(events))
    ensures StateAfter(PROCESS_CONNECTION, Stimuli(events)) == After(events).value.state <= ERROR
  {
    if events != [] {
      RunsAsMachine(Front(events));
      var s := After(Front(events)).value;
      HandlerAnswers(s, Last(events));
      var xs := Stimuli(events);
      assert Front(xs) == Stimuli(Front(events)) && Last(xs) == StimulusOf(s, Last(events));
    }
  }

  /** And an event the session has no callback for is one the machine aborts on, whatever it might have answered. */
  lemma AbortsAsMachine(events: seq<Event>, kind: Ready, answer: nat)
    requires After(events).Some? && Aborts(After(events).value, kind)
    ensures !Runs(TABLE, PROCESS_CONNECTION, Stimuli(events) + [Stimulus(kind, answer)])
  {
    RunsAsMachine(events);
    var xs := Stimuli(events) + [Stimulus(kind, answer)];
    assert Front(xs) == Stimuli(events) && Last(xs) == Stimulus(kind, answer);
  }

  // ----- What the state machine calls -----

  /** The states that something is set up for on arrival. */
  const ARRIVING: set<nat> := {PROCESS_CONNECTION, ESTABL_CONNECTION, GREETING_SREAD, COMMAND_CREAD, RESPONSE_SREAD,
                               DOT_DATA_SREAD, PIPE_DREAM}

  /** Where coming to a state changes the session, the state has an arrival callback. */
  lemma ArrivalMatters(s: Session)
    requires s.state <= ERROR
    ensures ProxySession.Arrive(s) != s ==> s.state in ARRIVING
    ensures TABLE[s.state].arrival <==> s.state in ARRIVING
  {
  }

  /** A step that sets something up is one that has changed to such a state. */
  lemma SetUpOnArrival(s: Session, e: Event)
    requires Enabled(s, e) && Step(s, e) != Handler(s, e)
    ensures Step(s, e).state != s.state && Step(s, e).state in ARRIVING
  {
    HandlerAnswers(s, e);
    ArrivalMatters(Handler(s, e));
  }

  /** The calls of a step: its handler, and the arrival in the next state if it is another one with something to set up. */
  function CallsOf(s: Session, e: Event): seq<Call>
    requires Enabled(s, e)
  {
    var next := Step(s, e).state;
    [Handle(e.kind, s.state)] + if next != s.state && next in ARRIVING then [StateMachines.Arrive(next)] else []
  }

  function TraceOf(events: seq<Event>): seq<Call>
    requires After(events).Some?
  {
    if events == [] then [StateMachines.Arrive(PROCESS_CONNECTION)]
    else TraceOf(Front(events)) + CallsOf(After(Front(events)).value, Last(events))
  }

  lemma MovesKept(s: nat, next: nat)
    requires s <= ERROR && next <= ERROR
    ensures Kept(TABLE, Moves(s, next)) == if next != s && next in ARRIVING then [StateMachines.Arrive(next)] else []
  {
    assert Kept(TABLE, []) == [];
    if s != next {
      assert Front([Depart(s)]) == [] && Kept(TABLE, [Depart(s)]) == [];
      assert Front([Depart(s), StateMachines.Arrive(next)]) == [Depart(s)];
    }
  }

  /** The calls that the table keeps of a run are those. */
  lemma {:induction false} KeptIsTrace(events: seq<Event>)
    requires After(events).Some?
    ensures Kept(TABLE, StateMachines.Calls(PROCESS_CONNECTION, Stimuli(events))) == TraceOf(events)
  {
    if events == [] {
      assert Front([StateMachines.Arrive(PROCESS_CONNECTION)]) == [] && Kept(TABLE, []) == [];
    } else {
      var f, e := Front(events), Last(events);
      var s, xs := After(f).value, Stimuli(events);
      KeptIsTrace(f);
      RunsAsMachine(f);
      HandlerAnswers(s, e);
      assert Front(xs) == Stimuli(f) && Last(xs) == StimulusOf(s, e);
      KeptConcat(TABLE, StateMachines.Calls(PROCESS_CONNECTION, Front(xs)), Turn(s.state, Last(xs)));
      KeptTurn(TABLE, s.state, Last(xs));
      MovesKept(s.state, Last(xs).answer);
    }
  }

  /**
   * A new state machine given the session's events makes the calls of its run, and does not abort: first the arrival in the
   * initial state, then for each event its handler and, at each change to a state with something to set up, the arrival there.
   */
  method DriveSession(events: seq<Event>) returns (m: StateMachine)
    requires events != [] && After(events).Some?
    ensures !m.aborted && m.current == Some(After(events).value.state)
    ensures m.trace == TraceOf(events)
  {
    RunsAsMachine(events);
    KeptIsTrace(events);
    m := new StateMachine(PROCESS_CONNECTION, TABLE);
    var fed := Drive(m, Stimuli(events));
  }
}
