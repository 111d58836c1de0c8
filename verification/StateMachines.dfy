/** The state machine engine whose events are the selector's (stm.c). */
module StateMachines {
  import opened Bytes
  import opened Options

  datatype Ready = OnRead | OnWrite | OnBlock

  /** Which callbacks a state has. */
  datatype StateDefinition =
    StateDefinition(arrival: bool, departure: bool, read: bool, write: bool, block: bool)
  {
    predicate Handles(kind: Ready) {
      match kind
      case OnRead => read
      case OnWrite => write
      case OnBlock => block
    }
  }

  datatype Call = Arrive(state: nat) | Depart(state: nat) | Handle(kind: Ready, state: nat)

  /** A callback is called only where there is one. */
  predicate Exists(states: seq<StateDefinition>, call: Call) {
    call.state < |states| &&
    match call
    case Arrive(s) => states[s].arrival
    case Depart(s) => states[s].departure
    case Handle(kind, s) => states[s].Handles(kind)
  }

  function Kept(states: seq<StateDefinition>, calls: seq<Call>): seq<Call> {
    if calls == [] then []
    else Kept(states, Front(calls)) + if Exists(states, Last(calls)) then [Last(calls)] else []
  }

  lemma {:induction false} KeptConcat(states: seq<StateDefinition>, a: seq<Call>, b: seq<Call>)
    ensures Kept(states, a + b) == Kept(states, a) + Kept(states, b)
  {
    if b == [] {
      assert a + b == a;
    } else {
      KeptConcat(states, a, Front(b));
      FrontConcat(a, b);
    }
  }

  /** An event, and the state its handler answers with. */
  datatype Stimulus = Stimulus(kind: Ready, answer: nat)

  class StateMachine {
    const initial: nat
    const max_state: nat
    const states: seq<StateDefinition>
    var current: Option<nat>
    /** Where abort() has stopped the program. */
    var aborted: bool
    ghost var trace: seq<Call>

    ghost predicate Valid()
      reads this
    {
      && initial < max_state && |states| == max_state + 1
      && (current.Some? ==> current.value <= max_state)
    }

    /** stm_init */
    constructor (initial: nat, states: seq<StateDefinition>)
      requires initial + 1 < |states|
      ensures Valid() && current == None && !aborted && trace == []
      ensures this.initial == initial && this.states == states
    {
      this.initial := initial;
      this.max_state := |states| - 1;
      this.states := states;
      current := None;
      aborted := false;
      trace := [];
    }

    function State(): nat
      reads this
    {
      if current.Some? then current.value else initial
    }

    method HandleFirst()
      requires Valid()
      modifies `current, `trace
      ensures Valid() && current == Some(old(State()))
      ensures trace == old(trace) + if old(current).None? then Kept(states, [Arrive(initial)]) else []
    {
      if current.None? {
        current := Some(initial);
        assert Kept(states, []) == [] && Front([Arrive(initial)]) == [];
        if states[initial].arrival {
          trace := trace + [Arrive(initial)];
        }
      }
    }

    method Jump(next: nat)
      requires Valid() && current.Some?
      modifies `current, `trace, `aborted
      ensures Valid()
      ensures aborted == (old(aborted) || next > max_state)
      ensures next <= max_state ==>
                && current == Some(next)
                && trace == old(trace) + Kept(states, Moves(old(current.value), next))
    {
      if next > max_state {
        aborted := true;
        return;
      }
      if current != Some(next) {
        var s := current.value;
        assert Front([Depart(s), Arrive(next)]) == [Depart(s)] && Front([Depart(s)]) == [];
        assert Kept(states, [Depart(s)]) == Kept(states, []) + if states[s].departure then [Depart(s)] else [];
        if states[s].departure {
          trace := trace + [Depart(s)];
        }
        current := Some(next);
        if states[next].arrival {
          trace := trace + [Arrive(next)];
        }
      }
    }

    /** stm_handler_read, stm_handler_write and stm_handler_block; answer is what the handler returns. */
    method Handler(kind: Ready, answer: nat) returns (ret: nat)
      requires Valid() && !aborted
      modifies this
      ensures Valid() && ret == answer
      ensures aborted <==> !states[old(State())].Handles(kind) || answer > max_state
      ensures !aborted ==>
                && current == Some(answer)
                && trace == old(trace) + (if old(current).None? then Kept(states, [Arrive(initial)]) else [])
                            + Kept(states, Turn(old(State()), Stimulus(kind, answer)))
    {
      ghost var s := State();
      HandleFirst();
      ret := answer;
      if !states[current.value].Handles(kind) {
        aborted := true;
        return;
      }
      ghost var before, call := trace, Handle(kind, s);
      trace := trace + [call];
      Jump(answer);
      KeptTurn(states, s, Stimulus(kind, answer));
      assert before + [call] + Kept(states, Moves(s, answer)) == before + ([call] + Kept(states, Moves(s, answer)));
    }
  }

  // ----- Whole runs -----

  function Moves(s: nat, next: nat): seq<Call> {
    if s == next then [] else [Depart(s), Arrive(next)]
  }

  /** The handler of s, and the move to the state it answers with. */
  function Turn(s: nat, x: Stimulus): seq<Call> {
    [Handle(x.kind, s)] + Moves(s, x.answer)
  }

  lemma KeptTurn(states: seq<StateDefinition>, s: nat, x: Stimulus)
    requires s < |states| && states[s].Handles(x.kind)
    ensures Kept(states, Turn(s, x)) == [Handle(x.kind, s)] + Kept(states, Moves(s, x.answer))
  {
    var call := Handle(x.kind, s);
    assert Front([call]) == [] && Kept(states, []) == [];
    assert Kept(states, [call]) == [call];
    KeptConcat(states, [call], Moves(s, x.answer));
  }

  function StateAfter(initial: nat, xs: seq<Stimulus>): nat {
    if xs == [] then initial else Last(xs).answer
  }

  /** Every callback there could be, in order: one arrival first, then a turn for each event. */
  function Calls(initial: nat, xs: seq<Stimulus>): seq<Call> {
    if xs == [] then [Arrive(initial)]
    else Calls(initial, Front(xs)) + Turn(StateAfter(initial, Front(xs)), Last(xs))
  }

  /** No event finds its handler missing, and no handler answers with a state that is not there. */
  predicate Runs(states: seq<StateDefinition>, initial: nat, xs: seq<Stimulus>) {
    xs == [] ||
    (&& Runs(states, initial, Front(xs))
     && StateAfter(initial, Front(xs)) < |states|
     && states[StateAfter(initial, Front(xs))].Handles(Last(xs).kind)
     && Last(xs).answer < |states|)
  }

  /** Feeding events to a new machine: it aborts or leaves the trace that Calls gives. */
  method Drive(m: StateMachine, xs: seq<Stimulus>) returns (ghost fed: seq<Stimulus>)
    requires m.Valid() && !m.aborted && m.current == None && m.trace == [] && xs != []
    modifies m
    ensures fed <= xs && m.aborted == !Runs(m.states, m.initial, xs)
    ensures !m.aborted ==>
              && fed == xs
              && m.current == Some(StateAfter(m.initial, xs))
              && m.trace == Kept(m.states, Calls(m.initial, xs))
  {
    fed := [];
    var i := 0;
    while i < |xs|
      invariant 0 <= i <= |xs| && fed == xs[..i]
      invariant m.Valid() && !m.aborted && Runs(m.states, m.initial, xs[..i])
      invariant i == 0 ==> m.current == None && m.trace == []
      invariant i > 0 ==> m.current == Some(StateAfter(m.initial, xs[..i]))
      invariant i > 0 ==> m.trace == Kept(m.states, Calls(m.initial, xs[..i]))
    {
      ghost var before, after := xs[..i], xs[..i + 1];
      assert Front(after) == before && Last(after) == xs[i];
      ghost var s := m.State();
      ghost var was := m.trace;
      KeptConcat(m.states, Calls(m.initial, before), Turn(s, xs[i]));
      var ret := m.Handler(xs[i].kind, xs[i].answer);
      if m.aborted {
        assert !Runs(m.states, m.initial, after);
        RunsPrefix(m.states, m.initial, xs, i + 1);
        return;
      }
      if i == 0 {
        assert before == [] && Calls(m.initial, before) == [Arrive(m.initial)];
        assert was + Kept(m.states, [Arrive(m.initial)]) == Kept(m.states, [Arrive(m.initial)]);
      } else {
        assert was + [] == was;
      }
      i := i + 1;
      fed := after;
    }
    assert xs[..i] == xs;
  }

  lemma RunsPrefix(states: seq<StateDefinition>, initial: nat, xs: seq<Stimulus>, k: nat)
    requires k <= |xs|
    ensures Runs(states, initial, xs) ==> Runs(states, initial, xs[..k])
  {
    if k == |xs| {
      assert xs[..k] == xs;
    } else {
      RunsPrefix(states, initial, Front(xs), k);
      assert Front(xs)[..k] == xs[..k];
    }
  }

  /** Where a trace leaves the machine: in no state, in one, or out of order. */
  datatype Place = Nowhere | In(state: nat) | Disorder

  function Follow(place: Place, call: Call): Place {
    match call
    case Arrive(s) => if place == Nowhere then In(s) else Disorder
    case Depart(s) => if place == In(s) then Nowhere else Disorder
    case Handle(_, s) => if place == In(s) then place else Disorder
  }

  function Whereabouts(calls: seq<Call>): Place {
    if calls == [] then Nowhere else Follow(Whereabouts(Front(calls)), Last(calls))
  }

  /** Arrivals and departures pair up, each handler runs in the state last arrived at, which is the current one. */
  lemma {:induction false} CallsPairUp(initial: nat, xs: seq<Stimulus>)
    ensures Whereabouts(Calls(initial, xs)) == In(StateAfter(initial, xs))
  {
    if xs == [] {
      assert Front([Arrive(initial)]) == [];
    } else {
      CallsPairUp(initial, Front(xs));
      var calls, s, x := Calls(initial, Front(xs)), StateAfter(initial, Front(xs)), Last(xs);
      var handled := calls + [Handle(x.kind, s)];
      assert Front(handled) == calls && Whereabouts(handled) == In(s);
      if s == x.answer {
        assert calls + Turn(s, x) == handled;
      } else {
        var departed := handled + [Depart(s)];
        assert Front(departed) == handled && Whereabouts(departed) == Nowhere;
        var arrived := departed + [Arrive(x.answer)];
        assert Front(arrived) == departed;
        assert calls + Turn(s, x) == arrived;
      }
    }
  }
}
