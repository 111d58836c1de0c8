/** The table-driven automaton engine (parser.c and its twin parser_factory.c). */
module ParserEngine {
  import opened Bytes
  import opened Options

  /** A character class mask, as the set of its bits that are on. */
  type Mask = set<nat>

  /** What a row waits for: one octet, anything, or an octet of some class. */
  datatype When = Octet(b: byte) | Any | Class(mask: Mask)

  datatype Event<K> = Event(kind: K, data: seq<byte>)

  /** The octets an action stores in the event it fills in. */
  datatype Payload = Nothing | Fed | One(b: byte) | Two(b0: byte, b1: byte)

  datatype Action<K> = Action(kind: K, payload: Payload)

  datatype Transition<K> =
    Transition(when: When, dest: nat, act1: Action<K>, act2: Option<Action<K>>)

  datatype Definition<K> = Definition(states: seq<seq<Transition<K>>>, start: nat)

  type Classes = s: seq<Mask> | |s| == 256 witness seq(256, _ => {})

  /** The table for parsers that need no classes. */
  const NO_CLASSES: Classes := seq(256, _ => {})

  function Perform<K>(a: Action<K>, c: byte): Event<K> {
    Event(a.kind,
          match a.payload
          case Nothing => []
          case Fed => [c]
          case One(b) => [b]
          case Two(b0, b1) => [b0, b1])
  }

  predicate Matches(classes: Classes, w: When, c: byte) {
    match w
    case Octet(b) => c == b
    case Any => true
    case Class(mask) => classes[c] * mask != {}
  }

  /** The first row from i on that matches c, or |rows|. */
  function Select<K>(classes: Classes, rows: seq<Transition<K>>, c: byte, i: nat := 0): (r: nat)
    requires i <= |rows|
    ensures i <= r <= |rows|
    ensures forall j :: i <= j < r ==> !Matches(classes, rows[j].when, c)
    ensures r < |rows| ==> Matches(classes, rows[r].when, c)
    decreases |rows| - i
  {
    if i == |rows| || Matches(classes, rows[i].when, c) then i else Select(classes, rows, c, i + 1)
  }

  /** Select on a short table, row by row. */
  lemma SelectInOrder<K>(classes: Classes, rows: seq<Transition<K>>, c: byte)
    requires 0 < |rows| <= 6
    ensures var hit := (i: nat) => i < |rows| && Matches(classes, rows[i].when, c);
            Select(classes, rows, c) ==
            if hit(0) then 0
            else if |rows| == 1 || hit(1) then 1
            else if |rows| == 2 || hit(2) then 2
            else if |rows| == 3 || hit(3) then 3
            else if |rows| == 4 || hit(4) then 4
            else if |rows| == 5 || hit(5) then 5
            else 6
  {
    var r := Select(classes, rows, c);
    assert r == 0 || r == 1 || r == 2 || r == 3 || r == 4 || r == 5 || r == 6;
  }

  function Emitted<K>(t: Transition<K>, c: byte): (events: seq<Event<K>>)
    ensures 1 <= |events| <= 2
  {
    if t.act2.Some? then [Perform(t.act1, c), Perform(t.act2.value, c)] else [Perform(t.act1, c)]
  }

  /** Every state has rows, the last of which takes anything; every destination exists. */
  ghost predicate Complete<K>(def: Definition<K>) {
    && def.start < |def.states|
    && forall s :: 0 <= s < |def.states| ==> CompleteRows(def.states[s], |def.states|)
  }

  ghost predicate CompleteRows<K>(rows: seq<Transition<K>>, n: nat) {
    && rows != []
    && Last(rows).when == Any
    && forall i :: 0 <= i < |rows| ==> rows[i].dest < n
  }

  /** Every destination exists, though a state may have no row for some octets. */
  ghost predicate Closed<K>(def: Definition<K>) {
    forall s, i :: 0 <= s < |def.states| && 0 <= i < |def.states[s]| ==> def.states[s][i].dest < |def.states|
  }

  lemma CompleteIsClosed<K>(def: Definition<K>)
    requires Complete(def)
    ensures Closed(def)
  {
    forall s, i | 0 <= s < |def.states| && 0 <= i < |def.states[s]|
      ensures def.states[s][i].dest < |def.states|
    {
      assert CompleteRows(def.states[s], |def.states|);
    }
  }

  /** Where the automaton is and what it has told its user. */
  datatype Outcome<K> = Outcome(state: nat, events: seq<Event<K>>)

  function Step<K>(classes: Classes, def: Definition<K>, s: nat, c: byte): (r: Outcome<K>)
    requires Complete(def) && s < |def.states|
    ensures r.state < |def.states|
    ensures 1 <= |r.events| <= 2
  {
    var rows := def.states[s];
    assert CompleteRows(rows, |def.states|);
    var i := Select(classes, rows, c);
    assert Matches(classes, rows[|rows| - 1].when, c);
    Outcome(rows[i].dest, Emitted(rows[i], c))
  }

  /** Feeding octets one after the other, keeping the events in order. */
  function Run<K>(classes: Classes, def: Definition<K>, s: nat, input: seq<byte>): (r: Outcome<K>)
    requires Complete(def) && s < |def.states|
    ensures r.state < |def.states|
  {
    if input == [] then Outcome(s, [])
    else
      var before := Run(classes, def, s, Front(input));
      var last := Step(classes, def, before.state, Last(input));
      Outcome(last.state, before.events + last.events)
  }

  lemma RunLast<K>(classes: Classes, def: Definition<K>, s: nat, input: seq<byte>)
    requires Complete(def) && s < |def.states| && input != []
    ensures var before := Run(classes, def, s, Front(input));
            var last := Step(classes, def, before.state, Last(input));
            Run(classes, def, s, input) == Outcome(last.state, before.events + last.events)
  {
  }

  /** Cutting the input anywhere and carrying the state over changes nothing. */
  lemma {:induction false} RunConcat<K>(classes: Classes, def: Definition<K>, s: nat, a: seq<byte>, b: seq<byte>)
    requires Complete(def) && s < |def.states|
    ensures var first := Run(classes, def, s, a);
            var second := Run(classes, def, first.state, b);
            Run(classes, def, s, a + b) == Outcome(second.state, first.events + second.events)
  {
    var first := Run(classes, def, s, a);
    if b == [] {
      assert a + b == a;
      assert Run(classes, def, first.state, b) == Outcome(first.state, []);
      assert first.events + [] == first.events;
    } else {
      RunConcat(classes, def, s, a, Front(b));
      RunLast(classes, def, s, a + b);
      RunLast(classes, def, first.state, b);
      FrontConcat(a, b);
      var second := Run(classes, def, first.state, Front(b));
      var last := Step(classes, def, second.state, Last(b));
      Assoc(first.events, second.events, last.events);
    }
  }

  class Parser<K(0)> {
    const classes: Classes
    const def: Definition<K>
    var state: nat
    var e1: Event<K>
    var e2: Event<K>
    /** Whether e1 is followed by e2. */
    var chained: bool

    ghost predicate Valid()
      reads this
    {
      Complete(def) && state < |def.states|
    }

    ghost function Events(): seq<Event<K>>
      reads this
    {
      if chained then [e1, e2] else [e1]
    }

    constructor (classes: Classes, def: Definition<K>)
      requires Complete(def)
      ensures Valid()
      ensures this.classes == classes && this.def == def && state == def.start
    {
      this.classes := classes;
      this.def := def;
      state := def.start;
      e1 := *;
      e2 := *;
      chained := false;
    }

    method Reset()
      requires Valid()
      modifies `state
      ensures Valid() && state == def.start
    {
      state := def.start;
    }

    /** One octet, whatever the table; where no row is for it, only the link between the events is cut. */
    method FeedAny(c: byte)
      requires Closed(def) && state < |def.states|
      modifies this
      ensures state < |def.states|
      ensures var rows := def.states[old(state)];
              var i := Select(classes, rows, c);
              if i < |rows| then state == rows[i].dest && Events() == Emitted(rows[i], c)
              else state == old(state) && Events() == [old(e1)]
    {
      var rows := def.states[state];
      chained := false;
      var i := 0;
      var matched := false;
      while i < |rows| && !matched
        invariant 0 <= i <= |rows|
        invariant !matched ==> state == old(state) && e1 == old(e1) && !chained
        invariant !matched ==> Select(classes, rows, c) == Select(classes, rows, c, i)
        invariant matched ==> i < |rows| && Select(classes, rows, c) == i && state == rows[i].dest
        invariant matched ==> Events() == Emitted(rows[i], c)
        decreases |rows| - i, !matched
      {
        matched := Matches(classes, rows[i].when, c);
        if matched {
          e1 := Perform(rows[i].act1, c);
          if rows[i].act2.Some? {
            chained := true;
            e2 := Perform(rows[i].act2.value, c);
          }
          state := rows[i].dest;
        } else {
          i := i + 1;
        }
      }
    }

    /** On the proxy's own tables, where every state has a row for any octet. */
    method Feed(c: byte)
      requires Valid()
      modifies this
      ensures Valid()
      ensures Outcome(state, Events()) == Step(classes, def, old(state), c)
    {
      CompleteIsClosed(def);
      assert CompleteRows(def.states[state], |def.states|);
      assert Matches(classes, Last(def.states[state]).when, c);
      FeedAny(c);
    }
  }
}
