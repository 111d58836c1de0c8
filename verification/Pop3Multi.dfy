/** End and byte-stuffing of a POP3 multi-line response (pop3_multi.c). */
module Pop3Multi {
  import opened Bytes
  import opened Options
  import opened ParserEngine

  datatype Kind = Byte | Wait | Fin

  const NEWLINE := 0
  const BYTE := 1
  const IN_CR := 2
  const IN_DOT := 3
  const DOT_CR := 4
  const FIN := 5

  const DO_BYTE := Action(Byte, Fed)
  const DO_BYTE_CR := Action(Byte, One(CR))
  const DO_WAIT := Action(Wait, Nothing)
  const DO_FIN := Action(Fin, Nothing)

  type Row = Transition<Kind>

  const ST_NEWLINE: seq<Row> := [
    Transition(Octet(DOT), IN_DOT, DO_WAIT, None),
    Transition(Octet(CR), IN_CR, DO_WAIT, None),
    Transition(Any, BYTE, DO_BYTE, None)]

  const ST_BYTE: seq<Row> := [
    Transition(Octet(CR), IN_CR, DO_WAIT, None),
    Transition(Any, BYTE, DO_BYTE, None)]

  const ST_CR: seq<Row> := [
    Transition(Octet(LF), NEWLINE, DO_BYTE_CR, Some(DO_BYTE)),
    Transition(Any, BYTE, DO_BYTE_CR, Some(DO_BYTE))]

  const ST_DOT: seq<Row> := [
    Transition(Octet(CR), DOT_CR, DO_WAIT, None),
    Transition(Any, BYTE, DO_BYTE, None)]

  const ST_DOT_CR: seq<Row> := [
    Transition(Octet(LF), FIN, DO_FIN, None),
    Transition(Any, BYTE, DO_BYTE_CR, Some(DO_BYTE))]

  const ST_FIN: seq<Row> := [
    Transition(Any, BYTE, DO_BYTE_CR, Some(DO_BYTE))]

  const DEFINITION: Definition<Kind> :=
    Definition([ST_NEWLINE, ST_BYTE, ST_CR, ST_DOT, ST_DOT_CR, ST_FIN], NEWLINE)

  lemma DefinitionComplete()
    ensures Complete(DEFINITION)
  {
  }

  function Next(s: nat, c: byte): Outcome<Kind> {
    match s
    case 0 =>
      if c == DOT then Outcome(IN_DOT, [Event(Wait, [])])
      else if c == CR then Outcome(IN_CR, [Event(Wait, [])])
      else Outcome(BYTE, [Event(Byte, [c])])
    case 1 => if c == CR then Outcome(IN_CR, [Event(Wait, [])]) else Outcome(BYTE, [Event(Byte, [c])])
    case 2 => Outcome(if c == LF then NEWLINE else BYTE, [Event(Byte, [CR]), Event(Byte, [c])])
    case 3 => if c == CR then Outcome(DOT_CR, [Event(Wait, [])]) else Outcome(BYTE, [Event(Byte, [c])])
    case 4 =>
      if c == LF then Outcome(FIN, [Event(Fin, [])])
      else Outcome(BYTE, [Event(Byte, [CR]), Event(Byte, [c])])
    case _ => Outcome(BYTE, [Event(Byte, [CR]), Event(Byte, [c])])
  }

  lemma StepIsNext(s: nat, c: byte)
    requires s <= FIN && Complete(DEFINITION)
    ensures Step(NO_CLASSES, DEFINITION, s, c) == Next(s, c)
  {
    SelectInOrder(NO_CLASSES, DEFINITION.states[s], c);
  }

  // ----- What the user of the events gets -----

  /** The automaton's state, the octets of the message going on, and the messages that have ended. */
  datatype Delivery = Delivery(state: nat, body: seq<byte>, ended: seq<seq<byte>>)

  /** The end of a message: the parsers behind start over. */
  function End(d: Delivery): Delivery {
    d.(body := [], ended := d.ended + [d.body])
  }

  function Deliver(d: Delivery, e: Event<Kind>): Delivery {
    match e.kind
    case Byte => d.(body := d.body + e.data)
    case Wait => d
    case Fin => End(d)
  }

  function DeliverAll(d: Delivery, events: seq<Event<Kind>>): Delivery {
    if events == [] then d else Deliver(DeliverAll(d, Front(events)), Last(events))
  }

  lemma {:induction false} DeliverConcat(d: Delivery, a: seq<Event<Kind>>, b: seq<Event<Kind>>)
    ensures DeliverAll(d, a + b) == DeliverAll(DeliverAll(d, a), b)
  {
    if b == [] {
      assert a + b == a;
    } else {
      DeliverConcat(d, a, Front(b));
      FrontConcat(a, b);
    }
  }

  const START := Delivery(NEWLINE, [], [])

  function Advance(d: Delivery, c: byte): (r: Delivery)
    ensures r.state <= FIN
  {
    match d.state
    case 0 =>
      if c == DOT then d.(state := IN_DOT)
      else if c == CR then d.(state := IN_CR)
      else d.(state := BYTE, body := d.body + [c])
    case 1 => if c == CR then d.(state := IN_CR) else d.(state := BYTE, body := d.body + [c])
    case 2 => d.(state := if c == LF then NEWLINE else BYTE, body := d.body + [CR] + [c])
    case 3 => if c == CR then d.(state := DOT_CR) else d.(state := BYTE, body := d.body + [c])
    case 4 =>
      if c == LF then End(d).(state := FIN)
      else d.(state := BYTE, body := d.body + [CR] + [c])
    case _ => d.(state := BYTE, body := d.body + [CR] + [c])
  }

  lemma AdvanceIsNext(d: Delivery, c: byte)
    ensures var n := Next(d.state, c);
            Advance(d, c) == DeliverAll(d, n.events).(state := n.state)
  {
    var events := Next(d.state, c).events;
    assert DeliverAll(d, []) == d;
    if |events| == 2 {
      assert Front(Front(events)) == [];
      assert DeliverAll(d, Front(events)) == Deliver(d, events[0]);
    } else {
      assert Front(events) == [];
    }
  }

  function Receive(d: Delivery, stream: seq<byte>): Delivery {
    if stream == [] then d else Advance(Receive(d, Front(stream)), Last(stream))
  }

  lemma {:induction false} ReceiveConcat(d: Delivery, a: seq<byte>, b: seq<byte>)
    ensures Receive(d, a + b) == Receive(Receive(d, a), b)
  {
    if b == [] {
      assert a + b == a;
    } else {
      ReceiveConcat(d, a, Front(b));
      FrontConcat(a, b);
    }
  }

  /** Events do not look at the state a delivery records. */
  lemma {:induction false} DeliverStateless(d: Delivery, s: nat, events: seq<Event<Kind>>)
    ensures DeliverAll(d.(state := s), events) == DeliverAll(d, events).(state := s)
  {
    if events != [] {
      DeliverStateless(d, s, Front(events));
    }
  }

  /** Receive is the engine on the table, followed by a reader of the events. */
  lemma {:induction false} ReceiveIsRun(stream: seq<byte>)
    ensures Complete(DEFINITION)
    ensures var r := Run(NO_CLASSES, DEFINITION, NEWLINE, stream);
            Receive(START, stream) == DeliverAll(START, r.events).(state := r.state)
  {
    DefinitionComplete();
    if stream != [] {
      ReceiveIsRun(Front(stream));
      RunLast(NO_CLASSES, DEFINITION, NEWLINE, stream);
      var before := Run(NO_CLASSES, DEFINITION, NEWLINE, Front(stream));
      var c := Last(stream);
      StepIsNext(before.state, c);
      var n := Next(before.state, c);
      DeliverConcat(START, before.events, n.events);
      var d := DeliverAll(START, before.events);
      DeliverStateless(d, before.state, n.events);
      AdvanceIsNext(d.(state := before.state), c);
    }
  }

  /** stream hands over exactly one message, body, and its end is told by the last octet. */
  predicate Delivers(stream: seq<byte>, body: seq<byte>) {
    Receive(START, stream) == Delivery(FIN, [], [body])
  }
}
