/** Tokenizer of RFC 822-like messages (mime_msg.c). */
module MimeMsg {
  import opened Bytes
  import opened Options
  import opened ParserEngine
  import opened MimeChars

  datatype Kind =
    | Name | NameEnd | Value | ValueFold | ValueEnd | BodyStart | Body | Wait | Unexpected | BodyCr | BodyNewline

  const NAME0 := 0
  const NAME := 1
  const VALUE := 2
  const VALUE_CR := 3
  const VALUE_CRLF := 4
  const FOLD := 5
  const VALUE_CRLF_CR := 6
  const BODY := 7
  const BODY_CR := 8
  const ERROR := 9

  // Actions
  const DO_NAME := Action(Name, Fed)
  const DO_NAME_END := Action(NameEnd, One(COLON))
  const DO_VALUE := Action(Value, Fed)
  const DO_VALUE_CR := Action(Value, One(CR))
  const DO_VALUE_FOLD_CRLF := Action(ValueFold, Two(CR, LF))
  const DO_VALUE_FOLD := Action(ValueFold, Fed)
  const DO_VALUE_END := Action(ValueEnd, Two(CR, LF))
  const DO_WAIT := Action(Wait, Nothing)
  const DO_BODY_START := Action(BodyStart, Two(CR, LF))
  const DO_BODY := Action(Body, Fed)
  const DO_BODY_CRLF := Action(BodyCr, Fed)
  const DO_BODY_NEWLINE := Action(BodyNewline, Fed)
  const DO_UNEXPECTED := Action(Unexpected, Fed)

  type Row = Transition<Kind>

  function On(when: When, dest: nat, act: Action<Kind>): Row { Transition(when, dest, act, None) }

  function On2(when: When, dest: nat, act1: Action<Kind>, act2: Action<Kind>): Row {
    Transition(when, dest, act1, Some(act2))
  }

  const CHAR := Class({TOKEN_CHAR})
  const CTL := Class({TOKEN_CTL})
  const LWSP := Class({TOKEN_LWSP})

  const ST_NAME0: seq<Row> := [
    On(Octet(COLON), ERROR, DO_UNEXPECTED),
    On(Octet(SPACE), ERROR, DO_UNEXPECTED),
    On(CTL, ERROR, DO_UNEXPECTED),
    On(CHAR, NAME, DO_NAME),
    On(Any, ERROR, DO_UNEXPECTED)]

  const ST_NAME: seq<Row> := [
    On(Octet(COLON), VALUE, DO_NAME_END),
    On(Octet(SPACE), ERROR, DO_UNEXPECTED),
    On(CTL, ERROR, DO_UNEXPECTED),
    On(CHAR, NAME, DO_NAME),
    On(Any, ERROR, DO_UNEXPECTED)]

  const ST_VALUE: seq<Row> := [
    On(LWSP, FOLD, DO_VALUE_FOLD),
    On(Octet(CR), VALUE_CR, DO_WAIT),
    On(Any, VALUE, DO_VALUE)]

  const ST_VALUE_CR: seq<Row> := [
    On(Octet(LF), VALUE_CRLF, DO_WAIT),
    On2(Any, VALUE, DO_VALUE_CR, DO_VALUE)]

  const ST_VALUE_CRLF: seq<Row> := [
    On(Octet(COLON), ERROR, DO_UNEXPECTED),
    On(Octet(CR), VALUE_CRLF_CR, DO_WAIT),
    On2(LWSP, FOLD, DO_VALUE_FOLD_CRLF, DO_VALUE_FOLD),
    On2(CTL, ERROR, DO_VALUE_END, DO_UNEXPECTED),
    On2(CHAR, NAME, DO_VALUE_END, DO_NAME),
    On(Any, ERROR, DO_UNEXPECTED)]

  const ST_FOLD: seq<Row> := [
    On(LWSP, FOLD, DO_VALUE_FOLD),
    On(Any, VALUE, DO_VALUE)]

  const ST_VALUE_CRLF_CR: seq<Row> := [
    On2(Octet(LF), BODY, DO_VALUE_END, DO_BODY_START),
    On2(Any, ERROR, DO_VALUE_END, DO_UNEXPECTED)]

  const ST_BODY: seq<Row> := [
    On(Octet(CR), BODY_CR, DO_BODY_CRLF),
    On(Any, BODY, DO_BODY)]

  const ST_BODY_CR: seq<Row> := [
    On(Octet(LF), BODY, DO_BODY_NEWLINE),
    On(Any, ERROR, DO_UNEXPECTED)]

  const ST_ERROR: seq<Row> := [
    On(Any, ERROR, DO_UNEXPECTED)]

  const DEFINITION: Definition<Kind> := Definition([
    ST_NAME0, ST_NAME, ST_VALUE, ST_VALUE_CR, ST_VALUE_CRLF, ST_FOLD, ST_VALUE_CRLF_CR, ST_BODY, ST_BODY_CR, ST_ERROR],
    NAME0)

  lemma DefinitionComplete()
    ensures Complete(DEFINITION)
  {
  }

  predicate IsNameChar(c: byte) { IsChar(c) && !IsCtl(c) && c != SPACE && c != COLON }

  type Tokens = seq<Event<Kind>>

  function Next(s: nat, c: byte): Outcome<Kind>
  {
    match s
    case 0 => if IsNameChar(c) then Outcome(NAME, [Event(Name, [c])]) else Outcome(ERROR, [Event(Unexpected, [c])])
    case 1 =>
      if c == COLON then Outcome(VALUE, [Event(NameEnd, [COLON])])
      else if IsNameChar(c) then Outcome(NAME, [Event(Name, [c])])
      else Outcome(ERROR, [Event(Unexpected, [c])])
    case 2 =>
      if IsLwsp(c) then Outcome(FOLD, [Event(ValueFold, [c])])
      else if c == CR then Outcome(VALUE_CR, [Event(Wait, [])])
      else Outcome(VALUE, [Event(Value, [c])])
    case 3 =>
      if c == LF then Outcome(VALUE_CRLF, [Event(Wait, [])])
      else Outcome(VALUE, [Event(Value, [CR]), Event(Value, [c])])
    case 4 =>
      if c == CR then Outcome(VALUE_CRLF_CR, [Event(Wait, [])])
      else if IsLwsp(c) then Outcome(FOLD, [Event(ValueFold, CRLF), Event(ValueFold, [c])])
      else if IsCtl(c) then Outcome(ERROR, [Event(ValueEnd, CRLF), Event(Unexpected, [c])])
      else if IsChar(c) && c != COLON then Outcome(NAME, [Event(ValueEnd, CRLF), Event(Name, [c])])
      else Outcome(ERROR, [Event(Unexpected, [c])])
    case 5 =>
      if IsLwsp(c) then Outcome(FOLD, [Event(ValueFold, [c])]) else Outcome(VALUE, [Event(Value, [c])])
    case 6 =>
      if c == LF then Outcome(BODY, [Event(ValueEnd, CRLF), Event(BodyStart, CRLF)])
      else Outcome(ERROR, [Event(ValueEnd, CRLF), Event(Unexpected, [c])])
    case 7 =>
      if c == CR then Outcome(BODY_CR, [Event(BodyCr, [c])]) else Outcome(BODY, [Event(Body, [c])])
    case 8 =>
      if c == LF then Outcome(BODY, [Event(BodyNewline, [c])]) else Outcome(ERROR, [Event(Unexpected, [c])])
    case _ => Outcome(ERROR, [Event(Unexpected, [c])])
  }

  lemma StepIsNext(s: nat, c: byte)
    requires s <= ERROR && Complete(DEFINITION)
    ensures Step(CLASSES, DEFINITION, s, c) == Next(s, c)
  {
    ClassMatch(TOKEN_CHAR, c);
    ClassMatch(TOKEN_CTL, c);
    ClassMatch(TOKEN_LWSP, c);
    SelectInOrder(CLASSES, DEFINITION.states[s], c);
  }

  // ----- Runs from the start state -----

  /** What the tokenizer has said after the whole input. */
  function Tokenize(input: seq<byte>): (r: Outcome<Kind>)
    ensures r.state <= ERROR
  {
    if input == [] then Outcome(NAME0, [])
    else
      var before := Tokenize(Front(input));
      var last := Next(before.state, Last(input));
      Outcome(last.state, before.events + last.events)
  }

  /** The engine on the transition table computes Tokenize. */
  lemma {:induction false} RunIsTokenize(input: seq<byte>)
    ensures Complete(DEFINITION)
    ensures Run(CLASSES, DEFINITION, NAME0, input) == Tokenize(input)
  {
    DefinitionComplete();
    if input != [] {
      RunIsTokenize(Front(input));
      StepIsNext(Tokenize(Front(input)).state, Last(input));
    }
  }

  // ----- Byte conservation -----

  function PayloadOf(events: Tokens): seq<byte> {
    if events == [] then [] else PayloadOf(Front(events)) + Last(events).data
  }

  lemma {:induction false} PayloadOfConcat(a: Tokens, b: Tokens)
    ensures PayloadOf(a + b) == PayloadOf(a) + PayloadOf(b)
  {
    if b == [] {
      assert a + b == a;
    } else {
      PayloadOfConcat(a, Front(b));
      FrontConcat(a, b);
    }
  }

  /** The octets a state has taken in and not handed out yet. */
  function Held(s: nat): seq<byte> {
    match s
    case 3 => [CR]
    case 4 => CRLF
    case 6 => CRLF + [CR]
    case _ => []
  }

  /** The rows that drop what the state held. */
  predicate Drops(s: nat, c: byte) {
    || (s == VALUE_CRLF && (c == COLON || !IsChar(c)))
    || (s == VALUE_CRLF_CR && c != LF)
  }

  lemma PayloadOfFew(events: Tokens)
    requires 1 <= |events| <= 2
    ensures PayloadOf(events) == if |events| == 1 then events[0].data else events[0].data + events[1].data
  {
    var f := Front(events);
    if |events| == 2 {
      assert Front(f) == [] && Last(f) == events[0];
      assert PayloadOf(f) == [] + events[0].data == events[0].data;
    } else {
      assert [] + events[0].data == events[0].data;
    }
  }

  lemma StepPayload(s: nat, c: byte)
    requires s <= ERROR
    ensures var n := Next(s, c);
            && n.state <= ERROR
            && (Drops(s, c) ==> n.state == ERROR)
            && (!Drops(s, c) ==> PayloadOf(n.events) + Held(n.state) == Held(s) + [c])
            && (Drops(s, c) ==> |PayloadOf(n.events)| + |Held(n.state)| <= |Held(s)|)
  {
    PayloadOfFew(Next(s, c).events);
  }

  /** Some step of the run takes a row that drops held octets. */
  predicate Lossy(input: seq<byte>) {
    input != [] && (Lossy(Front(input)) || Drops(Tokenize(Front(input)).state, Last(input)))
  }

  /** r hands out, or holds, everything in input; or has dropped something and failed. */
  predicate Accounts(r: Outcome<Kind>, input: seq<byte>, lossy: bool) {
    if lossy then r.state == ERROR && |PayloadOf(r.events)| + |Held(r.state)| < |input|
    else PayloadOf(r.events) + Held(r.state) == input
  }

  /** What was held goes out, or is held still, with the octet fed behind it. */
  lemma HandOver(out: seq<byte>, held: seq<byte>, more: seq<byte>, held': seq<byte>, c: byte)
    ensures more + held' == held + [c] ==> (out + more) + held' == (out + held) + [c]
  {
    Assoc(out, more, held');
    Assoc(out, held, [c]);
  }

  lemma AccountsStep(r: Outcome<Kind>, input: seq<byte>, lossy: bool, c: byte)
    requires r.state <= ERROR
    requires Accounts(r, input, lossy)
    ensures var n := Next(r.state, c);
            Accounts(Outcome(n.state, r.events + n.events), input + [c], lossy || Drops(r.state, c))
  {
    StepPayload(r.state, c);
    var n := Next(r.state, c);
    PayloadOfConcat(r.events, n.events);
    HandOver(PayloadOf(r.events), Held(r.state), PayloadOf(n.events), Held(n.state), c);
  }

  lemma {:induction false} RunAccounts(input: seq<byte>)
    ensures Accounts(Tokenize(input), input, Lossy(input))
  {
    if input != [] {
      var before := Front(input);
      RunAccounts(before);
      AccountsStep(Tokenize(before), before, Lossy(before), Last(input));
      FrontLast(input);
    }
  }

  /** No octet is lost or invented, exactly unless a row that drops held octets is taken. */
  lemma Conservation(input: seq<byte>)
    ensures var r := Tokenize(input);
            && (PayloadOf(r.events) + Held(r.state) == input <==> !Lossy(input))
            && (r.state != ERROR ==> !Lossy(input))
  {
    RunAccounts(input);
  }
}
