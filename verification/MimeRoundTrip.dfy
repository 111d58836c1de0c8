/** What the tokenizer's events say about a message, and the messages it understands. */
module MimeRoundTrip {
  import opened Bytes
  import opened ParserEngine
  import opened MimeChars
  import opened MimeMsg
  import opened Lines

  datatype Header = Header(name: seq<byte>, value: seq<byte>)

  /** The headers read so far, the one being read, and the body so far. */
  datatype Draft = Draft(headers: seq<Header>, name: seq<byte>, value: seq<byte>, body: seq<byte>)

  const BLANK := Draft([], [], [], [])

  function Absorb(m: Draft, e: Event<Kind>): Draft {
    match e.kind
    case Name => m.(name := m.name + e.data)
    case Value => m.(value := m.value + e.data)
    case ValueFold => m.(value := m.value + e.data)
    case ValueEnd => Draft(m.headers + [Header(m.name, m.value)], [], [], m.body)
    case Body => m.(body := m.body + e.data)
    case BodyCr => m.(body := m.body + e.data)
    case BodyNewline => m.(body := m.body + e.data)
    case NameEnd => m
    case BodyStart => m
    case Wait => m
    case Unexpected => m
  }

  function AbsorbAll(m: Draft, events: Tokens): Draft {
    if events == [] then m else Absorb(AbsorbAll(m, Front(events)), Last(events))
  }

  lemma {:induction false} AbsorbConcat(m: Draft, a: Tokens, b: Tokens)
    ensures AbsorbAll(m, a + b) == AbsorbAll(AbsorbAll(m, a), b)
  {
    if b == [] {
      assert a + b == a;
    } else {
      AbsorbConcat(m, a, Front(b));
      FrontConcat(a, b);
    }
  }

  lemma AbsorbFew(m: Draft, events: Tokens)
    requires 1 <= |events| <= 2
    ensures AbsorbAll(m, events) ==
            if |events| == 1 then Absorb(m, events[0]) else Absorb(Absorb(m, events[0]), events[1])
  {
    assert AbsorbAll(m, []) == m;
    if |events| == 1 {
      assert Front(events) == [];
    } else {
      assert Front(Front(events)) == [];
      assert AbsorbAll(m, Front(events)) == Absorb(m, events[0]);
    }
  }

  /** The tokenizer's state together with the message its events have drawn so far. */
  datatype Reading = Reading(state: nat, draft: Draft)

  function Advance(r: Reading, c: byte): Reading {
    var n := Next(r.state, c);
    Reading(n.state, AbsorbAll(r.draft, n.events))
  }

  function Read(r: Reading, input: seq<byte>): Reading {
    if input == [] then r else Advance(Read(r, Front(input)), Last(input))
  }

  const START := Reading(NAME0, BLANK)

  /** Read is the tokenizer followed by a reader of its events. */
  lemma {:induction false} ReadIsTokenize(input: seq<byte>)
    ensures Read(START, input) == Reading(Tokenize(input).state, AbsorbAll(BLANK, Tokenize(input).events))
  {
    if input != [] {
      ReadIsTokenize(Front(input));
      var before := Tokenize(Front(input));
      AbsorbConcat(BLANK, before.events, Next(before.state, Last(input)).events);
    }
  }

  lemma {:induction false} ReadConcat(r: Reading, a: seq<byte>, b: seq<byte>)
    ensures Read(r, a + b) == Read(Read(r, a), b)
  {
    if b == [] {
      assert a + b == a;
    } else {
      ReadConcat(r, a, Front(b));
      FrontConcat(a, b);
    }
  }

  lemma ReadPush(r: Reading, a: seq<byte>, c: byte)
    ensures Read(r, a + [c]) == Advance(Read(r, a), c)
  {
    assert Front(a + [c]) == a;
  }

  // ----- The messages -----

  predicate ValidName(n: seq<byte>) {
    n != [] && forall i :: 0 <= i < |n| ==> IsNameChar(n[i])
  }

  /** How far a raw header value has got, folds included. */
  datatype ValueScan = Text | Blanks | AfterCr | AfterCrlf | Broken

  function ScanStep(v: ValueScan, c: byte): ValueScan {
    match v
    case Text => if IsLwsp(c) then Blanks else if c == CR then AfterCr else Text
    case Blanks => if IsLwsp(c) then Blanks else Text
    case AfterCr => if c == LF then AfterCrlf else Text
    case AfterCrlf => if IsLwsp(c) then Blanks else Broken
    case Broken => Broken
  }

  function Scan(v: seq<byte>): ValueScan {
    if v == [] then Text else ScanStep(Scan(Front(v)), Last(v))
  }

  lemma ScanPush(v: seq<byte>, c: byte)
    ensures Scan(v + [c]) == ScanStep(Scan(v), c)
  {
    assert Front(v + [c]) == v;
  }

  lemma ScanPushTwo(v: seq<byte>, c: byte, d: byte)
    ensures Scan(v + [c, d]) == ScanStep(ScanStep(Scan(v), c), d)
  {
    ScanPush(v, c);
    ScanPush(v + [c], d);
    assert v + [c, d] == v + [c] + [d];
  }

  lemma ScanPushFold(v: seq<byte>, c: byte)
    ensures Scan(v + (CRLF + [c])) == ScanStep(ScanStep(ScanStep(Scan(v), CR), LF), c)
  {
    ScanPushTwo(v, CR, LF);
    ScanPush(v + CRLF, c);
    Assoc(v, CRLF, [c]);
  }

  /** A value that the CRLF after it ends: folds are complete, and it does not stop at a blank. */
  predicate ValidValue(v: seq<byte>) { Scan(v) == Text }

  /** In a body a CR comes only before a LF. */
  predicate ValidBody(b: seq<byte>) {
    forall i :: 0 <= i < |b| && b[i] == CR ==> i + 1 < |b| && b[i + 1] == LF
  }

  predicate ValidHeaders(hs: seq<Header>) {
    forall i :: 0 <= i < |hs| ==> ValidName(hs[i].name) && ValidValue(hs[i].value)
  }

  predicate ValidMessage(hs: seq<Header>, body: seq<byte>) {
    hs != [] && ValidHeaders(hs) && ValidBody(body)
  }

  function PrintHeader(h: Header): seq<byte> {
    h.name + [COLON] + h.value + CRLF
  }

  function PrintHeaders(hs: seq<Header>): seq<byte> {
    if hs == [] then [] else PrintHeaders(Front(hs)) + PrintHeader(Last(hs))
  }

  function Print(hs: seq<Header>, body: seq<byte>): seq<byte> {
    PrintHeaders(hs) + CRLF + body
  }

  // ----- From octets to messages: what every run keeps -----

  /** In every state but ERROR the draft is a valid beginning of a message that prints as the input. */
  predicate Draws(r: Reading, input: seq<byte>) {
    var m := r.draft;
    && ValidHeaders(m.headers)
    && match r.state
       case 0 => input == [] && m == BLANK
       case 1 => ValidName(m.name) && m.value == [] && m.body == [] && input == PrintHeaders(m.headers) + m.name
       case 7 => m.name == [] && m.value == [] && m.headers != [] && ValidBody(m.body) && input == Print(m.headers, m.body)
       case 8 => m.name == [] && m.value == [] && m.headers != [] && m.body != [] && Last(m.body) == CR
                 && ValidBody(Front(m.body)) && input == Print(m.headers, m.body)
       case _ => ValidName(m.name) && m.body == []
                 && Scan(m.value) == (if r.state == FOLD then Blanks else Text)
                 && input == Opening(m) + (m.value + Held(r.state))
  }

  /** Everything before the value being read. */
  function Opening(m: Draft): seq<byte> {
    PrintHeaders(m.headers) + m.name + [COLON]
  }

  lemma Append(a: seq<byte>, b: seq<byte>, c: byte)
    ensures (a + b) + [c] == a + (b + [c])
  {
  }

  lemma PrintHeadersPush(hs: seq<Header>, h: Header)
    ensures PrintHeaders(hs + [h]) == PrintHeaders(hs) + PrintHeader(h)
  {
    assert Front(hs + [h]) == hs;
  }

  lemma DrawsName(r: Reading, input: seq<byte>, c: byte)
    requires r.state <= NAME && Draws(r, input)
    requires Next(r.state, c).state != ERROR
    ensures Draws(Advance(r, c), input + [c])
  {
    AbsorbFew(r.draft, Next(r.state, c).events);
  }

  /** What a step inside a value adds to it. */
  function Added(s: nat, c: byte): seq<byte> {
    match s
    case 3 => if c == LF then [] else [CR, c]
    case 4 => if IsLwsp(c) then CRLF + [c] else []
    case _ => if s == VALUE && c == CR then [] else [c]
  }

  lemma AdvanceInValue(r: Reading, c: byte)
    requires VALUE <= r.state <= FOLD && (r.state == VALUE_CRLF ==> IsLwsp(c))
    ensures Advance(r, c) ==
            Reading(Next(r.state, c).state, r.draft.(value := r.draft.value + Added(r.state, c)))
  {
    var m := r.draft;
    AbsorbFew(m, Next(r.state, c).events);
    assert m.value + [] == m.value;
    Assoc(m.value, [CR], [c]);
    Assoc(m.value, CRLF, [c]);
  }

  lemma AddedIsHeld(s: nat, v: seq<byte>, c: byte)
    requires VALUE <= s <= FOLD && (s == VALUE_CRLF ==> IsLwsp(c))
    ensures (v + Added(s, c)) + Held(Next(s, c).state) == (v + Held(s)) + [c]
  {
    assert Added(s, c) + Held(Next(s, c).state) == Held(s) + [c];
    Assoc(v, Added(s, c), Held(Next(s, c).state));
    Assoc(v, Held(s), [c]);
  }

  lemma ScanAdded(s: nat, v: seq<byte>, c: byte)
    requires VALUE <= s <= FOLD && (s == VALUE_CRLF ==> IsLwsp(c))
    requires Scan(v) == if s == FOLD then Blanks else Text
    ensures Scan(v + Added(s, c)) == if Next(s, c).state == FOLD then Blanks else Text
  {
    EmptyConcat(v);
    if s == VALUE_CR {
      ScanPushTwo(v, CR, c);
      assert c == LF ==> Added(s, c) == [];
      assert c != LF ==> Added(s, c) == [CR, c];
    } else if s == VALUE_CRLF {
      ScanPushFold(v, c);
      assert Added(s, c) == CRLF + [c];
    } else {
      ScanPush(v, c);
      assert s == VALUE && c == CR ==> Added(s, c) == [];
    }
  }

  lemma DrawsValue(r: Reading, input: seq<byte>, c: byte)
    requires VALUE <= r.state <= FOLD && (r.state == VALUE_CRLF ==> IsLwsp(c)) && Draws(r, input)
    ensures Draws(Advance(r, c), input + [c])
  {
    var m := r.draft;
    AdvanceInValue(r, c);
    ScanAdded(r.state, m.value, c);
    AddedIsHeld(r.state, m.value, c);
    Append(Opening(m), m.value + Held(r.state), c);
    assert Opening(m.(value := m.value + Added(r.state, c))) == Opening(m);
  }

  lemma DrawsBlankLine(r: Reading, input: seq<byte>)
    requires r.state == VALUE_CRLF && Draws(r, input)
    ensures Draws(Advance(r, CR), input + [CR])
  {
    var m := r.draft;
    AbsorbFew(m, Next(r.state, CR).events);
    Append(Opening(m), m.value + CRLF, CR);
    assert m.value + CRLF + [CR] == m.value + (CRLF + [CR]);
  }

  lemma DrawsNextName(r: Reading, input: seq<byte>, c: byte)
    requires r.state == VALUE_CRLF && Draws(r, input)
    requires Next(r.state, c).state != ERROR && !IsLwsp(c) && c != CR
    ensures Draws(Advance(r, c), input + [c])
  {
    var m := r.draft;
    AbsorbFew(m, Next(r.state, c).events);
    PrintHeadersPush(m.headers, Header(m.name, m.value));
    assert input == PrintHeaders(m.headers) + PrintHeader(Header(m.name, m.value));
  }

  lemma BlankLinePrints(m: Draft)
    ensures Opening(m) + (m.value + (CRLF + [CR])) + [LF] == Print(m.headers + [Header(m.name, m.value)], [])
  {
    PrintHeadersPush(m.headers, Header(m.name, m.value));
    assert (CRLF + [CR]) + [LF] == CRLF + CRLF;
    Append(Opening(m), m.value + (CRLF + [CR]), LF);
    Append(m.value, CRLF + [CR], LF);
    Assoc(m.value, CRLF, CRLF);
    Assoc(Opening(m), m.value + CRLF, CRLF);
    Assoc(Opening(m), m.value, CRLF);
    Assoc(PrintHeaders(m.headers), m.name + [COLON] + m.value, CRLF);
  }

  lemma DrawsValueCrlfCr(r: Reading, input: seq<byte>, c: byte)
    requires r.state == VALUE_CRLF_CR && Draws(r, input)
    requires Next(r.state, c).state != ERROR
    ensures Draws(Advance(r, c), input + [c])
  {
    var m := r.draft;
    BlankLinePrints(m);
    AbsorbFew(m, Next(r.state, c).events);
    assert input == Opening(m) + (m.value + (CRLF + [CR]));
    var hs := m.headers + [Header(m.name, m.value)];
    assert Advance(r, c) == Reading(BODY, Draft(hs, [], [], []));
    assert ValidHeaders(hs);
  }

  lemma BodyPush(body: seq<byte>, c: byte)
    ensures ValidBody(body) && c != CR ==> ValidBody(body + [c])
    ensures body != [] && Last(body) == CR && ValidBody(Front(body)) ==> ValidBody(body + CRLF[1..])
  {
  }

  lemma PrintPush(hs: seq<Header>, body: seq<byte>, c: byte)
    ensures Print(hs, body) + [c] == Print(hs, body + [c])
  {
    Assoc(PrintHeaders(hs) + CRLF, body, [c]);
  }

  lemma AdvanceInBody(r: Reading, c: byte)
    requires BODY <= r.state <= BODY_CR && Next(r.state, c).state != ERROR
    ensures Advance(r, c) == Reading(Next(r.state, c).state, r.draft.(body := r.draft.body + [c]))
  {
    AbsorbFew(r.draft, Next(r.state, c).events);
  }

  /** How a body may go on. */
  lemma BodyStep(state: nat, body: seq<byte>, c: byte)
    requires BODY <= state <= BODY_CR && Next(state, c).state != ERROR
    requires if state == BODY then ValidBody(body) else body != [] && Last(body) == CR && ValidBody(Front(body))
    ensures Last(body + [c]) == c && Front(body + [c]) == body
    ensures if Next(state, c).state == BODY then ValidBody(body + [c]) else c == CR && ValidBody(body)
  {
    BodyPush(body, c);
    assert CRLF[1..] == [LF];
  }

  lemma DrawsBody(r: Reading, input: seq<byte>, c: byte)
    requires BODY <= r.state <= BODY_CR && Draws(r, input)
    requires Next(r.state, c).state != ERROR
    ensures Draws(Advance(r, c), input + [c])
  {
    AdvanceInBody(r, c);
    BodyStep(r.state, r.draft.body, c);
    PrintPush(r.draft.headers, r.draft.body, c);
  }

  lemma DrawsStep(r: Reading, input: seq<byte>, c: byte)
    requires r.state < ERROR && Draws(r, input)
    requires Next(r.state, c).state != ERROR
    ensures Draws(Advance(r, c), input + [c])
  {
    match r.state
    case 0 => DrawsName(r, input, c);
    case 1 => DrawsName(r, input, c);
    case 4 =>
      if IsLwsp(c) {
        DrawsValue(r, input, c);
      } else if c == CR {
        DrawsBlankLine(r, input);
      } else {
        DrawsNextName(r, input, c);
      }
    case 6 => DrawsValueCrlfCr(r, input, c);
    case 7 => DrawsBody(r, input, c);
    case 8 => DrawsBody(r, input, c);
    case _ => DrawsValue(r, input, c);
  }

  lemma {:induction false} RunDraws(input: seq<byte>)
    ensures Read(START, input).state != ERROR ==> Draws(Read(START, input), input)
  {
    if input != [] {
      var before := Front(input);
      RunDraws(before);
      var r := Read(START, before);
      FrontLast(input);
      if Advance(r, Last(input)).state != ERROR {
        DrawsStep(r, before, Last(input));
      }
    }
  }

  // ----- From messages to octets and back -----

  /** A name is read after the start of the input or after a header's CRLF. */
  lemma {:induction false} ReadName(r: Reading, n: seq<byte>)
    requires r == START || (r.state == VALUE_CRLF && r.draft.body == [])
    requires ValidName(n)
    ensures var m := r.draft;
            var hs := if r == START then [] else m.headers + [Header(m.name, m.value)];
            Read(r, n) == Reading(NAME, Draft(hs, n, [], []))
  {
    var f := Front(n);
    ReadPush(r, f, Last(n));
    FrontLast(n);
    if f != [] {
      ReadName(r, f);
    }
    var before := Read(r, f);
    AbsorbFew(before.draft, Next(before.state, Last(n)).events);
  }

  /** What the tokenizer has handed out of a value, given how its scan stands. */
  function HandedOut(scan: ValueScan, v: seq<byte>): seq<byte> {
    match scan
    case AfterCr => if |v| < 1 then [] else Front(v)
    case AfterCrlf => if |v| < 2 then [] else v[..|v| - 2]
    case _ => v
  }

  function ValueState(scan: ValueScan): nat {
    match scan
    case Text => VALUE
    case Blanks => FOLD
    case AfterCr => VALUE_CR
    case AfterCrlf => VALUE_CRLF
    case Broken => ERROR
  }

  /** The tail of v that an unfinished line break takes. */
  predicate Tail(scan: ValueScan, v: seq<byte>) {
    && (scan == AfterCr ==> IsSuffix([CR], v))
    && (scan == AfterCrlf ==> IsSuffix(CRLF, v))
  }

  /** Reading v as a value has brought the reading this far. */
  predicate ReadsValue(r: Reading, m: Draft, scan: ValueScan, v: seq<byte>) {
    Tail(scan, v) && r == Reading(ValueState(scan), m.(value := HandedOut(scan, v)))
  }

  lemma ScanIsState(scan: ValueScan, c: byte)
    requires scan != Broken && ScanStep(scan, c) != Broken
    ensures VALUE <= ValueState(scan) <= FOLD && (ValueState(scan) == VALUE_CRLF ==> IsLwsp(c))
    ensures Next(ValueState(scan), c).state == ValueState(ScanStep(scan, c))
  {
  }

  lemma HandedOutStep(scan: ValueScan, v: seq<byte>, c: byte)
    requires Tail(scan, v) && scan != Broken && ScanStep(scan, c) != Broken
    ensures Tail(ScanStep(scan, c), v + [c])
    ensures HandedOut(ScanStep(scan, c), v + [c]) == HandedOut(scan, v) + Added(ValueState(scan), c)
  {
    assert Front(v + [c]) == v;
    match scan
    case AfterCr => assert v == Front(v) + [CR];
    case AfterCrlf => assert v == v[..|v| - 2] + CRLF;
    case _ =>
  }

  lemma ReadValueStep(r: Reading, m: Draft, scan: ValueScan, v: seq<byte>, c: byte)
    requires ReadsValue(r, m, scan, v) && scan != Broken && ScanStep(scan, c) != Broken
    ensures ReadsValue(Advance(r, c), m, ScanStep(scan, c), v + [c])
  {
    ScanIsState(scan, c);
    AdvanceInValue(r, c);
    HandedOutStep(scan, v, c);
  }

  lemma {:induction false} ReadValue(r: Reading, v: seq<byte>)
    requires r.state == VALUE && r.draft.value == []
    requires Scan(v) != Broken
    ensures ReadsValue(Read(r, v), r.draft, Scan(v), v)
  {
    if v != [] {
      ReadValue(r, Front(v));
      ReadValueStep(Read(r, Front(v)), r.draft, Scan(Front(v)), Front(v), Last(v));
      FrontLast(v);
    }
  }

  lemma {:induction false} ReadBody(r: Reading, b: seq<byte>)
    requires r.state == BODY && r.draft.body == []
    requires forall i :: 0 <= i < |b| - 1 && b[i] == CR ==> b[i + 1] == LF
    ensures Read(r, b) ==
            Reading(if b != [] && Last(b) == CR then BODY_CR else BODY, r.draft.(body := b))
  {
    if b != [] {
      var f := Front(b);
      ReadBody(r, f);
      AdvanceInBody(Read(r, f), Last(b));
      FrontLast(b);
    }
  }

  lemma ReadLabel(r: Reading, name: seq<byte>)
    requires r == START || (r.state == VALUE_CRLF && r.draft.body == [])
    requires ValidName(name)
    ensures var m := r.draft;
            var hs := if r == START then [] else m.headers + [Header(m.name, m.value)];
            Read(r, name + [COLON]) == Reading(VALUE, Draft(hs, name, [], []))
  {
    ReadName(r, name);
    ReadPush(r, name, COLON);
    AbsorbFew(Read(r, name).draft, Next(NAME, COLON).events);
  }

  lemma ReadRestOfHeader(r: Reading, v: seq<byte>)
    requires r.state == VALUE && r.draft.value == [] && ValidValue(v)
    ensures Read(r, v + CRLF) == Reading(VALUE_CRLF, r.draft.(value := v))
  {
    ScanPushTwo(v, CR, LF);
    ReadValue(r, v + CRLF);
  }

  /** A header, read after the start or after another header, is waiting for what comes after its CRLF. */
  lemma ReadHeader(r: Reading, h: Header)
    requires r == START || (r.state == VALUE_CRLF && r.draft.body == [])
    requires ValidName(h.name) && ValidValue(h.value)
    ensures var m := r.draft;
            var hs := if r == START then [] else m.headers + [Header(m.name, m.value)];
            Read(r, PrintHeader(h)) == Reading(VALUE_CRLF, Draft(hs, h.name, h.value, []))
  {
    ReadLabel(r, h.name);
    ReadRestOfHeader(Read(r, h.name + [COLON]), h.value);
    ReadConcat(r, h.name + [COLON], h.value + CRLF);
    Assoc(h.name + [COLON], h.value, CRLF);
  }

  /** All of hs is read, and the last one waits for what comes after its CRLF. */
  predicate Pending(hs: seq<Header>, r: Reading)
    requires hs != []
  {
    r == Reading(VALUE_CRLF, Draft(Front(hs), Last(hs).name, Last(hs).value, []))
  }

  lemma ReadNextHeader(hs: seq<Header>, r: Reading, h: Header)
    requires ValidName(h.name) && ValidValue(h.value)
    requires if hs == [] then r == START else Pending(hs, r)
    ensures Pending(hs + [h], Read(r, PrintHeader(h)))
  {
    ReadHeader(r, h);
    assert Front(hs + [h]) == hs;
    if hs != [] {
      assert hs == Front(hs) + [Header(Last(hs).name, Last(hs).value)];
    }
  }

  lemma {:induction false} ReadHeaders(hs: seq<Header>)
    requires hs != [] && ValidHeaders(hs)
    ensures Pending(hs, Read(START, PrintHeaders(hs)))
  {
    var before := Front(hs);
    if before == [] {
      assert Read(START, PrintHeaders(before)) == START;
    } else {
      ReadHeaders(before);
    }
    ReadNextHeader(before, Read(START, PrintHeaders(before)), Last(hs));
    ReadConcat(START, PrintHeaders(before), PrintHeader(Last(hs)));
    FrontLast(hs);
  }

  lemma ReadPrint(hs: seq<Header>, body: seq<byte>)
    requires ValidMessage(hs, body)
    ensures Read(START, Print(hs, body)) == Reading(BODY, Draft(hs, [], [], body))
  {
    ReadHeaders(hs);
    var r := Read(START, PrintHeaders(hs));
    ReadPush(START, PrintHeaders(hs), CR);
    AbsorbFew(r.draft, Next(r.state, CR).events);
    var r' := Advance(r, CR);
    ReadPush(START, PrintHeaders(hs) + [CR], LF);
    AbsorbFew(r'.draft, Next(r'.state, LF).events);
    assert PrintHeaders(hs) + [CR] + [LF] == PrintHeaders(hs) + CRLF;
    assert hs == Front(hs) + [Header(Last(hs).name, Last(hs).value)];
    ReadBody(Read(START, PrintHeaders(hs) + CRLF), body);
    ReadConcat(START, PrintHeaders(hs) + CRLF, body);
  }

  /**
   * Printing a list of headers and a body and tokenizing the octets gives them back,
   * exactly when the list and the body are valid.
   */
  lemma PrintThenTokenize(hs: seq<Header>, body: seq<byte>)
    ensures var r := Tokenize(Print(hs, body));
            (r.state == BODY && AbsorbAll(BLANK, r.events) == Draft(hs, [], [], body))
            <==> ValidMessage(hs, body)
  {
    var input := Print(hs, body);
    ReadIsTokenize(input);
    if ValidMessage(hs, body) {
      ReadPrint(hs, body);
    } else {
      RunDraws(input);
    }
  }

  /** Whatever the tokenizer takes as a whole message is a valid message, printed. */
  lemma TokenizeThenPrint(input: seq<byte>)
    requires Tokenize(input).state == BODY
    ensures var m := AbsorbAll(BLANK, Tokenize(input).events);
            ValidMessage(m.headers, m.body) && Print(m.headers, m.body) == input
  {
    ReadIsTokenize(input);
    RunDraws(input);
  }

  // ----- Values in the terms of RFC 822 -----

  /** Folds are CRLF before a blank, there is no other CR, and no CR or end comes right after a blank. */
  predicate FoldedValue(v: seq<byte>) {
    && (forall i :: 0 <= i < |v| && v[i] == CR ==>
          && i + 2 < |v| && v[i + 1] == LF && IsLwsp(v[i + 2])
          && (i == 0 || !IsLwsp(v[i - 1])))
    && (v == [] || !IsLwsp(Last(v)))
  }

  lemma {:induction false} FoldedPrefix(v: seq<byte>, k: nat)
    requires FoldedValue(v) && k <= |v|
    ensures Scan(v[..k]) ==
            if k == 0 then Text
            else if IsLwsp(v[k - 1]) then Blanks
            else if v[k - 1] == CR then AfterCr
            else if k >= 2 && v[k - 2] == CR then AfterCrlf
            else Text
  {
    if k > 0 {
      FoldedPrefix(v, k - 1);
      assert Front(v[..k]) == v[..k - 1];
    }
  }

  /** Every properly folded RFC 822 value is one the round trip covers. */
  lemma FoldedIsValid(v: seq<byte>)
    requires FoldedValue(v)
    ensures ValidValue(v)
  {
    FoldedPrefix(v, |v|);
    assert v[..|v|] == v;
  }

  /** Every CR is followed by LF, and comes right after no blank. */
  predicate CrOnlyInBreaks(v: seq<byte>) {
    forall i :: 0 <= i < |v| && v[i] == CR ==> i + 1 < |v| && v[i + 1] == LF && (i == 0 || !IsLwsp(v[i - 1]))
  }

  /** Where the scan of such a value stands; a break that no blank follows has broken it for good. */
  predicate Stands(v: seq<byte>, k: nat)
    requires k <= |v|
  {
    match Scan(v[..k])
    case Text => k == 0 || (!IsLwsp(v[k - 1]) && v[k - 1] != CR && !(k >= 2 && v[k - 2] == CR))
    case Blanks => k > 0 && IsLwsp(v[k - 1])
    case AfterCr => k > 0 && v[k - 1] == CR
    case AfterCrlf => k > 1 && v[k - 2] == CR && v[k - 1] == LF
    case Broken => true
  }

  lemma StandsStep(v: seq<byte>, k: nat)
    requires CrOnlyInBreaks(v) && k < |v| && Stands(v, k)
    ensures Stands(v, k + 1)
    ensures Scan(v[..k + 1]) != Broken ==> Scan(v[..k]) != Broken
    ensures Scan(v[..k]) == AfterCrlf && Scan(v[..k + 1]) != Broken ==> IsLwsp(v[k])
  {
    assert Front(v[..k + 1]) == v[..k];
  }

  lemma {:induction false} StandsThroughout(v: seq<byte>, k: nat)
    requires CrOnlyInBreaks(v) && k <= |v|
    ensures Stands(v, k)
  {
    if k > 0 {
      StandsThroughout(v, k - 1);
      StandsStep(v, k - 1);
    }
  }

  lemma {:induction false} UnbrokenSoFar(v: seq<byte>, k: nat)
    requires k <= |v| && Scan(v) != Broken
    ensures Scan(v[..k]) != Broken
    decreases |v| - k
  {
    if k == |v| {
      assert v[..k] == v;
    } else {
      UnbrokenSoFar(v, k + 1);
      assert Front(v[..k + 1]) == v[..k];
    }
  }

  /** Among values whose CRs are in line breaks only, the valid ones are exactly the properly folded ones. */
  lemma ValidIsFolded(v: seq<byte>)
    requires CrOnlyInBreaks(v)
    ensures ValidValue(v) <==> FoldedValue(v)
  {
    if FoldedValue(v) {
      FoldedIsValid(v);
    }
    if ValidValue(v) {
      assert v[..|v|] == v;
      StandsThroughout(v, |v|);
      forall i | 0 <= i < |v| && v[i] == CR
        ensures i + 2 < |v| && IsLwsp(v[i + 2])
      {
        BreakGoesOn(v, i);
      }
    }
  }

  /** A break in a value that is not broken is followed by a blank. */
  lemma BreakGoesOn(v: seq<byte>, i: nat)
    requires CrOnlyInBreaks(v) && ValidValue(v) && i < |v| && v[i] == CR
    ensures i + 2 < |v| && IsLwsp(v[i + 2])
  {
    assert v[..|v|] == v;
    StandsThroughout(v, i + 2);
    UnbrokenSoFar(v, i + 2);
    assert Scan(v[..i + 2]) == AfterCrlf;
    if i + 2 < |v| {
      StandsStep(v, i + 2);
      UnbrokenSoFar(v, i + 3);
    }
  }

  // ----- Any value, read off its octets -----

  /** The CRs that x ends in begin a line break, a LF permitting: they are odd in number; or even, right after blanks. */
  predicate Counts(x: seq<byte>)
    decreases |x|, 1
  {
    CrRun(x) > 0 && (CrRun(x) % 2 == 1) != InBlanks(BeforeCrs(x))
  }

  /** A blank comes last, unless it is taken as what follows a CR. */
  predicate InBlanks(b: seq<byte>)
    decreases |b|, 0
  {
    b != [] && IsLwsp(Last(b)) && !Counts(Front(b))
  }

  predicate EndsInBreak(x: seq<byte>) {
    x != [] && Last(x) == LF && Counts(Front(x))
  }

  /** Some line break is followed by something else than a blank. */
  predicate BreaksOff(v: seq<byte>) {
    v != [] && (BreaksOff(Front(v)) || (EndsInBreak(Front(v)) && !IsLwsp(Last(v))))
  }

  function AfterCrRun(scan: ValueScan, n: nat): ValueScan {
    if n == 0 then scan else if (n % 2 == 1) == (scan == Text) then AfterCr else Text
  }

  lemma {:induction false} ScanCrs(x: seq<byte>)
    requires Scan(x) != Broken
    ensures var b := Scan(BeforeCrs(x));
            && (b == Text || b == Blanks || (b == AfterCrlf && CrRun(x) == 0))
            && Scan(x) == AfterCrRun(b, CrRun(x))
  {
    if x != [] {
      FrontLast(x);
      if Last(x) == CR {
        ScanCrs(Front(x));
      }
    }
  }

  lemma {:induction false} ScanReadsOff(v: seq<byte>)
    ensures Scan(v) == Broken <==> BreaksOff(v)
    ensures Scan(v) != Broken ==>
              && (Scan(v) == AfterCr <==> Counts(v))
              && (Scan(v) == Blanks <==> InBlanks(v))
              && (Scan(v) == AfterCrlf <==> EndsInBreak(v))
    decreases |v|
  {
    if v != [] {
      var f := Front(v);
      ScanReadsOff(f);
      if Scan(v) != Broken {
        ScanCrs(v);
        if CrRun(v) > 0 {
          ScanReadsOff(BeforeCrs(v));
        }
      }
    }
  }

  /** On any value: it does not end in a blank, a CR that counts or a line break, and its line breaks are followed by blanks. */
  lemma ValidReadOff(v: seq<byte>)
    ensures ValidValue(v) <==> !InBlanks(v) && !Counts(v) && !EndsInBreak(v) && !BreaksOff(v)
  {
    ScanReadsOff(v);
  }

  /** A header whose value is one blank is not given back: the CR after the blank is taken into the value. */
  lemma BlankValueIsLost(name: seq<byte>, body: seq<byte>)
    ensures var hs, r := [Header(name, [SPACE])], Tokenize(Print([Header(name, [SPACE])], body));
            !(r.state == BODY && AbsorbAll(BLANK, r.events) == Draft(hs, [], [], body))
  {
    assert Front([SPACE]) == [] && Scan([SPACE]) == Blanks;
    assert !ValidHeaders([Header(name, [SPACE])]) by {
      assert [Header(name, [SPACE])][0].value == [SPACE];
    }
    PrintThenTokenize([Header(name, [SPACE])], body);
  }
}
