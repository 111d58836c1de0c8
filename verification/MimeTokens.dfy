/** Which events the tokenizer gives for which octets (mime_msg.c). */
module MimeTokens {
  import opened Bytes
  import opened ParserEngine
  import opened MimeChars
  import opened MimeMsg
  import opened MimeRoundTrip

  /** The events that say something. */
  function Told(events: Tokens): Tokens {
    if events == [] then [] else Told(Front(events)) + if Last(events).kind == Wait then [] else [Last(events)]
  }

  lemma {:induction false} ToldConcat(a: Tokens, b: Tokens)
    ensures Told(a + b) == Told(a) + Told(b)
  {
    if b == [] {
      assert a + b == a;
    } else {
      ToldConcat(a, Front(b));
      FrontConcat(a, b);
    }
  }

  lemma ToldOne(events: Tokens)
    requires |events| == 1
    ensures Told(events) == if events[0].kind == Wait then [] else events
  {
    assert Front(events) == [];
    assert Told(events) == [] + if events[0].kind == Wait then [] else [events[0]];
  }

  lemma ToldFew(events: Tokens)
    requires 1 <= |events| <= 2 && (|events| == 1 || (events[0].kind != Wait && events[1].kind != Wait))
    ensures Told(events) == if |events| == 1 && events[0].kind == Wait then [] else events
  {
    if |events| == 1 {
      ToldOne(events);
    } else {
      ToldOne(Front(events));
      FrontLast(events);
    }
  }

  // ----- The events of a message, read off it -----

  /** One event for each octet. */
  function Each(kind: Kind, octets: seq<byte>): Tokens {
    if octets == [] then [] else Each(kind, Front(octets)) + [Event(kind, [Last(octets)])]
  }

  /** A blank, if it is taken as one, and the CRLF of a fold are ValueFold; all else of a value is Value. */
  function ValueTokens(v: seq<byte>): Tokens
    decreases |v|
  {
    if v == [] then []
    else if EndsInBreak(v) && |v| >= 2 then ValueTokens(v[..|v| - 2]) + [Event(ValueFold, CRLF)]
    else ValueTokens(Front(v)) + [Event(if InBlanks(v) then ValueFold else Value, [Last(v)])]
  }

  function HeaderTokens(h: Header): Tokens {
    Each(Name, h.name) + [Event(NameEnd, [COLON])] + ValueTokens(h.value) + [Event(ValueEnd, CRLF)]
  }

  function HeadersTokens(hs: seq<Header>): Tokens {
    if hs == [] then [] else HeadersTokens(Front(hs)) + HeaderTokens(Last(hs))
  }

  function BodyKind(before: seq<byte>, c: byte): Kind {
    if c == CR then BodyCr else if c == LF && before != [] && Last(before) == CR then BodyNewline else Body
  }

  function BodyTokens(b: seq<byte>): Tokens {
    if b == [] then [] else BodyTokens(Front(b)) + [Event(BodyKind(Front(b), Last(b)), [Last(b)])]
  }

  function MessageTokens(hs: seq<Header>, body: seq<byte>): Tokens {
    HeadersTokens(hs) + [Event(BodyStart, CRLF)] + BodyTokens(body)
  }

  /** What has been told of the header or body going on, in a state. */
  function PartTokens(state: nat, m: Draft): Tokens {
    match state
    case 0 => []
    case 1 => Each(Name, m.name)
    case 7 => [Event(BodyStart, CRLF)] + BodyTokens(m.body)
    case 8 => [Event(BodyStart, CRLF)] + BodyTokens(m.body)
    case _ => LabelTokens(m) + ValueTokens(m.value)
  }

  function LabelTokens(m: Draft): Tokens {
    Each(Name, m.name) + [Event(NameEnd, [COLON])]
  }

  /** The events of what has been read. */
  function DraftTokens(r: Reading): Tokens {
    HeadersTokens(r.draft.headers) + PartTokens(r.state, r.draft)
  }

  // ----- One octet -----

  lemma EachPush(kind: Kind, octets: seq<byte>, c: byte)
    ensures Each(kind, octets + [c]) == Each(kind, octets) + [Event(kind, [c])]
  {
    assert Front(octets + [c]) == octets;
  }

  lemma HeadersPush(hs: seq<Header>, h: Header)
    ensures HeadersTokens(hs + [h]) == HeadersTokens(hs) + HeaderTokens(h)
  {
    assert Front(hs + [h]) == hs;
  }

  lemma BodyTokensPush(b: seq<byte>, c: byte)
    ensures BodyTokens(b + [c]) == BodyTokens(b) + [Event(BodyKind(b, c), [c])]
  {
    assert Front(b + [c]) == b;
  }

  /** An octet of a value that completes no line break. */
  lemma ValuePush(v: seq<byte>, c: byte)
    requires Scan(v + [c]) != Broken && Scan(v + [c]) != AfterCrlf
    ensures ValueTokens(v + [c]) ==
            ValueTokens(v) + [Event(if Scan(v + [c]) == Blanks then ValueFold else Value, [c])]
  {
    ScanReadsOff(v + [c]);
    assert Front(v + [c]) == v;
  }

  lemma ValuePushBreak(v: seq<byte>)
    requires Scan(v) == Text
    ensures ValueTokens(v + CRLF) == ValueTokens(v) + [Event(ValueFold, CRLF)]
  {
    ScanPushTwo(v, CR, LF);
    ScanReadsOff(v + CRLF);
    assert (v + CRLF)[..|v|] == v;
  }

  /** A CR that was held, and the octet that has shown it to be part of the value. */
  lemma ToldAfterCr(v: seq<byte>, c: byte)
    requires Scan(v) == Text && c != LF
    ensures ValueTokens(v + [CR, c]) == ValueTokens(v) + [Event(Value, [CR]), Event(Value, [c])]
  {
    ScanPush(v, CR);
    ScanPush(v + [CR], c);
    ValuePush(v, CR);
    ValuePush(v + [CR], c);
    assert v + [CR, c] == v + [CR] + [c];
    assert [Event(Value, [CR])] + [Event(Value, [c])] == [Event(Value, [CR]), Event(Value, [c])];
    Assoc(ValueTokens(v), [Event(Value, [CR])], [Event(Value, [c])]);
  }

  /** A line break that was held, and the blank that has shown it to be a fold. */
  lemma ToldAfterCrlf(v: seq<byte>, c: byte)
    requires Scan(v) == Text && IsLwsp(c)
    ensures ValueTokens(v + (CRLF + [c])) == ValueTokens(v) + [Event(ValueFold, CRLF), Event(ValueFold, [c])]
  {
    ScanPushFold(v, c);
    ValuePushBreak(v);
    Assoc(v, CRLF, [c]);
    ValuePush(v + CRLF, c);
    assert [Event(ValueFold, CRLF)] + [Event(ValueFold, [c])] == [Event(ValueFold, CRLF), Event(ValueFold, [c])];
    Assoc(ValueTokens(v), [Event(ValueFold, CRLF)], [Event(ValueFold, [c])]);
  }

  lemma ToldAtOnce(s: nat, v: seq<byte>, c: byte)
    requires (s == VALUE || s == FOLD) && Scan(v) == (if s == FOLD then Blanks else Text) && !(s == VALUE && c == CR)
    ensures ValueTokens(v + [c]) == ValueTokens(v) + Next(s, c).events
  {
    ScanPush(v, c);
    ValuePush(v, c);
  }

  lemma ValueTold(s: nat, v: seq<byte>, c: byte)
    requires VALUE <= s <= FOLD && (s == VALUE_CRLF ==> IsLwsp(c))
    requires Scan(v) == if s == FOLD then Blanks else Text
    ensures ValueTokens(v + Added(s, c)) == ValueTokens(v) + Told(Next(s, c).events)
  {
    ToldFew(Next(s, c).events);
    if Next(s, c).events == [Event(Wait, [])] {
      assert Added(s, c) == [];
      EmptyConcat(v);
      EmptyConcat(ValueTokens(v));
    } else if s == VALUE_CR {
      ToldAfterCr(v, c);
    } else if s == VALUE_CRLF {
      ToldAfterCrlf(v, c);
    } else {
      ToldAtOnce(s, v, c);
    }
  }

  /** The octet c is told as events. */
  predicate Tells(r: Reading, c: byte) {
    DraftTokens(Advance(r, c)) == DraftTokens(r) + Told(Next(r.state, c).events)
  }

  lemma NameTells(r: Reading, c: byte)
    requires r.state == NAME0 ==> r.draft == BLANK
    requires r.state <= NAME && Next(r.state, c).state == NAME
    ensures Tells(r, c)
  {
    var m := r.draft;
    AbsorbFew(m, Next(r.state, c).events);
    assert Advance(r, c) == Reading(NAME, m.(name := m.name + [c]));
    ToldFew(Next(r.state, c).events);
    EachPush(Name, m.name, c);
    assert PartTokens(r.state, m) == Each(Name, m.name);
    Assoc(HeadersTokens(m.headers), Each(Name, m.name), [Event(Name, [c])]);
  }

  lemma ColonTells(r: Reading)
    requires r.state == NAME && r.draft.value == []
    ensures Tells(r, COLON)
  {
    var m := r.draft;
    AbsorbFew(m, Next(NAME, COLON).events);
    assert Advance(r, COLON) == Reading(VALUE, m);
    ToldFew(Next(NAME, COLON).events);
    EmptyConcat(LabelTokens(m));
    assert PartTokens(VALUE, m) == LabelTokens(m);
    Assoc(HeadersTokens(m.headers), Each(Name, m.name), [Event(NameEnd, [COLON])]);
  }

  lemma ValueTells(r: Reading, c: byte)
    requires VALUE <= r.state <= FOLD && (r.state == VALUE_CRLF ==> IsLwsp(c))
    requires Scan(r.draft.value) == if r.state == FOLD then Blanks else Text
    ensures Tells(r, c)
  {
    var m, next := r.draft, Next(r.state, c);
    AdvanceInValue(r, c);
    ValueTold(r.state, m.value, c);
    MoreValue(m, Added(r.state, c), Told(next.events));
    InValue(next.state, m.(value := m.value + Added(r.state, c)));
    InValue(r.state, m);
  }

  lemma InValue(state: nat, m: Draft)
    requires VALUE <= state <= FOLD
    ensures PartTokens(state, m) == LabelTokens(m) + ValueTokens(m.value)
  {
  }

  lemma MoreValue(m: Draft, added: seq<byte>, told: Tokens)
    requires ValueTokens(m.value + added) == ValueTokens(m.value) + told
    ensures HeadersTokens(m.headers) + (LabelTokens(m) + ValueTokens(m.value + added)) ==
            (HeadersTokens(m.headers) + (LabelTokens(m) + ValueTokens(m.value))) + told
  {
    Assoc(LabelTokens(m), ValueTokens(m.value), told);
    Assoc(HeadersTokens(m.headers), LabelTokens(m) + ValueTokens(m.value), told);
  }

  lemma WaitTells(r: Reading)
    requires r.state == VALUE_CRLF
    ensures Tells(r, CR)
  {
    AbsorbFew(r.draft, Next(r.state, CR).events);
    ToldFew(Next(r.state, CR).events);
    EmptyConcat(DraftTokens(r));
  }

  /** A header is over. */
  lemma HeaderEnds(m: Draft)
    ensures HeadersTokens(m.headers + [Header(m.name, m.value)]) ==
            HeadersTokens(m.headers) + (LabelTokens(m) + ValueTokens(m.value)) + [Event(ValueEnd, CRLF)]
  {
    HeadersPush(m.headers, Header(m.name, m.value));
    Assoc(HeadersTokens(m.headers), LabelTokens(m) + ValueTokens(m.value), [Event(ValueEnd, CRLF)]);
  }

  lemma OneMoreName(m: Draft, c: byte)
    ensures HeadersTokens(m.headers + [Header(m.name, m.value)]) + Each(Name, [c]) ==
            HeadersTokens(m.headers) + (LabelTokens(m) + ValueTokens(m.value)) + [Event(ValueEnd, CRLF), Event(Name, [c])]
  {
    HeaderEnds(m);
    assert Front([c]) == [] && Each(Name, []) == [];
    assert Each(Name, [c]) == [Event(Name, [c])];
    Assoc(HeadersTokens(m.headers) + (LabelTokens(m) + ValueTokens(m.value)), [Event(ValueEnd, CRLF)], [Event(Name, [c])]);
    assert [Event(ValueEnd, CRLF)] + [Event(Name, [c])] == [Event(ValueEnd, CRLF), Event(Name, [c])];
  }

  lemma NextNameTells(r: Reading, c: byte)
    requires r.state == VALUE_CRLF && Next(r.state, c).state == NAME
    ensures Tells(r, c)
  {
    var m := r.draft;
    AbsorbFew(m, Next(r.state, c).events);
    ToldFew(Next(r.state, c).events);
    OneMoreName(m, c);
    assert [] + [c] == [c];
  }

  lemma OneBodyStart(m: Draft)
    ensures HeadersTokens(m.headers + [Header(m.name, m.value)]) + ([Event(BodyStart, CRLF)] + BodyTokens([])) ==
            HeadersTokens(m.headers) + (LabelTokens(m) + ValueTokens(m.value)) + [Event(ValueEnd, CRLF), Event(BodyStart, CRLF)]
  {
    HeaderEnds(m);
    EmptyConcat([Event(BodyStart, CRLF)]);
    Assoc(HeadersTokens(m.headers) + (LabelTokens(m) + ValueTokens(m.value)), [Event(ValueEnd, CRLF)], [Event(BodyStart, CRLF)]);
    assert [Event(ValueEnd, CRLF)] + [Event(BodyStart, CRLF)] == [Event(ValueEnd, CRLF), Event(BodyStart, CRLF)];
  }

  lemma BlankLineTells(r: Reading)
    requires r.state == VALUE_CRLF_CR && r.draft.body == []
    ensures Tells(r, LF)
  {
    var m := r.draft;
    AbsorbFew(m, Next(r.state, LF).events);
    assert Advance(r, LF) == Reading(BODY, Draft(m.headers + [Header(m.name, m.value)], [], [], []));
    ToldFew(Next(r.state, LF).events);
    OneBodyStart(m);
  }

  lemma BodyTells(r: Reading, input: seq<byte>, c: byte)
    requires BODY <= r.state <= BODY_CR && Draws(r, input) && Next(r.state, c).state != ERROR
    ensures Tells(r, c)
  {
    var m := r.draft;
    AdvanceInBody(r, c);
    ToldFew(Next(r.state, c).events);
    BodyTokensPush(m.body, c);
    assert Next(r.state, c).events == [Event(BodyKind(m.body, c), [c])] by {
      if r.state == BODY && m.body != [] {
        assert m.body[|m.body| - 1] != CR;
      }
    }
    Assoc([Event(BodyStart, CRLF)], BodyTokens(m.body), [Event(BodyKind(m.body, c), [c])]);
    Assoc(HeadersTokens(m.headers), [Event(BodyStart, CRLF)] + BodyTokens(m.body), [Event(BodyKind(m.body, c), [c])]);
  }

  lemma StepTells(r: Reading, input: seq<byte>, c: byte)
    requires r.state < ERROR && Draws(r, input) && Next(r.state, c).state != ERROR
    ensures Tells(r, c)
  {
    match r.state
    case 0 => NameTells(r, c);
    case 1 =>
      if c == COLON {
        ColonTells(r);
      } else {
        NameTells(r, c);
      }
    case 4 =>
      if IsLwsp(c) {
        ValueTells(r, c);
      } else if c == CR {
        WaitTells(r);
      } else {
        NextNameTells(r, c);
      }
    case 6 => BlankLineTells(r);
    case 7 => BodyTells(r, input, c);
    case 8 => BodyTells(r, input, c);
    case _ => ValueTells(r, c);
  }

  // ----- Whole inputs -----

  /** After any input that has not been found wrong, the events told are those of what has been read. */
  lemma {:induction false} RunTells(input: seq<byte>)
    requires Tokenize(input).state != ERROR
    ensures Told(Tokenize(input).events) == DraftTokens(Read(START, input))
  {
    if input != [] {
      var f, c := Front(input), Last(input);
      ReadIsTokenize(f);
      ReadIsTokenize(input);
      RunTells(f);
      RunDraws(f);
      StepTells(Read(START, f), f, c);
      ToldConcat(Tokenize(f).events, Next(Tokenize(f).state, c).events);
    }
  }

  /** The events of a valid message, printed, are those read off its octets. */
  lemma MessageTells(hs: seq<Header>, body: seq<byte>)
    requires ValidMessage(hs, body)
    ensures Told(Tokenize(Print(hs, body)).events) == MessageTokens(hs, body)
  {
    var input := Print(hs, body);
    ReadIsTokenize(input);
    ReadPrint(hs, body);
    RunTells(input);
    Assoc(HeadersTokens(hs), [Event(BodyStart, CRLF)], BodyTokens(body));
  }

  // ----- Values in the terms of RFC 822 -----

  /** Blanks and the CRLF of a fold are ValueFold, all else is Value. */
  function FoldTokens(v: seq<byte>): Tokens
    decreases |v|
  {
    if v == [] then []
    else if EndsInCrlf(v) then FoldTokens(v[..|v| - 2]) + [Event(ValueFold, CRLF)]
    else FoldTokens(Front(v)) + [Event(if IsLwsp(Last(v)) then ValueFold else Value, [Last(v)])]
  }

  predicate EndsInCrlf(p: seq<byte>) {
    |p| >= 2 && p[|p| - 2..] == CRLF
  }

  /** What the end of a properly folded value, cut off after no CR, is to the tokenizer. */
  lemma FoldedEnd(v: seq<byte>, k: nat)
    requires FoldedValue(v) && 0 < k <= |v| && v[k - 1] != CR
    ensures EndsInBreak(v[..k]) <==> EndsInCrlf(v[..k])
    ensures InBlanks(v[..k]) <==> IsLwsp(v[k - 1])
    ensures EndsInCrlf(v[..k]) ==> k == 2 || v[k - 3] != CR
  {
    FoldedPrefix(v, k);
    ScanReadsOff(v[..k]);
    assert k >= 2 ==> v[..k][k - 2..] == [v[k - 2], v[k - 1]];
  }

  /** A properly folded value gives just these. */
  lemma {:induction false} FoldedTells(v: seq<byte>, k: nat)
    requires FoldedValue(v) && k <= |v| && (k > 0 ==> v[k - 1] != CR)
    ensures ValueTokens(v[..k]) == FoldTokens(v[..k])
  {
    if k > 0 {
      FoldedEnd(v, k);
      if EndsInCrlf(v[..k]) {
        assert v[..k][..k - 2] == v[..k - 2];
        FoldedTells(v, k - 2);
      } else {
        assert Front(v[..k]) == v[..k - 1];
        NoCrBefore(v, k);
        FoldedTells(v, k - 1);
      }
    }
  }

  lemma NoCrBefore(v: seq<byte>, k: nat)
    requires FoldedValue(v) && 0 < k <= |v| && v[k - 1] != CR && !EndsInCrlf(v[..k])
    ensures k > 1 ==> v[k - 2] != CR
  {
    assert k >= 2 ==> v[..k][k - 2..] == [v[k - 2], v[k - 1]];
  }

  // ----- Inputs found wrong -----

  /** The end of a value, where that was certain, and the octet. */
  function WrongTokens(s: nat, c: byte): Tokens {
    (if s == VALUE_CRLF_CR || (s == VALUE_CRLF && IsCtl(c) && c != COLON) then [Event(ValueEnd, CRLF)] else [])
    + [Event(Unexpected, [c])]
  }

  lemma ErrorTells(s: nat, c: byte)
    requires Next(s, c).state == ERROR
    ensures Told(Next(s, c).events) == WrongTokens(s, c)
  {
    ToldFew(Next(s, c).events);
  }

  /** That is told with the first octet found wrong. */
  lemma FirstWrong(input: seq<byte>, c: byte)
    requires Tokenize(input).state != ERROR && Tokenize(input + [c]).state == ERROR
    ensures Told(Tokenize(input + [c]).events) == DraftTokens(Read(START, input)) + WrongTokens(Tokenize(input).state, c)
  {
    assert Front(input + [c]) == input;
    var before := Tokenize(input);
    RunTells(input);
    ErrorTells(before.state, c);
    ToldConcat(before.events, Next(before.state, c).events);
  }

  lemma OneComplaint(c: byte)
    ensures Told(Next(ERROR, c).events) == [Event(Unexpected, [c])] && Next(ERROR, c).state == ERROR
  {
    ToldFew(Next(ERROR, c).events);
  }

  /** Once an octet has been found wrong each one after it is told as unexpected, and nothing else is told any more. */
  lemma {:induction false} WrongForGood(input: seq<byte>, more: seq<byte>)
    requires Tokenize(input).state == ERROR
    ensures Tokenize(input + more).state == ERROR
    ensures Told(Tokenize(input + more).events) == Told(Tokenize(input).events) + Each(Unexpected, more)
  {
    if more == [] {
      EmptyConcat(input);
      EmptyConcat(Told(Tokenize(input).events));
    } else {
      FrontConcat(input, more);
      WrongForGood(input, Front(more));
      var before, c := Tokenize(input + Front(more)), Last(more);
      OneComplaint(c);
      ToldConcat(before.events, Next(before.state, c).events);
      Assoc(Told(Tokenize(input).events), Each(Unexpected, Front(more)), [Event(Unexpected, [c])]);
    }
  }
}
