/** Finding the end of a multi-line response (pop3_multiline_response_parser.c). */
module MultilineResponse {
  import opened Bytes
  import opened Options
  import opened ParserEngine
  import opened Lines

  datatype Kind = DatStuffed | DatStuffedEnd

  const CRLFDOT := 0
  const CRLFDOTCR := 1
  const CRLFDOTCRLF := 2
  const DOT_DATA := 3
  const IN_CR := 4
  const IN_CRLF := 5

  const DO_DAT_STUFFED := Action(DatStuffed, Fed)
  const DO_DAT_STUFFED_END := Action(DatStuffedEnd, Nothing)
  const DO_IGNORE := Action(DatStuffed, Nothing)

  type Row = Transition<Kind>

  const ST_CRLFDOT: seq<Row> := [
    Transition(Octet(CR), CRLFDOTCR, DO_DAT_STUFFED, None),
    Transition(Any, DOT_DATA, DO_DAT_STUFFED, None)]

  const ST_CRLFDOTCR: seq<Row> := [
    Transition(Octet(LF), CRLFDOTCRLF, DO_DAT_STUFFED, Some(DO_DAT_STUFFED_END)),
    Transition(Any, DOT_DATA, DO_DAT_STUFFED, None)]

  const ST_CRLFDOTCRLF: seq<Row> := [
    Transition(Any, CRLFDOTCRLF, DO_IGNORE, None)]

  const ST_DOT_DATA: seq<Row> := [
    Transition(Octet(CR), IN_CR, DO_DAT_STUFFED, None),
    Transition(Any, DOT_DATA, DO_DAT_STUFFED, None)]

  const ST_CR: seq<Row> := [
    Transition(Octet(LF), IN_CRLF, DO_DAT_STUFFED, None),
    Transition(Any, DOT_DATA, DO_DAT_STUFFED, None)]

  const ST_CRLF: seq<Row> := [
    Transition(Octet(DOT), CRLFDOT, DO_DAT_STUFFED, None),
    Transition(Any, DOT_DATA, DO_DAT_STUFFED, None)]

  const DEFINITION: Definition<Kind> :=
    Definition([ST_CRLFDOT, ST_CRLFDOTCR, ST_CRLFDOTCRLF, ST_DOT_DATA, ST_CR, ST_CRLF], CRLFDOT)

  lemma DefinitionComplete()
    ensures Complete(DEFINITION)
  {
  }

  function NextState(s: nat, c: byte): (r: nat)
    ensures r <= IN_CRLF
  {
    match s
    case 0 => if c == CR then CRLFDOTCR else DOT_DATA
    case 1 => if c == LF then CRLFDOTCRLF else DOT_DATA
    case 3 => if c == CR then IN_CR else DOT_DATA
    case 4 => if c == LF then IN_CRLF else DOT_DATA
    case 5 => if c == DOT then CRLFDOT else DOT_DATA
    case _ => CRLFDOTCRLF
  }

  /** A second event comes only with the octet that completes the end mark. */
  lemma StepIsNext(s: nat, c: byte)
    requires s <= IN_CRLF && Complete(DEFINITION)
    ensures var r := Step(NO_CLASSES, DEFINITION, s, c);
            && r.state == NextState(s, c)
            && (|r.events| == 2 && r.events[1].kind == DatStuffedEnd
                <==> s != CRLFDOTCRLF && NextState(s, c) == CRLFDOTCRLF)
  {
    SelectInOrder(NO_CLASSES, DEFINITION.states[s], c);
  }

  function StateFrom(s: nat, input: seq<byte>): nat {
    if input == [] then s else NextState(StateFrom(s, Front(input)), Last(input))
  }

  lemma {:induction false} StateFromConcat(s: nat, a: seq<byte>, b: seq<byte>)
    ensures StateFrom(s, a + b) == StateFrom(StateFrom(s, a), b)
  {
    if b == [] {
      assert a + b == a;
    } else {
      StateFromConcat(s, a, Front(b));
      assert Front(a + b) == a + Front(b);
    }
  }

  lemma {:induction false} FinishedStays(input: seq<byte>)
    ensures StateFrom(CRLFDOTCRLF, input) == CRLFDOTCRLF
  {
    if input != [] {
      FinishedStays(Front(input));
    }
  }

  /** Somewhere in the octets fed the checker has seen the end. */
  predicate Finished(input: seq<byte>) {
    StateFrom(CRLFDOT, input) == CRLFDOTCRLF
  }

  lemma FinishedMonotone(a: seq<byte>, b: seq<byte>)
    ensures Finished(a) ==> Finished(a + b)
  {
    StateFromConcat(CRLFDOT, a, b);
    FinishedStays(b);
  }

  /** The end is seen right after input, and not before. */
  predicate FinishedAt(input: seq<byte>) {
    input != [] && Finished(input) && !Finished(Front(input))
  }

  datatype ConsumerState = FinishedConsuming | Consuming | ErrorConsuming

  ghost predicate Holds(p: Parser<Kind>, seen: seq<byte>)
    reads p
  {
    && p.Valid() && p.classes == NO_CLASSES && p.def == DEFINITION
    && p.state == StateFrom(CRLFDOT, seen)
  }

  /** However the octets are cut into chunks, the answer is about all of them together. */
  method Check(chunk: seq<byte>, p: Parser<Kind>, ghost seen: seq<byte>)
    returns (answer: ConsumerState, ghost consumed: nat)
    requires Holds(p, seen) && !Finished(seen)
    modifies p
    ensures consumed <= |chunk| && Holds(p, seen + chunk[..consumed])
    ensures answer == if Finished(seen + chunk) then FinishedConsuming else Consuming
    ensures Finished(seen + chunk) ==> FinishedAt(seen + chunk[..consumed])
    ensures !Finished(seen + chunk) ==> consumed == |chunk|
  {
    var i := 0;
    assert seen + chunk[..0] == seen;
    while i < |chunk|
      invariant 0 <= i <= |chunk|
      invariant Holds(p, seen + chunk[..i]) && !Finished(seen + chunk[..i])
    {
      OneMore(seen, chunk, i);
      StepIsNext(p.state, chunk[i]);
      p.Feed(chunk[i]);
      assert p.chained <==> |p.Events()| == 2;
      if p.chained && p.e2.kind == DatStuffedEnd {
        FinishedMonotone(seen + chunk[..i + 1], chunk[i + 1..]);
        return FinishedConsuming, i + 1;
      }
      i := i + 1;
    }
    assert seen + chunk[..i] == seen + chunk;
    return Consuming, |chunk|;
  }

  // ----- What the checker takes for the end -----

  const END_MARK: seq<byte> := CRLF + [DOT] + CRLF

  /** What the octets end in when the automaton first comes to state q. */
  predicate EndsLike(q: nat, s: seq<byte>) {
    var n := |s|;
    match q
    case 0 => n == 0 || (n >= 3 && s[n - 3] == CR && s[n - 2] == LF && s[n - 1] == DOT)
    case 1 => s == [CR] || (n >= 4 && s[n - 4] == CR && s[n - 3] == LF && s[n - 2] == DOT && s[n - 1] == CR)
    case 2 =>
      || s == CRLF
      || (n >= 5 && s[n - 5] == CR && s[n - 4] == LF && s[n - 3] == DOT && s[n - 2] == CR && s[n - 1] == LF)
    case 4 => n >= 1 && s[n - 1] == CR
    case 5 => n >= 2 && s[n - 2] == CR && s[n - 1] == LF
    case _ => true
  }

  lemma EndsLikeStep(q: nat, s: seq<byte>, c: byte)
    requires q <= IN_CRLF && q != CRLFDOTCRLF && EndsLike(q, s)
    ensures EndsLike(NextState(q, c), s + [c])
  {
  }

  lemma {:induction false} EndsLikeState(s: seq<byte>)
    requires s == [] || !Finished(Front(s))
    ensures EndsLike(StateFrom(CRLFDOT, s), s)
  {
    if s != [] {
      var f := Front(s);
      if f != [] {
        FrontLast(f);
        FinishedMonotone(Front(f), [Last(f)]);
      }
      EndsLikeState(f);
      StateBound(f);
      EndsLikeStep(StateFrom(CRLFDOT, f), f, Last(s));
      FrontLast(s);
    }
  }

  lemma StateBound(s: seq<byte>)
    ensures StateFrom(CRLFDOT, s) <= IN_CRLF
  {
  }

  /** Whatever the input, what is taken for the end is CRLF.CRLF, or a CRLF that opens the input. */
  lemma FinishedIsEndMark(s: seq<byte>)
    requires FinishedAt(s)
    ensures s == CRLF || IsSuffix(END_MARK, s)
  {
    EndsLikeState(s);
    if |s| >= 5 {
      assert s[|s| - 5..] == END_MARK || s == CRLF;
    }
  }

  // ----- Line starts and ends read off the octets -----

  /** The octets are a lone dot on a line whose start is noticed; so is the very beginning, where the dot is taken as given. */
  predicate LoneDot(b: seq<byte>)
    decreases |b|, 1
  {
    b == [] || (Last(b) == DOT && NoticedStart(Front(b)))
  }

  /**
   * CRs and a LF. The CRs are odd in number; but even right after a noticed line start,
   * and not one only right after a lone dot.
   */
  predicate NoticedStart(p: seq<byte>)
    decreases |p|, 0
  {
    p != [] && Last(p) == LF &&
    var n, b := CrRun(Front(p)), BeforeCrs(Front(p));
    n > 0 && if NoticedStart(b) then n % 2 == 0 else n % 2 == 1 && (LoneDot(b) ==> n >= 3)
  }

  /** CRLF right after a lone dot. */
  predicate EndsHere(s: seq<byte>) {
    IsSuffix(CRLF, s) && LoneDot(s[..|s| - 2])
  }

  predicate EndWithin(s: seq<byte>) {
    s != [] && (EndWithin(Front(s)) || EndsHere(s))
  }

  lemma StatePush(p: seq<byte>, c: byte)
    ensures StateFrom(CRLFDOT, p + [c]) == NextState(StateFrom(CRLFDOT, p), c)
  {
    assert Front(p + [c]) == p;
  }

  /** How the state after some CRs follows from the one before them. */
  function AfterRun(q: nat, n: nat): nat {
    if n == 0 then q
    else if q == CRLFDOT then if n == 1 then CRLFDOTCR else if n % 2 == 1 then IN_CR else DOT_DATA
    else if (n % 2 == 1) == (q == DOT_DATA) then IN_CR else DOT_DATA
  }

  lemma {:induction false} AfterCrs(s: seq<byte>)
    requires !Finished(s)
    ensures var q := StateFrom(CRLFDOT, BeforeCrs(s));
            && (q == CRLFDOT || q == DOT_DATA || q == IN_CRLF)
            && StateFrom(CRLFDOT, s) == AfterRun(q, CrRun(s))
  {
    if s != [] {
      FrontLast(s);
      StatePush(Front(s), Last(s));
      FinishedMonotone(Front(s), [Last(s)]);
      if Last(s) == CR {
        AfterCrs(Front(s));
      }
    }
  }

  /** Before the end the automaton is at a line start, or after a lone dot, just where these are. */
  lemma {:induction false} ReadsOff(s: seq<byte>)
    requires !Finished(s)
    ensures StateFrom(CRLFDOT, s) == IN_CRLF <==> NoticedStart(s)
    ensures StateFrom(CRLFDOT, s) == CRLFDOT <==> LoneDot(s)
    decreases |s|
  {
    if s != [] {
      var f := Front(s);
      FrontLast(s);
      StatePush(f, Last(s));
      FinishedMonotone(f, [Last(s)]);
      ReadsOff(f);
      AfterCrs(f);
      var b := BeforeCrs(f);
      assert f == b + f[|b|..];
      FinishedMonotone(b, f[|b|..]);
      ReadsOff(b);
    }
  }

  /** On any input the checker has seen the end once there has been a CRLF after a lone dot, and not before. */
  lemma {:induction false} EndIsRead(s: seq<byte>)
    ensures Finished(s) <==> EndWithin(s)
    ensures FinishedAt(s) <==> EndsHere(s) && !EndWithin(Front(s))
  {
    if s != [] {
      var f := Front(s);
      EndIsRead(f);
      FrontLast(s);
      StatePush(f, Last(s));
      FinishedMonotone(f, [Last(s)]);
      if !Finished(f) && f != [] {
        var g := Front(f);
        FrontLast(f);
        StatePush(g, Last(f));
        FinishedMonotone(g, [Last(f)]);
        ReadsOff(g);
        assert s[..|s| - 2] == g && s[|s| - 2..] == [Last(f), Last(s)];
      }
    }
  }

  predicate CrFree(lines: seq<seq<byte>>) {
    forall i :: 0 <= i < |lines| ==> CR !in lines[i]
  }

  /** How many empty lines these end in. */
  function EmptyRun(lines: seq<seq<byte>>): nat {
    if lines != [] && Last(lines) == [] then 1 + EmptyRun(Front(lines)) else 0
  }

  /** A status line and text, no line of which is a lone dot. */
  predicate Response(lines: seq<seq<byte>>) {
    && CrFree(lines)
    && lines != [] && lines[0] != []
    && forall i :: 1 <= i < |lines| ==> lines[i] != [DOT]
  }

  lemma {:induction false} DataStays(text: seq<byte>)
    requires CR !in text
    ensures StateFrom(DOT_DATA, text) == DOT_DATA
  {
    if text != [] {
      DataStays(Front(text));
    }
  }

  lemma TwoMore(s: nat)
    ensures StateFrom(s, CRLF) == NextState(NextState(s, CR), LF)
  {
    assert Front(CRLF) == [CR] && Front([CR]) == [];
    assert StateFrom(s, [CR]) == NextState(StateFrom(s, []), CR);
  }

  /** One line, from a noticed line start, an unnoticed one, or the very beginning. */
  lemma LineState(s: nat, line: seq<byte>)
    requires s == IN_CRLF || s == DOT_DATA || (s == CRLFDOT && line != [])
    requires CR !in line
    ensures StateFrom(s, line + CRLF) ==
            if s == IN_CRLF && line == [] then DOT_DATA
            else if s == IN_CRLF && line == [DOT] then CRLFDOTCRLF
            else IN_CRLF
  {
    StateFromConcat(s, line, CRLF);
    TwoMore(StateFrom(s, line));
    if line != [] {
      var first, rest := line[..1], line[1..];
      assert line == first + rest && Front(first) == [];
      StateFromConcat(s, first, rest);
      assert StateFrom(s, first) == NextState(StateFrom(s, []), line[0]);
      if s == IN_CRLF && line[0] == DOT {
        if rest != [] {
          var next, tail := rest[..1], rest[1..];
          assert rest == next + tail && Front(next) == [];
          StateFromConcat(CRLFDOT, next, tail);
          assert StateFrom(CRLFDOT, next) == NextState(StateFrom(CRLFDOT, []), rest[0]);
          DataStays(tail);
        } else {
          assert line == [DOT];
        }
      } else {
        DataStays(rest);
      }
    }
  }

  lemma {:induction false} ResponseState(lines: seq<seq<byte>>)
    requires Response(lines)
    ensures StateFrom(CRLFDOT, Join(lines)) == if EmptyRun(lines) % 2 == 1 then DOT_DATA else IN_CRLF
  {
    var f, line := Front(lines), Last(lines);
    assert CR !in line;
    assert lines == f + [line];
    JoinPush(f, line);
    StateFromConcat(CRLFDOT, Join(f), line + CRLF);
    if f == [] {
      assert Join(f) == [];
      LineState(CRLFDOT, line);
    } else {
      assert f[0] == lines[0];
      ResponseState(f);
      LineState(StateFrom(CRLFDOT, Join(f)), line);
    }
  }

  /**
   * The lone dot that ends a response is seen, with its CRLF and not before,
   * exactly when an even number of empty lines comes right before it.
   */
  lemma EndIsSeen(lines: seq<seq<byte>>)
    requires Response(lines)
    ensures !Finished(Join(lines))
    ensures FinishedAt(Join(lines) + END_LINE) <==> EmptyRun(lines) % 2 == 0
    ensures Finished(Join(lines) + END_LINE) <==> EmptyRun(lines) % 2 == 0
  {
    ResponseState(lines);
    var s := StateFrom(CRLFDOT, Join(lines));
    LineState(s, [DOT]);
    StateFromConcat(CRLFDOT, Join(lines), END_LINE);
    assert END_LINE == [DOT] + CRLF;
    assert Front(Join(lines) + END_LINE) == Join(lines) + [DOT, CR];
    StateFromConcat(CRLFDOT, Join(lines), [DOT, CR]);
    assert Front([DOT, CR]) == [DOT] && Front([DOT]) == [];
    assert StateFrom(s, [DOT]) == NextState(StateFrom(s, []), DOT);
  }

  const END_LINE: seq<byte> := [DOT, CR, LF]

  /** A message whose text ends in a blank line is waited for after its end has come. */
  lemma BlankLineHidesEnd()
    ensures !Finished(Join([[PLUS, 79, 75], [72, 105], []]) + END_LINE)
  {
    var lines: seq<seq<byte>> := [[PLUS, 79, 75], [72, 105], []];
    assert Front(lines) == [[PLUS, 79, 75], [72, 105]];
    assert EmptyRun(Front(lines)) == 0 && EmptyRun(lines) == 1;
    EndIsSeen(lines);
  }
}
