/** The repository's own byte-stuffer (decrypt.c) and the automaton that drives it (pop3_decrypt_parser.c). */
module Decrypt {
  import opened Bytes
  import opened Options
  import opened ParserEngine
  import opened Lines

  datatype Kind = DatStuffed | DatStuffedDot

  const DOT_DATA := 0
  const IN_CR := 1
  const IN_CRLF := 2
  const CRLFDOT := 3
  const CRLFDOTMANY := 4

  const DO_DAT_STUFFED := Action(DatStuffed, Fed)
  const DO_DAT_STUFFED_DOT := Action(DatStuffedDot, Fed)

  type Row = Transition<Kind>

  const ST_DOT_DATA: seq<Row> := [
    Transition(Octet(CR), IN_CR, DO_DAT_STUFFED, None),
    Transition(Any, DOT_DATA, DO_DAT_STUFFED, None)]

  const ST_CR: seq<Row> := [
    Transition(Octet(LF), IN_CRLF, DO_DAT_STUFFED, None),
    Transition(Any, DOT_DATA, DO_DAT_STUFFED, None)]

  const ST_CRLF: seq<Row> := [
    Transition(Octet(DOT), CRLFDOT, DO_DAT_STUFFED_DOT, None),
    Transition(Any, DOT_DATA, DO_DAT_STUFFED, None)]

  const ST_CRLFDOT: seq<Row> := [
    Transition(Octet(DOT), CRLFDOTMANY, DO_DAT_STUFFED, None),
    Transition(Any, DOT_DATA, DO_DAT_STUFFED, None)]

  const ST_CRLFDOTMANY: seq<Row> := [
    Transition(Octet(DOT), CRLFDOTMANY, DO_DAT_STUFFED, None),
    Transition(Any, DOT_DATA, DO_DAT_STUFFED, None)]

  const DEFINITION: Definition<Kind> :=
    Definition([ST_DOT_DATA, ST_CR, ST_CRLF, ST_CRLFDOT, ST_CRLFDOTMANY], CRLFDOT)

  lemma DefinitionComplete()
    ensures Complete(DEFINITION)
  {
  }

  function NextState(s: nat, c: byte): nat {
    match s
    case 1 => if c == LF then IN_CRLF else DOT_DATA
    case 2 => if c == DOT then CRLFDOT else DOT_DATA
    case 3 => if c == DOT then CRLFDOTMANY else DOT_DATA
    case 4 => if c == DOT then CRLFDOTMANY else DOT_DATA
    case _ => if c == CR then IN_CR else DOT_DATA
  }

  /** One event a step, carrying the octet fed; only a dot right after CRLF is told apart. */
  lemma StepIsNext(s: nat, c: byte)
    requires s <= CRLFDOTMANY && Complete(DEFINITION)
    ensures Step(NO_CLASSES, DEFINITION, s, c) ==
            Outcome(NextState(s, c), [Event(if s == IN_CRLF && c == DOT then DatStuffedDot else DatStuffed, [c])])
  {
    SelectInOrder(NO_CLASSES, DEFINITION.states[s], c);
  }

  // ----- The octets written -----

  datatype Writer = Writer(state: nat, out: seq<byte>)

  function Write(w: Writer, c: byte): (r: Writer) {
    Writer(NextState(w.state, c), w.out + if w.state == IN_CRLF && c == DOT then [DOT, c] else [c])
  }

  function WriteAll(w: Writer, input: seq<byte>): Writer {
    if input == [] then w else Write(WriteAll(w, Front(input)), Last(input))
  }

  lemma {:induction false} WriteConcat(w: Writer, a: seq<byte>, b: seq<byte>)
    ensures WriteAll(w, a + b) == WriteAll(WriteAll(w, a), b)
  {
    if b == [] {
      assert a + b == a;
    } else {
      WriteConcat(w, a, Front(b));
      FrontConcat(a, b);
    }
  }

  function Opened(body: seq<byte>): Writer {
    Writer(CRLFDOT, if body != [] && body[0] == DOT then [DOT] else [])
  }

  const END: seq<byte> := [DOT, CR, LF]

  /** What is left in the output for a given text. */
  function Decrypted(body: seq<byte>): seq<byte> {
    WriteAll(Opened(body), body).out + END
  }

  /** A NUL-terminated string held by a buffer. */
  function Text(buffer: seq<byte>): (r: seq<byte>)
    requires NUL in buffer
    ensures |r| < |buffer| && r == buffer[..|r|] && buffer[|r|] == NUL && NUL !in r
  {
    if buffer[0] == NUL then [] else [buffer[0]] + Text(buffer[1..])
  }

  lemma {:induction false} WriteGrows(w: Writer, a: seq<byte>, b: seq<byte>)
    requires a <= b
    ensures |w.out| + |a| <= |WriteAll(w, a).out| <= |WriteAll(w, b).out|
  {
    if b != [] {
      if a == b {
        WriteGrows(w, Front(a), Front(a));
      } else {
        assert a <= Front(b);
        WriteGrows(w, a, Front(b));
      }
    }
  }

  /** a[index++] = c */
  method Put(a: array<byte>, index: nat, c: byte) returns (next: nat)
    requires index < a.Length
    modifies a
    ensures next == index + 1
    ensures a[..next] == old(a[..index]) + [c]
    ensures forall i :: next <= i < a.Length ==> a[i] == old(a[i])
  {
    a[index] := c;
    next := index + 1;
  }

  /** One turn of the loop: the octet goes out, after a dot of its own when the automaton says so. */
  method Turn(parser: Parser<Kind>, c: byte, decrypted: array<byte>, index: nat) returns (next: nat)
    requires parser.Valid() && parser.classes == NO_CLASSES && parser.def == DEFINITION
    requires index <= decrypted.Length
    requires |Write(Writer(parser.state, decrypted[..index]), c).out| <= decrypted.Length
    modifies parser, decrypted
    ensures parser.Valid() && index < next <= decrypted.Length
    ensures Writer(parser.state, decrypted[..next]) == Write(Writer(old(parser.state), old(decrypted[..index])), c)
    ensures forall i :: next <= i < decrypted.Length ==> decrypted[i] == old(decrypted[i])
  {
    StepIsNext(parser.state, c);
    next := index;
    parser.Feed(c);
    assert parser.Events()[0] == parser.e1;
    if parser.e1.kind == DatStuffedDot {
      next := Put(decrypted, next, DOT);
    }
    next := Put(decrypted, next, parser.e1.data[0]);
  }

  /** The loop: everything up to the NUL goes through the automaton. */
  method Loop(source: array<byte>, ghost body: seq<byte>, ghost w: Writer, decrypted: array<byte>, start: nat)
    returns (index: nat)
    requires |body| < source.Length && body == source[..|body|] && source[|body|] == NUL && NUL !in body
    requires source != decrypted && start <= decrypted.Length
    requires w == Writer(CRLFDOT, decrypted[..start])
    requires |WriteAll(w, body).out| <= decrypted.Length
    modifies decrypted
    ensures start <= index <= decrypted.Length
    ensures decrypted[..index] == WriteAll(w, body).out
    ensures forall i :: index <= i < decrypted.Length ==> decrypted[i] == old(decrypted[i])
  {
    DefinitionComplete();
    var parser := new Parser(NO_CLASSES, DEFINITION);
    index := start;
    var at := 0;
    while source[at] != NUL
      invariant at <= |body|
      invariant fresh(parser) && parser.Valid() && parser.classes == NO_CLASSES && parser.def == DEFINITION
      invariant start <= index <= decrypted.Length
      invariant WriteAll(w, body[..at]) == Writer(parser.state, decrypted[..index])
      invariant forall i :: index <= i < decrypted.Length ==> decrypted[i] == old(decrypted[i])
      decreases |body| - at
    {
      assert Front(body[..at + 1]) == body[..at];
      WriteGrows(w, body[..at + 1], body);
      index := Turn(parser, source[at], decrypted, index);
      at := at + 1;
    }
    assert body[..at] == body;
  }

  /** ".", CR, LF at the end. */
  method Close(a: array<byte>, index: nat)
    requires index + |END| <= a.Length
    modifies a
    ensures a[..index + |END|] == old(a[..index]) + END
    ensures forall i :: index + |END| <= i < a.Length ==> a[i] == old(a[i])
  {
    var next := Put(a, index, DOT);
    next := Put(a, next, CR);
    next := Put(a, next, LF);
  }

  method DecryptString(source: array<byte>, decrypted: array<byte>) returns (ret: int)
    requires NUL in source[..] && source != decrypted
    requires |Decrypted(Text(source[..]))| <= decrypted.Length
    modifies decrypted
    ensures ret == 0
    ensures var r := Decrypted(Text(source[..]));
            && decrypted[..|r|] == r
            && forall i :: |r| <= i < decrypted.Length ==> decrypted[i] == old(decrypted[i])
  {
    ghost var body := Text(source[..]);
    var index: nat := 0;
    WriteGrows(Opened(body), [], body);
    if source[index] == DOT {
      index := Put(decrypted, index, DOT);
    }
    index := Loop(source, body, Opened(body), decrypted, index);
    Close(decrypted, index);
    ret := 0;
  }

  // ----- Where dots are doubled -----

  function StateAfter(p: seq<byte>): nat {
    WriteAll(Writer(CRLFDOT, []), p).state
  }

  /** A dot right after p gets another one. */
  predicate SeesLineStart(p: seq<byte>) {
    p == [] || StateAfter(p) == IN_CRLF
  }

  /** The states do not look at what has been written. */
  lemma {:induction false} StateOfWriter(w: Writer, p: seq<byte>)
    requires w.state == CRLFDOT
    ensures WriteAll(w, p).state == StateAfter(p)
  {
    if p != [] {
      StateOfWriter(w, Front(p));
    }
  }

  lemma StateAfterPush(p: seq<byte>, c: byte)
    ensures StateAfter(p + [c]) == NextState(StateAfter(p), c)
  {
    assert Front(p + [c]) == p;
  }

  /** Line starts are seen only right after CRLF. */
  lemma SeenIsAfterCrlf(p: seq<byte>)
    ensures p != [] && SeesLineStart(p) ==> IsSuffix(CRLF, p)
  {
    if p != [] && SeesLineStart(p) {
      var f := Front(p);
      assert StateAfter(p) == NextState(StateAfter(f), Last(p));
      assert f != [] && StateAfter(f) == NextState(StateAfter(Front(f)), Last(f));
      assert p[|p| - 2..] == [Last(f), Last(p)];
    }
  }

  /**
   * Line starts read off the text: CRs and a LF, the CRs odd in number; or even, if there are only dots between them
   * and the line start before, and that is seen.
   */
  predicate LineStart(p: seq<byte>)
    decreases |p|
  {
    p == [] ||
    (&& Last(p) == LF && CrRun(Front(p)) > 0
     && (CrRun(Front(p)) % 2 == 1) != LineStart(BeforeDots(BeforeCrs(Front(p)))))
  }

  /** After dots the stuffer is inside text, unless they follow a line start it has seen. */
  lemma {:induction false} AfterDots(b: seq<byte>)
    requires b != [] && Last(b) == DOT
    ensures SeesLineStart(BeforeDots(b)) ==> StateAfter(b) == CRLFDOT || StateAfter(b) == CRLFDOTMANY
    ensures !SeesLineStart(BeforeDots(b)) ==> StateAfter(b) == DOT_DATA
  {
    var f := Front(b);
    FrontLast(b);
    StateAfterPush(f, DOT);
    if f != [] && Last(f) == DOT {
      AfterDots(f);
    } else {
      assert BeforeDots(b) == BeforeDots(f) == f;
      if f != [] {
        NotAfterDot(f);
      }
    }
  }

  lemma NotAfterDot(f: seq<byte>)
    requires f != [] && Last(f) != DOT
    ensures StateAfter(f) == DOT_DATA || StateAfter(f) == IN_CR || StateAfter(f) == IN_CRLF
  {
    FrontLast(f);
    StateAfterPush(Front(f), Last(f));
  }

  /** CRs count one by one, from inside text the first, the third and so on. */
  lemma {:induction false} AfterCrs(q: seq<byte>)
    ensures StateAfter(q) == IN_CR <==> CrRun(q) > 0 && (CrRun(q) % 2 == 1) == (StateAfter(BeforeCrs(q)) == DOT_DATA)
    ensures CrRun(q) > 0 ==> StateAfter(q) == IN_CR || StateAfter(q) == DOT_DATA
  {
    if q != [] {
      FrontLast(q);
      StateAfterPush(Front(q), Last(q));
      if Last(q) == CR {
        AfterCrs(Front(q));
      }
    }
  }

  /** The line starts the stuffer sees are those. */
  lemma {:induction false} SeesLineStarts(p: seq<byte>)
    ensures SeesLineStart(p) <==> LineStart(p)
    decreases |p|
  {
    if p != [] {
      var q := Front(p);
      FrontLast(p);
      StateAfterPush(q, Last(p));
      AfterCrs(q);
      var b := BeforeCrs(q);
      SeesLineStarts(BeforeDots(b));
      if b != [] {
        if Last(b) == DOT {
          AfterDots(b);
        } else {
          NotAfterDot(b);
          FrontLast(b);
          StateAfterPush(Front(b), Last(b));
        }
      }
    }
  }
}
