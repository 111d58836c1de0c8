/** Recognizing the status line of a response (pop3_singleline_response_parser.c). */
module SinglelineResponse {
  import opened Bytes
  import opened Options
  import opened ParserEngine
  import opened Builders
  import opened Lines

  datatype Kind = Ignore | Trapped | OkResp | ErrResp | EndSingleline

  const TRAP := 0
  const STAT := 1
  const OK := 2
  const ERR := 3
  const MSG := 4
  const IN_CR := 5
  const IN_CRLF := 6

  const DO_IGNORE := Action(Ignore, Nothing)
  const DO_TRAP := Action(Trapped, Nothing)
  const DO_OK_RESP := Action(OkResp, Nothing)
  const DO_ERR_RESP := Action(ErrResp, Nothing)
  const DO_END_SINGLELINE := Action(EndSingleline, Nothing)

  type Row = Transition<Kind>

  const ST_TRAP: seq<Row> := [
    Transition(Any, TRAP, DO_TRAP, None)]

  const ST_STAT: seq<Row> := [
    Transition(Octet(PLUS), OK, DO_OK_RESP, None),
    Transition(Octet(MINUS), ERR, DO_ERR_RESP, None),
    Transition(Any, TRAP, DO_TRAP, None)]

  const ST_OK: seq<Row> := [
    Transition(Octet(CR), IN_CR, DO_IGNORE, None),
    Transition(Any, MSG, DO_IGNORE, None)]

  const ST_ERR: seq<Row> := [
    Transition(Octet(CR), IN_CR, DO_IGNORE, None),
    Transition(Any, MSG, DO_IGNORE, None)]

  const ST_MSG: seq<Row> := [
    Transition(Octet(CR), IN_CR, DO_IGNORE, None),
    Transition(Any, MSG, DO_IGNORE, None)]

  const ST_CR: seq<Row> := [
    Transition(Octet(LF), IN_CRLF, DO_END_SINGLELINE, None),
    Transition(Any, MSG, DO_IGNORE, None)]

  const ST_CRLF: seq<Row> := [
    Transition(Any, IN_CRLF, DO_IGNORE, None)]

  const DEFINITION: Definition<Kind> :=
    Definition([ST_TRAP, ST_STAT, ST_OK, ST_ERR, ST_MSG, ST_CR, ST_CRLF], STAT)

  lemma DefinitionComplete()
    ensures Complete(DEFINITION)
  {
  }

  function NextState(s: nat, c: byte): (r: nat)
    ensures r <= IN_CRLF
  {
    match s
    case 1 => if c == PLUS then OK else if c == MINUS then ERR else TRAP
    case 2 => if c == CR then IN_CR else MSG
    case 3 => if c == CR then IN_CR else MSG
    case 4 => if c == CR then IN_CR else MSG
    case 5 => if c == LF then IN_CRLF else MSG
    case 6 => IN_CRLF
    case _ => TRAP
  }

  function NextKind(s: nat, c: byte): Kind {
    match s
    case 1 => if c == PLUS then OkResp else if c == MINUS then ErrResp else Trapped
    case 5 => if c == LF then EndSingleline else Ignore
    case 2 => Ignore
    case 3 => Ignore
    case 4 => Ignore
    case 6 => Ignore
    case _ => Trapped
  }

  lemma StepIsNext(s: nat, c: byte)
    requires s <= IN_CRLF && Complete(DEFINITION)
    ensures Step(NO_CLASSES, DEFINITION, s, c) == Outcome(NextState(s, c), [Event(NextKind(s, c), [])])
  {
    SelectInOrder(NO_CLASSES, DEFINITION.states[s], c);
  }

  function StateAfter(s: seq<byte>): (r: nat)
    ensures r <= IN_CRLF
  {
    if s == [] then STAT else NextState(StateAfter(Front(s)), Last(s))
  }

  // ----- The status line, declaratively -----

  datatype ResponseStatus = StatusOk | StatusErr

  predicate Signed(s: seq<byte>) {
    s != [] && (s[0] == PLUS || s[0] == MINUS)
  }

  /** s ends in a LF that an odd number of CRs precedes. */
  predicate AtLineEnd(s: seq<byte>) {
    s != [] && Last(s) == LF && CrRun(Front(s)) % 2 == 1
  }

  /** Some line end has come. */
  predicate LineEnded(s: seq<byte>) {
    s != [] && (AtLineEnd(s) || LineEnded(Front(s)))
  }

  /** A response that does not open with a sign fails; otherwise it is finished by its first line end. */
  function Judge(s: seq<byte>): Status {
    if s == [] then Building
    else if !Signed(s) then BuildFailed
    else if LineEnded(s) then BuildFinished
    else Building
  }

  lemma {:induction false} StateIsJudged(s: seq<byte>)
    ensures StateAfter(s) == TRAP <==> Judge(s).BuildFailed?
    ensures StateAfter(s) == IN_CRLF <==> Judge(s).BuildFinished?
    ensures StateAfter(s) == IN_CR <==> Judge(s).Building? && CrRun(s) % 2 == 1
    ensures StateAfter(s) == STAT <==> s == []
  {
    if s != [] {
      var f := Front(s);
      StateIsJudged(f);
      if f != [] {
        assert f[0] == s[0];
      } else {
        assert !LineEnded(f) && CrRun(f) == 0;
      }
    }
  }

  lemma JudgeFinal(s: seq<byte>, t: seq<byte>)
    requires !Judge(s).Building?
    ensures Judge(s + t) == Judge(s)
  {
    if t == [] {
      assert s + t == s;
    } else {
      JudgeFinal(s, Front(t));
      assert Front(s + t) == s + Front(t);
    }
  }

  class ResponseBuilder {
    var status: ResponseStatus

    constructor ()
    {
      status := *;
    }
  }

  ghost predicate Holds(p: Parser<Kind>, resp: ResponseBuilder, seen: seq<byte>)
    reads p, resp
  {
    && p.Valid() && p.classes == NO_CLASSES && p.def == DEFINITION
    && p.state == StateAfter(seen)
    && (Signed(seen) ==> resp.status == if seen[0] == PLUS then StatusOk else StatusErr)
  }

  /** The parser goes by this table, wherever it stands. */
  ghost predicate Stands(p: Parser<Kind>)
    reads p
  {
    p.Valid() && p.classes == NO_CLASSES && p.def == DEFINITION
  }

  /** One octet. */
  method Turn(c: byte, p: Parser<Kind>, resp: ResponseBuilder, ghost seen: seq<byte>) returns (status: Status)
    requires Stands(p)
    modifies p, resp
    ensures Stands(p)
    ensures old(Holds(p, resp, seen)) && Judge(seen).Building? ==>
              Holds(p, resp, seen + [c]) && status == Judge(seen + [c])
  {
    assert Front(seen + [c]) == seen;
    StepIsNext(p.state, c);
    StateIsJudged(seen);
    StateIsJudged(seen + [c]);
    p.Feed(c);
    assert p.Events()[0] == p.e1;
    status := Building;
    match p.e1.kind {
      case OkResp => resp.status := StatusOk;
      case ErrResp => resp.status := StatusErr;
      case EndSingleline => status := BuildFinished;
      case Trapped => status := BuildFailed;
      case Ignore =>
    }
  }

  /**
   * However the octets are cut into chunks, the verdict is about all of them together, as long as there was none before.
   * Then, or when other octets have been fed, the parser goes on, and the answer means nothing.
   */
  method Build(chunk: seq<byte>, p: Parser<Kind>, resp: ResponseBuilder, ghost seen: seq<byte>)
    returns (status: Status, error: bool, ghost read: nat)
    requires Stands(p)
    modifies p, resp
    ensures Stands(p) && read <= |chunk| && (error <==> status.BuildFailed?)
    ensures old(Holds(p, resp, seen)) && Judge(seen).Building? ==>
              && Holds(p, resp, seen + chunk[..read])
              && status == Judge(seen + chunk) == Judge(seen + chunk[..read])
              && (status.Building? ==> read == |chunk|)
  {
    ghost var undecided := Holds(p, resp, seen) && Judge(seen).Building?;
    var i := 0;
    status := Building;
    assert seen + chunk[..0] == seen;
    while i < |chunk| && status == Building
      invariant 0 <= i <= |chunk| && Stands(p)
      invariant undecided ==> Holds(p, resp, seen + chunk[..i]) && status == Judge(seen + chunk[..i])
    {
      OneMore(seen, chunk, i);
      status := Turn(chunk[i], p, resp, seen + chunk[..i]);
      i := i + 1;
    }
    VerdictStays(seen, chunk, i);
    error := status == BuildFailed;
    read := i;
  }

  /** A verdict on the first octets of a chunk is one on all of it. */
  lemma VerdictStays(seen: seq<byte>, chunk: seq<byte>, i: nat)
    requires i <= |chunk|
    ensures !Judge(seen + chunk[..i]).Building? || i == |chunk| ==> Judge(seen + chunk) == Judge(seen + chunk[..i])
  {
    assert seen + chunk == (seen + chunk[..i]) + chunk[i..];
    if i == |chunk| {
      assert seen + chunk[..i] == seen + chunk;
    } else if !Judge(seen + chunk[..i]).Building? {
      JudgeFinal(seen + chunk[..i], chunk[i..]);
    }
  }
}
