/** Splitting a client's command line (pop3_command_parser.c). */
module CommandParser {
  import opened Bytes
  import opened Options
  import opened ParserEngine
  import opened Builders

  datatype Kind = Ignore | BufferCmd | HasArgs | SetCmd | BadCmd

  const MAX_KEYWORD_LENGTH := 4

  const KWRD := 0
  const ARG := 1
  const IN_CR := 2
  const IN_CRLF := 3
  const ERR := 4

  const DO_BUFFER_CMD := Action(BufferCmd, Fed)
  const DO_HAS_ARGS := Action(HasArgs, Nothing)
  const DO_SET_CMD := Action(SetCmd, Nothing)
  const DO_BAD_CMD := Action(BadCmd, Nothing)
  const DO_IGNORE := Action(Ignore, Nothing)

  type Row = Transition<Kind>

  const ST_KWRD: seq<Row> := [
    Transition(Octet(SPACE), ARG, DO_HAS_ARGS, None),
    Transition(Octet(CR), IN_CR, DO_IGNORE, None),
    Transition(Any, KWRD, DO_BUFFER_CMD, None)]

  const ST_ARG: seq<Row> := [
    Transition(Octet(CR), IN_CR, DO_IGNORE, None),
    Transition(Any, ARG, DO_IGNORE, None)]

  const ST_CR: seq<Row> := [
    Transition(Octet(LF), IN_CRLF, DO_SET_CMD, None),
    Transition(Any, ERR, DO_BAD_CMD, None)]

  const ST_CRLF: seq<Row> := [
    Transition(Any, IN_CRLF, DO_IGNORE, None)]

  const ST_ERR: seq<Row> := [
    Transition(Any, ERR, DO_BAD_CMD, None)]

  const DEFINITION: Definition<Kind> := Definition([ST_KWRD, ST_ARG, ST_CR, ST_CRLF, ST_ERR], KWRD)

  lemma DefinitionComplete()
    ensures Complete(DEFINITION)
  {
  }

  function NextState(s: nat, c: byte): nat {
    match s
    case 0 => if c == SPACE then ARG else if c == CR then IN_CR else KWRD
    case 1 => if c == CR then IN_CR else ARG
    case 2 => if c == LF then IN_CRLF else ERR
    case _ => s
  }

  function NextKind(s: nat, c: byte): Kind {
    match s
    case 0 => if c == SPACE then HasArgs else if c == CR then Ignore else BufferCmd
    case 1 => Ignore
    case 2 => if c == LF then SetCmd else BadCmd
    case 3 => Ignore
    case _ => BadCmd
  }

  lemma StepIsNext(s: nat, c: byte)
    requires s <= ERR && Complete(DEFINITION)
    ensures var r := Step(NO_CLASSES, DEFINITION, s, c);
            r.state == NextState(s, c) && |r.events| == 1 && r.events[0].kind == NextKind(s, c)
  {
    SelectInOrder(NO_CLASSES, DEFINITION.states[s], c);
  }

  // ----- The first line, declaratively -----

  datatype Command = Command(status: Status, read: nat, keyword: seq<byte>, hasArgs: bool)

  /** The keyword is what precedes the first space or CR. */
  function KeywordLength(s: seq<byte>): nat {
    var space, cr := FirstIndex(s, SPACE), FirstIndex(s, CR);
    if space < cr then space else cr
  }

  /**
   * How the octets split: a fifth keyword octet fails at once; else the octet after
   * the first CR decides; until it has come the command is being built.
   */
  function Split(s: seq<byte>): (r: Command)
    ensures r.read <= |s|
  {
    var cr, k := FirstIndex(s, CR), KeywordLength(s);
    if k > MAX_KEYWORD_LENGTH then Command(BuildFailed, MAX_KEYWORD_LENGTH + 1, s[..MAX_KEYWORD_LENGTH], false)
    else if cr + 1 < |s| then
      Command(if s[cr + 1] == LF then BuildFinished else BuildFailed, cr + 2, s[..k], k < cr)
    else
      Command(Building, |s|, s[..k], k < cr)
  }

  /** Where the automaton is while a command is being built. */
  function StateAfter(s: seq<byte>): nat {
    if FirstIndex(s, CR) < |s| then IN_CR else if FirstIndex(s, SPACE) < |s| then ARG else KWRD
  }

  lemma {:induction false} FirstIndexConcat(s: seq<byte>, t: seq<byte>, c: byte)
    ensures FirstIndex(s + t, c) ==
            if FirstIndex(s, c) < |s| then FirstIndex(s, c) else |s| + FirstIndex(t, c)
  {
    if s == [] {
      assert s + t == t;
    } else if s[0] != c {
      FirstIndexConcat(s[1..], t, c);
      assert (s + t)[1..] == s[1..] + t;
    }
  }

  /** One more octet while building: what the automaton says about it is what the split says. */
  lemma SplitStep(s: seq<byte>, c: byte)
    requires Split(s).status.Building?
    ensures var before, after := Split(s), Split(s + [c]);
            var kind := NextKind(StateAfter(s), c);
            var full := kind == BufferCmd && |before.keyword| == MAX_KEYWORD_LENGTH;
            && after.status == (if kind == BadCmd || full then BuildFailed
                                else if kind == SetCmd then BuildFinished else Building)
            && after.read == |s| + 1
            && after.keyword == before.keyword + (if kind == BufferCmd && !full then [c] else [])
            && after.hasArgs == (before.hasArgs || kind == HasArgs)
            && (after.status.Building? ==> StateAfter(s + [c]) == NextState(StateAfter(s), c))
  {
    FirstIndexConcat(s, [c], CR);
    FirstIndexConcat(s, [c], SPACE);
    assert FirstIndex([c], CR) == if c == CR then 0 else 1;
    assert FirstIndex([c], SPACE) == if c == SPACE then 0 else 1;
    var k := KeywordLength(s);
    assert (s + [c])[..k] == s[..k];
  }

  /** Once decided, more octets change nothing. */
  lemma SplitIsFinal(s: seq<byte>, t: seq<byte>)
    requires !Split(s).status.Building?
    ensures Split(s + t) == Split(s)
  {
    FirstIndexConcat(s, t, CR);
    FirstIndexConcat(s, t, SPACE);
    var k := Split(s).read;
    assert (s + t)[..|s|] == s;
    assert forall j :: 0 <= j <= |s| ==> (s + t)[..j] == s[..j];
  }

  lemma Decided(s: seq<byte>, c: byte, rest: seq<byte>)
    requires Split(s).status.Building? && !Split(s + [c]).status.Building?
    ensures Split(s + [c] + rest) == Split(s + [c]) && Split(s + [c]).read == |s| + 1
  {
    SplitStep(s, c);
    SplitIsFinal(s + [c], rest);
  }

  // ----- The builder -----

  class CommandBuilder {
    const kwrd: array<byte>
    var kwrd_ptr: nat
    var has_args: bool

    ghost predicate Valid()
      reads this
    {
      kwrd.Length == MAX_KEYWORD_LENGTH + 1 && kwrd_ptr <= MAX_KEYWORD_LENGTH
    }

    ghost function Keyword(): seq<byte>
      requires Valid()
      reads this, kwrd
    {
      kwrd[..kwrd_ptr]
    }

    constructor ()
      ensures Valid() && Keyword() == [] && !has_args && fresh(kwrd)
    {
      kwrd := new byte[MAX_KEYWORD_LENGTH + 1](_ => NUL);
      kwrd_ptr := 0;
      has_args := false;
    }

    method SetNext(value: byte) returns (ok: bool)
      requires Valid()
      modifies `kwrd_ptr, kwrd
      ensures Valid()
      ensures ok <==> |old(Keyword())| < MAX_KEYWORD_LENGTH
      ensures Keyword() == old(Keyword()) + if ok then [value] else []
    {
      if kwrd_ptr >= MAX_KEYWORD_LENGTH {
        return false;
      }
      kwrd[kwrd_ptr] := value;
      kwrd_ptr := kwrd_ptr + 1;
      return true;
    }
  }

  /** The parser and the builder stand where the octets seen have brought them. */
  ghost predicate Holds(p: Parser<Kind>, cmd: CommandBuilder, seen: seq<byte>)
    reads p, cmd, cmd.kwrd
  {
    && p.Valid() && p.classes == NO_CLASSES && p.def == DEFINITION
    && cmd.Valid()
    && cmd.Keyword() == Split(seen).keyword
    && cmd.has_args == Split(seen).hasArgs
    && (Split(seen).status.Building? ==> p.state == StateAfter(seen))
  }

  /** One octet; done tells whether it decides the command. */
  method Turn(c: byte, p: Parser<Kind>, cmd: CommandBuilder, ghost seen: seq<byte>) returns (status: Status)
    requires Holds(p, cmd, seen) && Split(seen).status.Building?
    modifies p, cmd`kwrd_ptr, cmd`has_args, cmd.kwrd
    ensures Holds(p, cmd, seen + [c])
    ensures status == Split(seen + [c]).status
  {
    SplitStep(seen, c);
    StepIsNext(p.state, c);
    p.Feed(c);
    assert p.Events()[0] == p.e1;
    status := Building;
    match p.e1.kind {
      case BufferCmd =>
        var ok := cmd.SetNext(c);
        if !ok {
          status := BuildFailed;
        }
      case BadCmd => status := BuildFailed;
      case SetCmd => status := BuildFinished;
      case HasArgs => cmd.has_args := true;
      case Ignore =>
    }
  }

  /**
   * Whatever came before in earlier chunks, this chunk takes the builder to where
   * all the octets together would have taken it.
   */
  method Build(chunk: seq<byte>, p: Parser<Kind>, cmd: CommandBuilder, ghost seen: seq<byte>)
    returns (status: Status, read: nat, error: bool)
    requires Holds(p, cmd, seen) && Split(seen).status.Building?
    modifies p, cmd`kwrd_ptr, cmd`has_args, cmd.kwrd
    ensures Holds(p, cmd, seen + chunk)
    ensures var r := Split(seen + chunk);
            status == r.status && |seen| + read == r.read && (error <==> r.status.BuildFailed?)
  {
    read := 0;
    status := Building;
    error := false;
    assert seen + chunk[..0] == seen;
    while read < |chunk|
      invariant 0 <= read <= |chunk|
      invariant Holds(p, cmd, seen + chunk[..read])
      invariant Split(seen + chunk[..read]).status.Building?
      invariant !error && status == Building
    {
      var c := chunk[read];
      ghost var before := seen + chunk[..read];
      OneMore(seen, chunk, read);
      status := Turn(c, p, cmd, before);
      read := read + 1;
      if status != Building {
        Decided(before, c, chunk[read..]);
        error := status == BuildFailed;
        return;
      }
    }
    assert seen + chunk[..read] == seen + chunk;
  }

  /** What comes first in the line comes first in whatever the line begins. */
  lemma FirstInLine(s: seq<byte>, n: nat, c: byte)
    requires n <= |s|
    ensures FirstIndex(s, c) < n ==> FirstIndex(s[..n], c) == FirstIndex(s, c)
    ensures FirstIndex(s, c) >= n ==> FirstIndex(s[..n], c) == n
  {
    assert s == s[..n] + s[n..];
    FirstIndexConcat(s[..n], s[n..], c);
  }

  /** A finished command is a line: it ends in its first CR, followed by LF. */
  lemma FinishedIsLine(s: seq<byte>)
    requires Split(s).status.BuildFinished?
    ensures var line := s[..Split(s).read];
            && IsSuffix(CRLF, line)
            && FirstIndex(line, CR) == |line| - 2
            && Split(line) == Split(s)
            && |Split(s).keyword| <= MAX_KEYWORD_LENGTH
  {
    var n := Split(s).read;
    FirstInLine(s, n, CR);
    FirstInLine(s, n, SPACE);
    var line := s[..n];
    assert line[n - 2..] == CRLF;
    assert KeywordLength(line) == KeywordLength(s);
    assert line[..KeywordLength(s)] == s[..KeywordLength(s)];
  }
}
