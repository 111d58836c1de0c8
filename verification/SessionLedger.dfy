/** A session told by its traffic alone: no buffers, interests or flags, just what has come, what is due and what has gone (pop3_client_nio.c). */
module SessionLedger {
  import opened Bytes
  import opened ProxySession
  import opened SessionRuns
  import opened SessionFilter
  import CommandParser
  import SinglelineResponse
  import MultilineResponse

  // ----- What octets amount to -----

  /** Five octets of a keyword. */
  predicate LongKeyword(s: seq<byte>) {
    |s| > 4 && forall i :: 0 <= i < 5 ==> s[i] != SPACE && s[i] != CR
  }

  predicate FirstCrAt(s: seq<byte>, i: nat) {
    i < |s| && s[i] == CR && CR !in s[..i]
  }

  /** A command that cannot become one: its keyword is too long, or no LF comes after its first CR. */
  predicate BadCommand(s: seq<byte>) {
    LongKeyword(s) || exists i: nat :: FirstCrAt(s, i) && i + 1 < |s| && s[i + 1] != LF
  }

  predicate WholeCommand(s: seq<byte>) {
    !LongKeyword(s) && exists i: nat :: FirstCrAt(s, i) && i + 1 < |s| && s[i + 1] == LF
  }

  /** The octets up to the one after the first CR. */
  function FirstLine(s: seq<byte>): seq<byte> {
    if FirstIndex(s, CR) + 2 <= |s| then s[..FirstIndex(s, CR) + 2] else s
  }

  /** The octets begin with a sign, and the line it opens has come to its end. */
  predicate WholeStatusLine(s: seq<byte>) {
    && s != [] && (s[0] == PLUS || s[0] == MINUS)
    && exists n: nat :: n <= |s| && SinglelineResponse.AtLineEnd(s[..n])
  }

  lemma FirstCrIsFirst(s: seq<byte>, i: nat)
    ensures FirstCrAt(s, i) <==> i < |s| && FirstIndex(s, CR) == i
  {
    var k := FirstIndex(s, CR);
    assert k < i <= |s| ==> s[..i][k] == CR;
  }

  /** The splitter's verdict on all octets so far. */
  lemma SplitIsVerdict(s: seq<byte>)
    ensures CommandParser.Split(s).status.BuildFailed? <==> BadCommand(s)
    ensures CommandParser.Split(s).status.BuildFinished? <==> WholeCommand(s)
    ensures WholeCommand(s) ==> s[..CommandParser.Split(s).read] == FirstLine(s)
  {
    FirstCrIsFirst(s, FirstIndex(s, CR));
    forall i: nat
      ensures FirstCrAt(s, i) ==> i == FirstIndex(s, CR)
    {
      FirstCrIsFirst(s, i);
    }
    if CommandParser.KeywordLength(s) > 4 {
      assert LongKeyword(s);
    }
  }

  lemma {:induction false} LineEndIsAt(s: seq<byte>)
    ensures SinglelineResponse.LineEnded(s) <==> exists n: nat :: n <= |s| && SinglelineResponse.AtLineEnd(s[..n])
  {
    if s != [] {
      var f := Front(s);
      LineEndIsAt(f);
      assert s[..|s|] == s;
      assert forall n: nat :: n < |s| ==> s[..n] == f[..n];
    }
  }

  lemma JudgeIsVerdict(s: seq<byte>)
    ensures SinglelineResponse.Judge(s).BuildFinished? <==> WholeStatusLine(s)
  {
    LineEndIsAt(s);
  }

  // ----- The ledger -----

  /** Where the session is, what the client has said of the command awaited, and the traffic. */
  datatype Ledger = Ledger(phase: nat, said: seq<byte>, log: Log)

  const BLANK := Ledger(PROCESS_CONNECTION, [], NO_TRAFFIC)

  function UpTo(s: seq<byte>, n: nat): seq<byte> { if n <= |s| then s[..n] else s }

  /** n octets more of what is due have gone to the client; once it has had all, the session is in the phase next. */
  function GoneToClient(l: Ledger, n: nat, next: nat): Ledger {
    var gone := UpTo(Owed(l.log), |l.log.to_client| + n);
    l.(log := l.log.(to_client := gone), phase := if gone == Owed(l.log) then next else l.phase)
  }

  /** n octets more of the commands have gone to the origin; once it has had all, a response begins. */
  function GoneToOrigin(l: Ledger, n: nat): Ledger {
    var all := Concat(l.log.commands);
    var gone := UpTo(all, |l.log.to_origin| + n);
    var log := l.log.(to_origin := gone);
    if gone != all then l.(log := log)
    else
      l.(phase := RESPONSE_SREAD,
         log := log.(responses := log.responses + [Response([], [], EarlierRetrieves(log.commands))]))
  }

  /** Whether the last command before this one that is answered in lines retrieves. */
  predicate EarlierRetrieves(commands: seq<seq<byte>>) {
    commands != [] && LastRetrieves(Front(commands))
  }

  /** The client has said more. */
  function Said(l: Ledger, octets: seq<byte>): Ledger {
    var all := l.said + octets;
    if BadCommand(all) then l.(phase := ERROR, said := [])
    else if WholeCommand(all) then
      Ledger(COMMAND_SWRITE, [], l.log.(commands := l.log.commands + [FirstLine(all)]))
    else l.(said := all)
  }

  function WithLast(log: Log, r: Response): Log {
    log.(responses := (if log.responses == [] then [] else Front(log.responses)) + [r])
  }

  /** The origin has begun to answer the last command. */
  function Answers(l: Ledger, octets: seq<byte>, filtered: seq<byte>): Ledger {
    if !WholeStatusLine(octets) || l.log.commands == [] then
      l.(phase := ERROR, log := WithLast(l.log, Response(octets, [], EarlierRetrieves(l.log.commands))))
    else
      var line := Last(l.log.commands);
      l.(phase := if LongAnswer(line) && !MultilineResponse.EndWithin(octets) then DOT_DATA_CWRITE else RESPONSE_CWRITE,
         log := WithLast(l.log, Response(octets, if Retrieves(line) then filtered else [], LastRetrieves(l.log.commands))))
  }

  /** The origin has gone on with its answer. */
  function AnswersMore(l: Ledger, octets: seq<byte>, filtered: seq<byte>, more: bool): Ledger
    requires l.log.responses != []
  {
    var r := Last(l.log.responses);
    l.(phase := if more then DOT_DATA_CWRITE else RESPONSE_CWRITE,
       log := WithLast(l.log, r.(octets := r.octets + octets, product := r.product + if r.through then filtered else [])))
  }

  function Failed(l: Ledger): Ledger { l.(phase := ERROR, said := []) }

  function Next(l: Ledger, io: Io): Ledger {
    match l.phase
    case 0 => l.(phase := if io.Resolving? then RESOLV_CONNECTION else ESTABL_CONNECTION)
    case 1 => l.(phase := ESTABL_CONNECTION)
    case 2 => l.(phase := GREETING_SREAD)
    case 3 =>
      if io.Received? then l.(phase := if WholeStatusLine(io.octets) then GREETING_CWRITE else ERROR)
      else if io == NotReceived(true) then l else l.(phase := GREETING_CWRITE)
    case 4 => if io.Sent? then GoneToClient(l, io.n, COMMAND_CREAD) else Failed(l)
    case 5 => if io.Received? then Said(l, io.octets) else Failed(l)
    case 6 => if io.Sent? then GoneToOrigin(l, io.n) else Failed(l)
    case 7 => if io.Received? then Answers(l, io.octets, io.filtered) else Failed(l)
    case 8 =>
      if io.Received? && l.log.responses != [] then AnswersMore(l, io.octets, io.filtered, io.more) else Failed(l)
    case 9 => if io.Sent? then GoneToClient(l, io.n, DOT_DATA_SREAD) else Failed(l)
    case 10 => if io.Sent? then GoneToClient(l, io.n, COMMAND_CREAD) else Failed(l)
    case _ => l
  }

  /** The session's ledger. */
  function LedgerOf(s: Session): Ledger {
    Ledger(s.state, if s.state == COMMAND_CREAD then s.read_buffer else [], s.log)
  }

  // ----- The session keeps its ledger -----

  ghost predicate Kept(s: Session, e: Event) {
    Enabled(s, e) && Flows(s) && Lines(s) && Routes(s)
  }

  lemma ConnectingKeeps(s: Session, e: Event)
    requires Kept(s, e) && s.state <= ESTABL_CONNECTION
    ensures LedgerOf(Step(s, e)) == Next(LedgerOf(s), e.io)
  {
  }

  lemma GreetingSreadKeepsLedger(s: Session, e: Event)
    requires Kept(s, e) && s.state == GREETING_SREAD
    ensures LedgerOf(Step(s, e)) == Next(LedgerOf(s), e.io)
  {
    if e.io.Received? {
      JudgeIsVerdict(e.io.octets);
    }
  }

  /** Sending n octets of what waits is sending n octets of what is due. */
  lemma SendingIsGoing(sent: seq<byte>, waiting: seq<byte>, due: seq<byte>, n: nat)
    requires sent + waiting == due && n <= |waiting|
    ensures sent + waiting[..n] == UpTo(due, |sent| + n)
    ensures waiting[n..] == [] <==> UpTo(due, |sent| + n) == due
  {
    assert sent + waiting[..n] == due[..|sent| + n];
    if |sent| + n < |due| {
      assert |due[..|sent| + n]| < |due|;
    } else {
      assert due[..|due|] == due;
    }
  }

  lemma GreetingCwriteKeepsLedger(s: Session, e: Event)
    requires Kept(s, e) && s.state == GREETING_CWRITE
    ensures LedgerOf(Step(s, e)) == Next(LedgerOf(s), e.io)
  {
    EmptyConcat(GREETING_OK);
    if e.io.Sent? {
      SendingIsGoing(s.log.to_client, s.write_buffer, Owed(s.log), e.io.n);
    }
  }

  lemma SendOnIsGoing(s: Session, n: nat, next: nat)
    requires Relayed(s, Outgoing(s)) && n <= |Outgoing(s)| && s.state != COMMAND_CREAD
    ensures var s', l := SendOn(s, n), GoneToClient(LedgerOf(s), n, next);
            && s'.state == s.state && s'.log == l.log
            && l.phase == (if Outgoing(s') == [] then next else s.state)
  {
    SendingIsGoing(s.log.to_client, Outgoing(s), Owed(s.log), n);
  }

  lemma ArrivalKeepsTraffic(s: Session)
    requires s.state != RESPONSE_SREAD
    ensures var s' := ProxySession.Arrive(s);
            s'.state == s.state && s'.log == s.log && (s.state == COMMAND_CREAD ==> s'.read_buffer == [])
  {
  }

  lemma DotDataCwriteKeepsLedger(s: Session, e: Event)
    requires Kept(s, e) && s.state == DOT_DATA_CWRITE
    ensures LedgerOf(Step(s, e)) == Next(LedgerOf(s), e.io)
  {
    if e.io.Sent? {
      SendOnIsGoing(s, e.io.n, DOT_DATA_SREAD);
      ArrivalKeepsTraffic(DotDataCwrite(s, e.io));
    }
  }

  lemma ResponseCwriteKeepsLedger(s: Session, e: Event)
    requires Kept(s, e) && s.state == RESPONSE_CWRITE
    ensures LedgerOf(Step(s, e)) == Next(LedgerOf(s), e.io)
  {
    if e.io.Sent? {
      SendOnIsGoing(s, e.io.n, COMMAND_CREAD);
      ArrivalKeepsTraffic(ResponseCwrite(s, e.io));
    }
  }

  /** Arriving where nothing is set up. */
  lemma PlainArrival(s: Session)
    requires s.state == COMMAND_SWRITE || s.state == GREETING_CWRITE || s.state >= DOT_DATA_CWRITE
    ensures ProxySession.Arrive(s) == s
  {
  }

  lemma CommandBuiltKeepsLedger(s: Session, all: seq<byte>, c: CommandParser.Command)
    requires s.state == COMMAND_CREAD && c == CommandParser.Split(all)
    ensures LedgerOf(CommandBuilt(s, all, c)) ==
            if BadCommand(all) then Failed(LedgerOf(s))
            else if WholeCommand(all) then Ledger(COMMAND_SWRITE, [], s.log.(commands := s.log.commands + [FirstLine(all)]))
            else Ledger(COMMAND_CREAD, all, s.log)
  {
    SplitIsVerdict(all);
    assert all[..|all|] == all;
  }

  lemma CommandCreadKeepsLedger(s: Session, e: Event)
    requires Kept(s, e) && s.state == COMMAND_CREAD
    ensures LedgerOf(Step(s, e)) == Next(LedgerOf(s), e.io)
  {
    if e.io.Received? {
      var all := s.read_buffer + e.io.octets;
      var s' := CommandBuilt(s, all, CommandParser.Split(all));
      CommandBuiltKeepsLedger(s, all, CommandParser.Split(all));
      if s'.state != COMMAND_CREAD {
        PlainArrival(s');
      }
      assert Step(s, e) == s';
    }
  }

  lemma CommandSwriteKeepsLedger(s: Session, e: Event)
    requires Kept(s, e) && s.state == COMMAND_SWRITE
    ensures LedgerOf(Step(s, e)) == Next(LedgerOf(s), e.io)
  {
    if e.io.Sent? {
      SendingIsGoing(s.log.to_origin, s.read_buffer, Concat(s.log.commands), e.io.n);
    }
  }

  /** A response begun, as the log has it. */
  lemma BegunKeepsLedger(s: Session, io: Io, judged: bool, finished: bool)
    requires Flows(s) && Lines(s) && Routes(s) && s.state == RESPONSE_SREAD && io.Received?
    ensures var s' := ResponseBegun(s, io, judged, RespondsInLines(s), finished);
            var line, commands := Last(s.log.commands), s.log.commands;
            && s'.state == (if !judged then ERROR else if LongAnswer(line) && !finished then DOT_DATA_CWRITE else RESPONSE_CWRITE)
            && s'.log == WithLast(s.log,
                 if judged then Response(io.octets, if LongAnswer(line) && Retrieves(line) then io.filtered else [], LastRetrieves(commands))
                 else Response(io.octets, [], EarlierRetrieves(commands)))
  {
    ResponseBegunIs(s, io, judged, RespondsInLines(s), finished);
  }

  lemma FilteredIsInLines(keyword: seq<byte>, has_args: bool)
    ensures Filtered(keyword) ==> InLines(keyword, has_args)
  {
  }

  lemma ResponseSreadKeepsLedger(s: Session, e: Event)
    requires Kept(s, e) && s.state == RESPONSE_SREAD
    ensures LedgerOf(Step(s, e)) == Next(LedgerOf(s), e.io)
  {
    if e.io.Received? {
      JudgeIsVerdict(e.io.octets);
      MultilineResponse.EndIsRead(e.io.octets);
      FilteredIsInLines(s.keyword, s.has_args);
      BegunKeepsLedger(s, e.io, WholeStatusLine(e.io.octets), MultilineResponse.EndWithin(e.io.octets));
      PlainArrival(ResponseSread(s, e.io));
      assert Step(s, e) == ResponseSread(s, e.io);
    }
  }

  lemma DotDataSreadKeepsLedger(s: Session, e: Event)
    requires Kept(s, e) && s.state == DOT_DATA_SREAD
    ensures LedgerOf(Step(s, e)) == Next(LedgerOf(s), e.io)
  {
    if e.io.Received? {
      DotDataSreadIs(s, e.io);
      var r, product := Last(s.log.responses), if s.transform then e.io.filtered else [];
      assert Extended(s.log.responses, e.io.octets, product, s.transform) ==
             Front(s.log.responses) + [Response(r.octets + e.io.octets, r.product + product, r.through)];
      PlainArrival(DotDataSread(s, e.io));
      assert Step(s, e) == DotDataSread(s, e.io);
    }
  }

  /** One step of the session is one step of the ledger. */
  lemma StepKeepsLedger(s: Session, e: Event)
    requires Kept(s, e)
    ensures LedgerOf(Step(s, e)) == Next(LedgerOf(s), e.io)
  {
    match s.state
    case 3 => GreetingSreadKeepsLedger(s, e);
    case 4 => GreetingCwriteKeepsLedger(s, e);
    case 5 => CommandCreadKeepsLedger(s, e);
    case 6 => CommandSwriteKeepsLedger(s, e);
    case 7 => ResponseSreadKeepsLedger(s, e);
    case 8 => DotDataSreadKeepsLedger(s, e);
    case 9 => DotDataCwriteKeepsLedger(s, e);
    case 10 => ResponseCwriteKeepsLedger(s, e);
    case _ => ConnectingKeeps(s, e);
  }

  // ----- Whole runs -----

  /** The ledger of what has happened, the session left out of account. */
  function Account(events: seq<Event>): Ledger {
    if events == [] then BLANK else Next(Account(Front(events)), Last(events).io)
  }

  /** Over every run the session's phase and traffic are what the ledger makes of the octets that came and went. */
  lemma {:induction false} RunKeepsLedger(events: seq<Event>)
    requires After(events).Some?
    ensures LedgerOf(After(events).value) == Account(events)
  {
    if events != [] {
      RunKeepsLedger(Front(events));
      RunRelays(Front(events));
      RunRoutes(Front(events));
      StepKeepsLedger(After(Front(events)).value, Last(events));
    }
  }

  /** What ends a session. */
  predicate Ends(l: Ledger, io: Io) {
    || (io.NotReceived? && (l.phase == COMMAND_CREAD || l.phase == RESPONSE_SREAD || l.phase == DOT_DATA_SREAD))
    || (io.NotSent? && (l.phase == GREETING_CWRITE || l.phase == COMMAND_SWRITE || l.phase == DOT_DATA_CWRITE
                        || l.phase == RESPONSE_CWRITE))
    || (io.Received? && l.phase == COMMAND_CREAD && BadCommand(l.said + io.octets))
    || (io.Received? && (l.phase == GREETING_SREAD || l.phase == RESPONSE_SREAD) && !WholeStatusLine(io.octets))
  }

  /**
   * After any run, the next event ends the session exactly if it is a recv() that brings nothing where a command or more of
   * a response is awaited, a send() that fails, a command that cannot become one, or a greeting or response whose first octets
   * hold no whole status line.
   */
  lemma EndsExactly(events: seq<Event>, e: Event)
    requires After(events).Some? && Enabled(After(events).value, e)
    ensures Step(After(events).value, e).state == ERROR <==> Ends(Account(events), e.io)
  {
    RunKeepsLedger(events);
    RunRelays(events);
    RunRoutes(events);
    StepKeepsLedger(After(events).value, e);
  }
}
