/** What every run of a proxied session keeps (pop3_client_nio.c). */
module SessionRuns {
  import opened Bytes
  import opened Options
  import opened StateMachines
  import opened SelectorTable
  import opened ProxySession
  import Builders
  import CommandParser
  import SinglelineResponse
  import MultilineResponse

  // ----- Who is waited for -----

  /** The interests that go with a state; PIPE_DREAM and UPDATE are never come to. */
  predicate Subscribed(state: nat, w: Wire) {
    match state
    case 0 => w == Wire(OP_WRITE, None)
    case 1 => w == Wire(OP_NOOP, None)
    case 2 => w == Wire(OP_NOOP, Some(OP_WRITE))
    case 3 => w == Wire(OP_NOOP, Some(OP_READ))
    case 4 => w == Wire(OP_WRITE, Some(OP_NOOP))
    case 5 => w == Wire(OP_READ, Some(OP_NOOP))
    case 6 => w == Wire(OP_NOOP, Some(OP_WRITE))
    case 7 => w == Wire(OP_NOOP, Some(OP_READ))
    case 8 => w == Wire(OP_NOOP, Some(OP_READ))
    case 9 => w == Wire(OP_WRITE, Some(OP_NOOP))
    case 10 => w == Wire(OP_WRITE, Some(OP_NOOP))
    case 13 => true
    case _ => false
  }

  /** The connection cannot be attempted, or recv() fails for good where the greeting is awaited. */
  predicate Unfavourable(s: Session, io: Io) {
    || (s.state <= RESOLV_CONNECTION && (io.Refused? || io.NotConnecting?))
    || (s.state == GREETING_SREAD && io == NotReceived(false))
  }

  /** Whatever the selector reports, a subscribed session has a callback for it. */
  lemma SubscribedHandles(s: Session, side: Side, kind: Ready)
    requires Subscribed(s.state, s.wire) && s.state < UPDATE && Reported(s, side, kind)
    ensures !Aborts(s, kind)
  {
    var i := InterestOf(s.wire, side);
  }

  /** And no callback for anything else. */
  lemma HandlesWhatIsReported(s: Session, kind: Ready)
    requires Subscribed(s.state, s.wire) && s.state < UPDATE
    ensures !Aborts(s, kind) <==> exists side :: Reported(s, side, kind)
  {
    var side := if s.state == RESOLV_CONNECTION || s.wire.client != OP_NOOP then Client else Origin;
    assert !Aborts(s, kind) ==> Reported(s, side, kind);
    forall side | Reported(s, side, kind)
      ensures !Aborts(s, kind)
    {
      SubscribedHandles(s, side, kind);
    }
  }

  /** From ESTABL_CONNECTION on exactly one side is waited for. */
  lemma SubscribedToOne(s: Session)
    requires Subscribed(s.state, s.wire) && ESTABL_CONNECTION <= s.state < ERROR
    ensures (InterestOf(s.wire, Client) == OP_NOOP) != (InterestOf(s.wire, Origin) == OP_NOOP)
    ensures exists side, kind: Ready :: Reported(s, side, kind) && !Aborts(s, kind)
  {
    var side := if s.wire.client == OP_NOOP then Origin else Client;
    var kind := if InterestOf(s.wire, side).read then OnRead else OnWrite;
    assert Reported(s, side, kind);
  }

  lemma EarlySubscribes(s: Session, e: Event)
    requires Subscribed(s.state, s.wire) && Enabled(s, e) && s.state <= GREETING_SREAD
    ensures Subscribed(Step(s, e).state, Step(s, e).wire) <==> !Unfavourable(s, e.io)
  {
  }

  lemma CommandBuiltSubscribes(s: Session, all: seq<byte>, r: CommandParser.Command)
    requires Subscribed(s.state, s.wire) && s.state == COMMAND_CREAD && r.read <= |all|
    ensures var s' := CommandBuilt(s, all, r);
            Subscribed(s'.state, s'.wire) && (s'.state == ERROR || s'.state == COMMAND_SWRITE || s'.state == COMMAND_CREAD)
  {
  }

  lemma CommandCreadSubscribes(s: Session, e: Event)
    requires Subscribed(s.state, s.wire) && Enabled(s, e) && s.state == COMMAND_CREAD
    ensures Subscribed(Step(s, e).state, Step(s, e).wire)
  {
    if e.io.Received? {
      var all := s.read_buffer + e.io.octets;
      CommandBuiltSubscribes(s, all, CommandParser.Split(all));
    }
  }

  lemma SwriteSubscribes(s: Session, e: Event)
    requires Subscribed(s.state, s.wire) && Enabled(s, e) && (s.state == GREETING_CWRITE || s.state == COMMAND_SWRITE)
    ensures Subscribed(Step(s, e).state, Step(s, e).wire)
  {
  }

  lemma ResponseBegunSubscribes(s: Session, io: Io, judged: bool, multiline: bool, finished: bool)
    requires Subscribed(s.state, s.wire) && s.state == RESPONSE_SREAD && io.Received?
    ensures var s' := ResponseBegun(s, io, judged, multiline, finished);
            Subscribed(s'.state, s'.wire) && (s'.state == ERROR || s'.state == RESPONSE_CWRITE || s'.state == DOT_DATA_CWRITE)
  {
  }

  lemma ResponseSreadSubscribes(s: Session, e: Event)
    requires Subscribed(s.state, s.wire) && Enabled(s, e) && s.state == RESPONSE_SREAD
    ensures Subscribed(Step(s, e).state, Step(s, e).wire)
  {
    if e.io.Received? {
      ResponseBegunSubscribes(s, e.io, SinglelineResponse.Judge(e.io.octets).BuildFinished?,
                              RespondsInLines(s), MultilineResponse.Finished(e.io.octets));
    }
  }

  lemma DotDataSreadSubscribes(s: Session, e: Event)
    requires Subscribed(s.state, s.wire) && Enabled(s, e) && s.state == DOT_DATA_SREAD
    ensures Subscribed(Step(s, e).state, Step(s, e).wire)
  {
  }

  lemma ToClientSubscribes(s: Session, e: Event)
    requires Subscribed(s.state, s.wire) && Enabled(s, e) && DOT_DATA_CWRITE <= s.state
    ensures Subscribed(Step(s, e).state, Step(s, e).wire)
  {
  }

  /** A step keeps the subscriptions, exactly unless it is one of the unfavourable ones. */
  lemma StepSubscribes(s: Session, e: Event)
    requires Subscribed(s.state, s.wire) && Enabled(s, e)
    ensures Subscribed(Step(s, e).state, Step(s, e).wire) <==> !Unfavourable(s, e.io)
  {
    match s.state
    case 4 => SwriteSubscribes(s, e);
    case 5 => CommandCreadSubscribes(s, e);
    case 6 => SwriteSubscribes(s, e);
    case 7 => ResponseSreadSubscribes(s, e);
    case 8 => DotDataSreadSubscribes(s, e);
    case 9 => ToClientSubscribes(s, e);
    case 10 => ToClientSubscribes(s, e);
    case _ => EarlySubscribes(s, e);
  }

  // ----- What is sent where -----

  function Concat(parts: seq<seq<byte>>): seq<byte> {
    if parts == [] then [] else Concat(Front(parts)) + Last(parts)
  }

  lemma ConcatPush(parts: seq<seq<byte>>, part: seq<byte>)
    ensures Concat(parts + [part]) == Concat(parts) + part
  {
    assert Front(parts + [part]) == parts;
  }

  /** What of a response the client is to have. */
  function DueOf(r: Response): seq<byte> {
    if r.through then r.product else r.octets
  }

  function AllDue(responses: seq<Response>): seq<byte> {
    if responses == [] then [] else AllDue(Front(responses)) + DueOf(Last(responses))
  }

  lemma AllDuePush(responses: seq<Response>, r: Response)
    ensures AllDue(responses + [r]) == AllDue(responses) + DueOf(r)
  {
    assert Front(responses + [r]) == responses;
  }

  /** All the client is to have of the greeting and the responses so far. */
  function Owed(log: Log): seq<byte> {
    GREETING_OK + AllDue(log.responses)
  }

  /** Sent and waiting octets make up all there is to send. */
  predicate Relayed(s: Session, waiting: seq<byte>) {
    s.log.to_client + waiting == Owed(s.log)
  }

  /** Every command has gone out whole, and each has a response, the last one by way of the buffer now sent from. */
  predicate Answering(s: Session) {
    && s.log.to_origin == Concat(s.log.commands) && |s.log.responses| == |s.log.commands| > 0
    && Last(s.log.responses).through == s.transform
  }

  predicate Flows(s: Session) {
    match s.state
    case 0 => s.log == NO_TRAFFIC
    case 1 => s.log == NO_TRAFFIC
    case 2 => s.log == NO_TRAFFIC
    case 3 => s.log == NO_TRAFFIC && s.write_buffer == GREETING_OK
    case 4 =>
      && s.log == NO_TRAFFIC.(to_client := s.log.to_client)
      && s.log.to_client + s.write_buffer == GREETING_OK
    case 5 => s.log.to_origin == Concat(s.log.commands) && |s.log.responses| == |s.log.commands| && Relayed(s, [])
    case 6 =>
      && s.log.to_origin + s.read_buffer == Concat(s.log.commands)
      && |s.log.responses| + 1 == |s.log.commands| && Relayed(s, [])
    case 7 =>
      && Answering(s) && Last(s.log.responses) == Response([], [], s.transform)
      && s.write_buffer == [] && s.trans_buffer == [] && Relayed(s, [])
    case 8 => Answering(s) && s.write_buffer == [] && s.trans_buffer == [] && Relayed(s, [])
    case 9 => Answering(s) && Relayed(s, Outgoing(s))
    case 10 => Answering(s) && Relayed(s, Outgoing(s))
    case 13 => NothingWrong(s.log)
    case _ => false
  }

  /** Nothing has been sent but commands in order, and greeting and responses in order. */
  predicate NothingWrong(log: Log) {
    && log.to_origin <= Concat(log.commands)
    && |log.responses| <= |log.commands| <= |log.responses| + 1
    && log.to_client <= Owed(log)
  }

  lemma MoveOn(sent: seq<byte>, waiting: seq<byte>, n: nat)
    requires n <= |waiting|
    ensures sent + waiting == (sent + waiting[..n]) + waiting[n..]
  {
  }

  lemma ConnectingFlows(s: Session, e: Event)
    requires Flows(s) && Enabled(s, e) && s.state <= ESTABL_CONNECTION
    ensures Flows(Step(s, e))
  {
  }

  lemma GreetingSreadFlows(s: Session, e: Event)
    requires Flows(s) && Enabled(s, e) && s.state == GREETING_SREAD
    ensures Flows(Step(s, e))
  {
    EmptyConcat(s.write_buffer);
  }

  lemma GreetingCwriteFlows(s: Session, e: Event)
    requires Flows(s) && Enabled(s, e) && s.state == GREETING_CWRITE
    ensures Flows(Step(s, e))
  {
    assert Concat([]) == [] && GREETING_OK + [] == GREETING_OK;
    if e.io.Sent? {
      MoveOn(s.log.to_client, s.write_buffer, e.io.n);
    }
  }

  lemma CommandDecidedFlows(s: Session, status: Builders.Status)
    requires Flows(s.(read_buffer := [])) && s.state == COMMAND_CREAD
    ensures Flows(CommandDecided(s, status))
  {
    ConcatPush(s.log.commands, s.read_buffer);
    EmptyConcat(s.log.to_client);
  }

  lemma CommandBuiltFlows(s: Session, all: seq<byte>, r: CommandParser.Command)
    requires Flows(s) && s.state == COMMAND_CREAD && r.read <= |all|
    ensures Flows(CommandBuilt(s, all, r))
  {
    CommandDecidedFlows(s.(read_buffer := all[..r.read], keyword := r.keyword, has_args := r.hasArgs), r.status);
  }

  lemma CommandSwriteFlows(s: Session, e: Event)
    requires Flows(s) && Enabled(s, e) && s.state == COMMAND_SWRITE
    ensures Flows(Step(s, e))
  {
    if e.io.Sent? {
      MoveOn(s.log.to_origin, s.read_buffer, e.io.n);
      AllDuePush(s.log.responses, Response([], [], s.transform));
    }
  }

  /** The octets that the last response grows by, on the way that is sent from, are what the client is to have next. */
  lemma ExtendedOwed(log: Log, octets: seq<byte>, product: seq<byte>, through: bool)
    requires log.responses != [] && Last(log.responses).through == through
    ensures var log' := log.(responses := Extended(log.responses, octets, product, through));
            Owed(log') == Owed(log) + if through then product else octets
  {
    var r := Last(log.responses);
    var r' := Response(r.octets + octets, r.product + product, through);
    AllDuePush(Front(log.responses), r');
    Assoc(AllDue(Front(log.responses)), DueOf(r), if through then product else octets);
    Assoc(GREETING_OK, AllDue(log.responses), if through then product else octets);
  }

  /** A response that nothing is due of yet may still go either way. */
  lemma BegunOwed(log: Log, r: Response)
    requires log.responses != [] && DueOf(Last(log.responses)) == []
    ensures Owed(log.(responses := Front(log.responses) + [r])) == Owed(log) + DueOf(r)
  {
    var f := Front(log.responses);
    AllDuePush(f, r);
    assert AllDue(f) + [] == AllDue(f);
    Assoc(GREETING_OK, AllDue(f), DueOf(r));
  }

  /** How the response begun stands in the log, and in the buffer that is sent from. */
  lemma ResponseBegunIs(s: Session, io: Io, judged: bool, multiline: bool, finished: bool)
    requires Flows(s) && s.state == RESPONSE_SREAD && io.Received?
    ensures var s' := ResponseBegun(s, io, judged, multiline, finished);
            var product := if judged && multiline && Filtered(s.keyword) then io.filtered else [];
            var r := Response(io.octets, product, s'.transform);
            && s'.transform == (if judged && multiline then Filtered(s.keyword) else s.transform)
            && s'.log == s.log.(responses := Front(s.log.responses) + [r])
            && Outgoing(s') == DueOf(r)
  {
    var s1 := Take(s, io.octets);
    var f := Front(s.log.responses);
    var r := Last(s.log.responses);
    assert r.octets + io.octets == io.octets && r.product + [] == [];
    assert io.octets + [] == io.octets && [] + io.filtered == io.filtered;
    assert s1.log.responses == f + [Response(io.octets, [], s.transform)];
    assert Front(s1.log.responses) == f;
  }

  lemma ResponseBegunFlows(s: Session, io: Io, judged: bool, multiline: bool, finished: bool)
    requires Flows(s) && s.state == RESPONSE_SREAD && io.Received?
    ensures Flows(ResponseBegun(s, io, judged, multiline, finished))
  {
    ResponseBegunIs(s, io, judged, multiline, finished);
    var s' := ResponseBegun(s, io, judged, multiline, finished);
    BegunOwed(s.log, Last(s'.log.responses));
    assert s.log.to_client + [] == s.log.to_client;
  }

  lemma ResponseSreadFails(s: Session)
    requires Flows(s) && (s.state == RESPONSE_SREAD || s.state == DOT_DATA_SREAD)
    ensures Flows(s.(state := ERROR))
  {
    assert s.log.to_client + [] == s.log.to_client;
  }

  lemma DotDataSreadIs(s: Session, io: Io)
    requires Flows(s) && s.state == DOT_DATA_SREAD && io.Received?
    ensures var s' := DotDataSread(s, io);
            var product := if s.transform then io.filtered else [];
            && s'.transform == s.transform
            && s'.log == s.log.(responses := Extended(s.log.responses, io.octets, product, s.transform))
            && Outgoing(s') == if s.transform then io.filtered else io.octets
  {
    var r := Last(s.log.responses);
    var s1 := Take(s, io.octets);
    assert s1.log.responses == Front(s.log.responses) + [Response(r.octets + io.octets, r.product + [], s.transform)];
    assert Front(s1.log.responses) == Front(s.log.responses);
    assert (r.octets + io.octets) + [] == r.octets + io.octets && r.product + [] == r.product;
    assert [] + io.octets == io.octets && [] + io.filtered == io.filtered;
  }

  lemma DotDataSreadFlows(s: Session, io: Io)
    requires Flows(s) && s.state == DOT_DATA_SREAD && io.Received?
    ensures Flows(DotDataSread(s, io))
  {
    DotDataSreadIs(s, io);
    ExtendedOwed(s.log, io.octets, if s.transform then io.filtered else [], s.transform);
    assert s.log.to_client + [] == s.log.to_client;
  }

  lemma SendOnFlows(s: Session, n: nat)
    requires Flows(s) && (s.state == DOT_DATA_CWRITE || s.state == RESPONSE_CWRITE) && n <= |Outgoing(s)|
    ensures var s' := SendOn(s, n);
            Flows(s') && (Outgoing(s') == [] ==> Relayed(s', []))
  {
    MoveOn(s.log.to_client, Outgoing(s), n);
  }

  lemma ToClientFlows(s: Session, e: Event)
    requires Flows(s) && Enabled(s, e) && (s.state == DOT_DATA_CWRITE || s.state == RESPONSE_CWRITE)
    ensures Flows(Step(s, e))
  {
    if e.io.Sent? {
      SendOnFlows(s, e.io.n);
    }
  }

  lemma CommandCreadFlows(s: Session, e: Event)
    requires Flows(s) && Enabled(s, e) && s.state == COMMAND_CREAD
    ensures Flows(Step(s, e))
  {
    if e.io.Received? {
      var all := s.read_buffer + e.io.octets;
      CommandBuiltFlows(s, all, CommandParser.Split(all));
    } else {
      assert s.log.to_client + [] == s.log.to_client;
    }
  }

  lemma ResponseSreadFlows(s: Session, e: Event)
    requires Flows(s) && Enabled(s, e) && (s.state == RESPONSE_SREAD || s.state == DOT_DATA_SREAD)
    ensures Flows(Step(s, e))
  {
    if !e.io.Received? {
      ResponseSreadFails(s);
    } else if s.state == RESPONSE_SREAD {
      ResponseBegunFlows(s, e.io, SinglelineResponse.Judge(e.io.octets).BuildFinished?,
                         RespondsInLines(s), MultilineResponse.Finished(e.io.octets));
    } else {
      DotDataSreadFlows(s, e.io);
    }
  }

  lemma StepFlows(s: Session, e: Event)
    requires Flows(s) && Enabled(s, e)
    ensures Flows(Step(s, e))
  {
    match s.state
    case 3 => GreetingSreadFlows(s, e);
    case 4 => GreetingCwriteFlows(s, e);
    case 5 => CommandCreadFlows(s, e);
    case 6 => CommandSwriteFlows(s, e);
    case 7 => ResponseSreadFlows(s, e);
    case 8 => ResponseSreadFlows(s, e);
    case 9 => ToClientFlows(s, e);
    case 10 => ToClientFlows(s, e);
    case _ => ConnectingFlows(s, e);
  }

  // ----- The commands -----

  /** A whole command line, and nothing after it. */
  predicate Accepted(line: seq<byte>) {
    CommandParser.Split(line).status.BuildFinished? && CommandParser.Split(line).read == |line|
  }

  predicate AllAccepted(commands: seq<seq<byte>>) {
    forall i :: 0 <= i < |commands| ==> Accepted(commands[i])
  }

  lemma AcceptedPush(commands: seq<seq<byte>>, line: seq<byte>)
    requires AllAccepted(commands) && Accepted(line)
    ensures AllAccepted(commands + [line])
  {
  }

  lemma FinishedIsAccepted(all: seq<byte>)
    requires CommandParser.Split(all).status.BuildFinished?
    ensures var line := all[..CommandParser.Split(all).read];
            Accepted(line) && CommandParser.Split(line) == CommandParser.Split(all)
  {
    CommandParser.FinishedIsLine(all);
  }

  /** The commands are accepted lines, and the one being answered is remembered. */
  predicate Lines(s: Session) {
    && AllAccepted(s.log.commands)
    && (s.state == COMMAND_CREAD ==> CommandParser.Split(s.read_buffer).status.Building?)
    && (COMMAND_SWRITE <= s.state <= RESPONSE_SREAD ==>
          && s.log.commands != []
          && s.keyword == CommandParser.Split(Last(s.log.commands)).keyword
          && s.has_args == CommandParser.Split(Last(s.log.commands)).hasArgs)
  }

  lemma CommandBuiltLines(s: Session, all: seq<byte>)
    requires Lines(s) && s.state == COMMAND_CREAD
    ensures Lines(CommandBuilt(s, all, CommandParser.Split(all)))
  {
    var r := CommandParser.Split(all);
    if r.status.BuildFinished? {
      FinishedIsAccepted(all);
      AcceptedPush(s.log.commands, all[..r.read]);
    } else if r.status.Building? {
      assert all[..|all|] == all;
    }
  }

  lemma CommandCreadLines(s: Session, e: Event)
    requires Lines(s) && Enabled(s, e) && s.state == COMMAND_CREAD
    ensures Lines(Step(s, e))
  {
    if e.io.Received? {
      CommandBuiltLines(s, s.read_buffer + e.io.octets);
    }
  }

  /** The other handlers leave the commands as they are. */
  lemma GreetingSreadKeeps(s: Session, e: Event)
    requires Enabled(s, e) && s.state <= GREETING_SREAD
    ensures Keeps(s, Step(s, e))
  {
  }

  lemma GreetingCwriteKeeps(s: Session, e: Event)
    requires Enabled(s, e) && s.state == GREETING_CWRITE
    ensures Keeps(s, Step(s, e))
  {
  }

  lemma CommandSwriteKeeps(s: Session, e: Event)
    requires Enabled(s, e) && s.state == COMMAND_SWRITE
    ensures Keeps(s, Step(s, e))
  {
  }

  lemma ResponseBegunKeeps(s: Session, io: Io, judged: bool, multiline: bool, finished: bool)
    requires s.state == RESPONSE_SREAD && io.Received?
    ensures var s' := ResponseBegun(s, io, judged, multiline, finished);
            Keeps(s, s') && (s'.state == ERROR || s'.state == RESPONSE_CWRITE || s'.state == DOT_DATA_CWRITE)
  {
  }

  lemma ResponseSreadKeeps(s: Session, e: Event)
    requires Enabled(s, e) && s.state == RESPONSE_SREAD
    ensures Keeps(s, Step(s, e))
  {
    if e.io.Received? {
      ResponseBegunKeeps(s, e.io, SinglelineResponse.Judge(e.io.octets).BuildFinished?,
                         RespondsInLines(s), MultilineResponse.Finished(e.io.octets));
    }
  }

  lemma DotDataSreadKeeps(s: Session, e: Event)
    requires Enabled(s, e) && s.state == DOT_DATA_SREAD
    ensures Keeps(s, Step(s, e))
  {
  }

  lemma ToClientKeeps(s: Session, e: Event)
    requires Enabled(s, e) && s.state > DOT_DATA_SREAD
    ensures Keeps(s, Step(s, e))
  {
  }

  lemma StepKeeps(s: Session, e: Event)
    requires Enabled(s, e) && s.state != COMMAND_CREAD
    ensures Keeps(s, Step(s, e))
  {
    if s.state <= GREETING_SREAD {
      GreetingSreadKeeps(s, e);
    } else if s.state == GREETING_CWRITE {
      GreetingCwriteKeeps(s, e);
    } else if s.state == COMMAND_SWRITE {
      CommandSwriteKeeps(s, e);
    } else if s.state == RESPONSE_SREAD {
      ResponseSreadKeeps(s, e);
    } else if s.state == DOT_DATA_SREAD {
      DotDataSreadKeeps(s, e);
    } else {
      ToClientKeeps(s, e);
    }
  }

  predicate Keeps(s: Session, s': Session) {
    && s'.log.commands == s.log.commands
    && (s'.state == COMMAND_CREAD ==> s'.read_buffer == [])
    && (COMMAND_SWRITE <= s'.state <= RESPONSE_SREAD ==>
          s.state == COMMAND_SWRITE && s'.keyword == s.keyword && s'.has_args == s.has_args)
  }

  lemma KeepsLines(s: Session, s': Session)
    requires Lines(s) && Keeps(s, s')
    ensures Lines(s')
  {
    assert CommandParser.Split([]).status.Building?;
  }

  lemma StepLines(s: Session, e: Event)
    requires Lines(s) && Enabled(s, e)
    ensures Lines(Step(s, e))
  {
    if s.state == COMMAND_CREAD {
      CommandCreadLines(s, e);
    } else {
      StepKeeps(s, e);
      KeepsLines(s, Step(s, e));
    }
  }

  /** The client's octets, received one chunk after another where a command is awaited. */
  function ReadInTurns(s: Session, chunks: seq<seq<byte>>): Session {
    if chunks == [] then s
    else CommandCread(ReadInTurns(s, Front(chunks)), Received(Last(chunks), [], false))
  }

  /** However they are cut, what becomes of them is what becomes of all of them at once. */
  lemma {:induction false} CommandInTurns(s: Session, chunks: seq<seq<byte>>)
    requires s.state == COMMAND_CREAD && s.wire.client == OP_READ && s.read_buffer == []
    requires chunks != [] && CommandParser.Split(Concat(Front(chunks))).status.Building?
    ensures ReadInTurns(s, chunks) == CommandBuilt(s, Concat(chunks), CommandParser.Split(Concat(chunks)))
  {
    var f, last := Front(chunks), Last(chunks);
    if f == [] {
      EmptyConcat(last);
    } else {
      var whole := Concat(f);
      if !CommandParser.Split(Concat(Front(f))).status.Building? {
        CommandParser.SplitIsFinal(Concat(Front(f)), Last(f));
      }
      CommandInTurns(s, f);
      BuiltSoFar(s, whole);
    }
  }

  /** A command still being built has left all its octets in the buffer, and the session as it was. */
  lemma BuiltSoFar(s: Session, whole: seq<byte>)
    requires s.state == COMMAND_CREAD && s.wire.client == OP_READ
    requires CommandParser.Split(whole).status.Building?
    ensures var c := CommandParser.Split(whole);
            CommandBuilt(s, whole, c) == s.(read_buffer := whole, keyword := c.keyword, has_args := c.hasArgs)
  {
    assert whole[..|whole|] == whole;
  }

  /** What comes after a whole line in the same recv() is dropped. */
  lemma TailIsDropped(s: Session, line: seq<byte>, tail: seq<byte>)
    requires Accepted(line)
    ensures CommandBuilt(s, line + tail, CommandParser.Split(line + tail)) ==
            CommandBuilt(s, line, CommandParser.Split(line))
  {
    CommandParser.SplitIsFinal(line, tail);
    assert (line + tail)[..|line|] == line == line[..|line|];
  }

  // ----- Whole runs -----

  /** The session after the events; None if one of them could not have come. */
  function After(events: seq<Event>): Option<Session> {
    if events == [] then Some(START)
    else
      var before := After(Front(events));
      if before.Some? && Enabled(before.value, Last(events)) then Some(Step(before.value, Last(events))) else None
  }

  lemma AfterPush(events: seq<Event>, e: Event)
    requires After(events).Some? && Enabled(After(events).value, e)
    ensures After(events + [e]) == Some(Step(After(events).value, e))
  {
    assert Front(events + [e]) == events;
  }

  lemma AfterUnfolds(events: seq<Event>, f: seq<Event>, e: Event)
    requires events != [] && f == Front(events) && e == Last(events) && After(events).Some?
    ensures After(f).Some? && Enabled(After(f).value, e) && After(events) == Some(Step(After(f).value, e))
  {
  }

  lemma AfterPrefix(events: seq<Event>, n: nat)
    requires After(events).Some? && n <= |events|
    ensures After(events[..n]).Some?
  {
    if n == |events| {
      assert events[..n] == events;
    } else {
      AfterPrefix(Front(events), n);
      assert Front(events)[..n] == events[..n];
    }
  }

  /** The next of a run's events, after i of them. */
  lemma NextOfRun(events: seq<Event>, i: nat)
    requires After(events).Some? && i < |events|
    ensures After(events[..i]).Some? && Enabled(After(events[..i]).value, events[i])
    ensures After(events[..i + 1]) == Some(Step(After(events[..i]).value, events[i]))
  {
    AfterPrefix(events, i + 1);
    FrontOfPrefix(events, i);
    AfterUnfolds(events[..i + 1], events[..i], events[i]);
  }

  lemma FrontOfPrefix(events: seq<Event>, i: nat)
    requires i < |events|
    ensures events[..i + 1] != [] && Front(events[..i + 1]) == events[..i] && Last(events[..i + 1]) == events[i]
  {
  }

  /**
   * Relay safety. However many octets each recv() and send() moves: what has gone to the origin is
   * the accepted command lines in order; what has gone to the client is the greeting and then, in order,
   * what is due of each response; and nothing of either is lost on the way.
   */
  lemma {:induction false} RunRelays(events: seq<Event>)
    requires After(events).Some?
    ensures Flows(After(events).value) && Lines(After(events).value)
  {
    if events == [] {
      assert START.log.commands == [];
    } else {
      RunRelays(Front(events));
      var s := After(Front(events)).value;
      StepFlows(s, Last(events));
      StepLines(s, Last(events));
    }
  }

  /** The origin, when its response is awaited, has been sent whole accepted lines and one for each response. */
  lemma ResponseAwaitsOneLine(events: seq<Event>)
    requires After(events).Some? && After(events).value.state == RESPONSE_SREAD
    ensures var log := After(events).value.log;
            && log.commands != [] && log.responses != []
            && log.to_origin == Concat(Front(log.commands)) + Last(log.commands)
            && |Front(log.commands)| == |Front(log.responses)|
            && Accepted(Last(log.commands)) && IsSuffix(CRLF, Last(log.commands))
            && log.to_client == Owed(log)
  {
    RunRelays(events);
    var log := After(events).value.log;
    CommandParser.FinishedIsLine(Last(log.commands));
    assert Last(log.commands) == Last(log.commands)[..|Last(log.commands)|];
    assert log.to_client + [] == log.to_client;
  }

  /** Between commands the client has had all that is due, and the origin too. */
  lemma NothingPending(events: seq<Event>)
    requires After(events).Some? && After(events).value.state == COMMAND_CREAD
    ensures var log := After(events).value.log;
            && log.to_origin == Concat(log.commands) && |log.responses| == |log.commands|
            && log.to_client == Owed(log)
  {
    RunRelays(events);
    var log := After(events).value.log;
    assert log.to_client + [] == log.to_client;
  }
}
