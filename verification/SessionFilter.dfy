/** Which responses go through the filter's buffer, and what then becomes of them (pop3_client_nio.c). */
module SessionFilter {
  import opened Bytes
  import opened ProxySession
  import opened SessionRuns
  import CommandParser
  import SinglelineResponse
  import MultilineResponse

  // ----- The transform flag -----

  /** Whether the session takes the response to a command line to be a multi-line one. */
  predicate LongAnswer(line: seq<byte>) {
    var c := CommandParser.Split(line);
    InLines(c.keyword, c.hasArgs)
  }

  /** RETR and TOP. */
  predicate Retrieves(line: seq<byte>) {
    Filtered(CommandParser.Split(line).keyword)
  }

  /** Whether the last of the commands that are answered in lines retrieves. */
  predicate LastRetrieves(commands: seq<seq<byte>>) {
    commands != [] && if LongAnswer(Last(commands)) then Retrieves(Last(commands)) else LastRetrieves(Front(commands))
  }

  /** The responses have gone the way the commands tell, and only retrieved ones have come to the filter. */
  predicate Routed(commands: seq<seq<byte>>, responses: seq<Response>) {
    && |commands| == |responses|
    && (commands == [] ||
        (&& Routed(Front(commands), Front(responses))
         && Last(responses).octets != []
         && Last(responses).through == LastRetrieves(commands)
         && (!Retrieves(Last(commands)) ==> Last(responses).product == [])))
  }

  /** The flag, as far as it has been decided, is what the commands tell. */
  predicate Routes(s: Session) {
    var commands, responses := s.log.commands, s.log.responses;
    match s.state
    case 6 =>
      commands != [] && Routed(Front(commands), responses) && s.transform == LastRetrieves(Front(commands))
    case 7 =>
      && commands != [] && |responses| == |commands|
      && Routed(Front(commands), Front(responses)) && s.transform == LastRetrieves(Front(commands))
    case 8 =>
      && commands != [] && Routed(commands, responses) && s.transform == LastRetrieves(commands)
      && (s.transform ==> Retrieves(Last(commands)))
    case 9 =>
      && commands != [] && Routed(commands, responses) && s.transform == LastRetrieves(commands)
      && (s.transform ==> Retrieves(Last(commands)))
    case 13 => RoutedButLast(commands, responses)
    case _ => Routed(commands, responses) && s.transform == LastRetrieves(commands)
  }

  lemma RoutedPush(commands: seq<seq<byte>>, responses: seq<Response>, line: seq<byte>, r: Response)
    requires Routed(commands, responses)
    requires r.octets != [] && r.through == LastRetrieves(commands + [line]) && (!Retrieves(line) ==> r.product == [])
    ensures Routed(commands + [line], responses + [r])
  {
    assert Front(commands + [line]) == commands && Front(responses + [r]) == responses;
  }

  /** What is certain of the responses when the session fails: all but the last have gone their way. */
  predicate RoutedButLast(commands: seq<seq<byte>>, responses: seq<Response>) {
    responses == [] || (|responses| <= |commands| && Routed(commands[..|responses| - 1], Front(responses)))
  }

  lemma RoutedIsEnough(commands: seq<seq<byte>>, responses: seq<Response>)
    requires Routed(commands, responses)
    ensures RoutedButLast(commands, responses)
  {
    if responses != [] {
      assert commands[..|responses| - 1] == Front(commands);
    }
  }

  lemma RoutedBefore(commands: seq<seq<byte>>, responses: seq<Response>)
    requires commands != [] && Routed(Front(commands), responses)
    ensures RoutedButLast(commands, responses)
  {
    if responses != [] {
      assert commands[..|responses| - 1] == Front(Front(commands));
    }
  }

  lemma RoutedUpToLast(commands: seq<seq<byte>>, responses: seq<Response>)
    requires commands != [] && responses != [] && Routed(Front(commands), Front(responses))
    ensures RoutedButLast(commands, responses)
  {
    assert commands[..|responses| - 1] == Front(commands);
  }

  lemma CommandBuiltRoutes(s: Session, all: seq<byte>, r: CommandParser.Command)
    requires Routes(s) && s.state == COMMAND_CREAD && r.read <= |all|
    ensures Routes(CommandBuilt(s, all, r))
  {
    var commands := s.log.commands + [all[..r.read]];
    assert Front(commands) == s.log.commands;
    RoutedIsEnough(s.log.commands, s.log.responses);
  }

  lemma ResponseBegunRoutes(s: Session, io: Io, judged: bool, finished: bool)
    requires Flows(s) && Lines(s) && Routes(s) && s.state == RESPONSE_SREAD && io.Received? && io.octets != []
    ensures Routes(ResponseBegun(s, io, judged, RespondsInLines(s), finished))
  {
    var commands, responses := s.log.commands, s.log.responses;
    var s' := ResponseBegun(s, io, judged, RespondsInLines(s), finished);
    ResponseBegunIs(s, io, judged, RespondsInLines(s), finished);
    FrontLast(commands);
    var r := Last(s'.log.responses);
    if judged {
      RoutedPush(Front(commands), Front(responses), Last(commands), r);
    } else {
      RoutedUpToLast(commands, s'.log.responses);
    }
  }

  lemma DotDataSreadRoutes(s: Session, io: Io)
    requires Flows(s) && Routes(s) && s.state == DOT_DATA_SREAD && io.Received?
    ensures Routes(DotDataSread(s, io))
  {
    DotDataSreadIs(s, io);
    var commands, responses := s.log.commands, s.log.responses;
    var r := Last(DotDataSread(s, io).log.responses);
    FrontLast(commands);
    assert r.octets == Last(responses).octets + io.octets;
    RoutedPush(Front(commands), Front(responses), Last(commands), r);
  }

  /** A step that leaves commands, responses and flag alone. */
  predicate RoutesAside(s: Session, s': Session) {
    && s'.log.commands == s.log.commands && s'.log.responses == s.log.responses && s'.transform == s.transform
    && (s'.state == s.state || s'.state == ERROR
        || (s.state <= GREETING_CWRITE && s'.state <= COMMAND_CREAD)
        || (s.state == DOT_DATA_CWRITE && s'.state == DOT_DATA_SREAD)
        || (s.state == RESPONSE_CWRITE && s'.state == COMMAND_CREAD))
  }

  lemma AsideRoutes(s: Session, s': Session)
    requires Routes(s) && RoutesAside(s, s') && s.state <= RESPONSE_CWRITE
    ensures Routes(s')
  {
    var commands, responses := s.log.commands, s.log.responses;
    if s'.state == ERROR {
      match s.state {
        case 6 => RoutedBefore(commands, responses);
        case 7 => RoutedUpToLast(commands, responses);
        case _ => RoutedIsEnough(commands, responses);
      }
    }
  }

  lemma GreetingSreadAside(s: Session, e: Event)
    requires Enabled(s, e) && s.state <= GREETING_SREAD
    ensures RoutesAside(s, Step(s, e))
  {
  }

  lemma GreetingCwriteAside(s: Session, e: Event)
    requires Enabled(s, e) && s.state == GREETING_CWRITE
    ensures RoutesAside(s, Step(s, e))
  {
  }

  lemma CommandCreadRoutes(s: Session, e: Event)
    requires Routes(s) && Enabled(s, e) && s.state == COMMAND_CREAD
    ensures Routes(Step(s, e))
  {
    if e.io.Received? {
      var all := s.read_buffer + e.io.octets;
      CommandBuiltRoutes(s, all, CommandParser.Split(all));
    } else {
      AsideRoutes(s, Step(s, e));
    }
  }

  lemma CommandSwriteRoutes(s: Session, e: Event)
    requires Routes(s) && Enabled(s, e) && s.state == COMMAND_SWRITE
    ensures Routes(Step(s, e))
  {
    var s' := Step(s, e);
    if s'.state == RESPONSE_SREAD {
      assert Front(s'.log.responses) == s.log.responses;
    } else {
      AsideRoutes(s, s');
    }
  }

  lemma ResponseSreadRoutes(s: Session, e: Event)
    requires Flows(s) && Lines(s) && Routes(s) && Enabled(s, e) && s.state == RESPONSE_SREAD
    ensures Routes(Step(s, e))
  {
    if e.io.Received? {
      ResponseBegunRoutes(s, e.io, SinglelineResponse.Judge(e.io.octets).BuildFinished?,
                          MultilineResponse.Finished(e.io.octets));
      ResponseBegunKeeps(s, e.io, SinglelineResponse.Judge(e.io.octets).BuildFinished?,
                         RespondsInLines(s), MultilineResponse.Finished(e.io.octets));
    } else {
      AsideRoutes(s, Step(s, e));
    }
  }

  lemma DotDataSreadStepRoutes(s: Session, e: Event)
    requires Flows(s) && Routes(s) && Enabled(s, e) && s.state == DOT_DATA_SREAD
    ensures Routes(Step(s, e))
  {
    if e.io.Received? {
      DotDataSreadRoutes(s, e.io);
    } else {
      AsideRoutes(s, Step(s, e));
    }
  }

  lemma ToClientAside(s: Session, e: Event)
    requires Enabled(s, e) && (s.state == DOT_DATA_CWRITE || s.state == RESPONSE_CWRITE)
    ensures RoutesAside(s, Step(s, e))
  {
  }

  lemma StepRoutes(s: Session, e: Event)
    requires Flows(s) && Lines(s) && Routes(s) && Enabled(s, e)
    ensures Routes(Step(s, e))
  {
    match s.state
    case 5 => CommandCreadRoutes(s, e);
    case 6 => CommandSwriteRoutes(s, e);
    case 7 => ResponseSreadRoutes(s, e);
    case 8 => DotDataSreadStepRoutes(s, e);
    case 9 =>
      ToClientAside(s, e);
      AsideRoutes(s, Step(s, e));
    case 10 =>
      ToClientAside(s, e);
      AsideRoutes(s, Step(s, e));
    case 4 =>
      GreetingCwriteAside(s, e);
      AsideRoutes(s, Step(s, e));
    case _ =>
      GreetingSreadAside(s, e);
      AsideRoutes(s, Step(s, e));
  }

  // ----- Whole runs -----

  lemma {:induction false} RunRoutes(events: seq<Event>)
    requires After(events).Some?
    ensures Routes(After(events).value)
  {
    if events != [] {
      RunRoutes(Front(events));
      RunRelays(Front(events));
      StepRoutes(After(Front(events)).value, Last(events));
    }
  }

  /** Over every run, between commands: the flag is on exactly if the last command answered in lines was RETR or TOP. */
  lemma FlagIsLastRetrieves(events: seq<Event>)
    requires After(events).Some? && After(events).value.state == COMMAND_CREAD
    ensures After(events).value.transform <==> LastRetrieves(After(events).value.log.commands)
  {
    RunRoutes(events);
  }

  lemma {:induction false} RoutedAt(commands: seq<seq<byte>>, responses: seq<Response>, i: nat)
    requires Routed(commands, responses) && i < |commands|
    ensures responses[i].octets != []
    ensures responses[i].through == LastRetrieves(commands[..i + 1])
    ensures !Retrieves(commands[i]) ==> responses[i].product == []
  {
    if i == |commands| - 1 {
      assert commands[..i + 1] == commands;
    } else {
      RoutedAt(Front(commands), Front(responses), i);
      assert Front(commands)[..i + 1] == commands[..i + 1];
    }
  }

  /** What becomes of each response, in terms of the commands up to its own. */
  predicate Fates(commands: seq<seq<byte>>, responses: seq<Response>) {
    && |commands| == |responses|
    && forall i :: 0 <= i < |commands| ==>
         && responses[i].octets != []
         && DueOf(responses[i]) == (if LastRetrieves(commands[..i + 1]) then responses[i].product else responses[i].octets)
         && (!LongAnswer(commands[i]) ==> (DueOf(responses[i]) == [] <==> LastRetrieves(commands[..i + 1])))
  }

  /**
   * Over every run, between commands: the client has had the greeting and then, of each response in order,
   * all the origin sent, or all the filter made of it where the last command so far to be answered in lines
   * was RETR or TOP. A single-line response is swallowed whole exactly in that case.
   */
  lemma ResponsesMeetTheirFates(events: seq<Event>)
    requires After(events).Some? && After(events).value.state == COMMAND_CREAD
    ensures var log := After(events).value.log;
            Fates(log.commands, log.responses) && log.to_client == GREETING_OK + AllDue(log.responses)
  {
    RunRoutes(events);
    NothingPending(events);
    var log := After(events).value.log;
    forall i | 0 <= i < |log.commands|
      ensures && log.responses[i].octets != []
              && log.responses[i].through == LastRetrieves(log.commands[..i + 1])
              && (!LongAnswer(log.commands[i]) ==> log.responses[i].product == [])
    {
      RoutedAt(log.commands, log.responses, i);
    }
  }
}
