/** Whole exchanges of a command and its response, and a run in which a response gets lost (pop3_client_nio.c). */
module SessionExchanges {
  import opened Bytes
  import opened Options
  import opened Lines
  import opened StateMachines
  import opened SelectorTable
  import opened ProxySession
  import opened SessionRuns
  import opened SessionFilter
  import opened SessionResponses
  import CommandParser
  import SinglelineResponse
  import MultilineResponse

  // ----- One exchange -----

  /** Waiting for a command, with nothing of it there yet. */
  predicate Idle(s: Session) {
    s.state == COMMAND_CREAD && Subscribed(s.state, s.wire) && s.read_buffer == []
  }

  predicate Exchangeable(line: seq<byte>, octets: seq<byte>, product: seq<byte>) {
    && Accepted(line) && 0 < |line| <= BUFFER_SIZE
    && 0 < |octets| <= BUFFER_SIZE && |product| <= TRANS_SIZE
    && SinglelineResponse.Judge(octets).BuildFinished?
    && (LongAnswer(line) ==> MultilineResponse.Finished(octets))
  }

  /** The response to a line, as it will be in the log. */
  function ReplyTo(s: Session, line: seq<byte>, octets: seq<byte>, product: seq<byte>): Response {
    Response(octets, if Retrieves(line) then product else [], if LongAnswer(line) then Retrieves(line) else s.transform)
  }

  function CommandEvent(line: seq<byte>): Event { Event(Client, OnRead, Received(line, [], false)) }

  lemma LineBuilt(s: Session, line: seq<byte>, c: CommandParser.Command)
    requires Idle(s) && c.status.BuildFinished? && c.read == |line|
    ensures CommandBuilt(s, line, c) ==
            s.(state := COMMAND_SWRITE, wire := Wire(OP_NOOP, Some(OP_WRITE)), read_buffer := line,
               keyword := c.keyword, has_args := c.hasArgs, log := s.log.(commands := s.log.commands + [line]))
  {
    assert line[..|line|] == line;
  }

  lemma CommandComes(s: Session, line: seq<byte>)
    requires Idle(s) && Accepted(line) && 0 < |line| <= BUFFER_SIZE
    ensures Enabled(s, CommandEvent(line))
    ensures var s' := Step(s, CommandEvent(line));
            && s' == CommandBuilt(s, line, CommandParser.Split(line)) && s'.state == COMMAND_SWRITE
  {
    assert [] + line == line;
    LineBuilt(s, line, CommandParser.Split(line));
  }

  function SentEvent(side: Side, n: nat): Event { Event(side, OnWrite, Sent(n)) }

  lemma CommandGoes(s: Session)
    requires s.state == COMMAND_SWRITE && Subscribed(s.state, s.wire)
    ensures Enabled(s, SentEvent(Origin, |s.read_buffer|))
    ensures Step(s, SentEvent(Origin, |s.read_buffer|)) ==
            s.(state := RESPONSE_SREAD, wire := Wire(OP_NOOP, Some(OP_READ)),
               read_buffer := [], write_buffer := [], trans_buffer := [],
               log := s.log.(to_origin := s.log.to_origin + s.read_buffer,
                             responses := s.log.responses + [Response([], [], s.transform)]))
  {
    assert s.read_buffer[..|s.read_buffer|] == s.read_buffer;
  }

  function ResponseEvent(octets: seq<byte>, product: seq<byte>): Event {
    Event(Origin, OnRead, Received(octets, product, false))
  }

  /** The log's entry for a whole response in answer to what the session remembers. */
  function Entry(s: Session, octets: seq<byte>, product: seq<byte>): Response {
    Response(octets, if RespondsInLines(s) && Filtered(s.keyword) then product else [],
             if RespondsInLines(s) then Filtered(s.keyword) else s.transform)
  }

  lemma BegunGoesOn(s: Session, io: Io, multiline: bool, finished: bool)
    requires s.state == RESPONSE_SREAD && Subscribed(s.state, s.wire) && io.Received? && (multiline ==> finished)
    ensures var s' := ResponseBegun(s, io, true, multiline, finished);
            s'.state == RESPONSE_CWRITE && s'.wire == Wire(OP_WRITE, Some(OP_NOOP)) && s'.read_buffer == s.read_buffer
  {
  }

  lemma SreadIsStep(s: Session, e: Event)
    requires Enabled(s, e) && s.state == RESPONSE_SREAD && ResponseSread(s, e.io).state == RESPONSE_CWRITE
    ensures Step(s, e) == ResponseSread(s, e.io)
  {
  }

  /** A whole response: what there is to send is what is due of it. */
  lemma ResponseIsEnabled(s: Session, octets: seq<byte>, product: seq<byte>)
    requires s.state == RESPONSE_SREAD && s.wire == Wire(OP_NOOP, Some(OP_READ)) && s.write_buffer == []
    requires 0 < |octets| <= BUFFER_SIZE && |product| <= TRANS_SIZE
    ensures Enabled(s, ResponseEvent(octets, product))
  {
  }

  lemma ResponseComes(s: Session, octets: seq<byte>, product: seq<byte>)
    requires s.state == RESPONSE_SREAD && Subscribed(s.state, s.wire) && Flows(s)
    requires 0 < |octets| <= BUFFER_SIZE && |product| <= TRANS_SIZE
    requires SinglelineResponse.Judge(octets).BuildFinished?
    requires RespondsInLines(s) ==> MultilineResponse.Finished(octets)
    ensures Enabled(s, ResponseEvent(octets, product))
    ensures var s' := Step(s, ResponseEvent(octets, product));
            var r := Entry(s, octets, product);
            && s'.state == RESPONSE_CWRITE && Subscribed(s'.state, s'.wire) && s'.transform == r.through
            && s'.read_buffer == s.read_buffer
            && s'.log == s.log.(responses := Front(s.log.responses) + [r])
            && Outgoing(s') == DueOf(r)
  {
    var io := ResponseEvent(octets, product).io;
    var multiline, finished := RespondsInLines(s), MultilineResponse.Finished(octets);
    ResponseIsEnabled(s, octets, product);
    ResponseBegunIs(s, io, true, multiline, finished);
    BegunGoesOn(s, io, multiline, finished);
    assert ResponseSread(s, io) == ResponseBegun(s, io, true, multiline, finished);
    SreadIsStep(s, ResponseEvent(octets, product));
  }

  lemma ResponseGoes(s: Session)
    requires s.state == RESPONSE_CWRITE && Subscribed(s.state, s.wire)
    ensures Enabled(s, SentEvent(Client, |Outgoing(s)|))
    ensures var s' := Step(s, SentEvent(Client, |Outgoing(s)|));
            && Idle(s') && s'.transform == s.transform
            && s'.log == s.log.(to_client := s.log.to_client + Outgoing(s))
  {
    assert Outgoing(s)[..|Outgoing(s)|] == Outgoing(s);
  }

  /** The first half: the command has come and gone. */
  lemma Ask(events: seq<Event>, line: seq<byte>) returns (all: seq<Event>)
    requires After(events).Some? && Idle(After(events).value) && Accepted(line) && 0 < |line| <= BUFFER_SIZE
    ensures events <= all && After(all).Some?
    ensures var s, s' := After(events).value, After(all).value;
            && s'.state == RESPONSE_SREAD && Subscribed(s'.state, s'.wire)
            && s'.read_buffer == [] && s'.transform == s.transform
            && s'.keyword == CommandParser.Split(line).keyword && s'.has_args == CommandParser.Split(line).hasArgs
            && s'.log == s.log.(commands := s.log.commands + [line], to_origin := s.log.to_origin + line,
                                responses := s.log.responses + [Response([], [], s.transform)])
  {
    var s := After(events).value;
    CommandComes(s, line);
    AfterPush(events, CommandEvent(line));
    var half := events + [CommandEvent(line)];
    LineBuilt(s, line, CommandParser.Split(line));
    var s1 := After(half).value;
    CommandGoes(s1);
    all := half + [SentEvent(Origin, |line|)];
    AfterPush(half, SentEvent(Origin, |line|));
  }

  /** The second half: the response has come and gone. */
  lemma Reply(events: seq<Event>, octets: seq<byte>, product: seq<byte>) returns (all: seq<Event>)
    requires After(events).Some?
    requires var s := After(events).value;
             && s.state == RESPONSE_SREAD && Subscribed(s.state, s.wire) && s.read_buffer == []
             && 0 < |octets| <= BUFFER_SIZE && |product| <= TRANS_SIZE
             && SinglelineResponse.Judge(octets).BuildFinished?
             && (RespondsInLines(s) ==> MultilineResponse.Finished(octets))
    ensures events <= all && After(all).Some? && Idle(After(all).value)
    ensures var s, s' := After(events).value, After(all).value;
            var r := Entry(s, octets, product);
            && s.log.responses != [] && s'.transform == r.through
            && s'.log == s.log.(responses := Front(s.log.responses) + [r], to_client := s.log.to_client + DueOf(r))
  {
    var s := After(events).value;
    RunRelays(events);
    ResponseComes(s, octets, product);
    var half := events + [ResponseEvent(octets, product)];
    AfterPush(events, ResponseEvent(octets, product));
    var s1 := After(half).value;
    ResponseGoes(s1);
    all := half + [SentEvent(Client, |Outgoing(s1)|)];
    AfterPush(half, SentEvent(Client, |Outgoing(s1)|));
  }

  /** Any command and any whole response to it, one after the other, bring the session back to commands. */
  lemma Exchange(events: seq<Event>, line: seq<byte>, octets: seq<byte>, product: seq<byte>) returns (all: seq<Event>)
    requires After(events).Some? && Idle(After(events).value) && Exchangeable(line, octets, product)
    ensures events <= all && After(all).Some? && Idle(After(all).value)
    ensures var s, s', r := After(events).value, After(all).value, ReplyTo(After(events).value, line, octets, product);
            && s'.transform == r.through
            && s'.log == Log(s.log.commands + [line], s.log.to_origin + line, s.log.responses + [r],
                             s.log.to_client + DueOf(r))
  {
    all := Ask(events, line);
    ghost var responses := After(events).value.log.responses;
    assert Front(After(all).value.log.responses) == responses;
    all := Reply(all, octets, product);
  }

  /** A single-line exchange: the response gets to the client, exactly unless the last command answered in lines was RETR or TOP. */
  lemma SingleLineExchange(events: seq<Event>, line: seq<byte>, octets: seq<byte>) returns (all: seq<Event>)
    requires After(events).Some? && Idle(After(events).value)
    requires Exchangeable(line, octets, []) && !LongAnswer(line)
    ensures events <= all && After(all).Some? && Idle(After(all).value)
    ensures var log, log' := After(events).value.log, After(all).value.log;
            && log'.commands == log.commands + [line]
            && log'.to_client == log.to_client + if LastRetrieves(log.commands) then [] else octets
  {
    FlagIsLastRetrieves(events);
    all := Exchange(events, line, octets, []);
  }

  // ----- From the beginning -----

  /** "+" and CRLF */
  const PLUS_LINE: seq<byte> := [PLUS, CR, LF]

  /** A session that is connected. */
  lemma Connects() returns (all: seq<Event>)
    ensures After(all) == Some(START.(state := GREETING_SREAD, wire := Wire(OP_NOOP, Some(OP_READ)),
                                      write_buffer := GREETING_OK))
  {
    var e1, e2 := Event(Client, OnWrite, Connecting), Event(Origin, OnWrite, Connected);
    assert After([]) == Some(START);
    AfterPush([], e1);
    all := [] + [e1];
    AfterPush(all, e2);
    all := all + [e2];
  }

  lemma GreetingGoes(s: Session)
    requires s.state == GREETING_CWRITE && Subscribed(s.state, s.wire)
    ensures Enabled(s, SentEvent(Client, |s.write_buffer|))
    ensures var s' := Step(s, SentEvent(Client, |s.write_buffer|));
            && Idle(s') && s'.transform == s.transform
            && s'.log == s.log.(to_client := s.log.to_client + s.write_buffer)
  {
    assert s.write_buffer[..|s.write_buffer|] == s.write_buffer;
  }

  /** A session that has got over its greeting. */
  lemma Greeted() returns (all: seq<Event>)
    ensures After(all).Some? && Idle(After(all).value)
    ensures After(all).value.log == NO_TRAFFIC.(to_client := GREETING_OK) && !After(all).value.transform
  {
    all := Connects();
    var e := Event(Origin, OnRead, Received(PLUS_LINE, [], false));
    StatusLineJudged([PLUS], PLUS_LINE);
    AfterPush(all, e);
    all := all + [e];
    var s := After(all).value;
    EmptyConcat(s.write_buffer);
    GreetingGoes(s);
    AfterPush(all, SentEvent(Client, |s.write_buffer|));
    all := all + [SentEvent(Client, |s.write_buffer|)];
  }

  /** RETR 1 */
  const RETR_LINE: seq<byte> := RETR + [SPACE, 49, CR, LF]
  const CAPA_LINE: seq<byte> := CAPA + CRLF
  const NOOP: seq<byte> := [78, 79, 79, 80]
  const NOOP_LINE: seq<byte> := NOOP + CRLF

  /** The shortest response in lines. */
  const PLUS_AND_END: seq<byte> := PLUS_LINE + [DOT, CR, LF]

  lemma FirstIndexIs(s: seq<byte>, c: byte, i: nat)
    requires i < |s| && s[i] == c && forall j :: 0 <= j < i ==> s[j] != c
    ensures FirstIndex(s, c) == i
  {
  }

  lemma KeywordLine(keyword: seq<byte>)
    requires |keyword| <= CommandParser.MAX_KEYWORD_LENGTH && CR !in keyword && SPACE !in keyword
    ensures Accepted(keyword + CRLF)
    ensures var c := CommandParser.Split(keyword + CRLF); c.keyword == keyword && !c.hasArgs
  {
    var line, n := keyword + CRLF, |keyword|;
    assert line[..n] == keyword && line[n] == CR;
    FirstIndexIs(line, CR, n);
  }

  lemma KeywordWithArguments(keyword: seq<byte>, arguments: seq<byte>)
    requires |keyword| <= CommandParser.MAX_KEYWORD_LENGTH && CR !in keyword && SPACE !in keyword && CR !in arguments
    ensures var line := keyword + [SPACE] + arguments + CRLF;
            Accepted(line) && CommandParser.Split(line).keyword == keyword && CommandParser.Split(line).hasArgs
  {
    var line, n := keyword + [SPACE] + arguments + CRLF, |keyword|;
    assert line[..n] == keyword && line[n] == SPACE;
    FirstIndexIs(line, SPACE, n);
    assert line[..|line| - 2] == keyword + [SPACE] + arguments;
    FirstIndexIs(line, CR, |line| - 2);
  }

  lemma NoNul(keyword: seq<byte>)
    requires NUL !in keyword
    ensures CString(keyword) == keyword
  {
  }

  lemma RetrLine()
    ensures Accepted(RETR_LINE) && Retrieves(RETR_LINE) && LongAnswer(RETR_LINE)
  {
    KeywordWithArguments(RETR, [49]);
    assert RETR_LINE == RETR + [SPACE] + [49] + CRLF;
    NoNul(RETR);
  }

  lemma CapaLine()
    ensures Accepted(CAPA_LINE) && !Retrieves(CAPA_LINE) && LongAnswer(CAPA_LINE)
  {
    KeywordLine(CAPA);
    NoNul(CAPA);
  }

  lemma NoopLine()
    ensures Accepted(NOOP_LINE) && !LongAnswer(NOOP_LINE)
  {
    KeywordLine(NOOP);
    NoNul(NOOP);
  }

  lemma ResponsesOfTheRuns()
    ensures SinglelineResponse.Judge(PLUS_LINE).BuildFinished?
    ensures SinglelineResponse.Judge(PLUS_AND_END).BuildFinished? && MultilineResponse.Finished(PLUS_AND_END)
  {
    StatusLineJudged([PLUS], PLUS_LINE);
    StatusLineJudged([PLUS], PLUS_AND_END);
    assert Join([[PLUS]]) == Join([]) + [PLUS] + CRLF == PLUS_LINE;
    MultilineResponse.EndIsSeen([[PLUS]]);
  }

  /** A session whose first command retrieves. */
  lemma Retrieved(line: seq<byte>, octets: seq<byte>, product: seq<byte>) returns (all: seq<Event>)
    requires Exchangeable(line, octets, product) && LongAnswer(line) && Retrieves(line)
    ensures After(all).Some? && Idle(After(all).value)
    ensures After(all).value.log == Log([line], line, [Response(octets, product, true)], GREETING_OK + product)
  {
    all := Greeted();
    var r := Response(octets, product, true);
    assert [] + line == line && [] + [line] == [line] && [] + [r] == [r];
    all := Exchange(all, line, octets, product);
  }

  /** RETR, then NOOP: the answer to NOOP, received whole, is never sent. */
  lemma ResponseLostAfterRetr() returns (all: seq<Event>)
    ensures After(all).Some? && Idle(After(all).value)
    ensures After(all).value.log.commands == [RETR_LINE, NOOP_LINE]
    ensures After(all).value.log.responses ==
            [Response(PLUS_AND_END, PLUS_AND_END, true), Response(PLUS_LINE, [], true)]
    ensures After(all).value.log.to_client == GREETING_OK + PLUS_AND_END
  {
    RetrLine();
    NoopLine();
    ResponsesOfTheRuns();
    all := Retrieved(RETR_LINE, PLUS_AND_END, PLUS_AND_END);
    FlagIsLastRetrieves(all);
    all := Exchange(all, NOOP_LINE, PLUS_LINE, []);
  }

  /** Another command answered in lines, in between, puts that right. */
  lemma SentAfterOther(retr: seq<byte>, other: seq<byte>, single: seq<byte>, octets: seq<byte>, answer: seq<byte>)
    returns (all: seq<Event>)
    requires Exchangeable(retr, octets, octets) && LongAnswer(retr) && Retrieves(retr)
    requires Exchangeable(other, octets, []) && LongAnswer(other) && !Retrieves(other)
    requires Exchangeable(single, answer, []) && !LongAnswer(single)
    ensures After(all).Some? && Idle(After(all).value)
    ensures After(all).value.log.commands == [retr, other, single]
    ensures After(all).value.log.to_client == GREETING_OK + octets + octets + answer
  {
    all := Retrieved(retr, octets, octets);
    all := Exchange(all, other, octets, []);
    assert [retr] + [other] == [retr, other];
    all := SingleLineExchange(all, single, answer);
  }

  /** RETR, CAPA, then NOOP: all is sent. */
  lemma ResponseSentAfterCapa() returns (all: seq<Event>)
    ensures After(all).Some? && Idle(After(all).value)
    ensures After(all).value.log.commands == [RETR_LINE, CAPA_LINE, NOOP_LINE]
    ensures After(all).value.log.to_client == GREETING_OK + PLUS_AND_END + PLUS_AND_END + PLUS_LINE
  {
    RetrLine();
    CapaLine();
    NoopLine();
    ResponsesOfTheRuns();
    all := SentAfterOther(RETR_LINE, CAPA_LINE, NOOP_LINE, PLUS_AND_END, PLUS_LINE);
  }
}
