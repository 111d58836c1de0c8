/** How a session goes on after the first octets of a response: command lines, responses and states together. */
module SessionResponses {
  import opened Bytes
  import opened Lines
  import opened ProxySession
  import opened SessionRuns
  import opened SessionFilter
  import CommandParser
  import SinglelineResponse
  import MultilineResponse

  // ----- Which commands are answered in lines -----

  /** The line is the keyword alone, or the keyword and arguments. */
  predicate Asks(line: seq<byte>, keyword: seq<byte>) {
    line == keyword + CRLF || keyword + [SPACE] <= line
  }

  lemma KeywordAlone(line: seq<byte>, keyword: seq<byte>)
    requires Accepted(line) && CR !in keyword && SPACE !in keyword
    ensures CommandParser.Split(line).keyword == keyword && !CommandParser.Split(line).hasArgs <==> line == keyword + CRLF
  {
    CommandParser.FinishedIsLine(line);
    var cr := FirstIndex(line, CR);
    assert line[..|line|] == line;
    assert line == line[..cr] + CRLF;
    if line == keyword + CRLF {
      assert line[|keyword|] == CR && cr == |keyword|;
      assert line[..cr] == keyword;
    }
  }

  lemma KeywordAndMore(line: seq<byte>, keyword: seq<byte>)
    requires Accepted(line) && CR !in keyword && SPACE !in keyword
    ensures CommandParser.Split(line).keyword == keyword && CommandParser.Split(line).hasArgs
            <==> keyword + [SPACE] <= line
  {
    var k := CommandParser.KeywordLength(line);
    if keyword + [SPACE] <= line {
      assert line[|keyword|] == SPACE && line[..|keyword|] == keyword;
      assert forall i :: 0 <= i < |keyword| ==> line[i] == keyword[i];
      assert k == |keyword|;
    } else if CommandParser.Split(line).hasArgs {
      assert line[k] == SPACE;
      assert line[..k] + [SPACE] <= line;
    }
  }

  lemma AsksIsKeyword(line: seq<byte>, keyword: seq<byte>)
    requires Accepted(line) && CR !in keyword && SPACE !in keyword
    ensures var c := CommandParser.Split(line);
            && (c.keyword == keyword <==> Asks(line, keyword))
            && (c.keyword == keyword && !c.hasArgs <==> line == keyword + CRLF)
  {
    KeywordAlone(line, keyword);
    KeywordAndMore(line, keyword);
  }

  /** To strcmp a keyword of four octets is itself only, one of three may have a NUL after it. */
  lemma AsStrcmpSees(k: seq<byte>, keyword: seq<byte>)
    requires |k| <= CommandParser.MAX_KEYWORD_LENGTH && 3 <= |keyword| <= 4 && NUL !in keyword
    ensures CString(k) == keyword <==> k == keyword || (|keyword| == 3 && k == keyword + [NUL])
  {
    var n := FirstIndex(k, NUL);
    if k == keyword + [NUL] {
      assert k[|keyword|] == NUL && k[..|keyword|] == keyword;
      assert n == |keyword|;
    } else if n < |k| {
      assert k[..n + 1] == k[..n] + [NUL];
    }
  }

  /** What strcmp and the arguments make of a line, for a keyword of four octets. */
  lemma StrcmpIsAsks(line: seq<byte>, keyword: seq<byte>)
    requires Accepted(line) && |keyword| == 4 && CR !in keyword && SPACE !in keyword && NUL !in keyword
    ensures var c := CommandParser.Split(line);
            && (CString(c.keyword) == keyword <==> Asks(line, keyword))
            && (CString(c.keyword) == keyword && !c.hasArgs <==> line == keyword + CRLF)
  {
    CommandParser.FinishedIsLine(line);
    AsksIsKeyword(line, keyword);
    AsStrcmpSees(CommandParser.Split(line).keyword, keyword);
  }

  lemma StrcmpIsTop(line: seq<byte>)
    requires Accepted(line)
    ensures CString(CommandParser.Split(line).keyword) == TOP <==> Asks(line, TOP) || Asks(line, TOP + [NUL])
  {
    CommandParser.FinishedIsLine(line);
    AsksIsKeyword(line, TOP);
    AsksIsKeyword(line, TOP + [NUL]);
    AsStrcmpSees(CommandParser.Split(line).keyword, TOP);
  }

  /** TOP, or TOP and a NUL. */
  predicate AsksTop(line: seq<byte>) {
    Asks(line, TOP) || Asks(line, TOP + [NUL])
  }

  lemma KeywordsDiffer()
    ensures RETR != TOP && RETR != LIST && RETR != UIDL && TOP != LIST && TOP != UIDL
    ensures LANG != LIST && LANG != UIDL && CAPA != LIST && CAPA != UIDL
  {
    assert RETR[0] != LIST[0] && RETR[0] != UIDL[0] && LANG[1] != LIST[1] && LANG[0] != UIDL[0];
    assert CAPA[0] != LIST[0] && CAPA[0] != UIDL[0];
  }

  /**
   * On the wire: CAPA, LANG, RETR and TOP are answered in lines however they are given,
   * LIST and UIDL without arguments; and RETR and TOP alone turn the filter on.
   */
  lemma CommandsAnsweredInLines(line: seq<byte>)
    requires Accepted(line)
    ensures LongAnswer(line) <==>
            || Asks(line, CAPA) || Asks(line, LANG) || Asks(line, RETR) || AsksTop(line)
            || line == LIST + CRLF || line == UIDL + CRLF
    ensures Retrieves(line) <==> Asks(line, RETR) || AsksTop(line)
  {
    StrcmpIsAsks(line, CAPA);
    StrcmpIsAsks(line, LANG);
    StrcmpIsAsks(line, RETR);
    StrcmpIsTop(line);
    StrcmpIsAsks(line, LIST);
    StrcmpIsAsks(line, UIDL);
    KeywordsDiffer();
  }

  // ----- Whole responses, and parts of them -----

  lemma {:induction false} LineEndedStays(a: seq<byte>, b: seq<byte>)
    requires SinglelineResponse.LineEnded(a)
    ensures SinglelineResponse.LineEnded(a + b)
  {
    if b == [] {
      assert a + b == a;
    } else {
      LineEndedStays(a, Front(b));
      FrontConcat(a, b);
    }
  }

  lemma {:induction false} FirstLineFirst(lines: seq<seq<byte>>)
    requires lines != []
    ensures lines[0] + CRLF <= Join(lines)
  {
    if |lines| > 1 {
      FirstLineFirst(Front(lines));
      assert Front(lines)[0] == lines[0];
    } else {
      assert Join(Front(lines)) == [];
    }
  }

  /** Octets that begin with a signed line, CRLF included, are a status line to the session. */
  lemma StatusLineJudged(line: seq<byte>, octets: seq<byte>)
    requires SinglelineResponse.Signed(line) && CR !in line && line + CRLF <= octets
    ensures SinglelineResponse.Judge(octets).BuildFinished?
  {
    var first := line + CRLF;
    assert Front(first) == line + [CR] && Front(line + [CR]) == line && Last(line) != CR;
    assert CrRun(line + [CR]) == 1 + CrRun(line);
    LineEndedStays(first, octets[|first|..]);
    assert first + octets[|first|..] == octets;
    assert octets[0] == line[0];
  }

  /**
   * A whole response in one recv(): after it the session goes back to commands, exactly unless
   * it is one in lines whose text ends in an odd number of empty lines.
   */
  lemma WholeResponse(s: Session, io: Io, lines: seq<seq<byte>>)
    requires s.state == RESPONSE_SREAD && MultilineResponse.Response(lines) && SinglelineResponse.Signed(lines[0])
    requires io.Received? && io.octets == Join(lines) + MultilineResponse.END_LINE
    ensures ResponseSread(s, io).state ==
            if RespondsInLines(s) && MultilineResponse.EmptyRun(lines) % 2 == 1 then DOT_DATA_CWRITE else RESPONSE_CWRITE
  {
    FirstLineFirst(lines);
    assert CR !in lines[0];
    StatusLineJudged(lines[0], io.octets);
    MultilineResponse.EndIsSeen(lines);
  }

  /** Some lines of a response, its end not among them: more is waited for exactly if it is one in lines. */
  lemma PartOfResponse(s: Session, io: Io, lines: seq<seq<byte>>)
    requires s.state == RESPONSE_SREAD && MultilineResponse.Response(lines) && SinglelineResponse.Signed(lines[0])
    requires io.Received? && io.octets == Join(lines)
    ensures ResponseSread(s, io).state == if RespondsInLines(s) then DOT_DATA_CWRITE else RESPONSE_CWRITE
  {
    FirstLineFirst(lines);
    assert CR !in lines[0];
    StatusLineJudged(lines[0], io.octets);
    MultilineResponse.EndIsSeen(lines);
  }

  /**
   * A failed command that would have been answered in lines is answered by one line only.
   * The session does not look at the sign and, having sent that line on, waits for the origin again.
   */
  lemma FailureWaitsForMore(s: Session, io: Io, line: seq<byte>)
    requires s.state == RESPONSE_SREAD && s.write_buffer == [] && s.trans_buffer == [] && RespondsInLines(s)
    requires CR !in line && SinglelineResponse.Signed(line) && line[0] == MINUS
    requires io.Received? && io.octets == line + CRLF
    ensures var s1 := ResponseSread(s, io);
            && s1.state == DOT_DATA_CWRITE
            && Outgoing(s1) == (if Filtered(s.keyword) then io.filtered else io.octets)
            && DotDataCwrite(s1, Sent(|Outgoing(s1)|)).state == DOT_DATA_SREAD
  {
    assert Join([line]) == Join([]) + line + CRLF == line + CRLF;
    PartOfResponse(s, io, [line]);
    EmptyConcat(io.octets);
    EmptyConcat(io.filtered);
  }
}
