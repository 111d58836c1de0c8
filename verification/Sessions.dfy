/** A proxied session as the program has it: buffers, parsers and interests that the steps update (pop3_client_nio.c). */
module Sessions {
  import opened Bytes
  import opened Options
  import opened SelectorTable
  import opened ParserEngine
  import opened Buffers
  import opened ProxySession
  import opened SessionRuns
  import Builders
  import CommandParser
  import SinglelineResponse
  import MultilineResponse

  /** A parser of status lines that has seen nothing yet. */
  ghost predicate AtStart(p: Parser<SinglelineResponse.Kind>)
    reads p
  {
    SinglelineResponse.Stands(p) && p.state == SinglelineResponse.STAT
  }

  method SinglelineParserInit() returns (p: Parser<SinglelineResponse.Kind>)
    ensures fresh(p) && AtStart(p)
  {
    p := new Parser(NO_CLASSES, SinglelineResponse.DEFINITION);
  }

  method MultilineParserInit() returns (p: Parser<MultilineResponse.Kind>)
    ensures fresh(p) && MultilineResponse.Holds(p, [])
  {
    p := new Parser(NO_CLASSES, MultilineResponse.DEFINITION);
  }

  method CommandParserInit() returns (p: Parser<CommandParser.Kind>, cmd: CommandParser.CommandBuilder)
    ensures fresh(p) && fresh(cmd) && fresh(cmd.kwrd)
    ensures CommandParser.Holds(p, cmd, []) && cmd.Keyword() == [] && !cmd.has_args
  {
    p := new Parser(NO_CLASSES, CommandParser.DEFINITION);
    cmd := new CommandParser.CommandBuilder();
  }

  /** Whether the octets hold a whole status line. */
  method JudgeStart(octets: seq<byte>, p: Parser<SinglelineResponse.Kind>) returns (judged: bool)
    requires AtStart(p)
    modifies p
    ensures SinglelineResponse.Stands(p)
    ensures judged == SinglelineResponse.Judge(octets).BuildFinished?
  {
    var builder := new SinglelineResponse.ResponseBuilder();
    var status, error, _ := SinglelineResponse.Build(octets, p, builder, []);
    assert [] + octets == octets;
    return status == Builders.BuildFinished;
  }

  /** The builder is run over octets that it may have seen before. */
  method ShowAgain(octets: seq<byte>, p: Parser<SinglelineResponse.Kind>)
    requires SinglelineResponse.Stands(p)
    modifies p
    ensures SinglelineResponse.Stands(p)
  {
    var builder := new SinglelineResponse.ResponseBuilder();
    var status, error, _ := SinglelineResponse.Build(octets, p, builder, []);
  }

  method CheckEnd(octets: seq<byte>, p: Parser<MultilineResponse.Kind>) returns (finished: bool)
    requires MultilineResponse.Holds(p, [])
    modifies p
    ensures finished == MultilineResponse.Finished(octets)
  {
    var answer, _ := MultilineResponse.Check(octets, p, []);
    assert [] + octets == octets;
    return answer == MultilineResponse.FinishedConsuming;
  }

  /** Of the octets from ptr on, only the first n still count. */
  method GiveUp(b: Buffer, ptr: nat, n: nat)
    requires b.Valid() && b.read <= ptr && ptr + n <= b.write
    modifies b`write
    ensures b.Valid() && b.Contents() == old(b.Contents())[..ptr - b.read + n]
  {
    b.Rewind(ptr);
    b.WriteAdv(n);
  }

  /** The octets held are those of a command still being built, and the builder has seen them. */
  ghost predicate Gathering(b: Buffer, p: Parser<CommandParser.Kind>, cmd: CommandParser.CommandBuilder)
    requires b.Valid()
    reads b, b.data, p, cmd, cmd.kwrd
  {
    CommandParser.Holds(p, cmd, b.Contents()) && CommandParser.Split(b.Contents()).status.Building?
  }

  lemma BuildingReadsAll(all: seq<byte>)
    requires CommandParser.Split(all).status.Building?
    ensures CommandParser.Split(all).read == |all|
  {
  }

  /** Octets received go behind those of the command so far, and the builder sees them. */
  method BuildMore(b: Buffer, octets: seq<byte>, p: Parser<CommandParser.Kind>, cmd: CommandParser.CommandBuilder)
    returns (status: Builders.Status, length: nat)
    requires b.Valid() && |octets| <= b.Room() && Gathering(b, p, cmd) && b.data != cmd.kwrd
    modifies b`write, b.data, p, cmd`kwrd_ptr, cmd`has_args, cmd.kwrd
    ensures b.Valid() && b.write == old(b.write) + |octets| && b.Contents() == old(b.Contents()) + octets
    ensures CommandParser.Holds(p, cmd, b.Contents())
    ensures var r := CommandParser.Split(b.Contents());
            status == r.status && |old(b.Contents())| + length == r.read
    ensures status.Building? ==> length == |octets|
  {
    ghost var seen := b.Contents();
    b.Fill(octets);
    var error;
    status, length, error := CommandParser.Build(octets, p, cmd, seen);
    if status.Building? {
      BuildingReadsAll(b.Contents());
    }
  }

  /**
   * Octets received go behind those of the command so far, the builder sees them,
   * and the ones it has not taken are given up.
   */
  method ReadCommand(b: Buffer, octets: seq<byte>, p: Parser<CommandParser.Kind>, cmd: CommandParser.CommandBuilder)
    returns (status: Builders.Status)
    requires b.Valid() && |octets| <= b.Room() && Gathering(b, p, cmd) && b.data != cmd.kwrd
    modifies b`write, b.data, p, cmd`kwrd_ptr, cmd`has_args, cmd.kwrd
    ensures b.Valid() && cmd.Valid() && (status.Building? ==> Gathering(b, p, cmd))
    ensures var all := old(b.Contents()) + octets;
            var r := CommandParser.Split(all);
            && status == r.status && b.Contents() == all[..r.read]
            && cmd.Keyword() == r.keyword && cmd.has_args == r.hasArgs
  {
    var ptr := b.write;
    var length;
    status, length := BuildMore(b, octets, p, cmd);
    ghost var all := b.Contents();
    GiveUp(b, ptr, length);
    assert all[..|all|] == all;
  }

  class Pop3 {
    var state: nat
    /** What the selector holds for the session's two descriptors. */
    var wire: Wire
    const greeting: array<byte>
    const raw_buff_a: array<byte>
    const raw_buff_b: array<byte>
    const raw_buff_trans: array<byte>
    const read_buffer: Buffer
    const write_buffer: Buffer
    const trans_buffer: Buffer
    var current_command: CommandParser.CommandBuilder
    var command_parser: Parser<CommandParser.Kind>
    var singleline_parser: Parser<SinglelineResponse.Kind>
    var multiline_parser: Parser<MultilineResponse.Kind>
    var transform: bool
    ghost var log: Log

    /** pop3_new, the struct being there and cleared; the greeting's text is one for all sessions. */
    constructor (text: array<byte>)
      requires text[..] == GREETING_OK
      ensures Valid() && Abs() == START && greeting == text
      ensures fresh(raw_buff_a) && fresh(raw_buff_b) && fresh(raw_buff_trans)
      ensures fresh(read_buffer) && fresh(write_buffer) && fresh(trans_buffer)
      ensures fresh(current_command) && fresh(current_command.kwrd)
      ensures fresh(command_parser) && fresh(singleline_parser) && fresh(multiline_parser)
    {
      state := PROCESS_CONNECTION;
      wire := Wire(OP_WRITE, None);
      var a, b := new byte[BUFFER_SIZE], new byte[BUFFER_SIZE];
      var trans := new byte[TRANS_SIZE];
      greeting := text;
      raw_buff_a, raw_buff_b, raw_buff_trans := a, b, trans;
      read_buffer := new Buffer(BUFFER_SIZE, a);
      write_buffer := new Buffer(BUFFER_SIZE, b);
      trans_buffer := new Buffer(0, trans);
      var p, cmd := CommandParserInit();
      command_parser, current_command := p, cmd;
      var singleline := SinglelineParserInit();
      var multiline := MultilineParserInit();
      singleline_parser, multiline_parser := singleline, multiline;
      transform := false;
      log := NO_TRAFFIC;
    }

    ghost function Repr(): set<object>
      reads this
    {
      {this, greeting, raw_buff_a, raw_buff_b, raw_buff_trans, read_buffer, write_buffer, trans_buffer,
       current_command, current_command.kwrd, command_parser, singleline_parser, multiline_parser}
    }

    /** The memory each buffer works on. */
    ghost predicate Footing()
      reads Repr(), write_buffer.data
    {
      && greeting != raw_buff_a && greeting != raw_buff_b && greeting != raw_buff_trans
      && raw_buff_a != raw_buff_b && raw_buff_a != raw_buff_trans && raw_buff_b != raw_buff_trans
      && read_buffer != write_buffer && read_buffer != trans_buffer && write_buffer != trans_buffer
      && raw_buff_a.Length == raw_buff_b.Length == BUFFER_SIZE && raw_buff_trans.Length == TRANS_SIZE
      && greeting[..] == GREETING_OK
      && read_buffer.data == raw_buff_a && read_buffer.limit == BUFFER_SIZE && read_buffer.Valid()
      && (write_buffer.data == greeting || write_buffer.data == raw_buff_b)
      && write_buffer.limit == write_buffer.data.Length && write_buffer.Valid()
      && trans_buffer.data == raw_buff_trans && trans_buffer.limit <= TRANS_SIZE && trans_buffer.Valid()
      && SinglelineResponse.Stands(singleline_parser)
      && current_command.Valid()
      && current_command.kwrd !in {greeting, raw_buff_a, raw_buff_b, raw_buff_trans}
    }

    /** What a state counts on already when it is come to. */
    ghost predicate Basis(st: nat)
      reads this, read_buffer, write_buffer, trans_buffer
    {
      && (st <= GREETING_SREAD ==> read_buffer.read == 0)
      && (DOT_DATA_SREAD <= st <= RESPONSE_CWRITE ==>
            write_buffer.data == raw_buff_b && trans_buffer.limit == TRANS_SIZE)
    }

    /** What the arrival in a state provides. */
    ghost predicate Fitted(st: nat)
      requires Footing()
      reads Repr(), write_buffer.data
    {
      && (st == COMMAND_CREAD ==>
            && read_buffer.read == 0
            && Gathering(read_buffer, command_parser, current_command))
      && (st == GREETING_SREAD || st == RESPONSE_SREAD ==> AtStart(singleline_parser))
      && (st == RESPONSE_SREAD ==> MultilineResponse.Holds(multiline_parser, []))
      && (st == RESPONSE_SREAD || st == DOT_DATA_SREAD ==>
            && write_buffer.data == raw_buff_b && write_buffer.read == 0
            && trans_buffer.limit == TRANS_SIZE && trans_buffer.Contents() == [] && trans_buffer.read == 0)
    }

    ghost predicate Valid()
      reads Repr(), write_buffer.data
    {
      Footing() && Basis(state) && Fitted(state) && state <= ERROR
    }

    ghost function Abs(): Session
      requires Footing()
      reads Repr(), write_buffer.data
    {
      Session(state, wire, read_buffer.Contents(), write_buffer.Contents(), trans_buffer.Contents(),
              current_command.Keyword(), current_command.has_args, transform, log)
    }

    method SetInterestOf(side: Side, interest: Interest)
      modifies `wire
      ensures wire == ProxySession.SetInterest(old(wire), side, interest)
    {
      match side {
        case Client => wire := wire.(client := interest);
        case Origin =>
          if wire.origin.Some? {
            wire := wire.(origin := Some(interest));
          }
      }
    }

    /** The origin is left alone, and the client waited for. */
    method WaitForClient()
      modifies `wire
      ensures wire == TurnToClient(old(wire))
    {
      SetInterestOf(Origin, OP_NOOP);
      SetInterestOf(Client, OP_WRITE);
    }

    method AttemptConnection(io: Io) returns (ret: nat)
      requires Valid() && state <= RESOLV_CONNECTION
      modifies `wire
      ensures Footing() && Basis(ret) && ret != state && ret <= ERROR
      ensures Abs().(state := ret) == ProxySession.AttemptConnection(old(Abs()), io)
    {
      if io.Connecting? || io.Refused? {
        SetInterestOf(Client, OP_NOOP);
      }
      if io.Connecting? {
        wire := wire.(origin := Some(OP_WRITE));
      }
      return ESTABL_CONNECTION;
    }

    /** send() from the write buffer; whether all is gone. */
    method SendPlain(n: nat) returns (drained: bool)
      requires Footing() && n <= |write_buffer.Contents()|
      modifies `log, write_buffer, write_buffer.data
      ensures Footing() && write_buffer.data == old(write_buffer.data)
      ensures var s := old(Abs());
              Abs() == s.(write_buffer := s.write_buffer[n..],
                          log := s.log.(to_client := s.log.to_client + s.write_buffer[..n]))
      ensures drained == (write_buffer.Contents() == [])
    {
      log := log.(to_client := log.to_client + write_buffer.Contents()[..n]);
      write_buffer.ReadAdv(n);
      drained := !write_buffer.CanRead();
    }

    method GreetingCwrite(io: Io) returns (ret: nat)
      requires Valid() && state == GREETING_CWRITE && Possible(Abs(), io)
      modifies `wire, `log, write_buffer, write_buffer.data
      ensures Footing() && Basis(ret) && ret <= ERROR
      ensures Abs().(state := ret) == ProxySession.GreetingCwrite(old(Abs()), io)
    {
      ret := GREETING_CWRITE;
      if !io.Sent? {
        ret := ERROR;
      } else {
        var drained := SendPlain(io.n);
        if drained {
          SetInterestOf(Client, OP_READ);
          ret := COMMAND_CREAD;
        }
      }
    }

    method Gather(octets: seq<byte>) returns (status: Builders.Status)
      requires Valid() && state == COMMAND_CREAD && |octets| <= read_buffer.Room()
      modifies read_buffer`write, raw_buff_a
      modifies command_parser, current_command`kwrd_ptr, current_command`has_args, current_command.kwrd
      ensures Footing() && (status.Building? ==> Fitted(COMMAND_CREAD))
      ensures var all := old(read_buffer.Contents()) + octets;
              var r := CommandParser.Split(all);
              && status == r.status
              && Abs() == old(Abs()).(read_buffer := all[..r.read], keyword := r.keyword, has_args := r.hasArgs)
    {
      status := ReadCommand(read_buffer, octets, command_parser, current_command);
    }

    /** Where the session goes as the builder's answer has it. */
    method Decide(status: Builders.Status) returns (ret: nat)
      requires Footing() && state == COMMAND_CREAD
      modifies `wire, `log
      ensures Footing() && Basis(ret) && ret <= ERROR && (ret == state <==> status.Building?)
      ensures Abs().(state := ret) == CommandDecided(old(Abs()), status)
    {
      match status {
        case BuildFinished =>
          log := log.(commands := log.commands + [read_buffer.Contents()]);
          SetInterestOf(Client, OP_NOOP);
          SetInterestOf(Origin, OP_WRITE);
          ret := COMMAND_SWRITE;
        case Building =>
          SetInterestOf(Client, OP_READ);
          ret := COMMAND_CREAD;
        case BuildFailed => ret := ERROR;
      }
    }

    method CommandReceived(octets: seq<byte>) returns (ret: nat)
      requires Valid() && state == COMMAND_CREAD && |octets| <= read_buffer.Room()
      modifies `wire, `log, read_buffer`write, raw_buff_a
      modifies command_parser, current_command`kwrd_ptr, current_command`has_args, current_command.kwrd
      ensures Footing() && Basis(ret) && ret <= ERROR && (ret == state ==> Fitted(ret))
      ensures var all := old(read_buffer.Contents()) + octets;
              Abs().(state := ret) == CommandBuilt(old(Abs()), all, CommandParser.Split(all))
    {
      var status := Gather(octets);
      ret := Decide(status);
    }

    method CommandCread(io: Io) returns (ret: nat)
      requires Valid() && state == COMMAND_CREAD && Possible(Abs(), io)
      modifies `wire, `log, read_buffer`write, raw_buff_a
      modifies command_parser, current_command`kwrd_ptr, current_command`has_args, current_command.kwrd
      ensures Footing() && Basis(ret) && ret <= ERROR && (ret == state ==> Fitted(ret))
      ensures Abs().(state := ret) == ProxySession.CommandCread(old(Abs()), io)
    {
      if io.Received? {
        ret := CommandReceived(io.octets);
      } else {
        ret := ERROR;
      }
    }

    method CommandSwrite(io: Io) returns (ret: nat)
      requires Valid() && state == COMMAND_SWRITE && Possible(Abs(), io)
      modifies `wire, `log, read_buffer
      ensures Footing() && Basis(ret) && ret <= ERROR
      ensures Abs().(state := ret) == ProxySession.CommandSwrite(old(Abs()), io)
    {
      ret := COMMAND_SWRITE;
      if !io.Sent? {
        ret := ERROR;
      } else {
        log := log.(to_origin := log.to_origin + read_buffer.Contents()[..io.n]);
        read_buffer.Skip(io.n);
        if !read_buffer.CanRead() {
          SetInterestOf(Origin, OP_READ);
          ret := RESPONSE_SREAD;
        }
      }
    }

    method ProcessConnection(io: Io) returns (ret: nat)
      requires Valid() && state == PROCESS_CONNECTION && Possible(Abs(), io)
      modifies `wire
      ensures Footing() && Basis(ret) && ret != state && ret <= ERROR
      ensures Abs().(state := ret) == ProxySession.ProcessConnection(old(Abs()), io)
    {
      if io.Resolving? {
        SetInterestOf(Client, OP_NOOP);
        ret := RESOLV_CONNECTION;
      } else {
        ret := AttemptConnection(io);
      }
    }

    method EstablConnection(side: Side) returns (ret: nat)
      requires Valid() && state == ESTABL_CONNECTION
      modifies `wire
      ensures Footing() && Basis(ret) && ret != state && ret <= ERROR
      ensures Abs().(state := ret) == ProxySession.EstablConnection(old(Abs()), side)
    {
      SetInterestOf(Client, OP_NOOP);
      SetInterestOf(side, OP_READ);
      return GREETING_SREAD;
    }

    method GreetingSread(io: Io) returns (ret: nat)
      requires Valid() && state == GREETING_SREAD && Possible(Abs(), io)
      modifies `wire, read_buffer, read_buffer.data
      modifies singleline_parser
      ensures Footing() && Basis(ret) && ret <= ERROR && (ret == state ==> Fitted(ret))
      ensures Abs().(state := ret) == ProxySession.GreetingSread(old(Abs()), io)
    {
      ret := GREETING_SREAD;
      match io {
        case Received(octets, _, _) =>
          read_buffer.Fill(octets);
          var judged := JudgeStart(octets, singleline_parser);
          SetInterestOf(Origin, OP_NOOP);
          if judged {
            SetInterestOf(Client, OP_WRITE);
            ret := GREETING_CWRITE;
          } else {
            ret := ERROR;
          }
        case NotReceived(again) =>
          if !again {
            ret := GREETING_CWRITE;
          }
        case _ => assert false;
      }
    }

    /** What a response to the current command is made of, as get_command_type and the arguments tell. */
    method TakenForLines() returns (multiline: bool)
      requires Footing()
      ensures multiline == RespondsInLines(Abs())
    {
      match TypeOf(current_command.kwrd[..current_command.kwrd_ptr]) {
        case Multiline => return true;
        case Overloaded => return !current_command.has_args;
        case Singleline => return false;
      }
    }

    /** Octets of the response go to the write buffer. */
    method TakeIn(octets: seq<byte>)
      requires Footing() && write_buffer.data == raw_buff_b && |octets| <= write_buffer.Room()
      modifies `log, write_buffer`write, raw_buff_b
      ensures Footing() && write_buffer.data == raw_buff_b
      ensures Abs() == Take(old(Abs()), octets)
    {
      write_buffer.Fill(octets);
      log := log.(responses := Extended(log.responses, octets, [], transform));
    }

    /** Whether the filter's buffer is sent from now on, and what the filter has put there. */
    method SetTransform(on: bool, product: seq<byte>)
      requires Footing() && (on ==> |product| <= trans_buffer.Room())
      modifies `log, `transform, trans_buffer`write, raw_buff_trans
      ensures Footing() && Abs() == Transformed(old(Abs()), on, product)
    {
      transform := on;
      log := log.(responses := Extended(log.responses, [], if on then product else [], on));
      if on {
        trans_buffer.Fill(product);
      } else {
        assert trans_buffer.Contents() + [] == trans_buffer.Contents();
      }
    }

    /** A response in lines: whether it is over, and what the filter makes of it. */
    method AnswerInLines(octets: seq<byte>, filtered: seq<byte>) returns (ret: nat)
      requires Footing() && |filtered| <= trans_buffer.Room() && MultilineResponse.Holds(multiline_parser, [])
      modifies `log, `transform, trans_buffer`write, raw_buff_trans, multiline_parser
      ensures Footing() && ret == if MultilineResponse.Finished(octets) then RESPONSE_CWRITE else DOT_DATA_CWRITE
      ensures Abs() == Transformed(old(Abs()), Filtered(old(Abs()).keyword), filtered)
    {
      var finished := CheckEnd(octets, multiline_parser);
      var keyword := current_command.kwrd[..current_command.kwrd_ptr];
      SetTransform(Filtered(keyword), filtered);
      return if finished then RESPONSE_CWRITE else DOT_DATA_CWRITE;
    }

    /** Where the response goes after its first octets. */
    method Answer(judged: bool, multiline: bool, octets: seq<byte>, filtered: seq<byte>) returns (ret: nat)
      requires Footing() && Basis(RESPONSE_CWRITE)
      requires |filtered| <= trans_buffer.Room() && MultilineResponse.Holds(multiline_parser, [])
      modifies `wire, `log, `transform, trans_buffer`write, raw_buff_trans, multiline_parser
      ensures Footing() && Basis(ret) && ret > RESPONSE_SREAD && ret <= ERROR
      ensures var s := old(Abs());
              Abs().(state := ret) ==
              Answered(s, filtered, judged, multiline, MultilineResponse.Finished(octets))
    {
      if !judged {
        return ERROR;
      }
      ret := RESPONSE_CWRITE;
      if multiline {
        ret := AnswerInLines(octets, filtered);
      }
      WaitForClient();
    }

    method ResponseReceived(io: Io) returns (ret: nat)
      requires Valid() && state == RESPONSE_SREAD && io.Received?
      requires |io.octets| <= write_buffer.Room() && |io.filtered| <= TRANS_SIZE
      modifies `wire, `log, `transform, write_buffer`write, raw_buff_b, trans_buffer`write, raw_buff_trans
      modifies singleline_parser, multiline_parser
      ensures Footing() && Basis(ret) && ret <= ERROR && ret != state
      ensures var s := old(Abs());
              Abs().(state := ret) ==
              ResponseBegun(s, io, SinglelineResponse.Judge(io.octets).BuildFinished?,
                            RespondsInLines(s), MultilineResponse.Finished(io.octets))
    {
      TakeIn(io.octets);
      var judged := JudgeStart(io.octets, singleline_parser);
      var multiline := TakenForLines();
      ret := Answer(judged, multiline, io.octets, io.filtered);
    }

    method ResponseSread(io: Io) returns (ret: nat)
      requires Valid() && state == RESPONSE_SREAD && Possible(Abs(), io)
      modifies `wire, `log, `transform, write_buffer`write, raw_buff_b, trans_buffer`write, raw_buff_trans
      modifies singleline_parser, multiline_parser
      ensures Footing() && Basis(ret) && ret <= ERROR && ret != state
      ensures Abs().(state := ret) == ProxySession.ResponseSread(old(Abs()), io)
    {
      if io.Received? {
        ret := ResponseReceived(io);
      } else {
        ret := ERROR;
      }
    }

    /** The filter's buffer starts over, and takes in what the filter has made of the octets. */
    method Refilter(product: seq<byte>)
      requires Footing() && trans_buffer.limit == TRANS_SIZE && trans_buffer.Contents() == [] && trans_buffer.read == 0
      requires |product| <= TRANS_SIZE
      modifies `log, `transform, trans_buffer`read, trans_buffer`write, raw_buff_trans
      ensures Footing() && Abs() == Transformed(old(Abs()), old(transform), product)
    {
      if transform {
        trans_buffer.Reset();
      }
      SetTransform(transform, product);
    }

    method DotDataSread(io: Io) returns (ret: nat)
      requires Valid() && state == DOT_DATA_SREAD && Possible(Abs(), io)
      modifies `wire, `log, `transform, write_buffer`write, raw_buff_b, trans_buffer`read, trans_buffer`write, raw_buff_trans
      ensures Footing() && Basis(ret) && ret <= ERROR && ret != state
      ensures Abs().(state := ret) == ProxySession.DotDataSread(old(Abs()), io)
    {
      if !io.Received? {
        return ERROR;
      }
      TakeIn(io.octets);
      Refilter(io.filtered);
      WaitForClient();
      return if io.more then DOT_DATA_CWRITE else RESPONSE_CWRITE;
    }

    /** send() from the filter's buffer; whether all is gone. */
    method SendFiltered(n: nat) returns (drained: bool)
      requires Footing() && n <= |trans_buffer.Contents()|
      modifies `log, trans_buffer, raw_buff_trans
      ensures Footing() && trans_buffer.limit == old(trans_buffer.limit)
      ensures var s := old(Abs());
              Abs() == s.(trans_buffer := s.trans_buffer[n..],
                          log := s.log.(to_client := s.log.to_client + s.trans_buffer[..n]))
      ensures drained == (trans_buffer.Contents() == [])
    {
      log := log.(to_client := log.to_client + trans_buffer.Contents()[..n]);
      trans_buffer.ReadAdv(n);
      drained := !trans_buffer.CanRead();
    }

    /**
     * send() from the filter's buffer or the plain one; whether all is gone. The octets sent are shown
     * to the parser of status lines again, whose answer nobody looks at.
     */
    method Send(n: nat) returns (drained: bool)
      requires Valid() && (state == DOT_DATA_CWRITE || state == RESPONSE_CWRITE) && n <= |Outgoing(Abs())|
      modifies `log, write_buffer, write_buffer.data, trans_buffer, trans_buffer.data, singleline_parser
      ensures Footing() && Basis(state)
      ensures Abs() == SendOn(old(Abs()), n) && drained == (Outgoing(Abs()) == [])
    {
      var b := if transform then trans_buffer else write_buffer;
      var sent := b.data[b.read..b.read + n];
      if transform {
        drained := SendFiltered(n);
      } else {
        drained := SendPlain(n);
      }
      ShowAgain(sent, singleline_parser);
    }

    method DotDataCwrite(io: Io) returns (ret: nat)
      requires Valid() && state == DOT_DATA_CWRITE && Possible(Abs(), io)
      modifies `wire, `log, write_buffer, write_buffer.data, trans_buffer, trans_buffer.data, singleline_parser
      ensures Footing() && Basis(ret) && ret <= ERROR
      ensures Abs().(state := ret) == ProxySession.DotDataCwrite(old(Abs()), io)
    {
      ret := DOT_DATA_CWRITE;
      if !io.Sent? {
        ret := ERROR;
      } else {
        var drained := Send(io.n);
        if drained {
          SetInterestOf(Client, OP_NOOP);
          SetInterestOf(Origin, OP_READ);
          ret := DOT_DATA_SREAD;
        }
      }
    }

    method ResponseCwrite(io: Io) returns (ret: nat)
      requires Valid() && state == RESPONSE_CWRITE && Possible(Abs(), io)
      modifies `wire, `log, write_buffer, write_buffer.data, trans_buffer, trans_buffer.data, singleline_parser
      ensures Footing() && Basis(ret) && ret <= ERROR
      ensures Abs().(state := ret) == ProxySession.ResponseCwrite(old(Abs()), io)
    {
      ret := RESPONSE_CWRITE;
      if !io.Sent? {
        ret := ERROR;
      } else {
        var drained := Send(io.n);
        if drained {
          SetInterestOf(Client, OP_READ);
          ret := COMMAND_CREAD;
        }
      }
    }

    // ----- Arrivals -----

    /** The write buffer is laid over the greeting, all of which is there to be read. */
    method LoadGreeting()
      requires Footing()
      modifies write_buffer
      ensures Footing() && Abs() == old(Abs()).(write_buffer := GREETING_OK)
    {
      write_buffer.Init(greeting.Length, greeting);
      write_buffer.WriteAdv(greeting.Length);
      EmptyConcat(greeting[..]);
      assert write_buffer.Contents() == greeting[..];
    }

    method GreetingInit()
      requires Footing() && Basis(state) && state == GREETING_SREAD
      modifies write_buffer, `singleline_parser
      ensures Valid() && fresh(singleline_parser)
      ensures Abs() == ProxySession.Arrive(old(Abs()))
    {
      LoadGreeting();
      singleline_parser := SinglelineParserInit();
    }

    method CommandInit()
      requires Footing() && Basis(state) && state == COMMAND_CREAD
      modifies read_buffer, write_buffer, `command_parser, `current_command
      ensures Valid() && fresh(command_parser) && fresh(current_command) && fresh(current_command.kwrd)
      ensures Abs() == ProxySession.Arrive(old(Abs()))
    {
      write_buffer.Init(BUFFER_SIZE, raw_buff_b);
      command_parser, current_command := CommandParserInit();
      read_buffer.Reset();
      write_buffer.Reset();
    }

    method ResponseInit()
      requires Footing() && Basis(state) && state == RESPONSE_SREAD
      modifies write_buffer, trans_buffer, `singleline_parser, `multiline_parser, `log
      ensures Valid() && fresh(singleline_parser) && fresh(multiline_parser)
      ensures Abs() == ProxySession.Arrive(old(Abs()))
    {
      singleline_parser := SinglelineParserInit();
      multiline_parser := MultilineParserInit();
      write_buffer.Init(BUFFER_SIZE, raw_buff_b);
      trans_buffer.Init(TRANS_SIZE, raw_buff_trans);
      log := log.(responses := log.responses + [Response([], [], transform)]);
    }

    method DotDataInit()
      requires Footing() && Basis(state) && state == DOT_DATA_SREAD
      modifies write_buffer, trans_buffer
      ensures Valid()
      ensures Abs() == ProxySession.Arrive(old(Abs()))
    {
      write_buffer.Reset();
      trans_buffer.Reset();
    }

    // ----- Events -----

    /** jump, on the part of the session: the state answered, with the callback for its arrival if it is a new one. */
    method Jump(next: nat)
      requires Footing() && Basis(next) && next <= ERROR && (next == state ==> Fitted(next))
      modifies `state, `log, read_buffer, write_buffer, trans_buffer
      modifies `current_command, `command_parser, `singleline_parser, `multiline_parser
      ensures Valid() && Renewed()
      ensures Abs() == ProxySession.Jump(old(state), old(Abs()).(state := next))
    {
      if next != state {
        state := next;
        match state {
          case 3 => GreetingInit();
          case 5 => CommandInit();
          case 7 => ResponseInit();
          case 8 => DotDataInit();
          case _ =>
        }
      }
    }

    /** The handler the state has for the event; it answers with the next state. */
    method Handle(e: ProxySession.Event) returns (ret: nat)
      requires Valid() && Enabled(Abs(), e)
      modifies `wire, `log, `transform, read_buffer, write_buffer, trans_buffer
      modifies raw_buff_a, write_buffer.data, raw_buff_b, raw_buff_trans
      modifies singleline_parser, multiline_parser, command_parser
      modifies current_command`kwrd_ptr, current_command`has_args, current_command.kwrd
      ensures Footing() && Basis(ret) && ret <= ERROR && (ret == state ==> Fitted(ret))
      ensures Abs().(state := ret) == ProxySession.Handler(old(Abs()), e)
    {
      match state {
        case 0 => ret := ProcessConnection(e.io);
        case 1 => ret := AttemptConnection(e.io);
        case 2 => ret := EstablConnection(e.side);
        case 3 => ret := GreetingSread(e.io);
        case 4 => ret := GreetingCwrite(e.io);
        case 5 => ret := CommandCread(e.io);
        case 6 => ret := CommandSwrite(e.io);
        case 7 => ret := ResponseSread(e.io);
        case 8 => ret := DotDataSread(e.io);
        case 9 => ret := DotDataCwrite(e.io);
        case 10 => ret := ResponseCwrite(e.io);
      }
    }

    /** The parsers and the builder are the ones there were, or new ones. */
    twostate predicate Renewed()
      reads this, current_command
    {
      && (current_command == old(current_command) || fresh(current_command))
      && (current_command.kwrd == old(current_command.kwrd) || fresh(current_command.kwrd))
      && (command_parser == old(command_parser) || fresh(command_parser))
      && (singleline_parser == old(singleline_parser) || fresh(singleline_parser))
      && (multiline_parser == old(multiline_parser) || fresh(multiline_parser))
    }

    /** One event, through the state machine. */
    method Step(e: ProxySession.Event)
      requires Valid() && Enabled(Abs(), e)
      modifies Repr(), write_buffer.data
      ensures Valid() && Renewed()
      ensures Abs() == ProxySession.Step(old(Abs()), e)
    {
      var next := Handle(e);
      Jump(next);
    }
  }

  /** A new session taken through the events stands where the run has it, and so keeps what every run keeps. */
  method Serve(p: Pop3, events: seq<ProxySession.Event>)
    requires p.Valid() && p.Abs() == START && After(events).Some?
    modifies p.Repr(), p.write_buffer.data
    ensures p.Valid() && p.Abs() == After(events).value
  {
    for i := 0 to |events|
      invariant p.Valid() && p.Renewed()
      invariant After(events[..i]) == Some(p.Abs())
    {
      NextOfRun(events, i);
      p.Step(events[i]);
    }
    assert events[..|events|] == events;
  }
}
