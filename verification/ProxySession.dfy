/** A proxied session, step by step: what is sent where, and who is waited for (pop3_client_nio.c). */
module ProxySession {
  import opened Bytes
  import opened Options
  import opened StateMachines
  import opened SelectorTable
  import Builders
  import CommandParser
  import SinglelineResponse
  import MultilineResponse

  const PROCESS_CONNECTION := 0
  const RESOLV_CONNECTION := 1
  const ESTABL_CONNECTION := 2
  const GREETING_SREAD := 3
  const GREETING_CWRITE := 4
  const COMMAND_CREAD := 5
  const COMMAND_SWRITE := 6
  const RESPONSE_SREAD := 7
  const DOT_DATA_SREAD := 8
  const DOT_DATA_CWRITE := 9
  const RESPONSE_CWRITE := 10
  const PIPE_DREAM := 11
  const UPDATE := 12
  const ERROR := 13

  /** client_statbl: which callbacks each state has. */
  const TABLE: seq<StateDefinition> := [
    StateDefinition(true, false, false, true, false),
    StateDefinition(false, false, false, false, true),
    StateDefinition(true, false, false, true, false),
    StateDefinition(true, false, true, false, false),
    StateDefinition(false, false, false, true, false),
    StateDefinition(true, false, true, false, false),
    StateDefinition(false, false, false, true, false),
    StateDefinition(true, false, true, false, false),
    StateDefinition(true, false, true, false, false),
    StateDefinition(false, false, false, true, false),
    StateDefinition(false, false, false, true, false),
    StateDefinition(true, false, false, true, false),
    StateDefinition(false, false, false, false, false),
    StateDefinition(false, false, false, false, false)]

  /** "+OK Welcome to pop3filter!" and CRLF. */
  const GREETING_OK: seq<byte> :=
    [43, 79, 75, 32, 87, 101, 108, 99, 111, 109, 101, 32, 116, 111, 32,
     112, 111, 112, 51, 102, 105, 108, 116, 101, 114, 33, 13, 10]

  const BUFFER_SIZE := 2048
  const TRANS_SIZE := 3000

  const OP_READ := Interest(true, false)
  const OP_WRITE := Interest(false, true)

  const UIDL: seq<byte> := [85, 73, 68, 76]
  const LIST: seq<byte> := [76, 73, 83, 84]
  const RETR: seq<byte> := [82, 69, 84, 82]
  const TOP: seq<byte> := [84, 79, 80]
  const LANG: seq<byte> := [76, 65, 78, 71]
  const CAPA: seq<byte> := [67, 65, 80, 65]

  datatype CommandType = Multiline | Singleline | Overloaded

  /** The keyword as strcmp sees it: up to the first NUL. */
  function CString(keyword: seq<byte>): seq<byte> {
    keyword[..FirstIndex(keyword, NUL)]
  }

  /** get_command_type */
  function TypeOf(keyword: seq<byte>): CommandType {
    var k := CString(keyword);
    if k == RETR || k == TOP || k == LANG || k == CAPA then Multiline
    else if k == UIDL || k == LIST then Overloaded
    else Singleline
  }

  predicate Filtered(keyword: seq<byte>) {
    CString(keyword) == RETR || CString(keyword) == TOP
  }

  datatype Side = Client | Origin

  /** A response: what the origin has sent, what the filter has made of it, and whether the filter's buffer is what goes out. */
  datatype Response = Response(octets: seq<byte>, product: seq<byte>, through: bool)

  /** The history of a session's traffic. */
  datatype Log = Log(
    commands: seq<seq<byte>>,    // command lines accepted from the client
    to_origin: seq<byte>,        // octets sent to the origin
    responses: seq<Response>,    // responses, one for each command sent
    to_client: seq<byte>)        // octets sent to the client

  /** The descriptors' interests; the origin may not be registered yet. */
  datatype Wire = Wire(client: Interest, origin: Option<Interest>)

  datatype Session = Session(
    state: nat,
    wire: Wire,
    read_buffer: seq<byte>,
    write_buffer: seq<byte>,
    trans_buffer: seq<byte>,
    keyword: seq<byte>,
    has_args: bool,
    transform: bool,
    log: Log)

  /** How the system calls of a step turn out. */
  datatype Io =
    | Resolving                                   // the address is a name: a thread looks it up
    | Connecting                                  // connect() is in progress, and the origin is registered
    | Refused                                     // connect() is in progress, but the selector does not take the origin
    | NotConnecting(left_open: bool)              // socket() or connect() failed; or fcntl() did, and the descriptor stays open
    | ConnectedAtOnce                             // connect() is done already, and the program is aborted
    | Connected                                   // whatever SO_ERROR says
    | Received(octets: seq<byte>, filtered: seq<byte>, more: bool)
    | NotReceived(again: bool)                    // recv() <= 0
    | Sent(n: nat)
    | NotSent

  /** An event: which descriptor is ready for what, and how the system calls of its handler turn out. */
  datatype Event = Event(side: Side, kind: Ready, io: Io)

  function InterestOf(w: Wire, side: Side): Interest {
    match side
    case Client => w.client
    case Origin => if w.origin.Some? then w.origin.value else OP_NOOP
  }

  /** selector_set_interest on a registered descriptor. */
  function SetInterest(w: Wire, side: Side, i: Interest): Wire {
    match side
    case Client => w.(client := i)
    case Origin => if w.origin.Some? then w.(origin := Some(i)) else w
  }

  // ----- The handlers, which answer with the next state -----

  function AttemptConnection(s: Session, io: Io): Session {
    var s' := s.(state := ESTABL_CONNECTION);
    match io
    case Connecting => s'.(wire := Wire(OP_NOOP, Some(OP_WRITE)))
    case Refused => s'.(wire := SetInterest(s.wire, Client, OP_NOOP))
    case _ => s'
  }

  function ProcessConnection(s: Session, io: Io): Session {
    if io.Resolving? then s.(wire := SetInterest(s.wire, Client, OP_NOOP), state := RESOLV_CONNECTION)
    else AttemptConnection(s, io)
  }

  function EstablConnection(s: Session, side: Side): Session {
    s.(wire := SetInterest(SetInterest(s.wire, Client, OP_NOOP), side, OP_READ), state := GREETING_SREAD)
  }

  /** The origin is left alone and the client waited for, to be written to. */
  function TurnToClient(w: Wire): Wire {
    SetInterest(SetInterest(w, Origin, OP_NOOP), Client, OP_WRITE)
  }

  function GreetingSread(s: Session, io: Io): Session {
    match io
    case Received(octets, _, _) =>
      var s' := s.(read_buffer := s.read_buffer + octets);
      if SinglelineResponse.Judge(octets).BuildFinished? then
        s'.(wire := TurnToClient(s.wire), state := GREETING_CWRITE)
      else
        s'.(wire := SetInterest(s.wire, Origin, OP_NOOP), state := ERROR)
    case NotReceived(again) => if again then s else s.(state := GREETING_CWRITE)
    case _ => s
  }

  /** What the session sends to the client from. */
  function Outgoing(s: Session): seq<byte> {
    if s.transform then s.trans_buffer else s.write_buffer
  }

  function SendOn(s: Session, n: nat): Session
    requires n <= |Outgoing(s)|
  {
    var log := s.log.(to_client := s.log.to_client + Outgoing(s)[..n]);
    if s.transform then s.(trans_buffer := s.trans_buffer[n..], log := log)
    else s.(write_buffer := s.write_buffer[n..], log := log)
  }

  /** The greeting is always sent from the write buffer. */
  function GreetingCwrite(s: Session, io: Io): Session
    requires io.Sent? ==> io.n <= |s.write_buffer|
  {
    if !io.Sent? then s.(state := ERROR)
    else
      var s' := s.(write_buffer := s.write_buffer[io.n..],
                   log := s.log.(to_client := s.log.to_client + s.write_buffer[..io.n]));
      if s'.write_buffer == [] then
        s'.(wire := SetInterest(s.wire, Client, OP_READ), state := COMMAND_CREAD)
      else s'
  }

  /** Where the session goes with the octets the builder has taken, once it has had its say. */
  function CommandDecided(s: Session, status: Builders.Status): Session {
    match status
    case BuildFinished =>
      s.(wire := SetInterest(SetInterest(s.wire, Client, OP_NOOP), Origin, OP_WRITE),
         log := s.log.(commands := s.log.commands + [s.read_buffer]),
         state := COMMAND_SWRITE)
    case Building => s.(wire := SetInterest(s.wire, Client, OP_READ))
    case BuildFailed => s.(state := ERROR)
  }

  function CommandBuilt(s: Session, all: seq<byte>, r: CommandParser.Command): Session
    requires r.read <= |all|
  {
    CommandDecided(s.(read_buffer := all[..r.read], keyword := r.keyword, has_args := r.hasArgs), r.status)
  }

  function CommandCread(s: Session, io: Io): Session {
    if !io.Received? then s.(state := ERROR)
    else
      var all := s.read_buffer + io.octets;
      CommandBuilt(s, all, CommandParser.Split(all))
  }

  function CommandSwrite(s: Session, io: Io): Session
    requires io.Sent? ==> io.n <= |s.read_buffer|
  {
    if !io.Sent? then s.(state := ERROR)
    else
      var s' := s.(read_buffer := s.read_buffer[io.n..],
                   log := s.log.(to_origin := s.log.to_origin + s.read_buffer[..io.n]));
      if s'.read_buffer == [] then
        s'.(wire := SetInterest(s.wire, Origin, OP_READ), state := RESPONSE_SREAD)
      else s'
  }

  /** The last response goes on. */
  function Extended(responses: seq<Response>, octets: seq<byte>, product: seq<byte>, through: bool): seq<Response> {
    if responses == [] then [Response(octets, product, through)]
    else
      var r := Last(responses);
      Front(responses) + [Response(r.octets + octets, r.product + product, through)]
  }

  /** Octets of a response go to the write buffer. */
  function Take(s: Session, octets: seq<byte>): Session {
    s.(write_buffer := s.write_buffer + octets,
       log := s.log.(responses := Extended(s.log.responses, octets, [], s.transform)))
  }

  /** Whether the filter's buffer is sent from now on, and what the filter has put there. */
  function Transformed(s: Session, on: bool, product: seq<byte>): Session {
    var more := if on then product else [];
    s.(transform := on,
       trans_buffer := s.trans_buffer + more,
       log := s.log.(responses := Extended(s.log.responses, [], more, on)))
  }

  /** Where a response goes once begun: whether it has been judged a status line, how its command responds, whether it is over. */
  function Answered(s: Session, filtered: seq<byte>, judged: bool, multiline: bool, finished: bool): Session {
    if !judged then s.(state := ERROR)
    else if !multiline then s.(wire := TurnToClient(s.wire), state := RESPONSE_CWRITE)
    else
      Transformed(s, Filtered(s.keyword), filtered)
        .(wire := TurnToClient(s.wire), state := if finished then RESPONSE_CWRITE else DOT_DATA_CWRITE)
  }

  function ResponseBegun(s: Session, io: Io, judged: bool, multiline: bool, finished: bool): Session
    requires io.Received?
  {
    Answered(Take(s, io.octets), io.filtered, judged, multiline, finished)
  }

  /** Whether the response to a command is taken to be a multi-line one. */
  predicate InLines(keyword: seq<byte>, has_args: bool) {
    match TypeOf(keyword)
    case Multiline => true
    case Overloaded => !has_args
    case Singleline => false
  }

  predicate RespondsInLines(s: Session) {
    InLines(s.keyword, s.has_args)
  }

  function ResponseSread(s: Session, io: Io): Session {
    if !io.Received? then s.(state := ERROR)
    else
      ResponseBegun(s, io, SinglelineResponse.Judge(io.octets).BuildFinished?,
                    RespondsInLines(s), MultilineResponse.Finished(io.octets))
  }

  /** Whether the response goes on is not looked at: the variable that should tell is never assigned. */
  function DotDataSread(s: Session, io: Io): Session {
    if !io.Received? then s.(state := ERROR)
    else
      var s' := Take(s, io.octets);
      Transformed(if s.transform then s'.(trans_buffer := []) else s', s.transform, io.filtered)
        .(wire := TurnToClient(s.wire), state := if io.more then DOT_DATA_CWRITE else RESPONSE_CWRITE)
  }

  function DotDataCwrite(s: Session, io: Io): Session
    requires io.Sent? ==> io.n <= |Outgoing(s)|
  {
    if !io.Sent? then s.(state := ERROR)
    else
      var s' := SendOn(s, io.n);
      if Outgoing(s') == [] then
        s'.(wire := SetInterest(SetInterest(s.wire, Client, OP_NOOP), Origin, OP_READ), state := DOT_DATA_SREAD)
      else s'
  }

  function ResponseCwrite(s: Session, io: Io): Session
    requires io.Sent? ==> io.n <= |Outgoing(s)|
  {
    if !io.Sent? then s.(state := ERROR)
    else
      var s' := SendOn(s, io.n);
      if Outgoing(s') == [] then
        s'.(wire := SetInterest(s.wire, Client, OP_READ), state := COMMAND_CREAD)
      else s'
  }

  // ----- Arrivals -----

  function Arrive(s: Session): Session {
    match s.state
    case 3 => s.(write_buffer := GREETING_OK)
    case 5 => s.(read_buffer := [], write_buffer := [], keyword := [], has_args := false)
    case 7 => s.(write_buffer := [], trans_buffer := [],
             log := s.log.(responses := s.log.responses + [Response([], [], s.transform)]))
    case 8 => s.(write_buffer := [], trans_buffer := [])
    case _ => s
  }

  // ----- Events -----

  /** What recv() may bring: at least an octet, and no more than there is room for. */
  predicate Fits(octets: seq<byte>, room: int) {
    0 < |octets| <= room
  }

  /** How the system calls can turn out in each state. */
  predicate Possible(s: Session, io: Io) {
    match s.state
    case 0 => io.Resolving? || io.Connecting? || io.Refused? || io.NotConnecting?
    case 1 => io.Connecting? || io.Refused? || io.NotConnecting?
    case 2 => io.Connected?
    case 3 =>
      || (io.Received? && s.wire.origin.Some? && Fits(io.octets, BUFFER_SIZE - |s.read_buffer|))
      || (io.NotReceived? && (s.wire.origin.None? ==> !io.again))
    case 4 => (io.Sent? && io.n <= |s.write_buffer|) || io.NotSent?
    case 5 => (io.Received? && Fits(io.octets, BUFFER_SIZE - |s.read_buffer|)) || io.NotReceived?
    case 6 => (io.Sent? && io.n <= |s.read_buffer|) || io.NotSent?
    case 7 =>
      || (io.Received? && Fits(io.octets, BUFFER_SIZE - |s.write_buffer|) && |io.filtered| <= TRANS_SIZE)
      || io.NotReceived?
    case 8 =>
      || (io.Received? && Fits(io.octets, BUFFER_SIZE - |s.write_buffer|) && |io.filtered| <= TRANS_SIZE)
      || io.NotReceived?
    case 9 => (io.Sent? && io.n <= |Outgoing(s)|) || io.NotSent?
    case 10 => (io.Sent? && io.n <= |Outgoing(s)|) || io.NotSent?
    case _ => false
  }

  /** The selector reports an event only where there is interest; a blocking job reports in RESOLV_CONNECTION only. */
  predicate Reported(s: Session, side: Side, kind: Ready) {
    match kind
    case OnRead => InterestOf(s.wire, side).read
    case OnWrite => InterestOf(s.wire, side).write
    case OnBlock => s.state == RESOLV_CONNECTION && side == Client
  }

  /** The state has no callback for the event, and the state machine aborts the program. */
  predicate Aborts(s: Session, kind: Ready) {
    s.state < |TABLE| && !TABLE[s.state].Handles(kind)
  }

  predicate Enabled(s: Session, e: Event) {
    && s.state < UPDATE && Reported(s, e.side, e.kind)
    && !Aborts(s, e.kind) && Possible(s, e.io)
  }

  function Handler(s: Session, e: Event): Session
    requires Enabled(s, e)
  {
    match s.state
    case 0 => ProcessConnection(s, e.io)
    case 1 => AttemptConnection(s, e.io)
    case 2 => EstablConnection(s, e.side)
    case 3 => GreetingSread(s, e.io)
    case 4 => GreetingCwrite(s, e.io)
    case 5 => CommandCread(s, e.io)
    case 6 => CommandSwrite(s, e.io)
    case 7 => ResponseSread(s, e.io)
    case 8 => DotDataSread(s, e.io)
    case 9 => DotDataCwrite(s, e.io)
    case 10 => ResponseCwrite(s, e.io)
    case _ => s
  }

  /** jump: arriving at the state answered, if it is another one. */
  function Jump(from: nat, s: Session): Session {
    if s.state != from then Arrive(s) else s
  }

  /** One event through the state machine. */
  function Step(s: Session, e: Event): Session
    requires Enabled(s, e)
  {
    Jump(s.state, Handler(s, e))
  }

  const NO_TRAFFIC := Log([], [], [], [])

  /** A client just accepted. */
  const START := Session(PROCESS_CONNECTION, Wire(OP_WRITE, None), [], [], [], [], false, false, NO_TRAFFIC)
}
