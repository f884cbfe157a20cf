/** One turn of the daemon's main loop, from what select reported to the next loop head. */
module MainLoop {
  import opened Wrappers
  import opened ClientList
  import opened CommandQueue
  import opened Commands
  import LineReader

  /** What the daemon does that others can see, and what happens to its queue. */
  datatype Out =
    | Response(fd: int, text: string)
    | Pushed(command: Command)
    | Answered(command: Command, line: string)
    | TimedOut(command: Command, now: TimeVal)
    | Unclaimed(line: string)
    | Written(command: Command, bytes: string, at: TimeVal)
    | Enabled(on: bool)
    | Accepted(fd: int)
    | Dropped(fd: int)

  /** return_value 0 keeps the loop going. child: a sampling process was started; autoOpen: its pipe is still polled. */
  datatype Daemon = Daemon(
    queue: seq<Command>,
    clients: seq<Connection>,
    tty: seq<char>,
    auto: seq<char>,
    autoOpen: bool,
    sampling: bool,
    returnValue: int,
    outs: seq<Out>)

  /** Fixed for a run: the options, the descriptor of the sampling process's pipe, and whether there is one. */
  datatype Setup = Setup(opt: Options, autoFd: int, child: bool)

  /** What a descriptor has to read. */
  datatype Input = Input(bytes: seq<char>, end: LineReader.End)

  /** What select reports when something is readable: a terminating signal, a new connection's descriptor
      (negative when accept fails), and what the tty, the sampling process and the clients have to say. */
  datatype Round = Round(
    stop: bool,
    tty: Option<Input>,
    accepted: Option<int>,
    auto: Option<Input>,
    lines: map<int, Input>)

  datatype Event = SelectFailed | Interrupted | Idle | Ready(round: Round)

  /** One turn: select's report, whether a write to the firmware would succeed, and the time. */
  datatype Turn = Turn(event: Event, writeOk: bool, now: TimeVal)

  function Say(d: Daemon, outs: seq<Out>): Daemon {
    d.(outs := d.outs + outs)
  }

  // ---------------------------------------------------------------- the command queue

  function Push(d: Daemon, c: Command): Daemon {
    Say(d.(queue := d.queue + [c]), [Pushed(c)])
  }

  /** cmd_pop after a line of the firmware; with nothing queued the line is only logged. */
  function PopAnswered(d: Daemon, line: string): Daemon {
    if d.queue == [] then Say(d, [Unclaimed(line)]) else Say(d.(queue := d.queue[1..]), [Answered(d.queue[0], line)])
  }

  function PopExpired(d: Daemon, now: TimeVal): Daemon {
    if d.queue == [] then d else Say(d.(queue := d.queue[1..]), [TimedOut(d.queue[0], now)])
  }

  /** send_command on the head, when it has not been sent. */
  function SendHead(d: Daemon, ok: bool, now: TimeVal): Daemon {
    if d.queue != [] && !d.queue[0].sent && Encode(d.queue[0]).Some? && ok then
      Say(d.(queue := [d.queue[0].(sent := true, start := now)] + d.queue[1..]),
          [Written(d.queue[0], Encode(d.queue[0]).value, now)])
    else d
  }

  // ------------------------------------------------------------------- process_cmd

  datatype Topic = Requests | Errors | Sensors | Movements | Buttons

  predicate Follows(w: Wants, topic: Topic) {
    match topic
    case Requests => w.request
    case Errors => w.error
    case Sensors => w.sensor
    case Movements => w.movement
    case Buttons => w.button
  }

  /** SEND_TO_LISTENER: text goes to everyone who follows the topic, except on one descriptor. */
  function Broadcast(clients: seq<Connection>, topic: Topic, except: int, text: string): seq<Out>
    decreases clients
  {
    if clients == [] then []
    else (if Follows(clients[0].wants, topic) && clients[0].fd != except then [Response(clients[0].fd, text)] else [])
         + Broadcast(clients[1..], topic, except, text)
  }

  /** The listen command's parameter. */
  function Asked(w: Wants, param: Option<string>): Wants {
    if param.None? || StartsWith(param.value, "all") then EVERYTHING
    else if StartsWith(param.value, "none") then NOTHING
    else if StartsWith(param.value, "request") then w.(request := true)
    else if StartsWith(param.value, "error") then w.(error := true)
    else if StartsWith(param.value, "sensor") then w.(sensor := true)
    else if StartsWith(param.value, "movement") then w.(movement := true)
    else if StartsWith(param.value, "button") then w.(button := true)
    else w
  }

  function Listen(clients: seq<Connection>, fd: int, param: Option<string>): seq<Connection> {
    var i := Position(clients, fd);
    if i == |clients| then clients else clients[i := clients[i].(wants := Asked(clients[i].wants, param))]
  }

  function Refusal(p: Parsed): string {
    if p.cmd == Sample then "Error: invalid sample device" else "Error: invalid power id"
  }

  function ProcessCmd(s: Setup, d: Daemon, line: string, fd: int): Daemon {
    match Parse(line)
    case None => d
    case Some(p) =>
      if ForFirmware(p.cmd) then
        var code := Code(s.opt, p);
        var d1 := if code.None? then Say(d, [Response(fd, Refusal(p))]) else d;
        var d2 := Say(d1, Broadcast(d.clients, Requests, fd, "Request: " + p.text));
        Push(d2, Command(fd, p.cmd, code, false, CLEARED))
      else if p.cmd == CmdId.Listen then d.(clients := Listen(d.clients, fd, p.param))
      else d
  }

  // ------------------------------------------------------------------- process_tty

  /** Copies of a firmware line for those who follow its topic. */
  function Copies(clients: seq<Connection>, line: string, answer: string, except: int): seq<Out> {
    (if StartsWith(line, "Error:") then Broadcast(clients, Errors, except, answer) else [])
    + (if StartsWith(line, "movement") then Broadcast(clients, Movements, except, answer) else [])
    + (if StartsWith(line, "PanicButton") then Broadcast(clients, Buttons, except, answer) else [])
    + (if StartsWith(line, "Sensor ") then Broadcast(clients, Sensors, except, answer) else [])
  }

  /** A line of the firmware: the oldest command gets it as its answer, listeners get a copy. */
  function Deliver(d: Daemon, line: string, answer: string): Daemon {
    var to := if d.queue == [] then -1 else d.queue[0].fd;
    var reply := if d.queue == [] then [] else [Response(to, answer)];
    PopAnswered(Say(Say(d, reply), Copies(d.clients, line, answer, to)), line)
  }

  function ProcessLine(s: Setup, d: Daemon, raw: seq<char>): Daemon {
    Deliver(d, FirmwareLine(raw), Answer(s.opt, FirmwareLine(raw)))
  }

  function ProcessTty(s: Setup, d: Daemon, input: Input): Daemon {
    var c := LineReader.ReadLine(d.tty, input.bytes, input.end);
    var d1 := d.(tty := c.pending);
    match c.outcome
    case NoLine => d1
    case Line(raw) => ProcessLine(s, d1, raw)
    case Closed => d1.(returnValue := 2)
    case Failed => d1.(returnValue := -1)
  }

  // ----------------------------------------------------------------- the other readers

  function Accept(d: Daemon, fd: int): Daemon {
    if fd < 0 then d.(returnValue := -1) else Say(d.(clients := d.clients + [Connection(fd, NOTHING, [])]), [Accepted(fd)])
  }

  /** A line from the sampling process; when its pipe closes it is no longer polled. */
  function ReadAuto(s: Setup, d: Daemon, input: Input): Daemon {
    var c := LineReader.ReadLine(d.auto, input.bytes, input.end);
    var d1 := d.(auto := c.pending);
    match c.outcome
    case NoLine => d1
    case Line(raw) => ProcessCmd(s, d1, CString(raw), s.autoFd)
    case Closed => d1.(autoOpen := false)
    case Failed => d1.(returnValue := -1)
  }

  /** What a client's call of the reader comes to. */
  function Serve(s: Setup, d: Daemon, fd: int, outcome: LineReader.Outcome): (r: Daemon)
    ensures |r.clients| <= |d.clients|
    ensures |r.clients| == |d.clients| || (outcome.Closed? && |r.clients| == |d.clients| - 1)
  {
    match outcome
    case NoLine => d
    case Line(raw) => ProcessCmd(s, d, CString(raw), fd)
    case Closed => Say(d.(clients := Without(d.clients, fd)), [Dropped(fd)])
    case Failed => d.(returnValue := -1)
  }

  /** The i-th client has been read, and these bytes are in its buffer now. */
  function Buffered(d: Daemon, i: nat, pending: seq<char>): Daemon
    requires i < |d.clients|
  {
    d.(clients := d.clients[i := d.clients[i].(pending := pending)])
  }

  function ReadClient(s: Setup, d: Daemon, i: nat, input: Input): (r: Daemon)
    requires i < |d.clients|
    ensures |r.clients| == |d.clients| || (|r.clients| == |d.clients| - 1 && r.returnValue == d.returnValue)
  {
    var c := LineReader.ReadLine(d.clients[i].pending, input.bytes, input.end);
    Serve(s, Buffered(d, i, c.pending), d.clients[i].fd, c.outcome)
  }

  /** The loop over the clients from the i-th on; a failure ends it. */
  function ReadClients(s: Setup, d: Daemon, i: nat, lines: map<int, Input>): Daemon
    decreases |d.clients| - i
  {
    if i >= |d.clients| then d
    else if d.clients[i].fd !in lines then ReadClients(s, d, i + 1, lines)
    else
      var d1 := ReadClient(s, d, i, lines[d.clients[i].fd]);
      if d1.returnValue != 0 then d1
      else ReadClients(s, d1, if |d1.clients| < |d.clients| then i else i + 1, lines)
  }

  predicate Listened(clients: seq<Connection>) {
    exists i :: 0 <= i < |clients| && clients[i].wants.sensor
  }

  /** Tell the sampling process when the first sensor listener comes or the last one goes. */
  function UpdateSampling(s: Setup, d: Daemon): Daemon {
    if s.child && d.sampling != Listened(d.clients) then
      Say(d.(sampling := !d.sampling), [Enabled(!d.sampling)])
    else d
  }

  // --------------------------------------------------------------------- one turn

  function EndOfTurn(s: Setup, d: Daemon, t: Turn): Daemon {
    UpdateSampling(s, SendHead(d, t.writeOk, t.now))
  }

  function FromClients(s: Setup, d: Daemon, r: Round, t: Turn): Daemon {
    EndOfTurn(s, ReadClients(s, d, 0, r.lines), t)
  }

  function FromAuto(s: Setup, d: Daemon, r: Round, t: Turn): Daemon {
    if s.child && d.autoOpen && r.auto.Some? then
      var d1 := ReadAuto(s, d, r.auto.value);
      if !d1.autoOpen || d1.returnValue != 0 then d1 else FromClients(s, d1, r, t)
    else FromClients(s, d, r, t)
  }

  function FromAccept(s: Setup, d: Daemon, r: Round, t: Turn): Daemon {
    var d1 := if r.accepted.Some? then Accept(d, r.accepted.value) else d;
    if d1.returnValue != 0 then d1 else FromAuto(s, d1, r, t)
  }

  function FromTty(s: Setup, d: Daemon, r: Round, t: Turn): Daemon {
    var d1 := if r.tty.Some? then ProcessTty(s, d, r.tty.value) else d;
    if d1.returnValue != 0 then d1 else FromAccept(s, d1, r, t)
  }

  function Step(s: Setup, d: Daemon, t: Turn): Daemon {
    if d.returnValue != 0 then d else
      match t.event
      case SelectFailed => d.(returnValue := -1)
      case Interrupted => d
      case Idle =>
        if d.queue != [] && Expired(d.queue[0], t.now) then EndOfTurn(s, PopExpired(d, t.now), t) else d
      case Ready(r) => if r.stop then d.(returnValue := 1) else FromTty(s, d, r, t)
  }

  const START := Daemon([], [], [], [], true, false, 0, [])

  function Run(s: Setup, d: Daemon, turns: seq<Turn>): Daemon
    decreases turns
  {
    if turns == [] then d else Run(s, Step(s, d, turns[0]), turns[1..])
  }
}
