/** Bytes that come to nothing yet can just as well come with the rest: the turns of the main loop do not tell the difference. */
module LoopPieces {
  import opened Wrappers
  import opened ClientList
  import opened CommandQueue
  import opened Commands
  import opened MainLoop
  import LineReader

  /** Of the connections lo, ..., hi - 1, those on fd have some more bytes in their buffers. */
  function Fed(clients: seq<Connection>, lo: int, hi: int, fd: int, bytes: seq<char>): (r: seq<Connection>)
    ensures |r| == |clients|
  {
    seq(|clients|, k requires 0 <= k < |clients| =>
      if lo <= k < hi && clients[k].fd == fd then clients[k].(pending := clients[k].pending + bytes) else clients[k])
  }

  function Feed(d: Daemon, lo: int, hi: int, fd: int, bytes: seq<char>): Daemon {
    d.(clients := Fed(d.clients, lo, hi, fd, bytes))
  }

  /** Every connection on fd has them. */
  function FeedAll(d: Daemon, fd: int, bytes: seq<char>): Daemon {
    Feed(d, 0, |d.clients|, fd, bytes)
  }

  /** These bytes come to nothing on any connection on fd, from the i-th on. */
  ghost predicate QuietOn(clients: seq<Connection>, i: nat, fd: int, bytes: seq<char>) {
    forall k | i <= k < |clients| && clients[k].fd == fd :: LineReader.Quiet(clients[k].pending, bytes)
  }

  // -------------------------------------------- what does not look at the buffers

  lemma {:induction false} BroadcastFed(clients: seq<Connection>, lo: int, hi: int, fd: int, bytes: seq<char>,
                                        topic: Topic, except: int, text: string)
    ensures Broadcast(Fed(clients, lo, hi, fd, bytes), topic, except, text) == Broadcast(clients, topic, except, text)
    decreases clients
  {
    if clients != [] {
      assert Fed(clients, lo, hi, fd, bytes)[1..] == Fed(clients[1..], lo - 1, hi - 1, fd, bytes);
      BroadcastFed(clients[1..], lo - 1, hi - 1, fd, bytes, topic, except, text);
    }
  }

  lemma {:induction false} PositionFed(clients: seq<Connection>, lo: int, hi: int, fd: int, bytes: seq<char>, g: int)
    ensures Position(Fed(clients, lo, hi, fd, bytes), g) == Position(clients, g)
    decreases clients
  {
    if clients != [] {
      assert Fed(clients, lo, hi, fd, bytes)[1..] == Fed(clients[1..], lo - 1, hi - 1, fd, bytes);
      PositionFed(clients[1..], lo - 1, hi - 1, fd, bytes, g);
    }
  }

  lemma {:induction false} ListenFed(clients: seq<Connection>, lo: int, hi: int, fd: int, bytes: seq<char>, g: int, param: Option<string>)
    ensures MainLoop.Listen(Fed(clients, lo, hi, fd, bytes), g, param) == Fed(MainLoop.Listen(clients, g, param), lo, hi, fd, bytes)
    ensures forall i: nat :: QuietOn(clients, i, fd, bytes) ==> QuietOn(MainLoop.Listen(clients, g, param), i, fd, bytes)
  {
    PositionFed(clients, lo, hi, fd, bytes, g);
  }

  lemma {:induction false} CmdFed(s: Setup, d: Daemon, lo: int, hi: int, fd: int, bytes: seq<char>, line: string, g: int)
    ensures ProcessCmd(s, Feed(d, lo, hi, fd, bytes), line, g) == Feed(ProcessCmd(s, d, line, g), lo, hi, fd, bytes)
    ensures forall i: nat :: QuietOn(d.clients, i, fd, bytes) ==> QuietOn(ProcessCmd(s, d, line, g).clients, i, fd, bytes)
    ensures |ProcessCmd(s, d, line, g).clients| == |d.clients|
  {
    match Parse(line)
    case None =>
    case Some(p) =>
      BroadcastFed(d.clients, lo, hi, fd, bytes, Requests, g, "Request: " + p.text);
      ListenFed(d.clients, lo, hi, fd, bytes, g, p.param);
  }

  lemma {:induction false} DeliverFed(d: Daemon, lo: int, hi: int, fd: int, bytes: seq<char>, line: string, answer: string)
    ensures Deliver(Feed(d, lo, hi, fd, bytes), line, answer) == Feed(Deliver(d, line, answer), lo, hi, fd, bytes)
    ensures Deliver(d, line, answer).clients == d.clients
  {
    var to := if d.queue == [] then -1 else d.queue[0].fd;
    BroadcastFed(d.clients, lo, hi, fd, bytes, Errors, to, answer);
    BroadcastFed(d.clients, lo, hi, fd, bytes, Movements, to, answer);
    BroadcastFed(d.clients, lo, hi, fd, bytes, Buttons, to, answer);
    BroadcastFed(d.clients, lo, hi, fd, bytes, Sensors, to, answer);
  }

  lemma {:induction false} TtyFed(s: Setup, d: Daemon, fd: int, bytes: seq<char>, input: Input)
    ensures ProcessTty(s, FeedAll(d, fd, bytes), input) == FeedAll(ProcessTty(s, d, input), fd, bytes)
    ensures ProcessTty(s, d, input).clients == d.clients
  {
    var c := LineReader.ReadLine(d.tty, input.bytes, input.end);
    if c.outcome.Line? {
      DeliverFed(d.(tty := c.pending), 0, |d.clients|, fd, bytes, FirmwareLine(c.outcome.text), Answer(s.opt, FirmwareLine(c.outcome.text)));
    }
  }

  lemma {:induction false} AcceptFed(d: Daemon, fd: int, bytes: seq<char>, g: int)
    requires g != fd
    ensures Accept(FeedAll(d, fd, bytes), g) == FeedAll(Accept(d, g), fd, bytes)
    ensures QuietOn(d.clients, 0, fd, bytes) ==> QuietOn(Accept(d, g).clients, 0, fd, bytes)
  {
    assert Accept(FeedAll(d, fd, bytes), g).clients == FeedAll(Accept(d, g), fd, bytes).clients;
  }

  lemma {:induction false} AutoFed(s: Setup, d: Daemon, fd: int, bytes: seq<char>, input: Input)
    ensures ReadAuto(s, FeedAll(d, fd, bytes), input) == FeedAll(ReadAuto(s, d, input), fd, bytes)
    ensures QuietOn(d.clients, 0, fd, bytes) ==> QuietOn(ReadAuto(s, d, input).clients, 0, fd, bytes)
  {
    var c := LineReader.ReadLine(d.auto, input.bytes, input.end);
    if c.outcome.Line? { CmdFed(s, d.(auto := c.pending), 0, |d.clients|, fd, bytes, CString(c.outcome.text), s.autoFd); }
  }

  lemma {:induction false} ListenedFed(clients: seq<Connection>, lo: int, hi: int, fd: int, bytes: seq<char>)
    ensures Listened(Fed(clients, lo, hi, fd, bytes)) <==> Listened(clients)
  {
    var fed := Fed(clients, lo, hi, fd, bytes);
    if i :| 0 <= i < |clients| && clients[i].wants.sensor { assert fed[i].wants.sensor; }
    if i :| 0 <= i < |fed| && fed[i].wants.sensor { assert clients[i].wants.sensor; }
  }

  lemma {:induction false} EndFed(s: Setup, d: Daemon, fd: int, bytes: seq<char>, t: Turn)
    ensures EndOfTurn(s, FeedAll(d, fd, bytes), t) == FeedAll(EndOfTurn(s, d, t), fd, bytes)
    ensures EndOfTurn(s, d, t).clients == d.clients
  {
    ListenedFed(d.clients, 0, |d.clients|, fd, bytes);
  }

  // ------------------------------------------------------- the loop over the clients

  /** Dropping a connection that has been visited, those after it being fed. */
  lemma {:induction false} WithoutFedLater(clients: seq<Connection>, i: nat, fd: int, bytes: seq<char>)
    requires i < |clients|
    ensures |Without(clients, clients[i].fd)| == |clients| - 1
    ensures Without(Fed(clients, i + 1, |clients|, fd, bytes), clients[i].fd)
         == Fed(Without(clients, clients[i].fd), i, |clients| - 1, fd, bytes)
    ensures QuietOn(clients, i + 1, fd, bytes) ==> QuietOn(Without(clients, clients[i].fd), i, fd, bytes)
  {
    PositionAtMost(clients, clients[i].fd, i);
    PositionFed(clients, i + 1, |clients|, fd, bytes, clients[i].fd);
    var rest, fed := Without(clients, clients[i].fd), Fed(clients, i + 1, |clients|, fd, bytes);
    var p := Position(clients, clients[i].fd);
    assert rest == clients[..p] + clients[p + 1..] && Without(fed, clients[i].fd) == fed[..p] + fed[p + 1..];
    FedSplit(clients, p, i, fd, bytes);
  }

  lemma FedSplit(clients: seq<Connection>, p: nat, i: nat, fd: int, bytes: seq<char>)
    requires p <= i < |clients|
    ensures var fed := Fed(clients, i + 1, |clients|, fd, bytes);
            fed[..p] + fed[p + 1..] == Fed(clients[..p] + clients[p + 1..], i, |clients| - 1, fd, bytes)
  {
  }

  /** Those before it being fed, it not being one of them. */
  lemma {:induction false} WithoutFedEarlier(clients: seq<Connection>, i: nat, fd: int, bytes: seq<char>)
    requires i < |clients| && clients[i].fd != fd
    ensures |Without(clients, clients[i].fd)| == |clients| - 1
    ensures Without(Fed(clients, 0, i, fd, bytes), clients[i].fd) == Fed(Without(clients, clients[i].fd), 0, i, fd, bytes)
    ensures QuietOn(clients, 0, fd, bytes) ==> QuietOn(Without(clients, clients[i].fd), 0, fd, bytes)
  {
    PositionAtMost(clients, clients[i].fd, i);
    PositionFed(clients, 0, i, fd, bytes, clients[i].fd);
    PositionHere(clients, clients[i].fd);
  }

  lemma {:induction false} PositionHere(clients: seq<Connection>, fd: int)
    ensures Position(clients, fd) < |clients| ==> clients[Position(clients, fd)].fd == fd
    decreases clients
  {
    if clients != [] && clients[0].fd != fd { PositionHere(clients[1..], fd); }
  }

  /** Where the loop goes on when the list was so long before the i-th client was served and is now what it is. */
  function After(before: nat, clients: seq<Connection>, i: nat): nat {
    if |clients| < before then i else i + 1
  }

  lemma {:induction false} ServeFedLater(s: Setup, d: Daemon, i: nat, fd: int, bytes: seq<char>, outcome: LineReader.Outcome)
    requires i < |d.clients|
    ensures var n, g := |d.clients|, d.clients[i].fd; var e := Serve(s, d, g, outcome);
            && Serve(s, Feed(d, i + 1, n, fd, bytes), g, outcome) == Feed(e, After(n, e.clients, i), |e.clients|, fd, bytes)
            && (QuietOn(d.clients, i + 1, fd, bytes) ==> QuietOn(e.clients, After(n, e.clients, i), fd, bytes))
  {
    match outcome
    case NoLine =>
    case Line(raw) => CmdFed(s, d, i + 1, |d.clients|, fd, bytes, CString(raw), d.clients[i].fd);
    case Closed => WithoutFedLater(d.clients, i, fd, bytes);
    case Failed =>
  }

  lemma {:induction false} ServeFedEarlier(s: Setup, d: Daemon, i: nat, fd: int, bytes: seq<char>, outcome: LineReader.Outcome)
    requires i < |d.clients| && d.clients[i].fd != fd
    ensures var n, g := |d.clients|, d.clients[i].fd; var e := Serve(s, d, g, outcome);
            && Serve(s, Feed(d, 0, i, fd, bytes), g, outcome) == Feed(e, 0, After(n, e.clients, i), fd, bytes)
            && (QuietOn(d.clients, 0, fd, bytes) ==> QuietOn(e.clients, 0, fd, bytes))
  {
    match outcome
    case NoLine => assert Feed(d, 0, i, fd, bytes).clients == Feed(d, 0, i + 1, fd, bytes).clients;
    case Line(raw) =>
      var e := ProcessCmd(s, d, CString(raw), d.clients[i].fd);
      CmdFed(s, d, 0, i, fd, bytes, CString(raw), d.clients[i].fd);
      CmdKeepsFds(s, d, CString(raw), d.clients[i].fd);
      assert Feed(e, 0, i, fd, bytes).clients == Feed(e, 0, i + 1, fd, bytes).clients;
    case Closed => WithoutFedEarlier(d.clients, i, fd, bytes);
    case Failed => assert Feed(d, 0, i, fd, bytes).clients == Feed(d, 0, i + 1, fd, bytes).clients;
  }

  lemma CmdKeepsFds(s: Setup, d: Daemon, line: string, fd: int)
    ensures var e := ProcessCmd(s, d, line, fd); |e.clients| == |d.clients| && forall k | 0 <= k < |e.clients| :: e.clients[k].fd == d.clients[k].fd
  {
  }

  /** A client that reads the rest of bytes it has been fed is served as if it read them all. */
  lemma {:induction false} VisitLater(s: Setup, d: Daemon, i: nat, fd: int, bytes: seq<char>, rest: Input, all: Input)
    requires i < |d.clients| && QuietOn(d.clients, i, fd, bytes)
    requires all == if d.clients[i].fd == fd then Input(bytes + rest.bytes, rest.end) else rest
    ensures var n := |d.clients|; var e := ReadClient(s, d, i, all);
            && ReadClient(s, Feed(d, i, n, fd, bytes), i, rest) == Feed(e, After(n, e.clients, i), |e.clients|, fd, bytes)
            && QuietOn(e.clients, After(n, e.clients, i), fd, bytes)
  {
    var n, c := |d.clients|, LineReader.ReadLine(d.clients[i].pending, all.bytes, all.end);
    var fed := Feed(d, i, n, fd, bytes);
    if d.clients[i].fd == fd { LineReader.InTwoPieces(d.clients[i].pending, bytes, rest.bytes, rest.end); }
    var d1 := Buffered(d, i, c.pending);
    assert Buffered(fed, i, c.pending).clients == Feed(d1, i + 1, n, fd, bytes).clients;
    ServeFedLater(s, d1, i, fd, bytes, c.outcome);
  }

  /** Any other client is served as if nothing had been fed to those before it. */
  lemma {:induction false} VisitEarlier(s: Setup, d: Daemon, i: nat, fd: int, bytes: seq<char>, input: Input)
    requires i < |d.clients| && d.clients[i].fd != fd && QuietOn(d.clients, 0, fd, bytes)
    ensures var n := |d.clients|; var e := ReadClient(s, d, i, input);
            && ReadClient(s, Feed(d, 0, i, fd, bytes), i, input) == Feed(e, 0, After(n, e.clients, i), fd, bytes)
            && QuietOn(e.clients, 0, fd, bytes)
  {
    var c := LineReader.ReadLine(d.clients[i].pending, input.bytes, input.end);
    var d1 := Buffered(d, i, c.pending);
    assert Buffered(Feed(d, 0, i, fd, bytes), i, c.pending).clients == Feed(d1, 0, i, fd, bytes).clients;
    ServeFedEarlier(s, d1, i, fd, bytes, c.outcome);
  }

  lemma {:induction false} ClientsLater(s: Setup, d: Daemon, i: nat, lines: map<int, Input>, fd: int, bytes: seq<char>)
    requires fd in lines && QuietOn(d.clients, i, fd, bytes) && i <= |d.clients|
    requires ReadClients(s, d, i, lines[fd := Input(bytes + lines[fd].bytes, lines[fd].end)]).returnValue == 0
    ensures ReadClients(s, Feed(d, i, |d.clients|, fd, bytes), i, lines)
         == ReadClients(s, d, i, lines[fd := Input(bytes + lines[fd].bytes, lines[fd].end)])
    decreases |d.clients| - i
  {
    var all := lines[fd := Input(bytes + lines[fd].bytes, lines[fd].end)];
    var n := |d.clients|;
    var fed := Feed(d, i, n, fd, bytes);
    if i >= n {
      assert fed.clients == d.clients;
    } else if d.clients[i].fd !in lines {
      assert fed.clients == Feed(d, i + 1, n, fd, bytes).clients;
      ClientsLater(s, d, i + 1, lines, fd, bytes);
    } else {
      var g := d.clients[i].fd;
      VisitLater(s, d, i, fd, bytes, lines[g], all[g]);
      var e := ReadClient(s, d, i, all[g]);
      if e.returnValue == 0 { ClientsLater(s, e, After(n, e.clients, i), lines, fd, bytes); }
    }
  }

  lemma {:induction false} ClientsEarlier(s: Setup, d: Daemon, i: nat, lines: map<int, Input>, fd: int, bytes: seq<char>)
    requires fd in lines && lines[fd] == Input(bytes, LineReader.WouldBlock) && QuietOn(d.clients, 0, fd, bytes) && i <= |d.clients|
    requires d.returnValue == 0 && ReadClients(s, d, i, lines - {fd}).returnValue == 0
    ensures ReadClients(s, Feed(d, 0, i, fd, bytes), i, lines) == FeedAll(ReadClients(s, d, i, lines - {fd}), fd, bytes)
    ensures QuietOn(ReadClients(s, d, i, lines - {fd}).clients, 0, fd, bytes)
    decreases |d.clients| - i
  {
    var others, n := lines - {fd}, |d.clients|;
    var fed := Feed(d, 0, i, fd, bytes);
    if i < n {
      var g := d.clients[i].fd;
      if g == fd {
        LineReader.InTwoPieces(d.clients[i].pending, bytes, [], LineReader.WouldBlock);
        assert ReadClient(s, fed, i, lines[fd]).clients == Feed(d, 0, i + 1, fd, bytes).clients;
        ClientsEarlier(s, d, i + 1, lines, fd, bytes);
      } else if g !in lines {
        assert fed.clients == Feed(d, 0, i + 1, fd, bytes).clients;
        ClientsEarlier(s, d, i + 1, lines, fd, bytes);
      } else {
        VisitEarlier(s, d, i, fd, bytes, lines[g]);
        var e := ReadClient(s, d, i, lines[g]);
        if e.returnValue == 0 { ClientsEarlier(s, e, After(n, e.clients, i), lines, fd, bytes); }
      }
    }
  }

  // ------------------------------------------------------------------- a turn

  function MoreBytes(r: Round, fd: int, bytes: seq<char>): Round
    requires fd in r.lines
  {
    r.(lines := r.lines[fd := Input(bytes + r.lines[fd].bytes, r.lines[fd].end)])
  }

  function NoBytes(r: Round, fd: int): Round {
    r.(lines := r.lines - {fd})
  }

  /** The loop goes on, and still polls the sampling process if it did. */
  predicate GoesOn(d: Daemon, e: Daemon) {
    e.returnValue == 0 && e.autoOpen == d.autoOpen
  }

  lemma {:induction false} FromAutoLater(s: Setup, d: Daemon, r: Round, t: Turn, fd: int, bytes: seq<char>)
    requires fd in r.lines && QuietOn(d.clients, 0, fd, bytes) && GoesOn(d, FromAuto(s, d, MoreBytes(r, fd, bytes), t))
    ensures FromAuto(s, FeedAll(d, fd, bytes), r, t) == FromAuto(s, d, MoreBytes(r, fd, bytes), t)
  {
    var d1 := d;
    if s.child && d.autoOpen && r.auto.Some? {
      AutoFed(s, d, fd, bytes, r.auto.value);
      d1 := ReadAuto(s, d, r.auto.value);
    }
    ClientsLater(s, d1, 0, r.lines, fd, bytes);
  }

  lemma {:induction false} FromAutoEarlier(s: Setup, d: Daemon, r: Round, t: Turn, fd: int, bytes: seq<char>)
    requires fd in r.lines && r.lines[fd] == Input(bytes, LineReader.WouldBlock)
    requires d.returnValue == 0 && QuietOn(d.clients, 0, fd, bytes) && GoesOn(d, FromAuto(s, d, NoBytes(r, fd), t))
    ensures FromAuto(s, d, r, t) == FeedAll(FromAuto(s, d, NoBytes(r, fd), t), fd, bytes)
    ensures QuietOn(FromAuto(s, d, NoBytes(r, fd), t).clients, 0, fd, bytes)
  {
    var d1 := d;
    if s.child && d.autoOpen && r.auto.Some? {
      AutoFed(s, d, fd, bytes, r.auto.value);
      d1 := ReadAuto(s, d, r.auto.value);
    }
    assert Feed(d1, 0, 0, fd, bytes).clients == d1.clients;
    ClientsEarlier(s, d1, 0, r.lines, fd, bytes);
    EndFed(s, ReadClients(s, d1, 0, r.lines - {fd}), fd, bytes, t);
  }

  lemma {:induction false} FromAcceptLater(s: Setup, d: Daemon, r: Round, t: Turn, fd: int, bytes: seq<char>)
    requires fd in r.lines && r.accepted != Some(fd) && QuietOn(d.clients, 0, fd, bytes) && GoesOn(d, FromAccept(s, d, MoreBytes(r, fd, bytes), t))
    ensures FromAccept(s, FeedAll(d, fd, bytes), r, t) == FromAccept(s, d, MoreBytes(r, fd, bytes), t)
  {
    var d1 := d;
    if r.accepted.Some? {
      AcceptFed(d, fd, bytes, r.accepted.value);
      d1 := Accept(d, r.accepted.value);
    }
    if d1.returnValue == 0 { FromAutoLater(s, d1, r, t, fd, bytes); }
  }

  lemma {:induction false} FromAcceptEarlier(s: Setup, d: Daemon, r: Round, t: Turn, fd: int, bytes: seq<char>)
    requires fd in r.lines && r.lines[fd] == Input(bytes, LineReader.WouldBlock) && r.accepted != Some(fd)
    requires d.returnValue == 0 && QuietOn(d.clients, 0, fd, bytes) && GoesOn(d, FromAccept(s, d, NoBytes(r, fd), t))
    ensures FromAccept(s, d, r, t) == FeedAll(FromAccept(s, d, NoBytes(r, fd), t), fd, bytes)
    ensures QuietOn(FromAccept(s, d, NoBytes(r, fd), t).clients, 0, fd, bytes)
  {
    var d1 := d;
    if r.accepted.Some? {
      AcceptFed(d, fd, bytes, r.accepted.value);
      d1 := Accept(d, r.accepted.value);
    }
    FromAutoEarlier(s, d1, r, t, fd, bytes);
  }

  lemma FromAcceptIgnores(s: Setup, d: Daemon, r: Round, t: Turn, u: Turn)
    requires t.writeOk == u.writeOk && t.now == u.now
    ensures FromAccept(s, d, r, t) == FromAccept(s, d, r, u)
  {
  }

  lemma {:induction false} TtyKeepsOpen(s: Setup, d: Daemon, input: Input)
    ensures ProcessTty(s, d, input).autoOpen == d.autoOpen
  {
    var c := LineReader.ReadLine(d.tty, input.bytes, input.end);
  }

  /** The same turn with more bytes to read on fd, or with nothing to read there. */
  function WithMore(t: Turn, fd: int, bytes: seq<char>): Turn
    requires t.event.Ready? && fd in t.event.round.lines
  {
    t.(event := Ready(MoreBytes(t.event.round, fd, bytes)))
  }

  function WithNone(t: Turn, fd: int): Turn
    requires t.event.Ready?
  {
    t.(event := Ready(NoBytes(t.event.round, fd)))
  }

  /** Something can be read on fd, and it is not a new connection's. */
  predicate Reads(t: Turn, fd: int) {
    t.event.Ready? && fd in t.event.round.lines && t.event.round.accepted != Some(fd)
  }

  /** Who has been fed bytes need not read them. */
  lemma {:induction false} StepLater(s: Setup, d: Daemon, t: Turn, fd: int, bytes: seq<char>)
    requires Reads(t, fd) && QuietOn(d.clients, 0, fd, bytes) && d.returnValue == 0
    requires GoesOn(d, Step(s, d, WithMore(t, fd, bytes)))
    ensures Step(s, FeedAll(d, fd, bytes), t) == Step(s, d, WithMore(t, fd, bytes))
  {
    var r, all := t.event.round, WithMore(t, fd, bytes);
    var d1 := d;
    if r.tty.Some? {
      TtyFed(s, d, fd, bytes, r.tty.value);
      TtyKeepsOpen(s, d, r.tty.value);
      d1 := ProcessTty(s, d, r.tty.value);
    }
    assert d1.returnValue == 0;
    FromAcceptLater(s, d1, r, all, fd, bytes);
    FromAcceptIgnores(s, FeedAll(d1, fd, bytes), r, t, all);
  }

  /** Who reads nothing but such bytes has been fed them. */
  lemma {:induction false} StepEarlier(s: Setup, d: Daemon, t: Turn, fd: int, bytes: seq<char>)
    requires Reads(t, fd) && t.event.round.lines[fd] == Input(bytes, LineReader.WouldBlock)
    requires QuietOn(d.clients, 0, fd, bytes) && d.returnValue == 0
    requires GoesOn(d, Step(s, d, WithNone(t, fd)))
    ensures Step(s, d, t) == FeedAll(Step(s, d, WithNone(t, fd)), fd, bytes)
    ensures QuietOn(Step(s, d, WithNone(t, fd)).clients, 0, fd, bytes)
  {
    var r, none := t.event.round, WithNone(t, fd);
    var d1 := d;
    if r.tty.Some? {
      TtyFed(s, d, fd, bytes, r.tty.value);
      TtyKeepsOpen(s, d, r.tty.value);
      d1 := ProcessTty(s, d, r.tty.value);
    }
    assert d1.returnValue == 0;
    FromAcceptEarlier(s, d1, r, none, fd, bytes);
    FromAcceptIgnores(s, d1, r, t, none);
  }

  /** A LINE IN TWO PIECES IS PROCESSED AS IF SENT AT ONCE. When a client has sent some bytes that neither complete a line nor
      fill its buffer, and the next read would block, the turn does what it would do without them, and the next one what it
      would do if they came before what it reads then: whatever else the two turns read, the daemon ends up the same. */
  lemma {:induction false} InTwoPieces(s: Setup, d: Daemon, t: Turn, u: Turn, fd: int, bytes: seq<char>)
    requires d.returnValue == 0 && Reads(t, fd) && Reads(u, fd)
    requires t.event.round.lines[fd] == Input(bytes, LineReader.WouldBlock) && QuietOn(d.clients, 0, fd, bytes)
    requires GoesOn(d, Step(s, d, WithNone(t, fd)))
    requires GoesOn(Step(s, d, WithNone(t, fd)), Step(s, Step(s, d, WithNone(t, fd)), WithMore(u, fd, bytes)))
    ensures Step(s, Step(s, d, t), u) == Step(s, Step(s, d, WithNone(t, fd)), WithMore(u, fd, bytes))
  {
    StepEarlier(s, d, t, fd, bytes);
    StepLater(s, Step(s, d, WithNone(t, fd)), u, fd, bytes);
  }

  // --------------------------------------------- the firmware and the sampling process

  /** With other bytes in the buffers of the tty and the sampling process. */
  function With(d: Daemon, tty: seq<char>, auto: seq<char>): Daemon {
    d.(tty := tty, auto := auto)
  }

  lemma {:induction false} CmdWith(s: Setup, d: Daemon, tty: seq<char>, auto: seq<char>, line: string, fd: int)
    ensures ProcessCmd(s, With(d, tty, auto), line, fd) == With(ProcessCmd(s, d, line, fd), tty, auto)
    ensures ProcessCmd(s, d, line, fd).tty == d.tty && ProcessCmd(s, d, line, fd).auto == d.auto
  {
  }

  lemma {:induction false} ClientWith(s: Setup, d: Daemon, tty: seq<char>, auto: seq<char>, i: nat, input: Input)
    requires i < |d.clients|
    ensures ReadClient(s, With(d, tty, auto), i, input) == With(ReadClient(s, d, i, input), tty, auto)
    ensures ReadClient(s, d, i, input).tty == d.tty && ReadClient(s, d, i, input).auto == d.auto
  {
    var c := LineReader.ReadLine(d.clients[i].pending, input.bytes, input.end);
    if c.outcome.Line? { CmdWith(s, Buffered(d, i, c.pending), tty, auto, CString(c.outcome.text), d.clients[i].fd); }
  }

  lemma {:induction false} ClientsWith(s: Setup, d: Daemon, tty: seq<char>, auto: seq<char>, i: nat, lines: map<int, Input>)
    ensures ReadClients(s, With(d, tty, auto), i, lines) == With(ReadClients(s, d, i, lines), tty, auto)
    ensures ReadClients(s, d, i, lines).tty == d.tty && ReadClients(s, d, i, lines).auto == d.auto
    decreases |d.clients| - i
  {
    if i < |d.clients| {
      if d.clients[i].fd !in lines {
        ClientsWith(s, d, tty, auto, i + 1, lines);
      } else {
        ClientWith(s, d, tty, auto, i, lines[d.clients[i].fd]);
        var e := ReadClient(s, d, i, lines[d.clients[i].fd]);
        if e.returnValue == 0 { ClientsWith(s, e, tty, auto, After(|d.clients|, e.clients, i), lines); }
      }
    }
  }

  lemma {:induction false} FromClientsWith(s: Setup, d: Daemon, tty: seq<char>, auto: seq<char>, r: Round, t: Turn)
    ensures FromClients(s, With(d, tty, auto), r, t) == With(FromClients(s, d, r, t), tty, auto)
    ensures FromClients(s, d, r, t).tty == d.tty && FromClients(s, d, r, t).auto == d.auto
  {
    ClientsWith(s, d, tty, auto, 0, r.lines);
  }

  lemma {:induction false} AutoWith(s: Setup, d: Daemon, tty: seq<char>, input: Input)
    ensures ReadAuto(s, d.(tty := tty), input) == ReadAuto(s, d, input).(tty := tty)
    ensures ReadAuto(s, d, input).tty == d.tty
  {
    var c := LineReader.ReadLine(d.auto, input.bytes, input.end);
    if c.outcome.Line? { CmdWith(s, d.(auto := c.pending), tty, c.pending, CString(c.outcome.text), s.autoFd); }
  }

  lemma {:induction false} FromAutoWith(s: Setup, d: Daemon, tty: seq<char>, r: Round, t: Turn)
    ensures FromAuto(s, d.(tty := tty), r, t) == FromAuto(s, d, r, t).(tty := tty)
    ensures FromAuto(s, d, r, t).tty == d.tty
  {
    var e := d;
    if s.child && d.autoOpen && r.auto.Some? {
      AutoWith(s, d, tty, r.auto.value);
      e := ReadAuto(s, d, r.auto.value);
    }
    FromClientsWith(s, e, tty, e.auto, r, t);
  }

  lemma {:induction false} FromAcceptWith(s: Setup, d: Daemon, tty: seq<char>, r: Round, t: Turn)
    ensures FromAccept(s, d.(tty := tty), r, t) == FromAccept(s, d, r, t).(tty := tty)
    ensures FromAccept(s, d, r, t).tty == d.tty
  {
    FromAutoWith(s, if r.accepted.Some? then Accept(d, r.accepted.value) else d, tty, r, t);
  }

  function WithTty(t: Turn, tty: Option<Input>): Turn
    requires t.event.Ready?
  {
    t.(event := Ready(t.event.round.(tty := tty)))
  }

  function Prefixed(bytes: seq<char>, input: Input): Input {
    Input(bytes + input.bytes, input.end)
  }

  /** THE SAME HOLDS FOR THE FIRMWARE: bytes of a line may come in a turn of their own. */
  lemma {:induction false} TtyInTwoPieces(s: Setup, d: Daemon, t: Turn, u: Turn, bytes: seq<char>)
    requires d.returnValue == 0 && t.event.Ready? && u.event.Ready? && !t.event.round.stop && !u.event.round.stop
    requires t.event.round.tty == Some(Input(bytes, LineReader.WouldBlock)) && LineReader.Quiet(d.tty, bytes)
    requires u.event.round.tty.Some? && Step(s, d, WithTty(t, None)).returnValue == 0
    ensures Step(s, Step(s, d, t), u)
         == Step(s, Step(s, d, WithTty(t, None)), WithTty(u, Some(Prefixed(bytes, u.event.round.tty.value))))
  {
    var e := Step(s, d, WithTty(t, None));
    LineReader.InTwoPieces(d.tty, bytes, [], LineReader.WouldBlock);
    FromAcceptWith(s, d, d.tty + bytes, t.event.round, t);
    FromAcceptIgnoresTty(s, d, t.event.round, None, t, WithTty(t, None));
    assert Step(s, d, t) == e.(tty := e.tty + bytes);
    TtyRest(s, e, u, bytes);
  }

  lemma {:induction false} FromAcceptIgnoresTty(s: Setup, d: Daemon, r: Round, tty: Option<Input>, t: Turn, u: Turn)
    requires t.writeOk == u.writeOk && t.now == u.now
    ensures FromAccept(s, d, r, t) == FromAccept(s, d, r.(tty := tty), u)
  {
    FromAcceptIgnores(s, d, r, t, u);
  }

  lemma {:induction false} TtyRest(s: Setup, d: Daemon, u: Turn, bytes: seq<char>)
    requires d.returnValue == 0 && u.event.Ready? && u.event.round.tty.Some? && !u.event.round.stop && LineReader.Quiet(d.tty, bytes)
    ensures Step(s, d.(tty := d.tty + bytes), u) == Step(s, d, WithTty(u, Some(Prefixed(bytes, u.event.round.tty.value))))
  {
    var r, rest := u.event.round, u.event.round.tty.value;
    var all := WithTty(u, Some(Prefixed(bytes, rest)));
    TtyReadsRest(s, d, bytes, rest);
    FromAcceptIgnoresTty(s, ProcessTty(s, d, Prefixed(bytes, rest)), r, all.event.round.tty, u, all);
  }

  lemma {:induction false} TtyReadsRest(s: Setup, d: Daemon, bytes: seq<char>, rest: Input)
    requires LineReader.Quiet(d.tty, bytes)
    ensures ProcessTty(s, d.(tty := d.tty + bytes), rest) == ProcessTty(s, d, Prefixed(bytes, rest))
  {
    LineReader.InTwoPieces(d.tty, bytes, rest.bytes, rest.end);
  }

  function WithAuto(t: Turn, auto: Option<Input>): Turn
    requires t.event.Ready?
  {
    t.(event := Ready(t.event.round.(auto := auto)))
  }

  lemma {:induction false} TtyWithAuto(s: Setup, d: Daemon, auto: seq<char>, input: Input)
    ensures ProcessTty(s, d.(auto := auto), input) == ProcessTty(s, d, input).(auto := auto)
    ensures ProcessTty(s, d, input).auto == d.auto && ProcessTty(s, d, input).autoOpen == d.autoOpen
  {
    var c := LineReader.ReadLine(d.tty, input.bytes, input.end);
    if c.outcome.Line? {
      DeliverWithAuto(d.(tty := c.pending), auto, FirmwareLine(c.outcome.text), Answer(s.opt, FirmwareLine(c.outcome.text)));
    }
  }

  lemma DeliverWithAuto(d: Daemon, auto: seq<char>, line: string, answer: string)
    ensures Deliver(d.(auto := auto), line, answer) == Deliver(d, line, answer).(auto := auto)
    ensures Deliver(d, line, answer).auto == d.auto && Deliver(d, line, answer).autoOpen == d.autoOpen
  {
  }

  /** The pipe's bytes so far come to nothing: the turn does what it would do without them. */
  lemma {:induction false} AutoEarlier(s: Setup, d: Daemon, r: Round, t: Turn, bytes: seq<char>)
    requires s.child && d.autoOpen && d.returnValue == 0
    requires r.auto == Some(Input(bytes, LineReader.WouldBlock)) && LineReader.Quiet(d.auto, bytes)
    ensures FromAuto(s, d, r, t) == FromAuto(s, d, r.(auto := None), t).(auto := d.auto + bytes)
    ensures FromAuto(s, d, r.(auto := None), t).auto == d.auto && FromAuto(s, d, r.(auto := None), t).autoOpen
  {
    LineReader.InTwoPieces(d.auto, bytes, [], LineReader.WouldBlock);
    FromClientsWith(s, d, d.tty, d.auto + bytes, r, t);
    ClientsKeepOpen(s, d, 0, r.lines);
  }

  lemma {:induction false} ClientsKeepOpen(s: Setup, d: Daemon, i: nat, lines: map<int, Input>)
    ensures ReadClients(s, d, i, lines).autoOpen == d.autoOpen
    decreases |d.clients| - i
  {
    if i < |d.clients| {
      if d.clients[i].fd !in lines {
        ClientsKeepOpen(s, d, i + 1, lines);
      } else {
        var e := ReadClient(s, d, i, lines[d.clients[i].fd]);
        ClientKeepsOpen(s, d, i, lines[d.clients[i].fd]);
        if e.returnValue == 0 { ClientsKeepOpen(s, e, After(|d.clients|, e.clients, i), lines); }
      }
    }
  }

  lemma {:induction false} ClientKeepsOpen(s: Setup, d: Daemon, i: nat, input: Input)
    requires i < |d.clients|
    ensures ReadClient(s, d, i, input).autoOpen == d.autoOpen
  {
    var c := LineReader.ReadLine(d.clients[i].pending, input.bytes, input.end);
    if c.outcome.Line? { CmdKeepsOpen(s, Buffered(d, i, c.pending), CString(c.outcome.text), d.clients[i].fd); }
  }

  lemma CmdKeepsOpen(s: Setup, d: Daemon, line: string, fd: int)
    ensures ProcessCmd(s, d, line, fd).autoOpen == d.autoOpen
  {
  }

  lemma {:induction false} AutoReadsRest(s: Setup, d: Daemon, bytes: seq<char>, rest: Input)
    requires LineReader.Quiet(d.auto, bytes)
    ensures ReadAuto(s, d.(auto := d.auto + bytes), rest) == ReadAuto(s, d, Prefixed(bytes, rest))
  {
    LineReader.InTwoPieces(d.auto, bytes, rest.bytes, rest.end);
  }

  /** From the accept on, with the pipe's bytes in the buffer or still to be read. */
  lemma {:induction false} AutoLater(s: Setup, d: Daemon, r: Round, t: Turn, bytes: seq<char>)
    requires s.child && d.autoOpen && r.auto.Some? && LineReader.Quiet(d.auto, bytes)
    requires FromAccept(s, d, r.(auto := Some(Prefixed(bytes, r.auto.value))), t).returnValue == 0
    ensures FromAccept(s, d.(auto := d.auto + bytes), r, t) == FromAccept(s, d, r.(auto := Some(Prefixed(bytes, r.auto.value))), t)
  {
    var d1 := if r.accepted.Some? then Accept(d, r.accepted.value) else d;
    AutoReadsRest(s, d1, bytes, r.auto.value);
  }

  /** AND FOR THE SAMPLING PROCESS, while its pipe is polled. */
  lemma {:induction false} AutoInTwoPieces(s: Setup, d: Daemon, t: Turn, u: Turn, bytes: seq<char>)
    requires s.child && d.autoOpen && d.returnValue == 0 && t.event.Ready? && u.event.Ready?
    requires t.event.round.auto == Some(Input(bytes, LineReader.WouldBlock)) && LineReader.Quiet(d.auto, bytes)
    requires u.event.round.auto.Some? && Step(s, d, WithAuto(t, None)).returnValue == 0
    requires Step(s, Step(s, d, WithAuto(t, None)), WithAuto(u, Some(Prefixed(bytes, u.event.round.auto.value)))).returnValue == 0
    ensures Step(s, Step(s, d, t), u)
         == Step(s, Step(s, d, WithAuto(t, None)), WithAuto(u, Some(Prefixed(bytes, u.event.round.auto.value))))
  {
    var e := Step(s, d, WithAuto(t, None));
    StepAutoEarlier(s, d, t, bytes);
    StepAutoLater(s, e, u, bytes);
  }

  lemma {:induction false} StepAutoEarlier(s: Setup, d: Daemon, t: Turn, bytes: seq<char>)
    requires s.child && d.autoOpen && d.returnValue == 0 && t.event.Ready?
    requires t.event.round.auto == Some(Input(bytes, LineReader.WouldBlock)) && LineReader.Quiet(d.auto, bytes)
    requires Step(s, d, WithAuto(t, None)).returnValue == 0
    ensures Step(s, d, t) == Step(s, d, WithAuto(t, None)).(auto := d.auto + bytes)
    ensures Step(s, d, WithAuto(t, None)).auto == d.auto && Step(s, d, WithAuto(t, None)).autoOpen
  {
    var r := t.event.round;
    var d1 := d;
    if r.tty.Some? {
      TtyWithAuto(s, d, d.auto, r.tty.value);
      d1 := ProcessTty(s, d, r.tty.value);
    }
    var d2 := if r.accepted.Some? then Accept(d1, r.accepted.value) else d1;
    AutoEarlier(s, d2, r, t, bytes);
  }

  lemma {:induction false} StepAutoLater(s: Setup, d: Daemon, u: Turn, bytes: seq<char>)
    requires s.child && d.autoOpen && d.returnValue == 0 && u.event.Ready? && u.event.round.auto.Some? && LineReader.Quiet(d.auto, bytes)
    requires Step(s, d, WithAuto(u, Some(Prefixed(bytes, u.event.round.auto.value)))).returnValue == 0
    ensures Step(s, d.(auto := d.auto + bytes), u) == Step(s, d, WithAuto(u, Some(Prefixed(bytes, u.event.round.auto.value))))
  {
    var r, all := u.event.round, WithAuto(u, Some(Prefixed(bytes, u.event.round.auto.value)));
    var d1 := d;
    if r.tty.Some? {
      TtyWithAuto(s, d, d.auto + bytes, r.tty.value);
      d1 := ProcessTty(s, d, r.tty.value);
    }
    FromAcceptIgnores(s, d1, all.event.round, u, all);
    AutoLater(s, d1, r, u, bytes);
  }
}
