/** What the end of an input means for the daemon: exactly when its loop ends, and which connections are dropped. */
module LoopReads {
  import opened Wrappers
  import opened ClientList
  import opened CommandQueue
  import opened Commands
  import opened MainLoop
  import opened LoopLedger
  import opened LoopService
  import LineReader

  /** An input that leaves nothing but unfinished bytes in the buffer and then ends so. */
  predicate Ends(pending: seq<char>, input: Input, end: LineReader.End) {
    input.end == end && LineReader.Quiet(pending, input.bytes)
  }

  predicate EndsIf(pending: seq<char>, input: Option<Input>, end: LineReader.End) {
    input.Some? && Ends(pending, input.value, end)
  }

  /** One of the clients from the i-th on, on descriptor fd, has such an input. */
  predicate ClientEnds(clients: seq<Connection>, i: nat, lines: map<int, Input>, end: LineReader.End, fd: int) {
    exists k :: i <= k < |clients| && clients[k].fd == fd && fd in lines && Ends(clients[k].pending, lines[fd], end)
  }

  predicate SomeClientEnds(clients: seq<Connection>, i: nat, lines: map<int, Input>, end: LineReader.End) {
    exists k :: i <= k < |clients| && clients[k].fd in lines && Ends(clients[k].pending, lines[clients[k].fd], end)
  }

  /** No read buffer is full. */
  predicate Fit(d: Daemon) {
    |d.tty| < 100 && |d.auto| < 100 && ClientsFit(d.clients)
  }

  predicate ClientsFit(clients: seq<Connection>) {
    forall k | 0 <= k < |clients| :: |clients[k].pending| < 100
  }

  /** From the i-th on, x is y from the j-th on, but for what they listen for. */
  ghost predicate SameFrom(x: seq<Connection>, i: nat, y: seq<Connection>, j: nat) {
    && i <= |x| && j <= |y| && |x| - i == |y| - j
    && forall k | i <= k < |x| :: x[k].fd == y[k - i + j].fd && x[k].pending == y[k - i + j].pending
  }

  // ------------------------------------------------------------- call by call

  lemma {:induction false} CmdLeaves(s: Setup, d: Daemon, line: string, fd: int)
    ensures var e := ProcessCmd(s, d, line, fd);
            && SameFrom(d.clients, 0, e.clients, 0)
            && e.tty == d.tty && e.auto == d.auto && e.autoOpen == d.autoOpen && e.returnValue == d.returnValue
  {
  }

  /** From d to e the connection on fd has been dropped. */
  ghost predicate Drops(d: Daemon, e: Daemon, fd: int) {
    exists k :: |d.outs| <= k < |e.outs| && e.outs[k] == Dropped(fd)
  }

  lemma {:induction false} DropsThen(d: Daemon, e: Daemon, f: Daemon, fd: int)
    requires d.outs <= e.outs <= f.outs
    ensures Drops(d, f, fd) <==> Drops(d, e, fd) || Drops(e, f, fd)
  {
    if k :| |d.outs| <= k < |e.outs| && e.outs[k] == Dropped(fd) { assert f.outs[k] == Dropped(fd); }
    if k :| |d.outs| <= k < |f.outs| && f.outs[k] == Dropped(fd) { assert k < |e.outs| ==> e.outs[k] == f.outs[k]; }
  }

  lemma {:induction false} CmdDropsNone(s: Setup, d: Daemon, line: string, fd: int, g: int)
    ensures d.outs <= ProcessCmd(s, d, line, fd).outs
    ensures !Drops(d, ProcessCmd(s, d, line, fd), g)
  {
    ProcessCmdAdds(s, d, line, fd);
    var e := ProcessCmd(s, d, line, fd);
    assert forall k | |d.outs| <= k < |e.outs| :: Asking(fd, e.outs[k]);
  }

  /** Where the loop over the clients goes on after the i-th. */
  function NextVisit(s: Setup, d: Daemon, i: nat, input: Input): nat
    requires i < |d.clients|
  {
    if |ReadClient(s, d, i, input).clients| < |d.clients| then i else i + 1
  }

  lemma {:induction false} WithoutLeaves(clients: seq<Connection>, i: nat)
    requires i < |clients|
    ensures SameFrom(Without(clients, clients[i].fd), i, clients, i + 1)
    ensures ClientsFit(clients) ==> ClientsFit(Without(clients, clients[i].fd))
  {
    PositionAtMost(clients, clients[i].fd, i);
  }

  lemma {:induction false} ServeLeaves(s: Setup, d: Daemon, i: nat, outcome: LineReader.Outcome)
    requires i < |d.clients| && ClientsFit(d.clients) && d.returnValue == 0
    ensures var e := Serve(s, d, d.clients[i].fd, outcome);
            && SameFrom(e.clients, if |e.clients| < |d.clients| then i else i + 1, d.clients, i + 1) && ClientsFit(e.clients)
            && e.tty == d.tty && e.auto == d.auto && e.autoOpen == d.autoOpen
            && e.returnValue == if outcome == LineReader.Failed then -1 else 0
  {
    match outcome
    case NoLine =>
    case Line(raw) => CmdLeaves(s, d, CString(raw), d.clients[i].fd);
    case Closed => WithoutLeaves(d.clients, i);
    case Failed =>
  }

  /** Reading one client leaves those after it alone, fails only as its input does, and keeps buffers short. */
  lemma {:induction false} VisitLeaves(s: Setup, d: Daemon, i: nat, input: Input)
    requires i < |d.clients| && ClientsFit(d.clients) && d.returnValue == 0
    ensures var e := ReadClient(s, d, i, input);
            && SameFrom(e.clients, NextVisit(s, d, i, input), d.clients, i + 1) && ClientsFit(e.clients)
            && e.tty == d.tty && e.auto == d.auto && e.autoOpen == d.autoOpen
            && e.returnValue == if Ends(d.clients[i].pending, input, LineReader.Failure) then -1 else 0
  {
    var c := LineReader.ReadLine(d.clients[i].pending, input.bytes, input.end);
    LineReader.WhatACallComesTo(d.clients[i].pending, input.bytes, input.end);
    BufferedFit(d.clients, i, c.pending);
    ServedLeaves(s, d, Buffered(d, i, c.pending), i, c.outcome);
  }

  lemma {:induction false} ServedLeaves(s: Setup, d: Daemon, d1: Daemon, i: nat, outcome: LineReader.Outcome)
    requires i < |d.clients| == |d1.clients| && ClientsFit(d1.clients) && d1.returnValue == 0
    requires SameFrom(d1.clients, i + 1, d.clients, i + 1) && d1.clients[i].fd == d.clients[i].fd
    ensures var e := Serve(s, d1, d.clients[i].fd, outcome);
            && SameFrom(e.clients, if |e.clients| < |d.clients| then i else i + 1, d.clients, i + 1) && ClientsFit(e.clients)
            && e.tty == d1.tty && e.auto == d1.auto && e.autoOpen == d1.autoOpen
            && e.returnValue == if outcome == LineReader.Failed then -1 else 0
  {
    ServeLeaves(s, d1, i, outcome);
  }

  lemma BufferedFit(clients: seq<Connection>, i: nat, pending: seq<char>)
    requires i < |clients| && ClientsFit(clients) && |pending| < 100
    ensures ClientsFit(clients[i := clients[i].(pending := pending)])
    ensures SameFrom(clients[i := clients[i].(pending := pending)], i + 1, clients, i + 1)
  {
  }

  lemma {:induction false} VisitDrops(s: Setup, d: Daemon, i: nat, input: Input, fd: int)
    requires i < |d.clients| && |d.clients[i].pending| < 100
    ensures d.outs <= ReadClient(s, d, i, input).outs
    ensures Drops(d, ReadClient(s, d, i, input), fd)
       <==> d.clients[i].fd == fd && Ends(d.clients[i].pending, input, LineReader.EndOfFile)
  {
    var c := LineReader.ReadLine(d.clients[i].pending, input.bytes, input.end);
    LineReader.WhatACallComesTo(d.clients[i].pending, input.bytes, input.end);
    match c.outcome
    case NoLine =>
    case Line(raw) => CmdDropsNone(s, Buffered(d, i, c.pending), CString(raw), d.clients[i].fd, fd);
    case Closed =>
      var e := ReadClient(s, d, i, input);
      assert e.outs == d.outs + [Dropped(d.clients[i].fd)];
      assert e.outs[|d.outs|] == Dropped(d.clients[i].fd);
    case Failed =>
  }

  lemma {:induction false} EndsFrom(x: seq<Connection>, i: nat, y: seq<Connection>, j: nat, lines: map<int, Input>, end: LineReader.End, fd: int)
    requires SameFrom(x, i, y, j)
    ensures SomeClientEnds(x, i, lines, end) <==> SomeClientEnds(y, j, lines, end)
    ensures ClientEnds(x, i, lines, end, fd) <==> ClientEnds(y, j, lines, end, fd)
  {
    EndsAlso(x, i, y, j, lines, end, fd);
    forall k | j <= k < |y| ensures y[k].fd == x[k - j + i].fd && y[k].pending == x[k - j + i].pending {
      assert x[k - j + i].fd == y[k - j + i - i + j].fd;
    }
    EndsAlso(y, j, x, i, lines, end, fd);
  }

  lemma {:induction false} EndsAlso(x: seq<Connection>, i: nat, y: seq<Connection>, j: nat, lines: map<int, Input>, end: LineReader.End, fd: int)
    requires SameFrom(x, i, y, j)
    ensures SomeClientEnds(x, i, lines, end) ==> SomeClientEnds(y, j, lines, end)
    ensures ClientEnds(x, i, lines, end, fd) ==> ClientEnds(y, j, lines, end, fd)
  {
    if k :| i <= k < |x| && x[k].fd in lines && Ends(x[k].pending, lines[x[k].fd], end) {
      assert y[k - i + j].fd in lines;
    }
    if k :| i <= k < |x| && x[k].fd == fd && fd in lines && Ends(x[k].pending, lines[fd], end) {
      assert y[k - i + j].fd == fd;
    }
  }

  lemma {:induction false} EndsNext(clients: seq<Connection>, i: nat, lines: map<int, Input>, end: LineReader.End, fd: int)
    requires i < |clients|
    ensures var now := clients[i].fd in lines && Ends(clients[i].pending, lines[clients[i].fd], end);
            && (SomeClientEnds(clients, i, lines, end) <==> now || SomeClientEnds(clients, i + 1, lines, end))
            && (ClientEnds(clients, i, lines, end, fd) <==> (now && clients[i].fd == fd) || ClientEnds(clients, i + 1, lines, end, fd))
  {
    if clients[i].fd in lines && Ends(clients[i].pending, lines[clients[i].fd], end) {
      assert SomeClientEnds(clients, i, lines, end);
      if clients[i].fd == fd { assert ClientEnds(clients, i, lines, end, fd); }
    }
    if SomeClientEnds(clients, i + 1, lines, end) {
      var k :| i + 1 <= k < |clients| && clients[k].fd in lines && Ends(clients[k].pending, lines[clients[k].fd], end);
    }
    if ClientEnds(clients, i + 1, lines, end, fd) {
      var k :| i + 1 <= k < |clients| && clients[k].fd == fd && fd in lines && Ends(clients[k].pending, lines[fd], end);
    }
  }

  /** The loop over the clients fails if and only if one of the reads does, and drops those whose input ends. */
  lemma {:induction false} ClientsRead(s: Setup, d: Daemon, i: nat, lines: map<int, Input>, fd: int)
    requires d.returnValue == 0 && ClientsFit(d.clients)
    ensures var e := ReadClients(s, d, i, lines);
            && e.returnValue == (if SomeClientEnds(d.clients, i, lines, LineReader.Failure) then -1 else 0)
            && ClientsFit(e.clients) && e.tty == d.tty && e.auto == d.auto && e.autoOpen == d.autoOpen
            && d.outs <= e.outs && (Drops(d, e, fd) ==> ClientEnds(d.clients, i, lines, LineReader.EndOfFile, fd))
            && (e.returnValue == 0 ==> (Drops(d, e, fd) <==> ClientEnds(d.clients, i, lines, LineReader.EndOfFile, fd)))
    decreases |d.clients| - i
  {
    if i < |d.clients| {
      EndsNext(d.clients, i, lines, LineReader.Failure, fd);
      EndsNext(d.clients, i, lines, LineReader.EndOfFile, fd);
      if d.clients[i].fd !in lines {
        ClientsRead(s, d, i + 1, lines, fd);
      } else {
        var input := lines[d.clients[i].fd];
        var d1, next := ReadClient(s, d, i, input), NextVisit(s, d, i, input);
        VisitLeaves(s, d, i, input);
        VisitDrops(s, d, i, input, fd);
        if d1.returnValue == 0 {
          EndsFrom(d1.clients, next, d.clients, i + 1, lines, LineReader.Failure, fd);
          EndsFrom(d1.clients, next, d.clients, i + 1, lines, LineReader.EndOfFile, fd);
          ClientsRead(s, d1, next, lines, fd);
          DropsThen(d, d1, ReadClients(s, d1, next, lines), fd);
        }
      }
    }
  }

  // ------------------------------------------------------------ stage by stage

  lemma {:induction false} NoDrops(d: Daemon, e: Daemon, kind: Out -> bool, fd: int)
    requires Adds(d, e, kind) && forall o :: kind(o) ==> !o.Dropped?
    ensures !Drops(d, e, fd)
  {
    assert forall k | |d.outs| <= k < |e.outs| :: kind(e.outs[k]);
  }

  lemma {:induction false} TtyReads(s: Setup, d: Daemon, input: Input, fd: int)
    requires Fit(d) && d.returnValue == 0
    ensures var e := ProcessTty(s, d, input);
            && e.returnValue == (if Ends(d.tty, input, LineReader.EndOfFile) then 2 else if Ends(d.tty, input, LineReader.Failure) then -1 else 0)
            && Fit(e) && e.clients == d.clients && e.auto == d.auto && e.autoOpen == d.autoOpen
            && d.outs <= e.outs && !Drops(d, e, fd)
  {
    LineReader.WhatACallComesTo(d.tty, input.bytes, input.end);
    TtyEffect(s, d, input);
    NoDrops(d, ProcessTty(s, d, input), Outgoing, fd);
    var c := LineReader.ReadLine(d.tty, input.bytes, input.end);
    if c.outcome.Line? { DeliverLeaves(d.(tty := c.pending), FirmwareLine(c.outcome.text), Answer(s.opt, FirmwareLine(c.outcome.text))); }
  }

  lemma DeliverLeaves(d: Daemon, line: string, answer: string)
    ensures Deliver(d, line, answer).tty == d.tty && Deliver(d, line, answer).returnValue == d.returnValue
  {
  }

  lemma {:induction false} AutoReads(s: Setup, d: Daemon, input: Input, fd: int)
    requires Fit(d) && d.returnValue == 0
    ensures var e := ReadAuto(s, d, input);
            && e.returnValue == (if Ends(d.auto, input, LineReader.Failure) then -1 else 0)
            && e.autoOpen == (d.autoOpen && !Ends(d.auto, input, LineReader.EndOfFile))
            && Fit(e) && SameFrom(e.clients, 0, d.clients, 0)
            && d.outs <= e.outs && !Drops(d, e, fd)
  {
    LineReader.WhatACallComesTo(d.auto, input.bytes, input.end);
    var c := LineReader.ReadLine(d.auto, input.bytes, input.end);
    if c.outcome.Line? {
      CmdLeaves(s, d.(auto := c.pending), CString(c.outcome.text), s.autoFd);
      CmdDropsNone(s, d.(auto := c.pending), CString(c.outcome.text), s.autoFd, fd);
    }
  }

  lemma {:induction false} EndDropsNone(s: Setup, d: Daemon, t: Turn, fd: int)
    ensures var e := EndOfTurn(s, d, t);
            d.outs <= e.outs && !Drops(d, e, fd) && e.returnValue == d.returnValue && e.autoOpen == d.autoOpen && (Fit(d) ==> Fit(e))
  {
    var e := SendHead(d, t.writeOk, t.now);
    SendAdds(d, t.writeOk, t.now);
    NoDrops(d, e, (o: Out) => o.Written?, fd);
    DropsThen(d, e, EndOfTurn(s, d, t), fd);
  }

  lemma {:induction false} FromClientsReads(s: Setup, d: Daemon, r: Round, t: Turn, fd: int)
    requires Fit(d) && d.returnValue == 0
    ensures var e := FromClients(s, d, r, t);
            && e.returnValue == (if SomeClientEnds(d.clients, 0, r.lines, LineReader.Failure) then -1 else 0)
            && Fit(e) && e.autoOpen == d.autoOpen && d.outs <= e.outs
            && (Drops(d, e, fd) ==> ClientEnds(d.clients, 0, r.lines, LineReader.EndOfFile, fd))
            && (e.returnValue == 0 ==> (Drops(d, e, fd) <==> ClientEnds(d.clients, 0, r.lines, LineReader.EndOfFile, fd)))
  {
    var d1 := ReadClients(s, d, 0, r.lines);
    ClientsRead(s, d, 0, r.lines, fd);
    EndDropsNone(s, d1, t, fd);
    DropsThen(d, d1, EndOfTurn(s, d1, t), fd);
  }

  /** The sampling process's pipe is read. */
  predicate Polled(s: Setup, d: Daemon, r: Round) {
    s.child && d.autoOpen && r.auto.Some?
  }

  predicate PipeEnds(s: Setup, d: Daemon, r: Round, end: LineReader.End) {
    Polled(s, d, r) && Ends(d.auto, r.auto.value, end)
  }

  lemma {:induction false} FromAutoReads(s: Setup, d: Daemon, r: Round, t: Turn, fd: int)
    requires Fit(d) && d.returnValue == 0
    ensures var e, cut := FromAuto(s, d, r, t), PipeEnds(s, d, r, LineReader.EndOfFile);
            && e.returnValue == (if PipeEnds(s, d, r, LineReader.Failure) || (!cut && SomeClientEnds(d.clients, 0, r.lines, LineReader.Failure)) then -1 else 0)
            && Fit(e) && e.autoOpen == (d.autoOpen && !cut) && d.outs <= e.outs
            && (Drops(d, e, fd) ==> ClientEnds(d.clients, 0, r.lines, LineReader.EndOfFile, fd))
            && (e.returnValue == 0 && !cut ==> (Drops(d, e, fd) <==> ClientEnds(d.clients, 0, r.lines, LineReader.EndOfFile, fd)))
  {
    if Polled(s, d, r) {
      var d1 := ReadAuto(s, d, r.auto.value);
      AutoReads(s, d, r.auto.value, fd);
      if d1.autoOpen && d1.returnValue == 0 {
        EndsFrom(d1.clients, 0, d.clients, 0, r.lines, LineReader.Failure, fd);
        EndsFrom(d1.clients, 0, d.clients, 0, r.lines, LineReader.EndOfFile, fd);
        FromClientsReads(s, d1, r, t, fd);
        DropsThen(d, d1, FromClients(s, d1, r, t), fd);
      }
    } else {
      FromClientsReads(s, d, r, t, fd);
    }
  }

  /** The clients there are and the one that is just connecting. */
  function Visited(d: Daemon, r: Round): seq<Connection> {
    d.clients + if r.accepted.Some? then [Connection(r.accepted.value, NOTHING, [])] else []
  }

  predicate AcceptFails(r: Round) {
    r.accepted.Some? && r.accepted.value < 0
  }

  /** Something other than the firmware's line going down makes the loop fail: accept, the pipe, or a client. */
  predicate OthersFail(s: Setup, d: Daemon, r: Round) {
    || AcceptFails(r)
    || PipeEnds(s, d, r, LineReader.Failure)
    || (!PipeEnds(s, d, r, LineReader.EndOfFile) && SomeClientEnds(Visited(d, r), 0, r.lines, LineReader.Failure))
  }

  lemma {:induction false} FromAcceptReads(s: Setup, d: Daemon, r: Round, t: Turn, fd: int)
    requires Fit(d) && d.returnValue == 0
    ensures var e, cut := FromAccept(s, d, r, t), PipeEnds(s, d, r, LineReader.EndOfFile);
            && e.returnValue == (if OthersFail(s, d, r) then -1 else 0)
            && Fit(e) && e.autoOpen == (d.autoOpen && !(cut && !AcceptFails(r))) && d.outs <= e.outs
            && (Drops(d, e, fd) ==> ClientEnds(Visited(d, r), 0, r.lines, LineReader.EndOfFile, fd))
            && (e.returnValue == 0 && !cut ==> (Drops(d, e, fd) <==> ClientEnds(Visited(d, r), 0, r.lines, LineReader.EndOfFile, fd)))
  {
    var d1 := if r.accepted.Some? then Accept(d, r.accepted.value) else d;
    if AcceptFails(r) {
    } else {
      assert d1.clients == Visited(d, r);
      assert Fit(d1);
      if r.accepted.Some? { NoDrops(d, d1, (o: Out) => o.Accepted?, fd); }
      FromAutoReads(s, d1, r, t, fd);
      DropsThen(d, d1, FromAuto(s, d1, r, t), fd);
    }
  }

  lemma {:induction false} FromTtyReads(s: Setup, d: Daemon, r: Round, t: Turn, fd: int)
    requires Fit(d) && d.returnValue == 0
    ensures var e := FromTty(s, d, r, t);
            && e.returnValue == (if EndsIf(d.tty, r.tty, LineReader.EndOfFile) then 2
                                 else if EndsIf(d.tty, r.tty, LineReader.Failure) || OthersFail(s, d, r) then -1 else 0)
            && Fit(e) && d.outs <= e.outs
            && (Drops(d, e, fd) ==> ClientEnds(Visited(d, r), 0, r.lines, LineReader.EndOfFile, fd))
            && (e.returnValue == 0 ==>
                  && e.autoOpen == (d.autoOpen && !PipeEnds(s, d, r, LineReader.EndOfFile))
                  && (e.autoOpen == d.autoOpen ==> (Drops(d, e, fd) <==> ClientEnds(Visited(d, r), 0, r.lines, LineReader.EndOfFile, fd))))
  {
    if r.tty.Some? {
      var d1 := ProcessTty(s, d, r.tty.value);
      TtyReads(s, d, r.tty.value, fd);
      if d1.returnValue == 0 {
        FromAcceptReads(s, d1, r, t, fd);
        DropsThen(d, d1, FromAccept(s, d1, r, t), fd);
      }
    } else {
      FromAcceptReads(s, d, r, t, fd);
    }
  }

  // ------------------------------------------------------------------- a turn

  /** EXACTLY WHEN AND HOW THE LOOP ENDS: with 1 on a signal, with 2 when the firmware's line goes down, with -1 when select,
      accept or a read fails. A read that finds nothing yet ends nothing, and neither does a peer that has hung up in the
      middle of a line, but for the firmware. */
  lemma {:induction false} LoopEndsIff(s: Setup, d: Daemon, t: Turn)
    requires Fit(d) && d.returnValue == 0
    ensures Fit(Step(s, d, t))
    ensures Step(s, d, t).returnValue ==
            match t.event
            case SelectFailed => -1
            case Interrupted => 0
            case Idle => 0
            case Ready(r) =>
              if r.stop then 1 else if EndsIf(d.tty, r.tty, LineReader.EndOfFile) then 2
              else if EndsIf(d.tty, r.tty, LineReader.Failure) || OthersFail(s, d, r) then -1 else 0
  {
    match t.event
    case SelectFailed =>
    case Interrupted =>
    case Idle => EndDropsNone(s, PopExpired(d, t.now), t, 0);
    case Ready(r) => if !r.stop { FromTtyReads(s, d, r, t, 0); }
  }

  /** The peer of the connection on fd has hung up. */
  predicate HangsUp(d: Daemon, t: Turn, fd: int) {
    t.event.Ready? && !t.event.round.stop && ClientEnds(Visited(d, t.event.round), 0, t.event.round.lines, LineReader.EndOfFile, fd)
  }

  /** EXACTLY WHICH CONNECTIONS ARE DROPPED: in a turn after which the loop goes on, and in which the sampling process's pipe
      has not closed, those whose input ends with the end of file and without completing a line or filling the buffer;
      in any other turn, none but such. */
  lemma {:induction false} DroppedIffHangsUp(s: Setup, d: Daemon, t: Turn, fd: int)
    requires Fit(d) && d.returnValue == 0
    ensures var e := Step(s, d, t);
            && d.outs <= e.outs && (Drops(d, e, fd) ==> HangsUp(d, t, fd))
            && (e.returnValue == 0 && e.autoOpen == d.autoOpen ==> (Drops(d, e, fd) <==> HangsUp(d, t, fd)))
  {
    match t.event
    case SelectFailed =>
    case Interrupted =>
    case Idle =>
      if d.queue != [] && Expired(d.queue[0], t.now) {
        var d1 := PopExpired(d, t.now);
        NoDrops(d, d1, (o: Out) => o.TimedOut?, fd);
        EndDropsNone(s, d1, t, fd);
        DropsThen(d, d1, EndOfTurn(s, d1, t), fd);
      }
    case Ready(r) => if !r.stop { FromTtyReads(s, d, r, t, fd); }
  }

  /** IN EVERY RUN a connection is dropped only in a turn whose input for it ends with the end of file, in the middle of a line. */
  lemma {:induction false} DroppedOnlyAtEndOfFile(s: Setup, d: Daemon, turns: seq<Turn>, k: nat) returns (j: nat)
    requires Fit(d) && |d.outs| <= k < |Run(s, d, turns).outs| && Run(s, d, turns).outs[k].Dropped?
    ensures j < |turns| && turns[j].event.Ready?
    ensures var fd, lines := Run(s, d, turns).outs[k].fd, turns[j].event.round.lines;
            fd in lines && lines[fd].end == LineReader.EndOfFile && '\n' !in lines[fd].bytes
    decreases turns
  {
    var e, fd := Step(s, d, turns[0]), Run(s, d, turns).outs[k].fd;
    if d.returnValue == 0 {
      DroppedIffHangsUp(s, d, turns[0], fd);
      LoopEndsIff(s, d, turns[0]);
    }
    if k < |e.outs| {
      RunGrows(s, e, turns[1..]);
      assert Drops(d, e, fd);
      j := 0;
    } else {
      j := DroppedOnlyAtEndOfFile(s, e, turns[1..], k);
      j := j + 1;
    }
  }

  lemma {:induction false} RunGrows(s: Setup, d: Daemon, turns: seq<Turn>)
    requires Fit(d)
    ensures d.outs <= Run(s, d, turns).outs
    decreases turns
  {
    if turns != [] {
      if d.returnValue == 0 {
        DroppedIffHangsUp(s, d, turns[0], 0);
        LoopEndsIff(s, d, turns[0]);
      }
      RunGrows(s, Step(s, d, turns[0]), turns[1..]);
    }
  }
}
