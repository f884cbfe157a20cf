/** What the sampling process says reaches the daemon's queue, through the pipe between them. */
module AutosamplePipe {
  import opened Wrappers
  import opened ClientList
  import opened CommandQueue
  import opened Commands
  import opened MainLoop
  import opened LoopService
  import opened LoopWords
  import opened Autosample
  import LineReader

  /** The commands queued for one descriptor, in order. */
  function QueuedFrom(outs: seq<Out>, fd: int): seq<Command>
    decreases outs
  {
    if outs == [] then [] else
      var o := outs[|outs| - 1];
      QueuedFrom(outs[..|outs| - 1], fd) + if o.Pushed? && o.command.fd == fd then [o.command] else []
  }

  predicate NotFrom(fd: int, o: Out) {
    o.Pushed? ==> o.command.fd != fd
  }

  lemma {:induction false} QueuedSnoc(outs: seq<Out>, o: Out, fd: int)
    ensures QueuedFrom(outs + [o], fd) == QueuedFrom(outs, fd) + if o.Pushed? && o.command.fd == fd then [o.command] else []
  {
    assert (outs + [o])[..|outs|] == outs;
  }

  lemma {:induction false} QueuedKept(outs: seq<Out>, more: seq<Out>, fd: int)
    requires outs <= more && forall k | |outs| <= k < |more| :: NotFrom(fd, more[k])
    ensures QueuedFrom(more, fd) == QueuedFrom(outs, fd)
    decreases |more|
  {
    if |more| > |outs| {
      QueuedKept(outs, more[..|more| - 1], fd);
    } else {
      assert more == outs;
    }
  }

  lemma {:induction false} AddsKept(d: Daemon, e: Daemon, kind: Out -> bool, fd: int)
    requires Adds(d, e, kind) && forall o :: kind(o) ==> NotFrom(fd, o)
    ensures QueuedFrom(e.outs, fd) == QueuedFrom(d.outs, fd)
  {
    assert forall k | |d.outs| <= k < |e.outs| :: kind(e.outs[k]);
    QueuedKept(d.outs, e.outs, fd);
  }

  // ------------------------------------------------------------ the daemon's turn

  lemma {:induction false} CmdFromOther(s: Setup, d: Daemon, line: string, g: int, fd: int)
    requires g != fd && NobodyOn(d.clients, fd)
    ensures var e := ProcessCmd(s, d, line, g);
            Adds(d, e, (o: Out) => NotFrom(fd, o)) && NobodyOn(e.clients, fd) && e.auto == d.auto
  {
    var e := ProcessCmd(s, d, line, g);
    ProcessCmdAdds(s, d, line, g);
    assert forall k | |d.outs| <= k < |e.outs| :: Asking(g, e.outs[k]);
  }

  lemma {:induction false} QueuedOutAt(d: Daemon, e: Daemon, fd: int, cmd: CmdId, code: Option<string>, error: string, request: string, k: nat)
    requires Queued(d, e, fd, cmd, code, error, request) && |d.outs| <= k < |e.outs|
    ensures if k == |e.outs| - 1 then e.outs[k] == Pushed(Command(fd, cmd, code, false, TimeVal(0, 0))) else e.outs[k].Response?
  {
    var errors := if code.None? then [Response(fd, error)] else [];
    var copies := e.outs[|d.outs| + |errors|..|e.outs| - 1];
    if |d.outs| + |errors| <= k < |e.outs| - 1 {
      assert e.outs[k] == copies[k - |d.outs| - |errors|];
    } else if k < |d.outs| + |errors| {
      assert e.outs[k] == errors[k - |d.outs|];
    }
  }

  lemma {:induction false} ServeOther(s: Setup, d: Daemon, g: int, outcome: LineReader.Outcome, fd: int)
    requires g != fd && NobodyOn(d.clients, fd)
    ensures var e := Serve(s, d, g, outcome);
            Adds(d, e, (o: Out) => NotFrom(fd, o)) && NobodyOn(e.clients, fd) && e.auto == d.auto
  {
    if outcome.Line? { CmdFromOther(s, d, CString(outcome.text), g, fd); }
  }

  lemma {:induction false} VisitFromOther(s: Setup, d: Daemon, i: nat, input: Input, fd: int)
    requires i < |d.clients| && NobodyOn(d.clients, fd)
    ensures var e := ReadClient(s, d, i, input);
            Adds(d, e, (o: Out) => NotFrom(fd, o)) && NobodyOn(e.clients, fd) && e.auto == d.auto
  {
    var c := LineReader.ReadLine(d.clients[i].pending, input.bytes, input.end);
    var d1 := Buffered(d, i, c.pending);
    ServeOther(s, d1, d.clients[i].fd, c.outcome, fd);
    assert ReadClient(s, d, i, input) == Serve(s, d1, d.clients[i].fd, c.outcome);
  }

  lemma {:induction false} ClientsFromOther(s: Setup, d: Daemon, i: nat, lines: map<int, Input>, fd: int)
    requires NobodyOn(d.clients, fd)
    ensures var e := ReadClients(s, d, i, lines);
            Adds(d, e, (o: Out) => NotFrom(fd, o)) && NobodyOn(e.clients, fd) && e.auto == d.auto
    decreases |d.clients| - i
  {
    if i < |d.clients| {
      if d.clients[i].fd !in lines {
        ClientsFromOther(s, d, i + 1, lines, fd);
      } else {
        var d1 := ReadClient(s, d, i, lines[d.clients[i].fd]);
        VisitFromOther(s, d, i, lines[d.clients[i].fd], fd);
        if d1.returnValue == 0 {
          var next := if |d1.clients| < |d.clients| then i else i + 1;
          ClientsFromOther(s, d1, next, lines, fd);
          AddsThen(d, d1, ReadClients(s, d1, next, lines), (o: Out) => NotFrom(fd, o));
        }
      }
    }
  }

  lemma {:induction false} FromClientsOther(s: Setup, d: Daemon, r: Round, t: Turn, fd: int)
    requires NobodyOn(d.clients, fd)
    ensures var e := FromClients(s, d, r, t);
            QueuedFrom(e.outs, fd) == QueuedFrom(d.outs, fd) && NobodyOn(e.clients, fd) && e.auto == d.auto
  {
    var d1 := ReadClients(s, d, 0, r.lines);
    ClientsFromOther(s, d, 0, r.lines, fd);
    AddsKept(d, d1, (o: Out) => NotFrom(fd, o), fd);
    EndOther(s, d1, t, fd);
  }

  lemma {:induction false} EndOther(s: Setup, d: Daemon, t: Turn, fd: int)
    ensures QueuedFrom(EndOfTurn(s, d, t).outs, fd) == QueuedFrom(d.outs, fd)
    ensures EndOfTurn(s, d, t).clients == d.clients && EndOfTurn(s, d, t).auto == d.auto
  {
    SendAdds(d, t.writeOk, t.now);
    var d1 := SendHead(d, t.writeOk, t.now);
    AddsKept(d, d1, (o: Out) => o.Written?, fd);
    QueuedSnoc(d1.outs, Enabled(!d1.sampling), fd);
  }

  lemma {:induction false} QueuedOne(d: Daemon, e: Daemon, fd: int, cmd: CmdId, code: Option<string>, error: string, request: string)
    requires Queued(d, e, fd, cmd, code, error, request)
    ensures QueuedFrom(e.outs, fd) == QueuedFrom(d.outs, fd) + [Command(fd, cmd, code, false, TimeVal(0, 0))]
    ensures e.clients == d.clients && e.auto == d.auto
  {
    var front, last := e.outs[..|e.outs| - 1], e.outs[|e.outs| - 1];
    forall k | |d.outs| <= k < |front| ensures NotFrom(fd, front[k]) { QueuedOutAt(d, e, fd, cmd, code, error, request, k); }
    QueuedOutAt(d, e, fd, cmd, code, error, request, |e.outs| - 1);
    QueuedKept(d.outs, front, fd);
    QueuedSnoc(front, last, fd);
    assert e.outs == front + [last];
  }

  /** What a line of the process's makes the daemon queue. */
  function LineQueues(opt: Options, line: string, fd: int): seq<Command> {
    match Parse(line)
    case None => []
    case Some(p) => if ForFirmware(p.cmd) then [Command(fd, p.cmd, Code(opt, p), false, TimeVal(0, 0))] else []
  }

  lemma {:induction false} CmdQueuesFrom(s: Setup, d: Daemon, line: string, fd: int)
    requires NobodyOn(d.clients, fd)
    ensures var e := ProcessCmd(s, d, line, fd);
            && QueuedFrom(e.outs, fd) == QueuedFrom(d.outs, fd) + LineQueues(s.opt, line, fd)
            && NobodyOn(e.clients, fd) && e.auto == d.auto
  {
    match Parse(line)
    case None =>
    case Some(p) =>
      if ForFirmware(p.cmd) {
        CmdQueued(s, d, line, fd, p);
        QueuedOne(d, ProcessCmd(s, d, line, fd), fd, p.cmd, Code(s.opt, p), Refusal(p), "Request: " + p.text);
      }
  }

  /** The daemon comes to read the sampling process's pipe in this turn. */
  predicate ReadsPipe(s: Setup, d: Daemon, t: Turn) {
    && d.returnValue == 0 && t.event.Ready? && !t.event.round.stop
    && (t.event.round.tty.Some? ==> ProcessTty(s, d, t.event.round.tty.value).returnValue == 0)
    && (t.event.round.accepted.Some? ==> t.event.round.accepted.value >= 0)
    && s.child && d.autoOpen && t.event.round.auto.Some?
  }

  /** What one call of the reader on the pipe does in such a turn. */
  function PipeCall(d: Daemon, t: Turn): LineReader.Call
    requires t.event.Ready? && t.event.round.auto.Some?
  {
    LineReader.ReadLine(d.auto, t.event.round.auto.value.bytes, t.event.round.auto.value.end)
  }

  lemma {:induction false} FromAutoReads(s: Setup, d: Daemon, r: Round, t: Turn)
    requires NobodyOn(d.clients, s.autoFd)
    ensures var e, polled := FromAuto(s, d, r, t), s.child && d.autoOpen && r.auto.Some?;
            && NobodyOn(e.clients, s.autoFd)
            && e.auto == (if polled then LineReader.ReadLine(d.auto, r.auto.value.bytes, r.auto.value.end).pending else d.auto)
            && QueuedFrom(e.outs, s.autoFd) == QueuedFrom(d.outs, s.autoFd)
                 + if polled then HandedOn(s, LineReader.ReadLine(d.auto, r.auto.value.bytes, r.auto.value.end).outcome) else []
  {
    if s.child && d.autoOpen && r.auto.Some? {
      var c := LineReader.ReadLine(d.auto, r.auto.value.bytes, r.auto.value.end);
      var d1 := ReadAuto(s, d, r.auto.value);
      if c.outcome.Line? { CmdQueuesFrom(s, d.(auto := c.pending), CString(c.outcome.text), s.autoFd); }
      assert QueuedFrom(d1.outs, s.autoFd) == QueuedFrom(d.outs, s.autoFd) + HandedOn(s, c.outcome);
      FromClientsOther(s, d1, r, t, s.autoFd);
    } else {
      FromClientsOther(s, d, r, t, s.autoFd);
    }
  }

  function HandedOn(s: Setup, outcome: LineReader.Outcome): seq<Command> {
    if outcome.Line? then LineQueues(s.opt, CString(outcome.text), s.autoFd) else []
  }

  /** A turn takes what it reads off the pipe, and queues for the sampling process what the line it completes asks for. */
  lemma {:induction false} TurnReads(s: Setup, d: Daemon, t: Turn)
    requires NobodyOn(d.clients, s.autoFd)
    requires t.event.Ready? ==> t.event.round.accepted != Some(s.autoFd)
    ensures var e := Step(s, d, t);
            && NobodyOn(e.clients, s.autoFd)
            && e.auto == (if ReadsPipe(s, d, t) then PipeCall(d, t).pending else d.auto)
            && QueuedFrom(e.outs, s.autoFd) == QueuedFrom(d.outs, s.autoFd)
                 + if ReadsPipe(s, d, t) then HandedOn(s, PipeCall(d, t).outcome) else []
  {
    if d.returnValue == 0 {
      match t.event
      case SelectFailed =>
      case Interrupted =>
      case Idle =>
        if d.queue != [] && Expired(d.queue[0], t.now) {
          QueuedSnoc(d.outs, TimedOut(d.queue[0], t.now), s.autoFd);
          EndOther(s, PopExpired(d, t.now), t, s.autoFd);
        }
      case Ready(r) => if !r.stop { ReadyReads(s, d, r, t); }
    }
  }

  lemma {:induction false} FromAcceptReads(s: Setup, d: Daemon, r: Round, t: Turn)
    requires NobodyOn(d.clients, s.autoFd) && r.accepted != Some(s.autoFd) && d.returnValue == 0
    ensures var e, polled := FromAccept(s, d, r, t), (r.accepted.Some? ==> r.accepted.value >= 0) && s.child && d.autoOpen && r.auto.Some?;
            && NobodyOn(e.clients, s.autoFd)
            && e.auto == (if polled then LineReader.ReadLine(d.auto, r.auto.value.bytes, r.auto.value.end).pending else d.auto)
            && QueuedFrom(e.outs, s.autoFd) == QueuedFrom(d.outs, s.autoFd)
                 + if polled then HandedOn(s, LineReader.ReadLine(d.auto, r.auto.value.bytes, r.auto.value.end).outcome) else []
  {
    var d1 := if r.accepted.Some? then Accept(d, r.accepted.value) else d;
    if r.accepted.Some? { QueuedSnoc(d.outs, Accepted(r.accepted.value), s.autoFd); }
    if d1.returnValue == 0 { FromAutoReads(s, d1, r, t); }
  }

  lemma {:induction false} ReadyReads(s: Setup, d: Daemon, r: Round, t: Turn)
    requires NobodyOn(d.clients, s.autoFd) && t.event == Ready(r) && !r.stop && r.accepted != Some(s.autoFd) && d.returnValue == 0
    ensures var e := FromTty(s, d, r, t);
            && NobodyOn(e.clients, s.autoFd)
            && e.auto == (if ReadsPipe(s, d, t) then PipeCall(d, t).pending else d.auto)
            && QueuedFrom(e.outs, s.autoFd) == QueuedFrom(d.outs, s.autoFd)
                 + if ReadsPipe(s, d, t) then HandedOn(s, PipeCall(d, t).outcome) else []
  {
    var d1 := d;
    if r.tty.Some? {
      d1 := ProcessTty(s, d, r.tty.value);
      TtyEffect(s, d, r.tty.value);
      AddsKept(d, d1, Outgoing, s.autoFd);
    }
    if d1.returnValue == 0 { FromAcceptReads(s, d1, r, t); }
  }

  // ------------------------------------------------------------ bytes in the pipe

  function Concat(lines: seq<string>): string
    decreases lines
  {
    if lines == [] then [] else lines[0] + Concat(lines[1..])
  }

  lemma {:induction false} ConcatAppend(x: seq<string>, y: seq<string>)
    ensures Concat(x + y) == Concat(x) + Concat(y)
    decreases x
  {
    if x == [] {
      assert x + y == y;
    } else {
      ConcatAppend(x[1..], y);
      assert (x + y)[1..] == x[1..] + y && (x + y)[0] == x[0];
      Associative(x[0], Concat(x[1..]), Concat(y));
    }
  }

  lemma Associative(x: string, y: string, z: string)
    ensures (x + y) + z == x + (y + z)
  {
  }

  /** A line with its newline that the daemon can read whole. */
  predicate WholeLine(l: string) {
    l != [] && l[|l| - 1] == '\n' && Sendable(l[..|l| - 1])
  }

  /** In a stream of whole lines the first newline ends the first of them. */
  lemma {:induction false} FirstLine(lines: seq<string>, n: nat)
    requires lines != [] && WholeLine(lines[0]) && n < |Concat(lines)| && '\n' !in Concat(lines)[..n]
    ensures n < |lines[0]| && Concat(lines)[..n] == lines[0][..n]
    ensures Concat(lines)[n] == '\n' <==> n == |lines[0]| - 1
  {
    var l, stream := lines[0], Concat(lines);
    assert stream[|l| - 1] == '\n';
    assert forall i | 0 <= i < n :: stream[..n][i] == stream[i];
    assert n < |l| - 1 ==> l[n] == l[..|l| - 1][n];
  }

  /** What one call makes of a stream of whole lines, as much of it as has arrived. */
  lemma {:induction false} PipeReads(pending: seq<char>, unread: seq<char>, bytes: seq<char>, lines: seq<string>)
    requires pending + unread == Concat(lines) && bytes <= unread && '\n' !in pending
    requires forall l | l in lines :: WholeLine(l)
    ensures var c := LineReader.ReadLine(pending, bytes, LineReader.WouldBlock);
            && '\n' !in c.pending
            && if c.outcome.Line? then lines != [] && WholeLine(lines[0]) && c.outcome.text == lines[0][..|lines[0]| - 1] && c.pending + unread[c.used..] == Concat(lines[1..])
               else c.pending + unread[c.used..] == Concat(lines)
  {
    var c := LineReader.ReadLine(pending, bytes, LineReader.WouldBlock);
    var stream := pending + unread;
    PendingShort(pending, unread, lines);
    LineReader.WhatACallComesTo(pending, bytes, LineReader.WouldBlock);
    if LineReader.Quiet(pending, bytes) {
      assert unread == bytes + unread[|bytes|..];
      assert (pending + bytes) + unread[|bytes|..] == stream;
    } else {
      var n := |pending| + c.used - 1;
      assert stream[..n] == pending + bytes[..c.used - 1];
      assert stream[n] == bytes[c.used - 1];
      FirstLine(lines, n);
      assert c.outcome.Line?;
      assert stream == lines[0] + Concat(lines[1..]);
      assert unread[c.used..] == stream[n + 1..];
      assert c.pending + unread[c.used..] == unread[c.used..];
    }
  }

  lemma {:induction false} PendingShort(pending: seq<char>, unread: seq<char>, lines: seq<string>)
    requires pending + unread == Concat(lines) && '\n' !in pending
    requires forall l | l in lines :: WholeLine(l)
    ensures |pending| < 100 && (lines == [] ==> unread == [])
  {
    if lines != [] {
      assert WholeLine(lines[0]);
      assert Concat(lines)[|lines[0]| - 1] == '\n';
      assert forall i | 0 <= i < |pending| :: pending[i] == Concat(lines)[i];
    }
  }

  // ---------------------------------------------------- the process and its pipe

  /** Daemon and process as before, and what the process has written and the daemon has not read yet. */
  datatype Linked = Linked(system: System, unread: seq<char>)

  function NextLinked(s: Setup, devices: seq<Device>, past: Past, k: Linked, m: Move): (r: Linked)
    requires |k.system.sampler.cnt| == |devices|
    ensures |r.system.sampler.cnt| == |devices| && r.system == Next(s, devices, past, k.system, m)
  {
    var y := Next(s, devices, past, k.system, m);
    match m
    case Turns(t) =>
      if ReadsPipe(s, k.system.daemon, t) && PipeCall(k.system.daemon, t).used <= |k.unread| then Linked(y, k.unread[PipeCall(k.system.daemon, t).used..])
      else Linked(y, k.unread)
    case Waits => Linked(y, k.unread + Concat(y.log[|y.log| - 1].sent))
    case Takes => Linked(y, k.unread)
    case Interrupts => Linked(y, k.unread)
  }

  function PlayLinked(s: Setup, devices: seq<Device>, past: Past, k: Linked, moves: seq<Move>): (r: Linked)
    requires |k.system.sampler.cnt| == |devices|
    ensures r.system == Play(s, devices, past, k.system, moves)
    decreases moves
  {
    if moves == [] then k else PlayLinked(s, devices, past, NextLinked(s, devices, past, k, moves[0]), moves[1..])
  }

  /** On the pipe a turn finds some of what is unread, and nothing more for now; and no client is given the pipe's descriptor. */
  predicate FromProcess(s: Setup, k: Linked, m: Move) {
    m.Turns? ==>
      && (m.turn.event.Ready? ==> m.turn.event.round.accepted != Some(s.autoFd))
      && (ReadsPipe(s, k.system.daemon, m.turn) ==>
            var input := m.turn.event.round.auto.value; input.bytes <= k.unread && input.end == LineReader.WouldBlock)
  }

  predicate AllFromProcess(s: Setup, devices: seq<Device>, past: Past, k: Linked, moves: seq<Move>)
    requires |k.system.sampler.cnt| == |devices|
    decreases moves
  {
    moves == []
    || (FromProcess(s, k, moves[0]) && AllFromProcess(s, devices, past, NextLinked(s, devices, past, k, moves[0]), moves[1..]))
  }

  /** The commands the process has sent, oldest first. */
  function AllSent(log: seq<Sampling>): seq<string>
    decreases log
  {
    if log == [] then [] else AllSent(log[..|log| - 1]) + log[|log| - 1].sent
  }

  lemma {:induction false} AllSentSnoc(log: seq<Sampling>, second: Sampling)
    ensures AllSent(log + [second]) == AllSent(log) + second.sent
  {
    assert (log + [second])[..|log|] == log;
  }

  /** The sample command for a device that can be said in one line. */
  ghost predicate AsksFor(l: string, name: string) {
    l == "sample " + name + "\n" && Sendable("sample " + name)
  }

  /** The line has come to the head's end of the queue as a sample of the device it names. */
  ghost predicate QueuedFor(s: Setup, c: Command, l: string) {
    exists name :: AsksFor(l, name) && c == Command(s.autoFd, Sample, Find(s.opt.sampleDevs, name), false, TimeVal(0, 0))
  }

  ghost predicate SomeDevice(l: string) {
    exists name :: AsksFor(l, name)
  }

  lemma {:induction false} AsksWhole(l: string, name: string)
    requires AsksFor(l, name)
    ensures WholeLine(l) && l[..|l| - 1] == "sample " + name
  {
  }

  /** What has been queued is what was sent, in order; the rest is on its way. */
  ghost predicate InOrder(s: Setup, k: Linked) {
    var d, queued, sent := k.system.daemon, QueuedFrom(k.system.daemon.outs, s.autoFd), AllSent(k.system.log);
    && |queued| <= |sent| && (forall i | 0 <= i < |queued| :: QueuedFor(s, queued[i], sent[i]))
    && d.auto + k.unread == Concat(sent[|queued|..])
  }

  ghost predicate LinkedWell(s: Setup, k: Linked) {
    && InOrder(s, k) && NobodyOn(k.system.daemon.clients, s.autoFd) && '\n' !in k.system.daemon.auto
    && forall l | l in AllSent(k.system.log) :: SomeDevice(l)
  }

  lemma {:induction false} AllWhole(lines: seq<string>)
    requires forall l | l in lines :: SomeDevice(l)
    ensures forall l | l in lines :: WholeLine(l)
  {
    forall l | l in lines ensures WholeLine(l) {
      var name :| AsksFor(l, name);
      AsksWhole(l, name);
    }
  }

  /** A line of the process's is understood as a sample of the device it names. */
  lemma {:induction false} LineUnderstood(s: Setup, l: string)
    requires SomeDevice(l)
    ensures var queued := LineQueues(s.opt, CString(l[..|l| - 1]), s.autoFd); |queued| == 1 && QueuedFor(s, queued[0], l)
  {
    var name :| AsksFor(l, name);
    AsksWhole(l, name);
    CStringWhole("sample " + name);
    SampleUnderstood(name);
  }

  lemma {:induction false} OneMoreQueued(s: Setup, queued: seq<Command>, more: seq<Command>, sent: seq<string>)
    requires |queued| < |sent| && |more| == 1 && QueuedFor(s, more[0], sent[|queued|])
    requires forall i | 0 <= i < |queued| :: QueuedFor(s, queued[i], sent[i])
    ensures forall i | 0 <= i < |queued + more| :: QueuedFor(s, (queued + more)[i], sent[i])
  {
    forall i | 0 <= i < |queued + more| ensures QueuedFor(s, (queued + more)[i], sent[i]) {
      if i < |queued| { assert (queued + more)[i] == queued[i]; }
    }
  }

  /** What has been queued, what is in the buffer and what is unread, after one call on the pipe. */
  lemma {:induction false} CallInOrder(s: Setup, pending: seq<char>, unread: seq<char>, bytes: seq<char>, queued: seq<Command>, sent: seq<string>)
    requires |queued| <= |sent| && (forall i | 0 <= i < |queued| :: QueuedFor(s, queued[i], sent[i]))
    requires pending + unread == Concat(sent[|queued|..]) && bytes <= unread && '\n' !in pending
    requires forall l | l in sent :: SomeDevice(l)
    ensures var c := LineReader.ReadLine(pending, bytes, LineReader.WouldBlock); var more := queued + HandedOn(s, c.outcome);
            && '\n' !in c.pending && |more| <= |sent| && (forall i | 0 <= i < |more| :: QueuedFor(s, more[i], sent[i]))
            && c.pending + unread[c.used..] == Concat(sent[|more|..])
  {
    var rest, c := sent[|queued|..], LineReader.ReadLine(pending, bytes, LineReader.WouldBlock);
    AllWhole(rest);
    PipeReads(pending, unread, bytes, rest);
    if c.outcome.Line? {
      assert rest[0] == sent[|queued|] && rest[1..] == sent[|queued| + 1..];
      LineUnderstood(s, rest[0]);
      OneMoreQueued(s, queued, HandedOn(s, c.outcome), sent);
    } else {
      assert queued + [] == queued;
    }
  }

  lemma {:induction false} TurnLinked(s: Setup, devices: seq<Device>, past: Past, k: Linked, t: Turn)
    requires LinkedWell(s, k) && FromProcess(s, k, Turns(t)) && |k.system.sampler.cnt| == |devices|
    ensures LinkedWell(s, NextLinked(s, devices, past, k, Turns(t)))
  {
    var d := k.system.daemon;
    TurnReads(s, d, t);
    if ReadsPipe(s, d, t) {
      CallInOrder(s, d.auto, k.unread, t.event.round.auto.value.bytes, QueuedFrom(d.outs, s.autoFd), AllSent(k.system.log));
    }
  }

  lemma {:induction false} DueNamed(devices: seq<Device>, cnt: seq<int>, i: nat, enabled: bool)
    requires |cnt| == |devices| && forall j | 0 <= j < |devices| :: Sendable("sample " + devices[j].name)
    ensures forall l | l in Due(devices, cnt, i, enabled) :: SomeDevice(l)
    decreases |devices| - i
  {
    if i < |devices| {
      DueNamed(devices, cnt, i + 1, enabled);
      assert AsksFor(SampleCommand(devices[i].name), devices[i].name);
    }
  }

  lemma {:induction false} WaitLinked(s: Setup, devices: seq<Device>, past: Past, k: Linked)
    requires LinkedWell(s, k) && |k.system.sampler.cnt| == |devices|
    requires forall j | 0 <= j < |devices| :: Sendable("sample " + devices[j].name)
    ensures LinkedWell(s, NextLinked(s, devices, past, k, Waits))
  {
    var y, sent := k.system, AllSent(k.system.log);
    var now := Due(devices, y.sampler.cnt, 0, y.sampler.enabled);
    var queued := QueuedFrom(y.daemon.outs, s.autoFd);
    DueNamed(devices, y.sampler.cnt, 0, y.sampler.enabled);
    AllSentSnoc(y.log, Sampling(y.taken, now));
    ConcatAppend(sent[|queued|..], now);
    assert (sent + now)[|queued|..] == sent[|queued|..] + now;
    Associative(y.daemon.auto, k.unread, Concat(now));
  }

  lemma {:induction false} PlayLinkedWell(s: Setup, devices: seq<Device>, past: Past, k: Linked, moves: seq<Move>)
    requires LinkedWell(s, k) && |k.system.sampler.cnt| == |devices| && AllFromProcess(s, devices, past, k, moves)
    requires forall j | 0 <= j < |devices| :: Sendable("sample " + devices[j].name)
    ensures LinkedWell(s, PlayLinked(s, devices, past, k, moves))
    decreases moves
  {
    if moves != [] {
      match moves[0] {
        case Turns(t) => TurnLinked(s, devices, past, k, t);
        case Waits => WaitLinked(s, devices, past, k);
        case Takes =>
        case Interrupts =>
      }
      PlayLinkedWell(s, devices, past, NextLinked(s, devices, past, k, moves[0]), moves[1..]);
    }
  }

  /** The daemon listens to the process from the start. */
  lemma {:induction false} FirstSample(s: Setup, name: string, writeOk: bool, now: TimeVal)
    requires s.child && Sendable("sample " + name)
    ensures var round := Round(false, None, None, Some(Input("sample " + name + "\n", LineReader.WouldBlock)), map[]);
            QueuedFrom(Step(s, START, Turn(Ready(round), writeOk, now)).outs, s.autoFd) ==
            [Command(s.autoFd, Sample, Find(s.opt.sampleDevs, name), false, TimeVal(0, 0))]
  {
    var line := "sample " + name;
    var t := Turn(Ready(Round(false, None, None, Some(Input(line + "\n", LineReader.WouldBlock)), map[])), writeOk, now);
    TurnReads(s, START, t);
    LineRead(line, LineReader.WouldBlock);
    assert AsksFor(line + "\n", name);
    CStringWhole(line);
    SampleUnderstood(name);
    assert QueuedFrom([], s.autoFd) == [];
  }

  /** WHAT THE PROCESS SAYS IS UNDERSTOOD, however daemon and process interleave and in whatever pieces its lines arrive: the
      commands queued for it are, in order, the samples of the devices it has sent commands for, each with the code of the
      device's name; what is missing at the end is still on its way, and once nothing is, nothing is missing. */
  lemma {:induction false} SamplesAreQueued(s: Setup, devices: seq<Device>, past: Past, moves: seq<Move>)
    requires forall j | 0 <= j < |devices| :: Sendable("sample " + devices[j].name)
    requires AllFromProcess(s, devices, past, Linked(Begin(devices, past), []), moves)
    ensures var k := PlayLinked(s, devices, past, Linked(Begin(devices, past), []), moves);
            && InOrder(s, k)
            && (k.unread == [] && k.system.daemon.auto == [] ==> |QueuedFrom(k.system.daemon.outs, s.autoFd)| == |AllSent(k.system.log)|)
  {
    var k := PlayLinked(s, devices, past, Linked(Begin(devices, past), []), moves);
    PlayLinkedWell(s, devices, past, Linked(Begin(devices, past), []), moves);
    var queued, sent := QueuedFrom(k.system.daemon.outs, s.autoFd), AllSent(k.system.log);
    if |queued| < |sent| {
      assert sent[|queued|] in sent;
      AllWhole([sent[|queued|]]);
      assert sent[|queued|..][0] == sent[|queued|];
      assert WholeLine([sent[|queued|]][0]);
    }
  }
}
