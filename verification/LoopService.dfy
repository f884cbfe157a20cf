/** What each part of a turn can add to the daemon's output, and that the sampling process runs exactly while
    somebody listens, over whole runs of the main loop. */
module LoopService {
  import opened Wrappers
  import opened ClientList
  import opened CommandQueue
  import opened Commands
  import opened MainLoop
  import opened LoopLedger
  import LineReader

  /** From d to e only outs of one kind have come, and the sampling flag is untouched. */
  ghost predicate Adds(d: Daemon, e: Daemon, kind: Out -> bool) {
    && d.outs <= e.outs && e.sampling == d.sampling
    && forall k | |d.outs| <= k < |e.outs| :: kind(e.outs[k])
  }

  lemma {:induction false} AddsThen(d: Daemon, e: Daemon, f: Daemon, kind: Out -> bool)
    requires Adds(d, e, kind) && Adds(e, f, kind)
    ensures Adds(d, f, kind)
  {
    forall k | |d.outs| <= k < |f.outs| ensures kind(f.outs[k]) {
      if k < |e.outs| { assert f.outs[k] == e.outs[k]; }
    }
  }

  /** What reading clients and the sampling process can bring about. */
  predicate Incoming(o: Out) {
    o.Response? || o.Pushed? || o.Dropped?
  }

  /** What a command from fd can bring about. */
  predicate Asking(fd: int, o: Out) {
    o.Response? || (o.Pushed? && o.command.fd == fd)
  }

  /** What a line of the firmware can bring about. */
  predicate Outgoing(o: Out) {
    o.Response? || o.Answered? || o.Unclaimed?
  }

  lemma {:induction false} SayAdds(d: Daemon, outs: seq<Out>, kind: Out -> bool)
    requires forall o | o in outs :: kind(o)
    ensures Adds(d, Say(d, outs), kind)
  {
    forall k | |d.outs| <= k < |d.outs + outs| ensures kind((d.outs + outs)[k]) {
      assert (d.outs + outs)[k] == outs[k - |d.outs|];
    }
  }

  lemma {:induction false} BroadcastAdds(d: Daemon, clients: seq<Connection>, topic: Topic, except: int, text: string, kind: Out -> bool)
    requires forall fd, words :: kind(Response(fd, words))
    ensures Adds(d, Say(d, Broadcast(clients, topic, except, text)), kind)
  {
    BroadcastResponds(clients, topic, except, text);
    SayAdds(d, Broadcast(clients, topic, except, text), kind);
  }

  lemma {:induction false} ProcessCmdAdds(s: Setup, d: Daemon, line: string, fd: int)
    ensures Adds(d, ProcessCmd(s, d, line, fd), (o: Out) => Asking(fd, o)) && Adds(d, ProcessCmd(s, d, line, fd), Incoming)
  {
    var kind := (o: Out) => Asking(fd, o);
    match Parse(line)
    case None =>
    case Some(p) =>
      if ForFirmware(p.cmd) {
        var code := Code(s.opt, p);
        SayAdds(d, [Response(fd, Refusal(p))], kind);
        var d1 := if code.None? then Say(d, [Response(fd, Refusal(p))]) else d;
        BroadcastAdds(d1, d.clients, Topic.Requests, fd, "Request: " + p.text, kind);
        var d2 := Say(d1, Broadcast(d.clients, Topic.Requests, fd, "Request: " + p.text));
        AddsThen(d, d1, d2, kind);
        var c := Command(fd, p.cmd, code, false, CLEARED);
        SayAdds(d2.(queue := d2.queue + [c]), [Pushed(c)], kind);
        AddsThen(d, d2, Push(d2, c), kind);
      }
  }

  lemma AcceptAdds(d: Daemon, fd: int)
    ensures Adds(d, Accept(d, fd), (o: Out) => o.Accepted?)
  {
  }

  lemma {:induction false} ReadAutoAdds(s: Setup, d: Daemon, input: Input)
    ensures Adds(d, ReadAuto(s, d, input), Incoming)
    ensures !ReadAuto(s, d, input).autoOpen && d.autoOpen ==> ReadAuto(s, d, input).queue == d.queue
    ensures !ReadAuto(s, d, input).autoOpen && d.autoOpen
       <==> d.autoOpen && LineReader.ReadLine(d.auto, input.bytes, input.end).outcome.Closed?
    ensures ReadAuto(s, d, input).returnValue == 0 && ReadAuto(s, d, input).autoOpen != d.autoOpen
        ==> ReadAuto(s, d, input).clients == d.clients
  {
    var c := LineReader.ReadLine(d.auto, input.bytes, input.end);
    if c.outcome.Line? { ProcessCmdAdds(s, d.(auto := c.pending), CString(c.outcome.text), s.autoFd); }
  }

  lemma {:induction false} ReadClientsAdds(s: Setup, d: Daemon, i: nat, lines: map<int, Input>)
    ensures Adds(d, ReadClients(s, d, i, lines), Incoming)
    decreases |d.clients| - i
  {
    if i < |d.clients| {
      if d.clients[i].fd !in lines {
        ReadClientsAdds(s, d, i + 1, lines);
      } else {
        var input := lines[d.clients[i].fd];
        var c := LineReader.ReadLine(d.clients[i].pending, input.bytes, input.end);
        if c.outcome.Line? {
          ProcessCmdAdds(s, Buffered(d, i, c.pending),
                         CString(c.outcome.text), d.clients[i].fd);
        }
        var d1 := ReadClient(s, d, i, input);
        assert Adds(d, d1, Incoming);
        if d1.returnValue == 0 {
          var next := if |d1.clients| < |d.clients| then i else i + 1;
          ReadClientsAdds(s, d1, next, lines);
          AddsThen(d, d1, ReadClients(s, d1, next, lines), Incoming);
        }
      }
    }
  }

  lemma {:induction false} NothingToRead(s: Setup, d: Daemon, i: nat, lines: map<int, Input>)
    requires forall k | i <= k < |d.clients| :: d.clients[k].fd !in lines
    ensures ReadClients(s, d, i, lines) == d
    decreases |d.clients| - i
  {
    if i < |d.clients| { NothingToRead(s, d, i + 1, lines); }
  }

  /** Delivering adds responses and takes at most the head off the queue, as answered. */
  ghost predicate Delivered(d: Daemon, e: Daemon) {
    && Adds(d, e, Outgoing)
    && e.queue == (if d.queue == [] then [] else d.queue[1..])
    && e.clients == d.clients && e.autoOpen == d.autoOpen && e.auto == d.auto && e.returnValue == d.returnValue
    && (forall k | |d.outs| <= k < |e.outs| :: e.outs[k].Answered? ==> d.queue != [] && e.outs[k].command == d.queue[0])
    && |e.outs| > |d.outs|
    && (d.queue != [] ==> e.outs[|e.outs| - 1].Answered?)
  }

  lemma {:induction false} DeliverAdds(d: Daemon, line: string, answer: string)
    ensures Delivered(d, Deliver(d, line, answer))
  {
    var to := if d.queue == [] then -1 else d.queue[0].fd;
    var reply := if d.queue == [] then [] else [Response(to, answer)];
    var copies := Copies(d.clients, line, answer, to);
    CopiesAside(d.clients, line, answer, to);
    SayTwice(d, reply, copies);
    AllRespond(reply, copies);
    AnswersHead(d, reply + copies, line);
  }

  lemma {:induction false} SayTwice(d: Daemon, x: seq<Out>, y: seq<Out>)
    ensures Say(Say(d, x), y) == Say(d, x + y)
  {
    assert d.outs + x + y == d.outs + (x + y);
  }

  lemma AllRespond(x: seq<Out>, y: seq<Out>)
    requires (forall o | o in x :: o.Response?) && forall o | o in y :: o.Response?
    ensures forall o | o in x + y :: o.Response?
  {
  }

  lemma {:induction false} AnswersHead(d: Daemon, outs: seq<Out>, line: string)
    requires forall o | o in outs :: o.Response?
    ensures Delivered(d, PopAnswered(Say(d, outs), line))
  {
    var e := PopAnswered(Say(d, outs), line);
    var last := if d.queue == [] then [Unclaimed(line)] else [Answered(d.queue[0], line)];
    assert e.outs == d.outs + (outs + last);
    forall k | |d.outs| <= k < |e.outs|
      ensures Outgoing(e.outs[k]) && (e.outs[k].Answered? ==> d.queue != [] && e.outs[k].command == d.queue[0])
    {
      assert e.outs[k] == (outs + last)[k - |d.outs|];
      assert e.outs[k] in outs || e.outs[k] in last;
    }
  }

  lemma SendAdds(d: Daemon, ok: bool, now: TimeVal)
    ensures Adds(d, SendHead(d, ok, now), (o: Out) => o.Written?)
  {
  }

  lemma {:induction false} TtyEffect(s: Setup, d: Daemon, input: Input)
    ensures var e, c := ProcessTty(s, d, input), LineReader.ReadLine(d.tty, input.bytes, input.end);
            && Adds(d, e, Outgoing) && e.auto == d.auto && e.autoOpen == d.autoOpen && e.clients == d.clients
            && e.queue == (if c.outcome.Line? && d.queue != [] then d.queue[1..] else d.queue)
            && (e.returnValue == d.returnValue || e.returnValue == 2 || e.returnValue == -1)
            && forall k | |d.outs| <= k < |e.outs| :: e.outs[k].Answered? ==> d.queue != [] && e.outs[k].command == d.queue[0]
  {
    var c := LineReader.ReadLine(d.tty, input.bytes, input.end);
    if c.outcome.Line? {
      var line := FirmwareLine(c.outcome.text);
      DeliverAdds(d.(tty := c.pending), line, Answer(s.opt, line));
    }
  }

  // ------------------------------------------------------------------ sampling

  /** What has been said to the sampling process, oldest first. */
  function Said(outs: seq<Out>): seq<bool>
    decreases outs
  {
    if outs == [] then [] else
      var o := outs[|outs| - 1];
      Said(outs[..|outs| - 1]) + if o.Enabled? then [o.on] else []
  }

  /** The words alternate, enabling first, and the flag is the last of them. */
  ghost predicate Alternates(d: Daemon) {
    var said := Said(d.outs);
    && (forall k | 0 <= k < |said| :: said[k] == (k % 2 == 0))
    && d.sampling == (|said| % 2 == 1)
  }

  /** There is no sampling without a process, and otherwise it runs exactly while somebody listens. */
  ghost predicate Tracks(s: Setup, d: Daemon) {
    && (s.child ==> (d.sampling <==> exists i :: 0 <= i < |d.clients| && d.clients[i].wants.sensor))
    && (!s.child ==> !d.sampling)
  }

  lemma {:induction false} SaidKept(d: Daemon, e: Daemon, kind: Out -> bool)
    requires Adds(d, e, kind) && forall o :: kind(o) ==> !o.Enabled?
    ensures Said(e.outs) == Said(d.outs)
    decreases |e.outs|
  {
    if |e.outs| > |d.outs| {
      var n := |e.outs| - 1;
      assert !e.outs[n].Enabled?;
      SaidKept(d, e.(outs := e.outs[..n]), kind);
    } else {
      assert e.outs == d.outs;
    }
  }

  lemma {:induction false} AlternatesKept(d: Daemon, e: Daemon, kind: Out -> bool)
    requires Alternates(d) && Adds(d, e, kind) && forall o :: kind(o) ==> !o.Enabled?
    ensures Alternates(e)
  {
    SaidKept(d, e, kind);
  }

  lemma {:induction false} SaidSnoc(outs: seq<Out>, on: bool)
    ensures Said(outs + [Enabled(on)]) == Said(outs) + [on]
  {
    assert (outs + [Enabled(on)])[..|outs|] == outs;
  }

  lemma {:induction false} UpdateTracks(s: Setup, d: Daemon)
    requires Alternates(d) && (!s.child ==> !d.sampling)
    ensures Alternates(UpdateSampling(s, d)) && Tracks(s, UpdateSampling(s, d))
  {
    SaidSnoc(d.outs, !d.sampling);
  }

  lemma {:induction false} EndOfTurnSampling(s: Setup, d: Daemon, t: Turn)
    requires Alternates(d) && (!s.child ==> !d.sampling)
    ensures Alternates(EndOfTurn(s, d, t)) && Tracks(s, EndOfTurn(s, d, t))
  {
    SendAdds(d, t.writeOk, t.now);
    AlternatesKept(d, SendHead(d, t.writeOk, t.now), (o: Out) => o.Written?);
    UpdateTracks(s, SendHead(d, t.writeOk, t.now));
  }

  lemma {:induction false} FromAutoSampling(s: Setup, d: Daemon, r: Round, t: Turn)
    requires Alternates(d) && Tracks(s, d) && d.returnValue == 0
    ensures Alternates(FromAuto(s, d, r, t))
    ensures FromAuto(s, d, r, t).returnValue == 0 ==> Tracks(s, FromAuto(s, d, r, t))
  {
    var d1 := d;
    if s.child && d.autoOpen && r.auto.Some? {
      d1 := ReadAuto(s, d, r.auto.value);
      ReadAutoAdds(s, d, r.auto.value);
      AlternatesKept(d, d1, Incoming);
    }
    var d2 := ReadClients(s, d1, 0, r.lines);
    ReadClientsAdds(s, d1, 0, r.lines);
    AlternatesKept(d1, d2, Incoming);
    EndOfTurnSampling(s, d2, t);
  }

  lemma {:induction false} AcceptListened(d: Daemon, fd: int)
    ensures Listened(Accept(d, fd).clients) <==> Listened(d.clients)
  {
    if i :| 0 <= i < |d.clients| && d.clients[i].wants.sensor {
      assert fd >= 0 ==> Accept(d, fd).clients[i] == d.clients[i];
    }
  }

  lemma {:induction false} FromAcceptSampling(s: Setup, d: Daemon, r: Round, t: Turn)
    requires Alternates(d) && Tracks(s, d) && d.returnValue == 0
    ensures Alternates(FromAccept(s, d, r, t))
    ensures FromAccept(s, d, r, t).returnValue == 0 ==> Tracks(s, FromAccept(s, d, r, t))
  {
    var d1 := d;
    if r.accepted.Some? {
      d1 := Accept(d, r.accepted.value);
      AcceptListened(d, r.accepted.value);
      AcceptAdds(d, r.accepted.value);
      AlternatesKept(d, d1, (o: Out) => o.Accepted?);
      assert Alternates(d1) && Tracks(s, d1);
    }
    if d1.returnValue == 0 { FromAutoSampling(s, d1, r, t); }
  }

  lemma {:induction false} TtySampling(s: Setup, d: Daemon, input: Input)
    requires Alternates(d) && Tracks(s, d)
    ensures Alternates(ProcessTty(s, d, input)) && Tracks(s, ProcessTty(s, d, input))
  {
    TtyEffect(s, d, input);
    AlternatesKept(d, ProcessTty(s, d, input), Outgoing);
  }

  lemma {:induction false} ReadySampling(s: Setup, d: Daemon, r: Round, t: Turn)
    requires Alternates(d) && Tracks(s, d) && d.returnValue == 0
    ensures Alternates(FromTty(s, d, r, t))
    ensures FromTty(s, d, r, t).returnValue == 0 ==> Tracks(s, FromTty(s, d, r, t))
  {
    var d1 := d;
    if r.tty.Some? {
      d1 := ProcessTty(s, d, r.tty.value);
      TtySampling(s, d, r.tty.value);
    }
    if d1.returnValue == 0 { FromAcceptSampling(s, d1, r, t); }
  }

  lemma {:induction false} StepSampling(s: Setup, d: Daemon, t: Turn)
    requires Alternates(d) && Tracks(s, d) && d.returnValue == 0
    ensures Alternates(Step(s, d, t))
    ensures Step(s, d, t).returnValue == 0 ==> Tracks(s, Step(s, d, t))
  {
    match t.event
    case SelectFailed =>
    case Interrupted =>
    case Idle =>
      if d.queue != [] && Expired(d.queue[0], t.now) {
        var d1 := PopExpired(d, t.now);
        AlternatesKept(d, d1, (o: Out) => o.TimedOut?);
        EndOfTurnSampling(s, d1, t);
      }
    case Ready(r) => ReadySampling(s, d, r, t);
  }

  /** SAMPLING FOLLOWS THE LISTENERS: at every loop head the flag is set exactly when some client listens for
      sensors, and the sampling process has been told on, off, on, ... with the flag as the last word. */
  lemma {:induction false} SamplingFollowsListeners(s: Setup, d: Daemon, turns: seq<Turn>)
    requires Alternates(d) && (d.returnValue == 0 ==> Tracks(s, d))
    ensures Alternates(Run(s, d, turns))
    ensures Run(s, d, turns).returnValue == 0 ==> Tracks(s, Run(s, d, turns))
    decreases turns
  {
    if turns != [] {
      if d.returnValue == 0 { StepSampling(s, d, turns[0]); }
      SamplingFollowsListeners(s, Step(s, d, turns[0]), turns[1..]);
    }
  }

  lemma StartSampling(s: Setup)
    ensures Alternates(START) && Tracks(s, START)
  {
  }
}
