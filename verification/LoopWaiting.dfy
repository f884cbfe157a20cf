/** Whether every queued command is written to the firmware before it is dequeued, over whole runs of the
    daemon's main loop. */
module LoopWaiting {
  import opened Wrappers
  import opened CommandQueue
  import opened Commands
  import opened MainLoop
  import opened LoopLedger
  import opened LoopService
  import LineReader

  /** The oldest command has been written, unless there is nothing to write for it. */
  predicate Prompt(d: Daemon) {
    d.queue != [] ==> d.queue[0].sent || Encode(d.queue[0]).None?
  }

  /** Every command dequeued so far had been written, unless there was nothing to write for it. */
  ghost predicate Served(outs: seq<Out>) {
    forall o | o in outs :: Dequeues(o) ==> o.command.sent || Encode(o.command).None?
  }

  predicate TakesLine(d: Daemon, r: Round) {
    r.tty.Some? && LineReader.ReadLine(d.tty, r.tty.value.bytes, r.tty.value.end).outcome.Line?
  }

  /** The turn takes the oldest command off the queue: a firmware line has come, or it times out. */
  predicate Drops(d: Daemon, t: Turn) {
    d.returnValue == 0 && d.queue != [] &&
    match t.event
    case SelectFailed => false
    case Interrupted => false
    case Idle => Expired(d.queue[0], t.now)
    case Ready(r) => !r.stop && TakesLine(d, r)
  }

  // ---------------------------------------------------------------- one turn

  lemma {:induction false} AddsServes(d: Daemon, e: Daemon, kind: Out -> bool)
    requires Adds(d, e, kind) && forall o :: kind(o) ==> !Dequeues(o)
    ensures Served(e.outs) <==> Served(d.outs)
  {
    forall o | o in d.outs ensures o in e.outs {
      var k :| 0 <= k < |d.outs| && d.outs[k] == o;
      assert e.outs[k] == o;
    }
    forall o | o in e.outs && Dequeues(o) ensures o in d.outs {
      var k :| 0 <= k < |e.outs| && e.outs[k] == o;
      if k < |d.outs| { assert d.outs[k] == o; }
    }
  }

  lemma {:induction false} DeliveredServes(d: Daemon, e: Daemon)
    requires Delivered(d, e)
    ensures Served(e.outs) <==> Served(d.outs) && Prompt(d)
  {
    forall o | o in d.outs ensures o in e.outs {
      var k :| 0 <= k < |d.outs| && d.outs[k] == o;
      assert e.outs[k] == o;
    }
    var last := e.outs[|e.outs| - 1];
    assert last in e.outs;
    forall o | o in e.outs && Dequeues(o) ensures o in d.outs || (d.queue != [] && o.command == d.queue[0]) {
      var k :| 0 <= k < |e.outs| && e.outs[k] == o;
      if k < |d.outs| { assert d.outs[k] == o; } else { assert Outgoing(e.outs[k]); }
    }
  }

  lemma {:induction false} TtyServes(s: Setup, d: Daemon, r: Round)
    requires r.tty.Some?
    ensures Served(ProcessTty(s, d, r.tty.value).outs) <==> Served(d.outs) && (TakesLine(d, r) ==> Prompt(d))
  {
    var input := r.tty.value;
    var c := LineReader.ReadLine(d.tty, input.bytes, input.end);
    if c.outcome.Line? {
      var line := FirmwareLine(c.outcome.text);
      var d1 := d.(tty := c.pending);
      DeliverAdds(d1, line, Answer(s.opt, line));
      DeliveredServes(d1, Deliver(d1, line, Answer(s.opt, line)));
    }
  }

  lemma {:induction false} EndServes(s: Setup, d: Daemon, t: Turn)
    ensures Served(EndOfTurn(s, d, t).outs) <==> Served(d.outs)
    ensures t.writeOk ==> Prompt(EndOfTurn(s, d, t))
  {
    var e := SendHead(d, t.writeOk, t.now);
    SendAdds(d, t.writeOk, t.now);
    AddsServes(d, e, (o: Out) => o.Written?);
    var f := e.(sampling := !e.sampling);
    SayAdds(f, [Enabled(f.sampling)], (o: Out) => o.Enabled?);
    AddsServes(f, Say(f, [Enabled(f.sampling)]), (o: Out) => o.Enabled?);
  }

  lemma {:induction false} FromAcceptServes(s: Setup, d: Daemon, r: Round, t: Turn)
    ensures Served(FromAccept(s, d, r, t).outs) <==> Served(d.outs)
  {
    var d1 := d;
    if r.accepted.Some? {
      d1 := Accept(d, r.accepted.value);
      AcceptAdds(d, r.accepted.value);
      AddsServes(d, d1, (o: Out) => o.Accepted?);
    }
    var d2 := d1;
    if s.child && d1.autoOpen && r.auto.Some? {
      d2 := ReadAuto(s, d1, r.auto.value);
      ReadAutoAdds(s, d1, r.auto.value);
      AddsServes(d1, d2, Incoming);
    }
    var d3 := ReadClients(s, d2, 0, r.lines);
    ReadClientsAdds(s, d2, 0, r.lines);
    AddsServes(d2, d3, Incoming);
    EndServes(s, d3, t);
  }

  lemma {:induction false} ReadyServes(s: Setup, d: Daemon, r: Round, t: Turn)
    ensures Served(FromTty(s, d, r, t).outs) <==> Served(d.outs) && (TakesLine(d, r) ==> Prompt(d))
  {
    if r.tty.Some? {
      TtyServes(s, d, r);
      FromAcceptServes(s, ProcessTty(s, d, r.tty.value), r, t);
    } else {
      FromAcceptServes(s, d, r, t);
    }
  }

  lemma {:induction false} IdleServes(s: Setup, d: Daemon, t: Turn)
    requires d.queue != [] && Expired(d.queue[0], t.now)
    ensures Served(EndOfTurn(s, PopExpired(d, t.now), t).outs) <==> Served(d.outs) && Prompt(d)
  {
    var e := PopExpired(d, t.now);
    EndServes(s, e, t);
    assert e.outs[|d.outs|] == TimedOut(d.queue[0], t.now);
    assert e.outs[|d.outs|] in e.outs;
    forall o | o in d.outs ensures o in e.outs {}
  }

  /** A turn keeps the account straight if and only if it does not drop a command that is still waiting. */
  lemma {:induction false} StepServes(s: Setup, d: Daemon, t: Turn)
    ensures Served(Step(s, d, t).outs) <==> Served(d.outs) && (Drops(d, t) ==> Prompt(d))
  {
    match t.event
    case SelectFailed =>
    case Interrupted =>
    case Idle => if d.returnValue == 0 && d.queue != [] && Expired(d.queue[0], t.now) { IdleServes(s, d, t); }
    case Ready(r) => ReadyServes(s, d, r, t);
  }

  // -------------------------------------------------------------- whole runs

  /** No turn drops a command that is still waiting to be written. */
  predicate NoneDropped(s: Setup, d: Daemon, turns: seq<Turn>)
    decreases turns
  {
    turns == [] || ((Drops(d, turns[0]) ==> Prompt(d)) && NoneDropped(s, Step(s, d, turns[0]), turns[1..]))
  }

  lemma {:induction false} RunServes(s: Setup, d: Daemon, turns: seq<Turn>)
    ensures Served(Run(s, d, turns).outs) <==> Served(d.outs) && NoneDropped(s, d, turns)
    decreases turns
  {
    if turns != [] {
      StepServes(s, d, turns[0]);
      RunServes(s, Step(s, d, turns[0]), turns[1..]);
    }
  }

  lemma {:induction false} PoppedCameOut(outs: seq<Out>, k: nat)
    requires k < |LedgerOf(outs).popped|
    ensures exists o :: o in outs && Dequeues(o) && o.command == LedgerOf(outs).popped[k]
    decreases outs
  {
    var front, last := outs[..|outs| - 1], outs[|outs| - 1];
    if k < |LedgerOf(front).popped| {
      PoppedCameOut(front, k);
      var o :| o in front && Dequeues(o) && o.command == LedgerOf(front).popped[k];
      assert o in outs;
    } else {
      assert last in outs && Dequeues(last);
    }
  }

  /** EVERY COMMAND IS WRITTEN before it is dequeued, its number being among the numbers of the writes, if and
      only if no turn of the run drops the oldest command while it is waiting. */
  lemma {:induction false} EveryCommandIsWritten(s: Setup, turns: seq<Turn>)
    ensures var l := LedgerOf(Run(s, START, turns).outs);
            (forall k | 0 <= k < |l.popped| :: Encode(l.popped[k]).Some? ==> k in l.turn) <==> NoneDropped(s, START, turns)
  {
    RunOrderly(s, turns);
    RunServes(s, START, turns);
    var d := Run(s, START, turns);
    var l := LedgerOf(d.outs);
    var all := l.popped + d.queue;
    forall k | 0 <= k < |l.popped| ensures l.popped[k].sent <==> k in l.turn { assert all[k] == l.popped[k]; }
    if Served(d.outs) {
      forall k | 0 <= k < |l.popped| && Encode(l.popped[k]).Some? ensures k in l.turn { PoppedCameOut(d.outs, k); }
    } else {
      var o :| o in d.outs && Dequeues(o) && !o.command.sent && Encode(o.command).Some?;
      var i :| 0 <= i < |d.outs| && d.outs[i] == o;
      PoppedAt(d.outs, i);
    }
  }

  // -------------------------------------- when writes succeed: the cut turn

  /** The turn takes a firmware line and then ends early because the sampling process's pipe has closed,
      before it comes to writing the next command. */
  predicate CutShort(s: Setup, d: Daemon, t: Turn) {
    && t.event.Ready?
    && var r := t.event.round;
       && TakesLine(d, r)
       && s.child && d.autoOpen
       && r.auto.Some? && LineReader.ReadLine(d.auto, r.auto.value.bytes, r.auto.value.end).outcome.Closed?
       && |d.queue| >= 2 && Encode(d.queue[1]).Some?
  }

  lemma {:induction false} AutoCloses(s: Setup, d: Daemon, r: Round, t: Turn)
    requires d.returnValue == 0 && t.writeOk && FromAuto(s, d, r, t).returnValue == 0
    ensures s.child && d.autoOpen && r.auto.Some? && LineReader.ReadLine(d.auto, r.auto.value.bytes, r.auto.value.end).outcome.Closed?
        ==> FromAuto(s, d, r, t).queue == d.queue && !FromAuto(s, d, r, t).autoOpen
    ensures !(s.child && d.autoOpen && r.auto.Some? && LineReader.ReadLine(d.auto, r.auto.value.bytes, r.auto.value.end).outcome.Closed?)
        ==> Prompt(FromAuto(s, d, r, t))
  {
    if s.child && d.autoOpen && r.auto.Some? {
      ReadAutoAdds(s, d, r.auto.value);
      EndServes(s, ReadClients(s, ReadAuto(s, d, r.auto.value), 0, r.lines), t);
    } else {
      EndServes(s, ReadClients(s, d, 0, r.lines), t);
    }
  }

  lemma {:induction false} ReadyPrompt(s: Setup, d: Daemon, r: Round, t: Turn)
    requires OnlyHeadSent(d.queue) && d.returnValue == 0 && t.writeOk
    requires t.event == Ready(r) && FromTty(s, d, r, t).returnValue == 0
    ensures Prompt(d) ==> (Prompt(FromTty(s, d, r, t)) <==> !CutShort(s, d, t))
    ensures CutShort(s, d, t) ==> FromTty(s, d, r, t).queue == d.queue[1..] && !FromTty(s, d, r, t).autoOpen
    ensures !d.autoOpen ==> Prompt(FromTty(s, d, r, t))
  {
    var d1 := d;
    if r.tty.Some? {
      TtyEffect(s, d, r.tty.value);
      d1 := ProcessTty(s, d, r.tty.value);
    }
    var d2 := if r.accepted.Some? then Accept(d1, r.accepted.value) else d1;
    AutoCloses(s, d2, r, t);
  }

  /** EXACTLY WHEN THE NEXT COMMAND IS LEFT WAITING: a turn whose write succeeds, and that does not end the
      loop, leaves the oldest command written if and only if it was not cut short. */
  lemma {:induction false} PromptIffNotCutShort(s: Setup, d: Daemon, t: Turn)
    requires OnlyHeadSent(d.queue) && Prompt(d) && d.returnValue == 0 && t.writeOk
    requires Step(s, d, t).returnValue == 0
    ensures Prompt(Step(s, d, t)) <==> !CutShort(s, d, t)
  {
    match t.event
    case SelectFailed =>
    case Interrupted =>
    case Idle =>
      if d.queue != [] && Expired(d.queue[0], t.now) { EndServes(s, PopExpired(d, t.now), t); }
    case Ready(r) => ReadyPrompt(s, d, r, t);
  }

  /** A cut turn after which the loop goes on. */
  predicate Cut(s: Setup, d: Daemon, t: Turn) {
    d.returnValue == 0 && CutShort(s, d, t) && Step(s, d, t).returnValue == 0
  }

  /** The turn gets no further than select: interrupted, or timed out with nothing expired. */
  predicate Passes(t: Turn) {
    t.event.Interrupted? || t.event.Idle?
  }

  /** The first turn that gets past the early exits takes a firmware line or lets the oldest command time out. */
  predicate Lost(d: Daemon, turns: seq<Turn>)
    decreases turns
  {
    turns != [] && (Drops(d, turns[0]) || (Passes(turns[0]) && Lost(d, turns[1..])))
  }

  /** Some turn is cut, and what follows loses the command left waiting. */
  predicate LosesCommand(s: Setup, d: Daemon, turns: seq<Turn>)
    decreases turns
  {
    turns != [] &&
    if Cut(s, d, turns[0]) then Lost(Step(s, d, turns[0]), turns[1..])
    else LosesCommand(s, Step(s, d, turns[0]), turns[1..])
  }

  predicate WritesSucceed(turns: seq<Turn>) {
    forall i | 0 <= i < |turns| :: turns[i].writeOk
  }

  lemma {:induction false} StoppedDropsNothing(s: Setup, d: Daemon, turns: seq<Turn>)
    requires d.returnValue != 0
    ensures NoneDropped(s, d, turns) && !LosesCommand(s, d, turns)
    decreases turns
  {
    if turns != [] { StoppedDropsNothing(s, d, turns[1..]); }
  }

  lemma {:induction false} StaysClosed(s: Setup, d: Daemon, t: Turn)
    requires !d.autoOpen
    ensures !Step(s, d, t).autoOpen
  {
    if t.event.Ready? {
      var r := t.event.round;
      var d1 := d;
      if r.tty.Some? {
        TtyEffect(s, d, r.tty.value);
        d1 := ProcessTty(s, d, r.tty.value);
      }
      var d2 := if r.accepted.Some? then Accept(d1, r.accepted.value) else d1;
      FromAutoClosed(s, d2, r, t);
    }
  }

  lemma {:induction false} FromAutoClosed(s: Setup, d: Daemon, r: Round, t: Turn)
    requires !d.autoOpen
    ensures !FromAuto(s, d, r, t).autoOpen
  {
    ReadClientsClosed(s, d, 0, r.lines);
  }

  lemma {:induction false} ReadClientsClosed(s: Setup, d: Daemon, i: nat, lines: map<int, Input>)
    ensures ReadClients(s, d, i, lines).autoOpen == d.autoOpen
    decreases |d.clients| - i
  {
    if i < |d.clients| {
      if d.clients[i].fd !in lines {
        ReadClientsClosed(s, d, i + 1, lines);
      } else {
        var d1 := ReadClient(s, d, i, lines[d.clients[i].fd]);
        if d1.returnValue == 0 {
          ReadClientsClosed(s, d1, if |d1.clients| < |d.clients| then i else i + 1, lines);
        }
      }
    }
  }

  /** Once the pipe has closed no turn is cut: from a prompt state nothing is dropped. */
  lemma {:induction false} ClosedDropsNothing(s: Setup, d: Daemon, turns: seq<Turn>)
    requires Has(Orderly, d) && WritesSucceed(turns) && !d.autoOpen && (d.returnValue == 0 ==> Prompt(d))
    ensures NoneDropped(s, d, turns)
    decreases turns
  {
    if d.returnValue != 0 {
      StoppedDropsNothing(s, d, turns);
    } else if turns != [] {
      var t, d1 := turns[0], Step(s, d, turns[0]);
      StepKeeps(Orderly, s, d, t);
      StaysClosed(s, d, t);
      OrderlyHeadSent(d.outs, d.queue);
      if d1.returnValue == 0 { PromptIffNotCutShort(s, d, t); }
      ClosedDropsNothing(s, d1, turns[1..]);
    }
  }

  /** A waiting turn that neither drops the command nor passes writes it, unless it ends the loop. */
  lemma {:induction false} WaitingIsWritten(s: Setup, d: Daemon, t: Turn)
    requires OnlyHeadSent(d.queue) && d.returnValue == 0 && d.queue != [] && !d.autoOpen && t.writeOk
    requires !Drops(d, t)
    ensures Passes(t) ==> Step(s, d, t) == d
    ensures !Passes(t) && Step(s, d, t).returnValue == 0 ==> Prompt(Step(s, d, t))
  {
    if t.event.Ready? && Step(s, d, t).returnValue == 0 { ReadyPrompt(s, d, t.event.round, t); }
  }

  lemma {:induction false} WaitingLost(s: Setup, d: Daemon, turns: seq<Turn>)
    requires Has(Orderly, d) && WritesSucceed(turns) && !d.autoOpen && d.returnValue == 0 && !Prompt(d)
    ensures NoneDropped(s, d, turns) <==> !Lost(d, turns)
    decreases turns
  {
    if turns != [] && !Drops(d, turns[0]) {
      var t, d1 := turns[0], Step(s, d, turns[0]);
      OrderlyHeadSent(d.outs, d.queue);
      WaitingIsWritten(s, d, t);
      if Passes(t) {
        WaitingLost(s, d, turns[1..]);
      } else {
        StepKeeps(Orderly, s, d, t);
        StaysClosed(s, d, t);
        ClosedDropsNothing(s, d1, turns[1..]);
      }
    }
  }

  /** One turn from a prompt state: a cut leaves the next command waiting and the pipe closed, anything else that
      does not end the loop leaves it prompt. */
  lemma {:induction false} AfterTurn(s: Setup, d: Daemon, t: Turn)
    requires Has(Orderly, d) && d.returnValue == 0 && Prompt(d) && t.writeOk
    ensures Has(Orderly, Step(s, d, t))
    ensures Cut(s, d, t) ==> !Prompt(Step(s, d, t)) && !Step(s, d, t).autoOpen
    ensures !Cut(s, d, t) && Step(s, d, t).returnValue == 0 ==> Prompt(Step(s, d, t))
  {
    StepKeeps(Orderly, s, d, t);
    OrderlyHeadSent(d.outs, d.queue);
    if Step(s, d, t).returnValue == 0 {
      PromptIffNotCutShort(s, d, t);
      if t.event.Ready? { ReadyPrompt(s, d, t.event.round, t); }
    }
  }

  lemma {:induction false} NoneDroppedIff(s: Setup, d: Daemon, turns: seq<Turn>)
    requires Has(Orderly, d) && WritesSucceed(turns) && (d.returnValue == 0 ==> Prompt(d))
    ensures NoneDropped(s, d, turns) <==> !LosesCommand(s, d, turns)
    decreases turns
  {
    if d.returnValue != 0 {
      StoppedDropsNothing(s, d, turns);
    } else if turns != [] {
      AfterTurn(s, d, turns[0]);
      if Cut(s, d, turns[0]) {
        WaitingLost(s, Step(s, d, turns[0]), turns[1..]);
      } else {
        NoneDroppedIff(s, Step(s, d, turns[0]), turns[1..]);
      }
    }
  }

  /** EXACTLY WHEN A COMMAND IS LOST although every write succeeds: some turn is cut, and the first later turn
      that gets past the early exits takes a firmware line or lets the oldest command time out. */
  lemma {:induction false} ServedIffNothingLost(s: Setup, turns: seq<Turn>)
    requires WritesSucceed(turns)
    ensures Served(Run(s, START, turns).outs) <==> !LosesCommand(s, START, turns)
  {
    OrderlyStable();
    RunServes(s, START, turns);
    NoneDroppedIff(s, START, turns);
  }

  /** A cut turn costs a command when a firmware line or a timeout comes next: that takes it off the queue
      although it was never written. */
  lemma {:induction false} CutShortLosesCommand(s: Setup, d: Daemon, t: Turn, u: Turn)
    requires OnlyHeadSent(d.queue) && Prompt(d) && t.writeOk && Cut(s, d, t)
    requires Drops(Step(s, d, t), u)
    ensures Step(s, d, t).queue == d.queue[1..] && !d.queue[1].sent
    ensures !Served(Step(s, Step(s, d, t), u).outs)
  {
    ReadyPrompt(s, d, t.event.round, t);
    StepServes(s, Step(s, d, t), u);
  }
}
