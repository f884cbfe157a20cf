/** That the queue of commands empties once nobody asks for anything more and time goes on. */
module LoopDrains {
  import opened Wrappers
  import opened ClientList
  import opened CommandQueue
  import opened Commands
  import opened MainLoop
  import opened LoopService
  import LineReader

  /** Clients and sampling process are silent; the firmware may say what it likes, and connections may come. */
  predicate Silent(t: Turn) {
    t.event.Ready? ==> t.event.round.auto.None? && t.event.round.lines == map[]
  }

  predicate AllSilent(turns: seq<Turn>) {
    forall i | 0 <= i < |turns| :: Silent(turns[i])
  }

  /** The clock does not go back. */
  predicate Advancing(last: TimeVal, turns: seq<Turn>)
    decreases turns
  {
    turns == [] || (!Before(turns[0].now, last) && Advancing(turns[0].now, turns[1..]))
  }

  function Clock(last: TimeVal, turns: seq<Turn>): TimeVal
    decreases turns
  {
    if turns == [] then last else Clock(turns[0].now, turns[1..])
  }

  /** select times out more than two seconds after base. */
  predicate Late(base: TimeVal, t: Turn) {
    t.event.Idle? && Before(TimeVal(base.sec + 2, base.usec), t.now)
  }

  /** How often select times out, each time more than two seconds after the time counted before. */
  function Rounds(base: TimeVal, turns: seq<Turn>): nat
    decreases turns
  {
    if turns == [] then 0
    else if Late(base, turns[0]) then 1 + Rounds(turns[0].now, turns[1..])
    else Rounds(base, turns[1..])
  }

  /** Nothing in the queue has been written later than this, and what has not been written has no time. */
  ghost predicate StartsBy(queue: seq<Command>, last: TimeVal) {
    && !Before(last, CLEARED)
    && (forall i | 0 <= i < |queue| :: !Before(last, queue[i].start) && (queue[i].sent || queue[i].start == CLEARED))
  }

  lemma LaterToo(queue: seq<Command>, last: TimeVal, now: TimeVal)
    requires StartsBy(queue, last) && !Before(now, last)
    ensures StartsBy(queue, now)
  {
  }

  lemma EndStarts(s: Setup, d: Daemon, t: Turn)
    requires StartsBy(d.queue, t.now)
    ensures StartsBy(EndOfTurn(s, d, t).queue, t.now) && |EndOfTurn(s, d, t).queue| == |d.queue|
  {
  }

  lemma PushStarts(queue: seq<Command>, c: Command, now: TimeVal)
    requires StartsBy(queue, now) && c.start == CLEARED
    ensures StartsBy(queue + [c], now)
  {
  }

  lemma {:induction false} ProcessCmdStarts(s: Setup, d: Daemon, line: string, fd: int, now: TimeVal)
    requires StartsBy(d.queue, now)
    ensures StartsBy(ProcessCmd(s, d, line, fd).queue, now)
  {
    match Parse(line)
    case None =>
    case Some(p) => PushStarts(d.queue, Command(fd, p.cmd, Code(s.opt, p), false, CLEARED), now);
  }

  lemma {:induction false} ReadClientsStarts(s: Setup, d: Daemon, i: nat, lines: map<int, Input>, now: TimeVal)
    requires StartsBy(d.queue, now)
    ensures StartsBy(ReadClients(s, d, i, lines).queue, now)
    decreases |d.clients| - i
  {
    if i < |d.clients| {
      if d.clients[i].fd !in lines {
        ReadClientsStarts(s, d, i + 1, lines, now);
      } else {
        var input, fd := lines[d.clients[i].fd], d.clients[i].fd;
        var c := LineReader.ReadLine(d.clients[i].pending, input.bytes, input.end);
        if c.outcome.Line? {
          ProcessCmdStarts(s, Buffered(d, i, c.pending), CString(c.outcome.text), fd, now);
        }
        var d1 := ReadClient(s, d, i, input);
        if d1.returnValue == 0 {
          ReadClientsStarts(s, d1, if |d1.clients| < |d.clients| then i else i + 1, lines, now);
        }
      }
    }
  }

  lemma {:induction false} FromAcceptStarts(s: Setup, d: Daemon, r: Round, t: Turn)
    requires StartsBy(d.queue, t.now)
    ensures StartsBy(FromAccept(s, d, r, t).queue, t.now)
  {
    var d1 := if r.accepted.Some? then Accept(d, r.accepted.value) else d;
    var d2 := d1;
    if s.child && d1.autoOpen && r.auto.Some? {
      var c := LineReader.ReadLine(d1.auto, r.auto.value.bytes, r.auto.value.end);
      if c.outcome.Line? { ProcessCmdStarts(s, d1.(auto := c.pending), CString(c.outcome.text), s.autoFd, t.now); }
      d2 := ReadAuto(s, d1, r.auto.value);
    }
    ReadClientsStarts(s, d2, 0, r.lines, t.now);
    EndStarts(s, ReadClients(s, d2, 0, r.lines), t);
  }

  /** Commands are dated with the time of the turn that writes them. */
  lemma {:induction false} StepStarts(s: Setup, d: Daemon, t: Turn, last: TimeVal)
    requires StartsBy(d.queue, last) && !Before(t.now, last)
    ensures StartsBy(Step(s, d, t).queue, t.now)
  {
    LaterToo(d.queue, last, t.now);
    match t.event
    case SelectFailed =>
    case Interrupted =>
    case Idle => if d.queue != [] { EndStarts(s, PopExpired(d, t.now), t); }
    case Ready(r) =>
      if r.tty.Some? {
        TtyEffect(s, d, r.tty.value);
        FromAcceptStarts(s, ProcessTty(s, d, r.tty.value), r, t);
      } else {
        FromAcceptStarts(s, d, r, t);
      }
  }

  // ------------------------------------------------------------- silent turns

  /** The oldest command goes, or not, and then the oldest one is written, or not. */
  predicate Moves(q: seq<Command>, q': seq<Command>, now: TimeVal) {
    || q' == q
    || (q != [] && q' == q[1..])
    || (q != [] && Writes(q, q', now))
    || (|q| > 1 && Writes(q[1..], q', now))
  }

  predicate Writes(q: seq<Command>, q': seq<Command>, now: TimeVal)
    requires q != []
  {
    !q[0].sent && q' == [q[0].(sent := true, start := now)] + q[1..]
  }

  lemma {:induction false} SilentFromAccept(s: Setup, d: Daemon, r: Round, t: Turn)
    requires r.auto.None? && r.lines == map[]
    ensures var q := FromAccept(s, d, r, t).queue; q == d.queue || (d.queue != [] && Writes(d.queue, q, t.now))
  {
    var d1 := if r.accepted.Some? then Accept(d, r.accepted.value) else d;
    NothingToRead(s, d1, 0, r.lines);
  }

  lemma {:induction false} SilentStep(s: Setup, d: Daemon, t: Turn)
    requires Silent(t) && d.returnValue == 0
    ensures Moves(d.queue, Step(s, d, t).queue, t.now)
    ensures t.event.Idle? && d.queue != [] ==>
              if Expired(d.queue[0], t.now) then |Step(s, d, t).queue| < |d.queue| else Step(s, d, t).queue == d.queue
  {
    match t.event
    case SelectFailed =>
    case Interrupted =>
    case Idle =>
    case Ready(r) =>
      if r.tty.Some? {
        TtyEffect(s, d, r.tty.value);
        SilentFromAccept(s, ProcessTty(s, d, r.tty.value), r, t);
      } else {
        SilentFromAccept(s, d, r, t);
      }
  }

  /** Two rounds a command, less one if the oldest had been written when the last round was counted. */
  function RoundsNeeded(queue: seq<Command>, base: TimeVal): nat {
    if queue == [] then 0
    else 2 * |queue| - (if queue[0].sent && !Before(base, queue[0].start) then 1 else 0)
  }

  lemma MovesNeedNoMore(q: seq<Command>, q': seq<Command>, now: TimeVal, base: TimeVal)
    requires Moves(q, q', now)
    ensures RoundsNeeded(q', base) <= RoundsNeeded(q, base)
  {
  }

  /** In a round that counts either the oldest command goes, or it had not been written when the last one counted. */
  lemma {:induction false} RoundCounts(s: Setup, d: Daemon, t: Turn, last: TimeVal, base: TimeVal)
    requires StartsBy(d.queue, last) && !Before(t.now, last) && !Before(base, CLEARED)
    requires d.returnValue == 0 && Late(base, t) && d.queue != []
    ensures RoundsNeeded(Step(s, d, t).queue, t.now) < RoundsNeeded(d.queue, base)
  {
    SilentStep(s, d, t);
    if !Expired(d.queue[0], t.now) { assert Before(base, d.queue[0].start) && !Before(t.now, d.queue[0].start); }
  }

  lemma {:induction false} StoppedStays(s: Setup, d: Daemon, turns: seq<Turn>)
    requires d.returnValue != 0
    ensures Run(s, d, turns) == d
    decreases turns
  {
    if turns != [] { StoppedStays(s, d, turns[1..]); }
  }

  lemma {:induction false} SilentRun(s: Setup, d: Daemon, turns: seq<Turn>, last: TimeVal, base: TimeVal)
    requires StartsBy(d.queue, last) && AllSilent(turns) && Advancing(last, turns) && !Before(base, CLEARED)
    requires Run(s, d, turns).returnValue == 0
    ensures Run(s, d, turns).queue == [] || 2 * |Run(s, d, turns).queue| <= RoundsNeeded(d.queue, base) - Rounds(base, turns) + 1
    decreases turns
  {
    if d.returnValue != 0 {
      StoppedStays(s, d, turns);
    } else if turns != [] {
      var t, d1 := turns[0], Step(s, d, turns[0]);
      assert Silent(t);
      SilentStep(s, d, t);
      StepStarts(s, d, t, last);
      if Late(base, t) {
        if d.queue != [] { RoundCounts(s, d, t, last, base); }
        SilentRun(s, d1, turns[1..], t.now, t.now);
      } else {
        MovesNeedNoMore(d.queue, d1.queue, t.now, base);
        SilentRun(s, d1, turns[1..], t.now, base);
      }
    }
  }

  lemma {:induction false} RunStarts(s: Setup, d: Daemon, turns: seq<Turn>, last: TimeVal)
    requires StartsBy(d.queue, last) && Advancing(last, turns)
    ensures StartsBy(Run(s, d, turns).queue, Clock(last, turns))
    decreases turns
  {
    if turns != [] {
      StepStarts(s, d, turns[0], last);
      RunStarts(s, Step(s, d, turns[0]), turns[1..], turns[0].now);
    }
  }

  /** THE QUEUE DRAINS: after any run, while the loop goes on and nobody asks for more, it is empty once select has timed
      out twice for every command in it, each time more than two seconds after the time before, whatever the firmware
      does and whether or not writes succeed. */
  lemma {:induction false} QueueDrains(s: Setup, turns: seq<Turn>, silent: seq<Turn>)
    requires Advancing(CLEARED, turns) && Advancing(Clock(CLEARED, turns), silent) && AllSilent(silent)
    requires Run(s, Run(s, START, turns), silent).returnValue == 0
    ensures var before, after := Run(s, START, turns).queue, Run(s, Run(s, START, turns), silent).queue;
            var rounds := Rounds(Clock(CLEARED, turns), silent);
            && (after == [] || 2 * |after| <= 2 * |before| - rounds + 1)
            && (rounds >= 2 * |before| ==> after == [])
  {
    var last := Clock(CLEARED, turns);
    RunStarts(s, START, turns, CLEARED);
    SilentRun(s, Run(s, START, turns), silent, last, last);
  }
}
