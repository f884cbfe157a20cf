/** What becomes of every command, over whole runs of the daemon's main loop. */
module LoopLedger {
  import opened Wrappers
  import opened ClientList
  import opened CommandQueue
  import opened Commands
  import opened MainLoop
  import LineReader

  /** A command without what the queue notes on it. */
  datatype Request = Request(fd: int, cmd: CmdId, param: Option<string>)

  function RequestOf(c: Command): Request {
    Request(c.fd, c.cmd, c.param)
  }

  function Requests(s: seq<Command>): (r: seq<Request>)
    ensures |r| == |s| && forall i | 0 <= i < |r| :: r[i] == RequestOf(s[i])
  {
    seq(|s|, i requires 0 <= i < |s| => RequestOf(s[i]))
  }

  /** Read off what the daemon has done: what was queued, what was dequeued, and for each write to the
      firmware what it wrote, when, and how many commands had been dequeued before it. */
  datatype Ledger = Ledger(pushed: seq<Request>, popped: seq<Command>, written: seq<Request>, at: seq<TimeVal>, turn: seq<nat>)

  function Post(l: Ledger, o: Out): Ledger {
    match o
    case Response(_, _) => l
    case Pushed(c) => l.(pushed := l.pushed + [RequestOf(c)])
    case Answered(c, _) => l.(popped := l.popped + [c])
    case TimedOut(c, _) => l.(popped := l.popped + [c])
    case Unclaimed(_) => l
    case Written(c, _, at) => l.(written := l.written + [RequestOf(c)], at := l.at + [at], turn := l.turn + [|l.popped|])
    case Enabled(_) => l
    case Accepted(_) => l
    case Dropped(_) => l
  }

  function LedgerOf(outs: seq<Out>): Ledger
    decreases outs
  {
    if outs == [] then Ledger([], [], [], [], [])
    else Post(LedgerOf(outs[..|outs| - 1]), outs[|outs| - 1])
  }

  lemma {:induction false} LedgerSnoc(outs: seq<Out>, o: Out)
    ensures LedgerOf(outs + [o]) == Post(LedgerOf(outs), o)
  {
    assert (outs + [o])[..|outs|] == outs;
  }

  /** An out that takes a command off the queue. */
  predicate Dequeues(o: Out) {
    o.Answered? || o.TimedOut?
  }

  ghost predicate OnlyHeadSent(queue: seq<Command>) {
    forall i | 1 <= i < |queue| :: !queue[i].sent
  }

  /** Of all commands, dequeued or not, exactly those that were written bear the mark and the time of their
      write, the others no time; commands are written in the order they were queued and each at most once. */
  ghost predicate WritesNoted(l: Ledger, all: seq<Command>) {
    && |l.written| == |l.at| == |l.turn|
    && (forall i | 0 <= i < |l.turn| :: l.turn[i] < |all| && l.written[i] == RequestOf(all[l.turn[i]]) && l.at[i] == all[l.turn[i]].start)
    && (forall i, j | 0 <= i < j < |l.turn| :: l.turn[i] < l.turn[j])
    && (forall k {:trigger all[k].sent} {:trigger k in l.turn} | 0 <= k < |all| :: all[k].sent <==> k in l.turn)
    && (forall k {:trigger all[k].start} | 0 <= k < |all| :: all[k].sent || all[k].start == CLEARED)
  }

  /** First in, first out; and only what was dequeued or is the head can have been written. */
  ghost predicate Balanced(l: Ledger, queue: seq<Command>) {
    && l.pushed == Requests(l.popped + queue)
    && WritesNoted(l, l.popped + queue)
    && forall i | 0 <= i < |l.turn| :: l.turn[i] <= |l.popped|
  }

  /** Writes carry the command's encoding, and only what has expired times out. */
  ghost predicate Honest(outs: seq<Out>) {
    forall o | o in outs :: (o.Written? ==> Encode(o.command) == Some(o.bytes) && !o.command.sent)
                            && (o.TimedOut? ==> Expired(o.command, o.now))
  }

  /** A line of the firmware goes unclaimed only while nothing is queued, and a write is made only while something is. */
  ghost predicate Timely(l: Ledger, o: Out) {
    && (o.Unclaimed? ==> |l.pushed| == |l.popped|)
    && (o.Written? ==> |l.pushed| > |l.popped|)
  }

  ghost predicate Claimed(outs: seq<Out>) {
    forall k | 0 <= k < |outs| :: Timely(LedgerOf(outs[..k]), outs[k])
  }

  ghost predicate Orderly(outs: seq<Out>, queue: seq<Command>) {
    Balanced(LedgerOf(outs), queue) && Honest(outs) && Claimed(outs)
  }

  // ------------------------------------------------------------------ the moves

  /** Nothing here concerns the queue. */
  predicate Aside(o: Out) {
    o.Response? || o.Enabled? || o.Accepted? || o.Dropped?
  }

  ghost predicate StableAside(p: (seq<Out>, seq<Command>) -> bool) {
    forall outs: seq<Out>, q: seq<Command>, o: Out {:trigger p(outs + [o], q)} :: p(outs, q) && Aside(o) ==> p(outs + [o], q)
  }

  ghost predicate StablePush(p: (seq<Out>, seq<Command>) -> bool) {
    forall outs: seq<Out>, q: seq<Command>, c: Command {:trigger p(outs + [Pushed(c)], q + [c])} ::
      p(outs, q) && !c.sent && c.start == CLEARED ==> p(outs + [Pushed(c)], q + [c])
  }

  ghost predicate StableAnswer(p: (seq<Out>, seq<Command>) -> bool) {
    forall outs: seq<Out>, q: seq<Command>, line: string {:trigger p(outs + [Answered(q[0], line)], q[1..])} ::
      q != [] && p(outs, q) ==> p(outs + [Answered(q[0], line)], q[1..])
  }

  ghost predicate StableUnclaimed(p: (seq<Out>, seq<Command>) -> bool) {
    forall outs: seq<Out>, line: string {:trigger p(outs + [Unclaimed(line)], [])} ::
      p(outs, []) ==> p(outs + [Unclaimed(line)], [])
  }

  ghost predicate StableTimeout(p: (seq<Out>, seq<Command>) -> bool) {
    forall outs: seq<Out>, q: seq<Command>, now: TimeVal {:trigger p(outs + [TimedOut(q[0], now)], q[1..])} ::
      q != [] && p(outs, q) && Expired(q[0], now) ==> p(outs + [TimedOut(q[0], now)], q[1..])
  }

  ghost predicate StableWrite(p: (seq<Out>, seq<Command>) -> bool) {
    forall outs: seq<Out>, q: seq<Command>, bytes: string, now: TimeVal
      {:trigger p(outs + [Written(q[0], bytes, now)], [q[0].(sent := true, start := now)] + q[1..])} ::
      q != [] && p(outs, q) && !q[0].sent && Encode(q[0]) == Some(bytes)
      ==> p(outs + [Written(q[0], bytes, now)], [q[0].(sent := true, start := now)] + q[1..])
  }

  /** A property of output and queue that each thing the loop does to them keeps. */
  ghost predicate Stable(p: (seq<Out>, seq<Command>) -> bool) {
    StableAside(p) && StablePush(p) && StableAnswer(p) && StableUnclaimed(p) && StableTimeout(p) && StableWrite(p)
  }

  lemma {:induction false} NotedMore(l: Ledger, all: seq<Command>, c: Command)
    requires WritesNoted(l, all) && !c.sent && c.start == CLEARED
    ensures WritesNoted(l, all + [c])
  {
    assert |all| !in l.turn;
  }

  lemma {:induction false} PushBalanced(l: Ledger, queue: seq<Command>, c: Command)
    requires Balanced(l, queue) && !c.sent && c.start == CLEARED
    ensures Balanced(Post(l, Pushed(c)), queue + [c])
  {
    assert l.popped + (queue + [c]) == (l.popped + queue) + [c];
    NotedMore(l, l.popped + queue, c);
    assert Requests((l.popped + queue) + [c]) == Requests(l.popped + queue) + [RequestOf(c)];
  }

  lemma {:induction false} PopBalanced(l: Ledger, queue: seq<Command>)
    requires Balanced(l, queue) && queue != []
    ensures Balanced(l.(popped := l.popped + [queue[0]]), queue[1..])
  {
    assert (l.popped + [queue[0]]) + queue[1..] == l.popped + queue;
  }

  lemma {:induction false} NotedWrite(l: Ledger, all: seq<Command>, k: nat, now: TimeVal)
    requires WritesNoted(l, all) && k < |all| && !all[k].sent && forall i | 0 <= i < |l.turn| :: l.turn[i] <= k
    ensures WritesNoted(l.(written := l.written + [RequestOf(all[k])], at := l.at + [now], turn := l.turn + [k]),
                        all[k := all[k].(sent := true, start := now)])
  {
    var turn := l.turn + [k];
    forall i | 0 <= i < |l.turn| ensures l.turn[i] < k {
      assert l.turn[i] in l.turn;
    }
    forall j ensures j in turn <==> j in l.turn || j == k {}
    assert turn[|l.turn|] == k;
  }

  lemma {:induction false} SendBalanced(l: Ledger, queue: seq<Command>, now: TimeVal, bytes: string)
    requires Balanced(l, queue) && queue != [] && !queue[0].sent
    ensures Balanced(Post(l, Written(queue[0], bytes, now)), [queue[0].(sent := true, start := now)] + queue[1..])
  {
    var sent := queue[0].(sent := true, start := now);
    var all := l.popped + queue;
    NotedWrite(l, all, |l.popped|, now);
    assert l.popped + ([sent] + queue[1..]) == all[|l.popped| := sent];
    assert Requests(all[|l.popped| := sent]) == Requests(all);
  }

  lemma {:induction false} HonestSnoc(outs: seq<Out>, o: Out)
    requires Honest(outs) && Claimed(outs)
    requires o.Written? ==> Encode(o.command) == Some(o.bytes) && !o.command.sent
    requires o.TimedOut? ==> Expired(o.command, o.now)
    requires Timely(LedgerOf(outs), o)
    ensures Honest(outs + [o]) && Claimed(outs + [o])
  {
    var more := outs + [o];
    forall k | 0 <= k < |more| ensures Timely(LedgerOf(more[..k]), more[k]) {
      if k < |outs| { assert more[..k] == outs[..k]; } else { assert more[..k] == outs; }
    }
  }

  lemma {:induction false} OrderlySnoc(outs: seq<Out>, q: seq<Command>, o: Out, q': seq<Command>)
    requires Orderly(outs, q) && Balanced(Post(LedgerOf(outs), o), q')
    requires o.Written? ==> Encode(o.command) == Some(o.bytes) && !o.command.sent
    requires o.TimedOut? ==> Expired(o.command, o.now)
    requires (o.Unclaimed? ==> q == []) && (o.Written? ==> q != [])
    ensures Orderly(outs + [o], q')
  {
    LedgerSnoc(outs, o);
    HonestSnoc(outs, o);
  }

  lemma {:induction false} OrderlyPop(outs: seq<Out>, q: seq<Command>, o: Out)
    requires q != [] && Orderly(outs, q) && Dequeues(o) && o.command == q[0] && (o.TimedOut? ==> Expired(q[0], o.now))
    ensures Orderly(outs + [o], q[1..])
  {
    PopBalanced(LedgerOf(outs), q);
    OrderlySnoc(outs, q, o, q[1..]);
  }

  lemma {:induction false} OrderlyAside()
    ensures StableAside(Orderly)
  {
    forall outs: seq<Out>, q: seq<Command>, o: Out | Orderly(outs, q) && Aside(o) ensures Orderly(outs + [o], q) {
      OrderlySnoc(outs, q, o, q);
    }
  }

  lemma {:induction false} OrderlyPush()
    ensures StablePush(Orderly)
  {
    forall outs: seq<Out>, q: seq<Command>, c: Command | Orderly(outs, q) && !c.sent && c.start == CLEARED
      ensures Orderly(outs + [Pushed(c)], q + [c])
    {
      PushBalanced(LedgerOf(outs), q, c);
      OrderlySnoc(outs, q, Pushed(c), q + [c]);
    }
  }

  lemma {:induction false} OrderlyAnswer()
    ensures StableAnswer(Orderly)
  {
    forall outs: seq<Out>, q: seq<Command>, line | q != [] && Orderly(outs, q) ensures Orderly(outs + [Answered(q[0], line)], q[1..]) {
      OrderlyPop(outs, q, Answered(q[0], line));
    }
  }

  lemma {:induction false} OrderlyUnclaimed()
    ensures StableUnclaimed(Orderly)
  {
    forall outs: seq<Out>, line | Orderly(outs, []) ensures Orderly(outs + [Unclaimed(line)], []) {
      OrderlySnoc(outs, [], Unclaimed(line), []);
    }
  }

  lemma {:induction false} OrderlyTimeout()
    ensures StableTimeout(Orderly)
  {
    forall outs: seq<Out>, q: seq<Command>, now | q != [] && Orderly(outs, q) && Expired(q[0], now)
      ensures Orderly(outs + [TimedOut(q[0], now)], q[1..])
    {
      OrderlyPop(outs, q, TimedOut(q[0], now));
    }
  }

  lemma {:induction false} OrderlyWrite()
    ensures StableWrite(Orderly)
  {
    forall outs: seq<Out>, q: seq<Command>, bytes, now | q != [] && Orderly(outs, q) && !q[0].sent && Encode(q[0]) == Some(bytes)
      ensures Orderly(outs + [Written(q[0], bytes, now)], [q[0].(sent := true, start := now)] + q[1..])
    {
      SendBalanced(LedgerOf(outs), q, now, bytes);
      OrderlySnoc(outs, q, Written(q[0], bytes, now), [q[0].(sent := true, start := now)] + q[1..]);
    }
  }

  lemma {:induction false} OrderlyStable()
    ensures Stable(Orderly)
  {
    OrderlyAside();
    OrderlyPush();
    OrderlyAnswer();
    OrderlyUnclaimed();
    OrderlyTimeout();
    OrderlyWrite();
  }

  lemma {:induction false} OrderlyHeadSent(outs: seq<Out>, queue: seq<Command>)
    requires Orderly(outs, queue)
    ensures OnlyHeadSent(queue)
  {
    var l := LedgerOf(outs);
    forall i | 1 <= i < |queue| ensures !queue[i].sent {
      assert (l.popped + queue)[|l.popped| + i] == queue[i];
    }
  }

  // ----------------------------------------------------------------- the stages

  /** The property p of the daemon's output and queue. */
  ghost predicate Has(p: (seq<Out>, seq<Command>) -> bool, d: Daemon) {
    Stable(p) && p(d.outs, d.queue)
  }

  lemma {:induction false} SayKeeps(p: (seq<Out>, seq<Command>) -> bool, d: Daemon, outs: seq<Out>)
    requires Has(p, d) && forall o | o in outs :: Aside(o)
    ensures Has(p, Say(d, outs))
    decreases outs
  {
    if outs == [] {
      assert d.outs + outs == d.outs;
    } else {
      var front, last := outs[..|outs| - 1], outs[|outs| - 1];
      SayKeeps(p, d, front);
      assert d.outs + outs == (d.outs + front) + [last];
      assert Aside(last);
    }
  }

  lemma {:induction false} BroadcastResponds(clients: seq<Connection>, topic: Topic, except: int, text: string)
    ensures forall o | o in Broadcast(clients, topic, except, text) :: o.Response?
    decreases clients
  {
    if clients != [] { BroadcastResponds(clients[1..], topic, except, text); }
  }

  lemma {:induction false} ProcessCmdKeeps(p: (seq<Out>, seq<Command>) -> bool, s: Setup, d: Daemon, line: string, fd: int)
    requires Has(p, d)
    ensures Has(p, ProcessCmd(s, d, line, fd))
  {
    match Parse(line)
    case None =>
    case Some(c) =>
      if ForFirmware(c.cmd) {
        var code := Code(s.opt, c);
        var text := "Request: " + c.text;
        SayKeeps(p, d, [Response(fd, Refusal(c))]);
        var d1 := if code.None? then Say(d, [Response(fd, Refusal(c))]) else d;
        BroadcastResponds(d.clients, Topic.Requests, fd, text);
        SayKeeps(p, d1, Broadcast(d.clients, Topic.Requests, fd, text));
      }
  }

  lemma {:induction false} CopiesAside(clients: seq<Connection>, line: string, answer: string, except: int)
    ensures forall o | o in Copies(clients, line, answer, except) :: o.Response?
  {
    BroadcastResponds(clients, Errors, except, answer);
    BroadcastResponds(clients, Movements, except, answer);
    BroadcastResponds(clients, Buttons, except, answer);
    BroadcastResponds(clients, Sensors, except, answer);
  }

  lemma {:induction false} DeliverKeeps(p: (seq<Out>, seq<Command>) -> bool, d: Daemon, line: string, answer: string)
    requires Has(p, d)
    ensures Has(p, Deliver(d, line, answer))
  {
    var to := if d.queue == [] then -1 else d.queue[0].fd;
    var reply := if d.queue == [] then [] else [Response(to, answer)];
    CopiesAside(d.clients, line, answer, to);
    SayKeeps(p, d, reply);
    SayKeeps(p, Say(d, reply), Copies(d.clients, line, answer, to));
  }

  lemma {:induction false} ProcessTtyKeeps(p: (seq<Out>, seq<Command>) -> bool, s: Setup, d: Daemon, input: Input)
    requires Has(p, d)
    ensures Has(p, ProcessTty(s, d, input))
  {
    var c := LineReader.ReadLine(d.tty, input.bytes, input.end);
    if c.outcome.Line? {
      var line := FirmwareLine(c.outcome.text);
      DeliverKeeps(p, d.(tty := c.pending), line, Answer(s.opt, line));
    }
  }

  lemma {:induction false} ReadAutoKeeps(p: (seq<Out>, seq<Command>) -> bool, s: Setup, d: Daemon, input: Input)
    requires Has(p, d)
    ensures Has(p, ReadAuto(s, d, input))
  {
    var c := LineReader.ReadLine(d.auto, input.bytes, input.end);
    if c.outcome.Line? { ProcessCmdKeeps(p, s, d.(auto := c.pending), CString(c.outcome.text), s.autoFd); }
  }

  lemma {:induction false} ReadClientKeeps(p: (seq<Out>, seq<Command>) -> bool, s: Setup, d: Daemon, i: nat, input: Input)
    requires Has(p, d) && i < |d.clients|
    ensures Has(p, ReadClient(s, d, i, input))
  {
    var c := LineReader.ReadLine(d.clients[i].pending, input.bytes, input.end);
    var d1 := Buffered(d, i, c.pending);
    if c.outcome.Line? { ProcessCmdKeeps(p, s, d1, CString(c.outcome.text), d.clients[i].fd); }
    SayKeeps(p, d1, [Dropped(d.clients[i].fd)]);
  }

  lemma {:induction false} ReadClientsKeeps(p: (seq<Out>, seq<Command>) -> bool, s: Setup, d: Daemon, i: nat, lines: map<int, Input>)
    requires Has(p, d)
    ensures Has(p, ReadClients(s, d, i, lines))
    decreases |d.clients| - i
  {
    if i < |d.clients| {
      if d.clients[i].fd !in lines {
        ReadClientsKeeps(p, s, d, i + 1, lines);
      } else {
        ReadClientKeeps(p, s, d, i, lines[d.clients[i].fd]);
        var d1 := ReadClient(s, d, i, lines[d.clients[i].fd]);
        if d1.returnValue == 0 {
          ReadClientsKeeps(p, s, d1, if |d1.clients| < |d.clients| then i else i + 1, lines);
        }
      }
    }
  }

  lemma {:induction false} EndOfTurnKeeps(p: (seq<Out>, seq<Command>) -> bool, s: Setup, d: Daemon, t: Turn)
    requires Has(p, d)
    ensures Has(p, EndOfTurn(s, d, t))
  {
    var d1 := SendHead(d, t.writeOk, t.now);
    SayKeeps(p, d1, [Enabled(!d1.sampling)]);
  }

  lemma {:induction false} FromAcceptKeeps(p: (seq<Out>, seq<Command>) -> bool, s: Setup, d: Daemon, r: Round, t: Turn)
    requires Has(p, d)
    ensures Has(p, FromAccept(s, d, r, t))
  {
    var d1 := d;
    if r.accepted.Some? {
      SayKeeps(p, d, [Accepted(r.accepted.value)]);
      d1 := Accept(d, r.accepted.value);
    }
    if s.child && d1.autoOpen && r.auto.Some? {
      ReadAutoKeeps(p, s, d1, r.auto.value);
      d1 := ReadAuto(s, d1, r.auto.value);
    }
    ReadClientsKeeps(p, s, d1, 0, r.lines);
    EndOfTurnKeeps(p, s, ReadClients(s, d1, 0, r.lines), t);
  }

  /** A turn keeps whatever each move keeps. */
  lemma {:induction false} StepKeeps(p: (seq<Out>, seq<Command>) -> bool, s: Setup, d: Daemon, t: Turn)
    requires Has(p, d)
    ensures Has(p, Step(s, d, t))
  {
    match t.event
    case SelectFailed =>
    case Interrupted =>
    case Idle =>
      if d.queue != [] && Expired(d.queue[0], t.now) { EndOfTurnKeeps(p, s, PopExpired(d, t.now), t); }
    case Ready(r) =>
      if r.tty.Some? {
        ProcessTtyKeeps(p, s, d, r.tty.value);
        FromAcceptKeeps(p, s, ProcessTty(s, d, r.tty.value), r, t);
      } else {
        FromAcceptKeeps(p, s, d, r, t);
      }
  }

  lemma {:induction false} RunKeeps(p: (seq<Out>, seq<Command>) -> bool, s: Setup, d: Daemon, turns: seq<Turn>)
    requires Has(p, d)
    ensures Has(p, Run(s, d, turns))
    decreases turns
  {
    if turns != [] {
      StepKeeps(p, s, d, turns[0]);
      RunKeeps(p, s, Step(s, d, turns[0]), turns[1..]);
    }
  }

  /** EVERY RUN IS ORDERLY: what was queued is what was dequeued followed by the queue, in order. */
  lemma {:induction false} RunOrderly(s: Setup, turns: seq<Turn>)
    ensures var d := Run(s, START, turns); Orderly(d.outs, d.queue)
  {
    OrderlyStable();
    RunKeeps(Orderly, s, START, turns);
  }

  // --------------------------------------------------------- read off the output

  lemma {:induction false} LedgerGrows(outs: seq<Out>, i: nat)
    requires i <= |outs|
    ensures var l, l' := LedgerOf(outs[..i]), LedgerOf(outs);
            l.popped <= l'.popped && l.pushed <= l'.pushed && l.turn <= l'.turn && l.written <= l'.written && l.at <= l'.at
    decreases |outs| - i
  {
    if i == |outs| {
      assert outs[..i] == outs;
    } else {
      assert outs[..i + 1] == outs[..i] + [outs[i]];
      LedgerSnoc(outs[..i], outs[i]);
      LedgerGrows(outs, i + 1);
    }
  }

  /** The k-th dequeued command was dequeued somewhere. */
  lemma {:induction false} DequeuedBetween(outs: seq<Out>, i: nat, j: nat, n: nat) returns (k: nat)
    requires i <= j <= |outs| && |LedgerOf(outs[..i]).popped| <= n < |LedgerOf(outs[..j]).popped|
    ensures i <= k < j && Dequeues(outs[k]) && |LedgerOf(outs[..k]).popped| == n
    ensures LedgerOf(outs[..j]).popped[n] == outs[k].command
    decreases j
  {
    assert j > 0 by { if j == i { assert false; } }
    assert outs[..j] == outs[..j - 1] + [outs[j - 1]];
    LedgerSnoc(outs[..j - 1], outs[j - 1]);
    if n < |LedgerOf(outs[..j - 1]).popped| {
      assert i <= j - 1;
      k := DequeuedBetween(outs, i, j - 1, n);
    } else {
      k := j - 1;
    }
  }

  lemma {:induction false} WriteEntry(outs: seq<Out>, i: nat) returns (e: nat)
    requires i < |outs| && outs[i].Written?
    ensures var l, l' := LedgerOf(outs[..i]), LedgerOf(outs);
            && e == |l.turn| < |l'.turn| && l'.turn[e] == |l.popped| && |l'.written| >= |l.written| + 1
            && |LedgerOf(outs[..i + 1]).turn| == e + 1
            && LedgerOf(outs[..i + 1]).popped == l.popped
            && l'.written[|l.written|] == RequestOf(outs[i].command)
            && |l'.at| >= |l.at| + 1 && l'.at[|l.at|] == outs[i].at
  {
    e := |LedgerOf(outs[..i]).turn|;
    assert outs[..i + 1] == outs[..i] + [outs[i]];
    LedgerSnoc(outs[..i], outs[i]);
    LedgerGrows(outs, i + 1);
  }

  lemma {:induction false} SameLengths(outs: seq<Out>)
    ensures |LedgerOf(outs).turn| == |LedgerOf(outs).written| == |LedgerOf(outs).at|
    decreases outs
  {
    if outs != [] { SameLengths(outs[..|outs| - 1]); }
  }

  /** A later write is of a later command. */
  lemma {:induction false} TurnsApart(outs: seq<Out>, queue: seq<Command>, i: nat, j: nat)
    requires Balanced(LedgerOf(outs), queue) && i < j < |outs| && outs[i].Written? && outs[j].Written?
    ensures |LedgerOf(outs[..i]).popped| == |LedgerOf(outs[..i + 1]).popped| < |LedgerOf(outs[..j]).popped|
  {
    var e := WriteEntry(outs, i);
    var f := WriteEntry(outs, j);
    assert outs[..j][..i + 1] == outs[..i + 1];
    LedgerGrows(outs[..j], i + 1);
    TurnsIncrease(LedgerOf(outs), queue, e, f);
  }

  lemma {:induction false} TurnsIncrease(l: Ledger, queue: seq<Command>, e: nat, f: nat)
    requires Balanced(l, queue) && e < f < |l.turn|
    ensures l.turn[e] < l.turn[f]
  {
    assert WritesNoted(l, l.popped + queue);
  }

  /** The command of a write is the one that stood first in the queue then. */
  lemma {:induction false} WriteIsOf(outs: seq<Out>, queue: seq<Command>, i: nat)
    requires Balanced(LedgerOf(outs), queue) && i < |outs| && outs[i].Written?
    ensures var n, all := |LedgerOf(outs[..i]).popped|, LedgerOf(outs).popped + queue;
            n < |all| && RequestOf(all[n]) == RequestOf(outs[i].command)
  {
    var e := WriteEntry(outs, i);
    SameLengths(outs[..i]);
  }

  lemma {:induction false} GoneBetween(outs: seq<Out>, queue: seq<Command>, i: nat, j: nat) returns (k: nat)
    requires Orderly(outs, queue) && i < j < |outs| && outs[i].Written? && outs[j].Written?
    ensures i < k < j && Dequeues(outs[k]) && RequestOf(outs[k].command) == RequestOf(outs[i].command)
    ensures |LedgerOf(outs[..k]).popped| == |LedgerOf(outs[..i]).popped|
  {
    var n := |LedgerOf(outs[..i]).popped|;
    TurnsApart(outs, queue, i, j);
    WriteIsOf(outs, queue, i);
    k := DequeuedBetween(outs, i + 1, j, n);
    LedgerGrows(outs, j);
    assert (LedgerOf(outs).popped + queue)[n] == outs[k].command;
  }

  /** BETWEEN TWO WRITES the command written first has left the queue, timed out or taken off by some line of
      the firmware: commands are written one by one, in the order they were queued, and none of them twice. */
  lemma {:induction false} OneCommandAtATime(s: Setup, turns: seq<Turn>, i: nat, j: nat)
    requires var outs := Run(s, START, turns).outs; i < j < |outs| && outs[i].Written? && outs[j].Written?
    ensures var outs := Run(s, START, turns).outs;
            exists k :: i < k < j && Dequeues(outs[k]) && RequestOf(outs[k].command) == RequestOf(outs[i].command)
                        && |LedgerOf(outs[..k]).popped| == |LedgerOf(outs[..i]).popped|
  {
    RunOrderly(s, turns);
    var k := GoneBetween(Run(s, START, turns).outs, Run(s, START, turns).queue, i, j);
  }

  /** FIRST IN, FIRST OUT, with nothing lost and nothing made up. */
  lemma {:induction false} NothingLost(s: Setup, turns: seq<Turn>)
    ensures var d := Run(s, START, turns);
            && LedgerOf(d.outs).pushed == Requests(LedgerOf(d.outs).popped) + Requests(d.queue)
            && OnlyHeadSent(d.queue)
  {
    RunOrderly(s, turns);
    var d := Run(s, START, turns);
    OrderlyHeadSent(d.outs, d.queue);
    var popped := LedgerOf(d.outs).popped;
    assert Requests(popped + d.queue) == Requests(popped) + Requests(d.queue);
  }

  /** The e-th write was made somewhere. */
  lemma {:induction false} WriteOf(outs: seq<Out>, e: nat) returns (i: nat)
    requires e < |LedgerOf(outs).turn|
    ensures i < |outs| && outs[i].Written? && |LedgerOf(outs[..i]).turn| == e
    decreases outs
  {
    var front := outs[..|outs| - 1];
    if e < |LedgerOf(front).turn| {
      i := WriteOf(front, e);
      assert outs[..i] == front[..i];
    } else {
      i := |outs| - 1;
    }
  }

  lemma {:induction false} NotedTime(l: Ledger, all: seq<Command>, n: nat) returns (e: nat)
    requires WritesNoted(l, all) && n < |all| && all[n].sent
    ensures e < |l.turn| && |l.turn| == |l.at| == |l.written|
    ensures l.turn[e] == n && l.at[e] == all[n].start && l.written[e] == RequestOf(all[n])
  {
    e :| 0 <= e < |l.turn| && l.turn[e] == n;
  }

  /** A command dequeued at position k, as the ledger has it. */
  lemma {:induction false} NotedAt(outs: seq<Out>, queue: seq<Command>, k: nat)
    requires Orderly(outs, queue) && k < |outs| && Dequeues(outs[k])
    ensures var l, n, c := LedgerOf(outs), |LedgerOf(outs[..k]).popped|, outs[k].command;
            && n < |l.popped| && (c.sent <==> n in l.turn) && (c.sent || c.start == CLEARED)
            && (c.sent ==> exists e :: 0 <= e < |l.turn| && e < |l.at| && e < |l.written|
                                       && l.turn[e] == n && l.at[e] == c.start && l.written[e] == RequestOf(c))
  {
    var l, n := LedgerOf(outs), |LedgerOf(outs[..k]).popped|;
    PoppedAt(outs, k);
    var all := l.popped + queue;
    assert all[n] == outs[k].command;
    if all[n].sent { var e := NotedTime(l, all, n); }
  }

  lemma {:induction false} WriteAt(outs: seq<Out>, e: nat) returns (i: nat)
    requires e < |LedgerOf(outs).turn|
    ensures i < |outs| && outs[i].Written? && e < |LedgerOf(outs).at| && e < |LedgerOf(outs).written|
    ensures LedgerOf(outs).turn[e] == |LedgerOf(outs[..i]).popped|
    ensures LedgerOf(outs).at[e] == outs[i].at && LedgerOf(outs).written[e] == RequestOf(outs[i].command)
  {
    i := WriteOf(outs, e);
    var e' := WriteEntry(outs, i);
    SameLengths(outs[..i]);
  }

  /** A dequeued command bears the time of the write that carried it. */
  lemma {:induction false} TimeOfWrite(outs: seq<Out>, queue: seq<Command>, k: nat) returns (i: nat)
    requires Orderly(outs, queue) && k < |outs| && Dequeues(outs[k]) && outs[k].command.sent
    ensures i < k && outs[i].Written? && outs[i].at == outs[k].command.start
    ensures RequestOf(outs[i].command) == RequestOf(outs[k].command)
    ensures |LedgerOf(outs[..i]).popped| == |LedgerOf(outs[..k]).popped|
  {
    NotedAt(outs, queue, k);
    var l, n := LedgerOf(outs), |LedgerOf(outs[..k]).popped|;
    var e: nat :| e < |l.turn| && e < |l.at| && e < |l.written|
                  && l.turn[e] == n && l.at[e] == outs[k].command.start && l.written[e] == RequestOf(outs[k].command);
    i := WriteAt(outs, e);
    if i > k { LaterPops(outs, k, i); }
  }

  /** The command that timed out at k bears no mark and no time, or it was written, and that more than two
      seconds before. */
  ghost predicate WaitedFor(outs: seq<Out>, k: nat)
    requires k < |outs| && outs[k].TimedOut?
  {
    && (outs[k].command.sent || outs[k].command.start == CLEARED)
    && (outs[k].command.sent ==>
          exists i :: 0 <= i < k && outs[i].Written? && RequestOf(outs[i].command) == RequestOf(outs[k].command)
                      && |LedgerOf(outs[..i]).popped| == |LedgerOf(outs[..k]).popped|
                      && Before(TimeVal(outs[i].at.sec + 2, outs[i].at.usec), outs[k].now))
  }

  ghost predicate TimeoutsWait(outs: seq<Out>) {
    forall k | 0 <= k < |outs| && outs[k].TimedOut? :: WaitedFor(outs, k)
  }

  lemma {:induction false} TimeoutWaited(outs: seq<Out>, queue: seq<Command>, k: nat)
    requires Orderly(outs, queue) && k < |outs| && outs[k].TimedOut?
    ensures WaitedFor(outs, k)
  {
    assert outs[k] in outs;
    if outs[k].command.sent {
      var i := TimeOfWrite(outs, queue, k);
    } else {
      NotedAt(outs, queue, k);
    }
  }

  lemma {:induction false} OrderlyTimeoutsWait(outs: seq<Out>, queue: seq<Command>)
    requires Orderly(outs, queue)
    ensures TimeoutsWait(outs)
  {
    forall k | 0 <= k < |outs| && outs[k].TimedOut? ensures WaitedFor(outs, k) { TimeoutWaited(outs, queue, k); }
  }

  /** TIMEOUTS WAIT TWO SECONDS, in every run: a written command times out only more than two seconds after the
      write that carried it; a command that was never written has no time, so it times out on the first idle turn. */
  lemma {:induction false} TimesOutAfterWrite(s: Setup, turns: seq<Turn>)
    ensures TimeoutsWait(Run(s, START, turns).outs)
  {
    RunOrderly(s, turns);
    OrderlyTimeoutsWait(Run(s, START, turns).outs, Run(s, START, turns).queue);
  }

  lemma {:induction false} PoppedAt(outs: seq<Out>, k: nat)
    requires k < |outs| && Dequeues(outs[k])
    ensures var n := |LedgerOf(outs[..k]).popped|;
            n < |LedgerOf(outs).popped| && LedgerOf(outs).popped[n] == outs[k].command
            && |LedgerOf(outs[..k + 1]).popped| == n + 1
  {
    assert outs[..k + 1] == outs[..k] + [outs[k]];
    LedgerSnoc(outs[..k], outs[k]);
    LedgerGrows(outs, k + 1);
  }

  lemma {:induction false} LaterPops(outs: seq<Out>, k: nat, i: nat)
    requires k < i <= |outs| && Dequeues(outs[k])
    ensures |LedgerOf(outs[..k]).popped| < |LedgerOf(outs[..i]).popped|
  {
    PoppedAt(outs, k);
    assert outs[..i][..k + 1] == outs[..k + 1];
    LedgerGrows(outs[..i], k + 1);
  }
}
