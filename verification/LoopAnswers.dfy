/** Who gets what the firmware says: copies for listeners, and whether the answer to a command reaches the client
    that sent the command. */
module LoopAnswers {
  import opened Wrappers
  import opened ClientList
  import opened CommandQueue
  import opened Commands
  import opened MainLoop
  import opened LoopLedger
  import opened LoopService
  import LineReader

  /** A broadcast reaches exactly those who follow the topic, less the exception. */
  lemma {:induction false} BroadcastReaches(clients: seq<Connection>, topic: Topic, except: int, text: string, fd: int)
    ensures Response(fd, text) in Broadcast(clients, topic, except, text)
       <==> fd != except && exists i :: 0 <= i < |clients| && clients[i].fd == fd && Follows(clients[i].wants, topic)
    decreases clients
  {
    if clients != [] {
      BroadcastReaches(clients[1..], topic, except, text, fd);
      if i :| 0 <= i < |clients| && clients[i].fd == fd && Follows(clients[i].wants, topic) {
        if i > 0 { assert clients[1..][i - 1] == clients[i]; }
      }
      if i :| 0 <= i < |clients[1..]| && clients[1..][i].fd == fd && Follows(clients[1..][i].wants, topic) {
        assert clients[i + 1].fd == fd && Follows(clients[i + 1].wants, topic);
      }
    }
  }

  /** The firmware line that took the k-th out's command off the queue went to the descriptor that command came from,
      and only copies have been sent since. */
  ghost predicate Replied(opt: Options, outs: seq<Out>, k: nat)
    requires k < |outs| && outs[k].Answered?
  {
    exists j :: 0 <= j < k && outs[j] == Response(outs[k].command.fd, Answer(opt, outs[k].line))
                && forall m | j < m < k :: outs[m].Response?
  }

  ghost predicate AllReplied(opt: Options, outs: seq<Out>) {
    forall k | 0 <= k < |outs| && outs[k].Answered? :: Replied(opt, outs, k)
  }

  lemma {:induction false} RepliedKept(opt: Options, outs: seq<Out>, more: seq<Out>, k: nat)
    requires outs <= more && k < |outs| && outs[k].Answered? && Replied(opt, outs, k)
    ensures Replied(opt, more, k)
  {
    var j :| 0 <= j < k && outs[j] == Response(outs[k].command.fd, Answer(opt, outs[k].line))
             && forall m | j < m < k :: outs[m].Response?;
    assert more[j] == outs[j];
    forall m | j < m < k ensures more[m].Response? { assert more[m] == outs[m]; }
  }

  lemma {:induction false} OthersReplied(opt: Options, d: Daemon, e: Daemon, kind: Out -> bool)
    requires AllReplied(opt, d.outs) && Adds(d, e, kind) && forall o :: kind(o) ==> !o.Answered?
    ensures AllReplied(opt, e.outs)
  {
    forall k | |d.outs| <= k < |e.outs| ensures !e.outs[k].Answered? { assert kind(e.outs[k]); }
    forall k | 0 <= k < |e.outs| && e.outs[k].Answered? ensures Replied(opt, e.outs, k) {
      RepliedKept(opt, d.outs, e.outs, k);
    }
  }

  lemma {:induction false} DeliverReplies(opt: Options, d: Daemon, line: string)
    requires AllReplied(opt, d.outs)
    ensures AllReplied(opt, Deliver(d, line, Answer(opt, line)).outs)
  {
    var answer := Answer(opt, line);
    var e := Deliver(d, line, answer);
    if d.queue == [] {
      var copies := Copies(d.clients, line, answer, -1);
      CopiesAside(d.clients, line, answer, -1);
      var added := copies + [Unclaimed(line)];
      SayAdds(d, added, Outgoing);
      assert e == Say(d, added) by { assert d.outs + [] == d.outs; assert d.outs + copies + [Unclaimed(line)] == d.outs + added; }
      SayAdds(d, added, (o: Out) => !o.Answered?);
      OthersReplied(opt, d, e, (o: Out) => !o.Answered?);
    } else {
      var to := d.queue[0].fd;
      var copies := Copies(d.clients, line, answer, to);
      CopiesAside(d.clients, line, answer, to);
      OneReply(opt, d.outs, Response(to, answer), copies, Answered(d.queue[0], line));
    }
  }

  lemma {:induction false} OneReply(opt: Options, outs: seq<Out>, reply: Out, copies: seq<Out>, last: Out)
    requires AllReplied(opt, outs) && (forall o | o in copies :: o.Response?)
    requires last.Answered? && reply == Response(last.command.fd, Answer(opt, last.line))
    ensures AllReplied(opt, outs + [reply] + copies + [last])
  {
    var all := outs + [reply] + copies + [last];
    assert all[|outs|] == reply;
    forall m | |outs| < m < |all| - 1 ensures all[m].Response? { assert all[m] == copies[m - |outs| - 1]; }
    forall k | 0 <= k < |all| && all[k].Answered? ensures Replied(opt, all, k) {
      if k < |outs| { RepliedKept(opt, outs, all, k); }
    }
  }

  lemma {:induction false} FromAcceptReplies(s: Setup, d: Daemon, r: Round, t: Turn)
    requires AllReplied(s.opt, d.outs)
    ensures AllReplied(s.opt, FromAccept(s, d, r, t).outs)
  {
    var d1 := d;
    if r.accepted.Some? {
      d1 := Accept(d, r.accepted.value);
      AcceptAdds(d, r.accepted.value);
      OthersReplied(s.opt, d, d1, (o: Out) => o.Accepted?);
    }
    var d2 := d1;
    if s.child && d1.autoOpen && r.auto.Some? {
      d2 := ReadAuto(s, d1, r.auto.value);
      ReadAutoAdds(s, d1, r.auto.value);
      OthersReplied(s.opt, d1, d2, Incoming);
    }
    var d3 := ReadClients(s, d2, 0, r.lines);
    ReadClientsAdds(s, d2, 0, r.lines);
    OthersReplied(s.opt, d2, d3, Incoming);
    EndReplies(s, d3, t);
  }

  lemma {:induction false} EndReplies(s: Setup, d: Daemon, t: Turn)
    requires AllReplied(s.opt, d.outs)
    ensures AllReplied(s.opt, EndOfTurn(s, d, t).outs)
  {
    SendAdds(d, t.writeOk, t.now);
    var e := SendHead(d, t.writeOk, t.now);
    OthersReplied(s.opt, d, e, (o: Out) => o.Written?);
    SayAdds(e.(sampling := !e.sampling), [Enabled(!e.sampling)], (o: Out) => o.Enabled?);
    OthersReplied(s.opt, e.(sampling := !e.sampling), Say(e.(sampling := !e.sampling), [Enabled(!e.sampling)]), (o: Out) => o.Enabled?);
  }

  lemma {:induction false} TtyReplies(s: Setup, d: Daemon, input: Input)
    requires AllReplied(s.opt, d.outs)
    ensures AllReplied(s.opt, ProcessTty(s, d, input).outs)
  {
    var c := LineReader.ReadLine(d.tty, input.bytes, input.end);
    if c.outcome.Line? { DeliverReplies(s.opt, d.(tty := c.pending), FirmwareLine(c.outcome.text)); }
  }

  lemma {:induction false} StepReplies(s: Setup, d: Daemon, t: Turn)
    requires AllReplied(s.opt, d.outs)
    ensures AllReplied(s.opt, Step(s, d, t).outs)
  {
    match t.event
    case SelectFailed =>
    case Interrupted =>
    case Idle =>
      OthersReplied(s.opt, d, PopExpired(d, t.now).(sampling := d.sampling), (o: Out) => o.TimedOut?);
      EndReplies(s, PopExpired(d, t.now), t);
    case Ready(r) =>
      if r.tty.Some? {
        TtyReplies(s, d, r.tty.value);
        FromAcceptReplies(s, ProcessTty(s, d, r.tty.value), r, t);
      } else {
        FromAcceptReplies(s, d, r, t);
      }
  }

  /** In every run a firmware line that takes a command off the queue has just gone to the descriptor that command
      came from, whether or not it is the answer to it. */
  lemma {:induction false} LinesGoToHead(s: Setup, d: Daemon, turns: seq<Turn>)
    requires AllReplied(s.opt, d.outs)
    ensures AllReplied(s.opt, Run(s, d, turns).outs)
    decreases turns
  {
    if turns != [] {
      StepReplies(s, d, turns[0]);
      LinesGoToHead(s, Step(s, d, turns[0]), turns[1..]);
    }
  }

  // ------------------------------------------------------ answers and intruders

  /** What a line of the firmware is: the answer to the k-th write, or something nobody asked for. */
  datatype Tag = Unsolicited | AnswerTo(write: nat)

  predicate IsLine(o: Out) {
    o.Answered? || o.Unclaimed?
  }

  function LineCount(outs: seq<Out>): nat
    decreases outs
  {
    if outs == [] then 0 else LineCount(outs[..|outs| - 1]) + (if IsLine(outs[|outs| - 1]) then 1 else 0)
  }

  /** What the line at position i is, lines being tagged in the order they come. */
  function TagAt(outs: seq<Out>, tags: seq<Tag>, i: nat): Tag
    requires i <= |outs|
  {
    var n := LineCount(outs[..i]);
    if n < |tags| then tags[n] else Unsolicited
  }

  predicate Answers(outs: seq<Out>, tags: seq<Tag>, i: nat, k: nat)
    requires i < |outs|
  {
    IsLine(outs[i]) && TagAt(outs, tags, i) == AnswerTo(k)
  }

  /** The firmware answers a write only after it, and at most once. */
  ghost predicate Tagging(outs: seq<Out>, tags: seq<Tag>) {
    && (forall i, k: nat | 0 <= i < |outs| && Answers(outs, tags, i, k) :: k < |LedgerOf(outs[..i]).turn|)
    && (forall m, n | 0 <= m < n < |tags| && tags[m].AnswerTo? :: tags[m] != tags[n])
  }

  /** The k-th write was of the n-th command queued. */
  predicate Wrote(outs: seq<Out>, k: nat, n: nat) {
    k < |LedgerOf(outs).turn| && LedgerOf(outs).turn[k] == n
  }

  /** How many commands had left the queue before position i. */
  function Gone(outs: seq<Out>, i: nat): nat
    requires i <= |outs|
  {
    |LedgerOf(outs[..i]).popped|
  }

  /** The answer to the k-th write, at position i, takes the very command of that write off the queue. */
  predicate Own(outs: seq<Out>, i: nat, k: nat)
    requires i < |outs|
  {
    outs[i].Answered? && Wrote(outs, k, Gone(outs, i))
  }

  ghost predicate AllOwn(outs: seq<Out>, tags: seq<Tag>) {
    forall i, k: nat | 0 <= i < |outs| && Answers(outs, tags, i, k) :: Own(outs, i, k)
  }

  /** A timeout or an unsolicited line takes a command off the queue. */
  predicate Intrudes(outs: seq<Out>, tags: seq<Tag>, i: nat)
    requires i < |outs|
  {
    outs[i].TimedOut? || (outs[i].Answered? && TagAt(outs, tags, i) == Unsolicited)
  }

  /** An intruder takes a written command off the queue while its answer is outstanding: it comes later. */
  ghost predicate Diverted(outs: seq<Out>, tags: seq<Tag>) {
    exists i, j, k: nat :: 0 <= i < j < |outs| && Intrudes(outs, tags, i) && Answers(outs, tags, j, k) && Wrote(outs, k, Gone(outs, i))
  }

  lemma {:induction false} CountGrows(outs: seq<Out>, i: nat)
    requires i <= |outs|
    ensures LineCount(outs[..i]) <= LineCount(outs)
    decreases |outs| - i
  {
    if i == |outs| {
      assert outs[..i] == outs;
    } else {
      assert outs[..i + 1][..i] == outs[..i];
      CountGrows(outs, i + 1);
    }
  }

  lemma {:induction false} LaterLine(outs: seq<Out>, i: nat, j: nat)
    requires i < j <= |outs| && IsLine(outs[i])
    ensures LineCount(outs[..i]) < LineCount(outs[..j])
  {
    assert outs[..i + 1][..i] == outs[..i];
    assert outs[..j][..i + 1] == outs[..i + 1];
    CountGrows(outs[..j], i + 1);
  }

  /** No two lines are the answer to one write. */
  lemma {:induction false} OneAnswer(outs: seq<Out>, tags: seq<Tag>, i: nat, j: nat, k: nat)
    requires Tagging(outs, tags) && i < |outs| && j < |outs| && Answers(outs, tags, i, k) && Answers(outs, tags, j, k)
    ensures i == j
  {
    if i < j { LaterLine(outs, i, j); }
    if j < i { LaterLine(outs, j, i); }
  }

  lemma {:induction false} GoneGrows(outs: seq<Out>, i: nat, j: nat)
    requires i <= j <= |outs|
    ensures Gone(outs, i) <= Gone(outs, j)
    ensures i < j && Dequeues(outs[i]) ==> Gone(outs, i) < Gone(outs, j)
  {
    assert outs[..j][..i] == outs[..i];
    LedgerGrows(outs[..j], i);
    if i < j && Dequeues(outs[i]) { LaterPops(outs, i, j); }
  }

  /** Before its answer comes, the command of a write has been queued and was then the oldest one. */
  lemma {:induction false} WriteBefore(outs: seq<Out>, queue: seq<Command>, tags: seq<Tag>, j: nat, k: nat) returns (w: nat)
    requires Orderly(outs, queue) && Tagging(outs, tags) && j < |outs| && Answers(outs, tags, j, k)
    ensures w < j && outs[w].Written? && Wrote(outs, k, Gone(outs, w))
    ensures Gone(outs, w) <= Gone(outs, j) && Gone(outs, w) < |LedgerOf(outs[..j]).pushed|
  {
    var before := outs[..j];
    w := WriteOf(before, k);
    assert before[..w] == outs[..w];
    var e := WriteEntry(before, w);
    LedgerGrows(outs, j);
    GoneGrows(outs, w, j);
    assert Timely(LedgerOf(outs[..w]), outs[w]);
    LedgerGrows(before, w);
  }

  /** An answer that does not take its own command off the queue comes too late for it: something before it did. */
  lemma {:induction false} TakenBefore(outs: seq<Out>, queue: seq<Command>, tags: seq<Tag>, j: nat, k: nat) returns (i: nat)
    requires Orderly(outs, queue) && Tagging(outs, tags) && j < |outs| && Answers(outs, tags, j, k) && !Own(outs, j, k)
    ensures i < j && Dequeues(outs[i]) && Wrote(outs, k, Gone(outs, i))
  {
    var w := WriteBefore(outs, queue, tags, j, k);
    var n := Gone(outs, w);
    assert Timely(LedgerOf(outs[..j]), outs[j]);
    assert Gone(outs, j) > n;
    i := DequeuedBetween(outs, w, j, n);
  }

  /** The answers before position j take their own commands: then so does the one at j, or it was diverted. */
  lemma {:induction false} OwnUpTo(outs: seq<Out>, queue: seq<Command>, tags: seq<Tag>, j: nat, k: nat)
    requires Orderly(outs, queue) && Tagging(outs, tags) && !Diverted(outs, tags)
    requires j < |outs| && Answers(outs, tags, j, k)
    ensures Own(outs, j, k)
    decreases j
  {
    if !Own(outs, j, k) {
      var i := TakenBefore(outs, queue, tags, j, k);
      if !Intrudes(outs, tags, i) {
        var k' := TagAt(outs, tags, i).write;
        OwnUpTo(outs, queue, tags, i, k');
        SameWrite(outs, queue, k, k', Gone(outs, i));
        OneAnswer(outs, tags, i, j, k);
      }
    }
  }

  lemma SameWrite(outs: seq<Out>, queue: seq<Command>, k: nat, k': nat, n: nat)
    requires Orderly(outs, queue) && Wrote(outs, k, n) && Wrote(outs, k', n)
    ensures k == k'
  {
  }

  /** EXACTLY WHEN ANSWERS GO ASTRAY, in any run and for any firmware: every answer takes the command it answers
      off the queue if and only if no timeout and no unsolicited line takes a written command off whose answer is
      still outstanding. */
  lemma {:induction false} AllOwnIffNotDiverted(outs: seq<Out>, queue: seq<Command>, tags: seq<Tag>)
    requires Orderly(outs, queue) && Tagging(outs, tags)
    ensures AllOwn(outs, tags) <==> !Diverted(outs, tags)
  {
    if Diverted(outs, tags) {
      var i, j, k: nat :| 0 <= i < j < |outs| && Intrudes(outs, tags, i) && Answers(outs, tags, j, k) && Wrote(outs, k, Gone(outs, i));
      GoneGrows(outs, i, j);
      assert !Own(outs, j, k);
    } else {
      forall j, k: nat | 0 <= j < |outs| && Answers(outs, tags, j, k) ensures Own(outs, j, k) {
        OwnUpTo(outs, queue, tags, j, k);
      }
    }
  }

  /** An answer that takes its own command off the queue has gone to the descriptor that command came from. */
  lemma {:induction false} OwnReachesDescriptor(opt: Options, outs: seq<Out>, queue: seq<Command>, j: nat, k: nat)
    requires Orderly(outs, queue) && AllReplied(opt, outs) && j < |outs| && Own(outs, j, k)
    ensures k < |LedgerOf(outs).written|
    ensures exists m :: 0 <= m < j && outs[m] == Response(LedgerOf(outs).written[k].fd, Answer(opt, outs[j].line))
  {
    var l := LedgerOf(outs);
    PoppedAt(outs, j);
    var all := l.popped + queue;
    assert all[l.turn[k]] == outs[j].command;
    assert Replied(opt, outs, j);
  }

  /** In any run every answer goes to the descriptor its command came from if no intruder takes a written command off
      the queue whose answer is outstanding; if one does, some answer does not even take its own command off. */
  lemma {:induction false} AnswersGoToDescriptors(s: Setup, turns: seq<Turn>, tags: seq<Tag>)
    requires Tagging(Run(s, START, turns).outs, tags)
    ensures var outs := Run(s, START, turns).outs;
            && (AllOwn(outs, tags) <==> !Diverted(outs, tags))
            && (!Diverted(outs, tags) ==>
                  forall j, k: nat | 0 <= j < |outs| && Answers(outs, tags, j, k) ::
                    k < |LedgerOf(outs).written|
                    && exists m :: 0 <= m < j && outs[m] == Response(LedgerOf(outs).written[k].fd, Answer(s.opt, outs[j].line)))
  {
    var d := Run(s, START, turns);
    RunOrderly(s, turns);
    LinesGoToHead(s, START, turns);
    AllOwnIffNotDiverted(d.outs, d.queue, tags);
    if !Diverted(d.outs, tags) {
      forall j, k: nat | 0 <= j < |d.outs| && Answers(d.outs, tags, j, k)
        ensures k < |LedgerOf(d.outs).written|
        ensures exists m :: 0 <= m < j && d.outs[m] == Response(LedgerOf(d.outs).written[k].fd, Answer(s.opt, d.outs[j].line))
      {
        OwnReachesDescriptor(s.opt, d.outs, d.queue, j, k);
      }
    }
  }

  // ------------------------------------------------- when every write is answered

  ghost predicate GetsAnswered(outs: seq<Out>, tags: seq<Tag>, k: nat) {
    exists j :: 0 <= j < |outs| && Answers(outs, tags, j, k)
  }

  ghost predicate EveryWriteAnswered(outs: seq<Out>, tags: seq<Tag>) {
    forall k: nat | k < |LedgerOf(outs).turn| :: GetsAnswered(outs, tags, k)
  }

  /** No timeout and no unsolicited line comes while a written command is the oldest one. */
  ghost predicate NoIntruder(outs: seq<Out>, tags: seq<Tag>) {
    forall i | 0 <= i < |outs| && Intrudes(outs, tags, i) :: !outs[i].command.sent
  }

  /** In a run in which every write is answered some time, answers take their own commands off the queue if and only if
      no timeout and no unsolicited line comes while a written command is the oldest one. */
  lemma {:induction false} AnsweredRunIffNoIntruder(s: Setup, turns: seq<Turn>, tags: seq<Tag>)
    requires var outs := Run(s, START, turns).outs; Tagging(outs, tags) && EveryWriteAnswered(outs, tags)
    ensures var outs := Run(s, START, turns).outs; AllOwn(outs, tags) <==> NoIntruder(outs, tags)
  {
    var d := Run(s, START, turns);
    RunOrderly(s, turns);
    AllOwnIffNotDiverted(d.outs, d.queue, tags);
    DivertedIffIntruder(d.outs, d.queue, tags);
  }

  lemma {:induction false} DivertedIffIntruder(outs: seq<Out>, queue: seq<Command>, tags: seq<Tag>)
    requires Orderly(outs, queue) && Tagging(outs, tags) && EveryWriteAnswered(outs, tags)
    ensures Diverted(outs, tags) <==> !NoIntruder(outs, tags)
  {
    if Diverted(outs, tags) {
      var i, j, k: nat :| 0 <= i < j < |outs| && Intrudes(outs, tags, i) && Answers(outs, tags, j, k) && Wrote(outs, k, Gone(outs, i));
      IntruderTookWritten(outs, queue, i);
      assert Gone(outs, i) in LedgerOf(outs).turn;
    } else if i :| 0 <= i < |outs| && Intrudes(outs, tags, i) && outs[i].command.sent {
      IntruderDiverts(outs, queue, tags, i);
    }
  }

  lemma {:induction false} IntruderDiverts(outs: seq<Out>, queue: seq<Command>, tags: seq<Tag>, i: nat)
    requires Orderly(outs, queue) && Tagging(outs, tags) && EveryWriteAnswered(outs, tags)
    requires i < |outs| && Intrudes(outs, tags, i) && outs[i].command.sent
    ensures Diverted(outs, tags)
  {
    IntruderTookWritten(outs, queue, i);
    var k: nat :| k < |LedgerOf(outs).turn| && LedgerOf(outs).turn[k] == Gone(outs, i);
    assert GetsAnswered(outs, tags, k);
    var j :| 0 <= j < |outs| && Answers(outs, tags, j, k);
    if j < i {
      GoneGrows(outs, j, i);
      AllOwnIffNotDiverted(outs, queue, tags);
    } else {
      assert i < j;
    }
  }

  lemma {:induction false} IntruderTookWritten(outs: seq<Out>, queue: seq<Command>, i: nat)
    requires Orderly(outs, queue) && i < |outs| && Dequeues(outs[i])
    ensures outs[i].command.sent <==> Gone(outs, i) in LedgerOf(outs).turn
  {
    NotedAt(outs, queue, i);
  }
}
