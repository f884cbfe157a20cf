/** Whether the answer to a command reaches the very connection that sent it: a connection can be closed while its
    command is queued, and its descriptor can be given to the next one. */
module LoopConnections {
  import opened Wrappers
  import opened ClientList
  import opened CommandQueue
  import opened Commands
  import opened MainLoop
  import opened LoopLedger
  import opened LoopService
  import opened LoopAnswers
  import LineReader

  /** The connection on a descriptor, named by the place in the output at which it was accepted; -1 if there is none. */
  function HolderOf(outs: seq<Out>, fd: int): (h: int)
    ensures -1 <= h < |outs| && (h >= 0 ==> outs[h] == Accepted(fd))
    decreases outs
  {
    if outs == [] then -1 else
      var front, o := outs[..|outs| - 1], outs[|outs| - 1];
      if o == Accepted(fd) then |front| else if o == Dropped(fd) then -1 else HolderOf(front, fd)
  }

  /** A new connection gets a free descriptor, what is dropped was connected, and commands come from a connection or
      from the sampling process's pipe, which is never closed. */
  predicate Lawful(autoFd: int, outs: seq<Out>, o: Out) {
    && (o.Accepted? ==> o.fd != autoFd && HolderOf(outs, o.fd) == -1)
    && (o.Dropped? ==> HolderOf(outs, o.fd) >= 0)
    && (o.Pushed? ==> o.command.fd == autoFd || HolderOf(outs, o.command.fd) >= 0)
  }

  ghost predicate AllLawful(autoFd: int, outs: seq<Out>) {
    forall k | 0 <= k < |outs| :: Lawful(autoFd, outs[..k], outs[k])
  }

  predicate OnList(clients: seq<Connection>, fd: int) {
    exists i :: 0 <= i < |clients| && clients[i].fd == fd
  }

  /** The list of clients holds exactly the open connections, one for each descriptor. */
  ghost predicate ListIs(outs: seq<Out>, clients: seq<Connection>) {
    && DistinctFds(clients)
    && (forall fd :: HolderOf(outs, fd) >= 0 <==> OnList(clients, fd))
  }

  ghost predicate Connected(s: Setup, d: Daemon) {
    AllLawful(s.autoFd, d.outs) && ListIs(d.outs, d.clients) && !OnList(d.clients, s.autoFd)
  }

  /** What neither opens nor closes a connection nor queues anything. */
  predicate Plain(o: Out) {
    !o.Accepted? && !o.Dropped? && !o.Pushed?
  }

  predicate SameFds(x: seq<Connection>, y: seq<Connection>) {
    |x| == |y| && forall i | 0 <= i < |x| :: x[i].fd == y[i].fd
  }

  // -------------------------------------------------------------- out by out

  lemma {:induction false} HolderSnoc(outs: seq<Out>, o: Out, fd: int)
    ensures HolderOf(outs + [o], fd) == if o == Accepted(fd) then |outs| else if o == Dropped(fd) then -1 else HolderOf(outs, fd)
  {
    assert (outs + [o])[..|outs|] == outs;
  }

  lemma {:induction false} LawfulSnoc(autoFd: int, outs: seq<Out>, o: Out)
    requires AllLawful(autoFd, outs) && Lawful(autoFd, outs, o)
    ensures AllLawful(autoFd, outs + [o])
  {
    var all := outs + [o];
    forall k | 0 <= k < |all| ensures Lawful(autoFd, all[..k], all[k]) {
      if k < |outs| { assert all[..k] == outs[..k]; } else { assert all[..k] == outs; }
    }
  }

  lemma {:induction false} SameList(outs: seq<Out>, more: seq<Out>, x: seq<Connection>, y: seq<Connection>)
    requires ListIs(outs, x) && SameFds(x, y) && forall fd :: HolderOf(more, fd) == HolderOf(outs, fd)
    ensures ListIs(more, y) && forall fd :: OnList(y, fd) <==> OnList(x, fd)
  {
    forall fd ensures OnList(y, fd) <==> OnList(x, fd) {
      if i :| 0 <= i < |x| && x[i].fd == fd { assert y[i].fd == fd; }
      if i :| 0 <= i < |y| && y[i].fd == fd { assert x[i].fd == fd; }
    }
  }

  lemma {:induction false} PlainHolder(outs: seq<Out>, more: seq<Out>, fd: int)
    requires outs <= more && forall k | |outs| <= k < |more| :: Plain(more[k])
    ensures HolderOf(more, fd) == HolderOf(outs, fd)
    decreases |more|
  {
    if |outs| < |more| {
      PlainHolder(outs, more[..|more| - 1], fd);
      assert Plain(more[|more| - 1]);
    } else {
      assert more == outs;
    }
  }

  lemma {:induction false} PlainLawful(autoFd: int, outs: seq<Out>, more: seq<Out>)
    requires AllLawful(autoFd, outs) && outs <= more && forall k | |outs| <= k < |more| :: Plain(more[k])
    ensures AllLawful(autoFd, more)
  {
    forall k | 0 <= k < |more| ensures Lawful(autoFd, more[..k], more[k]) {
      if k < |outs| { assert more[..k] == outs[..k] && more[k] == outs[k]; } else { assert Plain(more[k]); }
    }
  }

  lemma {:induction false} PlainOuts(autoFd: int, outs: seq<Out>, more: seq<Out>)
    requires AllLawful(autoFd, outs) && outs <= more && forall k | |outs| <= k < |more| :: Plain(more[k])
    ensures AllLawful(autoFd, more) && forall fd :: HolderOf(more, fd) == HolderOf(outs, fd)
  {
    PlainLawful(autoFd, outs, more);
    forall fd ensures HolderOf(more, fd) == HolderOf(outs, fd) { PlainHolder(outs, more, fd); }
  }

  lemma {:induction false} PlainKeeps(s: Setup, d: Daemon, e: Daemon, kind: Out -> bool)
    requires Connected(s, d) && Adds(d, e, kind) && (forall o :: kind(o) ==> Plain(o)) && SameFds(d.clients, e.clients)
    ensures Connected(s, e)
  {
    PlainOuts(s.autoFd, d.outs, e.outs);
    SameList(d.outs, e.outs, d.clients, e.clients);
  }

  lemma {:induction false} ResponsesKeep(s: Setup, d: Daemon, outs: seq<Out>)
    requires Connected(s, d) && forall o | o in outs :: o.Response?
    ensures Connected(s, Say(d, outs))
  {
    SayAdds(d, outs, (o: Out) => o.Response?);
    PlainKeeps(s, d, Say(d, outs), (o: Out) => o.Response?);
  }

  lemma {:induction false} PushConnected(s: Setup, d: Daemon, c: Command)
    requires Connected(s, d) && (c.fd == s.autoFd || OnList(d.clients, c.fd))
    ensures Connected(s, Push(d, c))
  {
    LawfulSnoc(s.autoFd, d.outs, Pushed(c));
    forall fd ensures HolderOf(d.outs + [Pushed(c)], fd) == HolderOf(d.outs, fd) { HolderSnoc(d.outs, Pushed(c), fd); }
    SameList(d.outs, d.outs + [Pushed(c)], d.clients, d.clients);
  }

  lemma {:induction false} AcceptConnected(s: Setup, d: Daemon, fd: int)
    requires Connected(s, d) && fd != s.autoFd && !OnList(d.clients, fd)
    ensures Connected(s, Accept(d, fd))
  {
    if fd >= 0 {
      LawfulSnoc(s.autoFd, d.outs, Accepted(fd));
      ListedMore(d.outs, d.clients, Connection(fd, NOTHING, []));
      OneMore(d.clients, Connection(fd, NOTHING, []), s.autoFd);
    }
  }

  lemma {:induction false} ListedMore(outs: seq<Out>, clients: seq<Connection>, c: Connection)
    requires ListIs(outs, clients) && !OnList(clients, c.fd)
    ensures ListIs(outs + [Accepted(c.fd)], clients + [c])
  {
    var all := clients + [c];
    forall g ensures HolderOf(outs + [Accepted(c.fd)], g) >= 0 <==> OnList(all, g) {
      HolderSnoc(outs, Accepted(c.fd), g);
      OneMore(clients, c, g);
    }
    forall i, j | 0 <= i < j < |all| ensures all[i].fd != all[j].fd {
      if j == |clients| { assert clients[i].fd != c.fd; }
    }
  }

  lemma {:induction false} OneMore(clients: seq<Connection>, c: Connection, fd: int)
    ensures OnList(clients + [c], fd) <==> OnList(clients, fd) || c.fd == fd
  {
    var all := clients + [c];
    assert all[|clients|] == c;
    if i :| 0 <= i < |clients| && clients[i].fd == fd { assert all[i].fd == fd; }
  }

  lemma {:induction false} DropConnected(s: Setup, d: Daemon, fd: int)
    requires Connected(s, d) && OnList(d.clients, fd)
    ensures Connected(s, Say(d.(clients := Without(d.clients, fd)), [Dropped(fd)]))
  {
    var rest, outs := Without(d.clients, fd), d.outs + [Dropped(fd)];
    LawfulSnoc(s.autoFd, d.outs, Dropped(fd));
    forall g ensures HolderOf(outs, g) >= 0 <==> OnList(rest, g) {
      HolderSnoc(d.outs, Dropped(fd), g);
      OneFewer(d.clients, fd, g);
    }
    OneFewer(d.clients, fd, s.autoFd);
  }

  lemma {:induction false} OneFewer(clients: seq<Connection>, fd: int, g: int)
    requires DistinctFds(clients) && OnList(clients, fd)
    ensures DistinctFds(Without(clients, fd))
    ensures OnList(Without(clients, fd), g) <==> OnList(clients, g) && g != fd
  {
    var p :| 0 <= p < |clients| && clients[p].fd == fd;
    PositionIs(clients, fd, p);
    CutOut(clients, p, g);
  }

  lemma {:induction false} CutOut(clients: seq<Connection>, p: nat, g: int)
    requires p < |clients| && DistinctFds(clients)
    ensures DistinctFds(clients[..p] + clients[p + 1..])
    ensures OnList(clients[..p] + clients[p + 1..], g) <==> OnList(clients, g) && g != clients[p].fd
  {
    var rest := clients[..p] + clients[p + 1..];
    forall i | 0 <= i < |rest| ensures rest[i] == clients[if i < p then i else i + 1] {}
    if OnList(clients, g) && g != clients[p].fd {
      var i :| 0 <= i < |clients| && clients[i].fd == g;
      assert rest[if i < p then i else i - 1].fd == g;
    }
    if i :| 0 <= i < |rest| && rest[i].fd == g {
      var at := if i < p then i else i + 1;
      assert clients[at].fd == g && at != p;
    }
  }

  // ------------------------------------------------------------ stage by stage

  lemma {:induction false} ProcessCmdConnected(s: Setup, d: Daemon, line: string, fd: int)
    requires Connected(s, d) && (fd == s.autoFd || OnList(d.clients, fd))
    ensures Connected(s, ProcessCmd(s, d, line, fd)) && SameFds(d.clients, ProcessCmd(s, d, line, fd).clients)
  {
    match Parse(line)
    case None =>
    case Some(p) =>
      if ForFirmware(p.cmd) {
        var code := Code(s.opt, p);
        var d1 := if code.None? then Say(d, [Response(fd, Refusal(p))]) else d;
        var copies := Broadcast(d.clients, Requests, fd, "Request: " + p.text);
        BroadcastResponds(d.clients, Requests, fd, "Request: " + p.text);
        ResponsesKeep(s, d, [Response(fd, Refusal(p))]);
        ResponsesKeep(s, d1, copies);
        PushConnected(s, Say(d1, copies), Command(fd, p.cmd, code, false, CLEARED));
      } else if p.cmd == CmdId.Listen {
        PlainKeeps(s, d, d.(clients := MainLoop.Listen(d.clients, fd, p.param)), (o: Out) => o.Response?);
      }
  }

  lemma {:induction false} ReadAutoConnected(s: Setup, d: Daemon, input: Input)
    requires Connected(s, d)
    ensures Connected(s, ReadAuto(s, d, input))
  {
    var c := LineReader.ReadLine(d.auto, input.bytes, input.end);
    if c.outcome.Line? { ProcessCmdConnected(s, d.(auto := c.pending), CString(c.outcome.text), s.autoFd); }
  }

  lemma {:induction false} ReadClientConnected(s: Setup, d: Daemon, i: nat, input: Input)
    requires Connected(s, d) && i < |d.clients|
    ensures Connected(s, ReadClient(s, d, i, input))
  {
    var c, fd := LineReader.ReadLine(d.clients[i].pending, input.bytes, input.end), d.clients[i].fd;
    var d1 := Buffered(d, i, c.pending);
    PlainKeeps(s, d, d1, (o: Out) => o.Response?);
    assert d1.clients[i].fd == fd;
    assert OnList(d1.clients, fd);
    match c.outcome
    case NoLine =>
    case Line(raw) => ProcessCmdConnected(s, d1, CString(raw), fd);
    case Closed => DropConnected(s, d1, fd);
    case Failed =>
  }

  lemma {:induction false} ReadClientsConnected(s: Setup, d: Daemon, i: nat, lines: map<int, Input>)
    requires Connected(s, d)
    ensures Connected(s, ReadClients(s, d, i, lines))
    decreases |d.clients| - i
  {
    if i < |d.clients| {
      if d.clients[i].fd !in lines {
        ReadClientsConnected(s, d, i + 1, lines);
      } else {
        var d1 := ReadClient(s, d, i, lines[d.clients[i].fd]);
        ReadClientConnected(s, d, i, lines[d.clients[i].fd]);
        if d1.returnValue == 0 {
          ReadClientsConnected(s, d1, if |d1.clients| < |d.clients| then i else i + 1, lines);
        }
      }
    }
  }

  lemma {:induction false} EndConnected(s: Setup, d: Daemon, t: Turn)
    requires Connected(s, d)
    ensures Connected(s, EndOfTurn(s, d, t))
  {
    var e := SendHead(d, t.writeOk, t.now);
    SendAdds(d, t.writeOk, t.now);
    PlainKeeps(s, d, e, (o: Out) => o.Written?);
    var f := e.(sampling := !e.sampling);
    SayAdds(f, [Enabled(f.sampling)], (o: Out) => o.Enabled?);
    PlainKeeps(s, f, Say(f, [Enabled(f.sampling)]), (o: Out) => o.Enabled?);
  }

  /** accept never returns a descriptor that is in use. */
  predicate NewIsUnused(s: Setup, d: Daemon, t: Turn) {
    d.returnValue == 0 && t.event.Ready? && t.event.round.accepted.Some?
    ==> t.event.round.accepted.value != s.autoFd && !OnList(d.clients, t.event.round.accepted.value)
  }

  predicate Unused(s: Setup, d: Daemon, turns: seq<Turn>)
    decreases turns
  {
    turns == [] || (NewIsUnused(s, d, turns[0]) && Unused(s, Step(s, d, turns[0]), turns[1..]))
  }

  lemma {:induction false} FromAcceptConnected(s: Setup, d: Daemon, r: Round, t: Turn)
    requires Connected(s, d)
    requires r.accepted.Some? ==> r.accepted.value != s.autoFd && !OnList(d.clients, r.accepted.value)
    ensures Connected(s, FromAccept(s, d, r, t))
  {
    var d1 := d;
    if r.accepted.Some? {
      AcceptConnected(s, d, r.accepted.value);
      d1 := Accept(d, r.accepted.value);
    }
    var d2 := d1;
    if s.child && d1.autoOpen && r.auto.Some? {
      ReadAutoConnected(s, d1, r.auto.value);
      d2 := ReadAuto(s, d1, r.auto.value);
    }
    ReadClientsConnected(s, d2, 0, r.lines);
    EndConnected(s, ReadClients(s, d2, 0, r.lines), t);
  }

  lemma {:induction false} StepConnected(s: Setup, d: Daemon, t: Turn)
    requires Connected(s, d) && NewIsUnused(s, d, t)
    ensures Connected(s, Step(s, d, t))
  {
    match t.event
    case SelectFailed =>
    case Interrupted =>
    case Idle =>
      if d.returnValue == 0 && d.queue != [] && Expired(d.queue[0], t.now) {
        PlainKeeps(s, d, PopExpired(d, t.now), (o: Out) => o.TimedOut?);
        EndConnected(s, PopExpired(d, t.now), t);
      }
    case Ready(r) =>
      if d.returnValue == 0 && !r.stop {
        if r.tty.Some? {
          var d1 := ProcessTty(s, d, r.tty.value);
          TtyEffect(s, d, r.tty.value);
          PlainKeeps(s, d, d1, Outgoing);
          FromAcceptConnected(s, d1, r, t);
        } else {
          FromAcceptConnected(s, d, r, t);
        }
      }
  }

  /** In every run the list of clients is exactly the connections accepted and not yet dropped. */
  lemma {:induction false} RunConnected(s: Setup, d: Daemon, turns: seq<Turn>)
    requires Connected(s, d) && Unused(s, d, turns)
    ensures Connected(s, Run(s, d, turns))
    decreases turns
  {
    if turns != [] {
      StepConnected(s, d, turns[0]);
      RunConnected(s, Step(s, d, turns[0]), turns[1..]);
    }
  }

  // ---------------------------------------------------------- who sent, who gets

  /** Where the n-th command was queued. */
  function PushAt(outs: seq<Out>, n: nat): (p: nat)
    requires n < |LedgerOf(outs).pushed|
    ensures p < |outs| && outs[p].Pushed? && RequestOf(outs[p].command) == LedgerOf(outs).pushed[n]
    ensures |LedgerOf(outs[..p]).pushed| == n
    decreases outs
  {
    var front := outs[..|outs| - 1];
    if n < |LedgerOf(front).pushed| then
      var p := PushAt(front, n);
      assert front[..p] == outs[..p];
      p
    else |front|
  }

  /** The connection that sent the n-th command; -1 for the sampling process. */
  function SenderOf(outs: seq<Out>, n: nat): int
    requires n < |LedgerOf(outs).pushed|
  {
    var p := PushAt(outs, n);
    HolderOf(outs[..p], outs[p].command.fd)
  }

  /** The line at j has just gone out, and the connection that got it is the one that sent the command of the k-th write. */
  ghost predicate SentBack(opt: Options, outs: seq<Out>, j: nat, k: nat, m: nat)
    requires j < |outs| && IsLine(outs[j])
  {
    var l := LedgerOf(outs);
    && k < |l.written| && k < |l.turn| && l.turn[k] < |l.pushed|
    && m < j && outs[m] == Response(l.written[k].fd, Answer(opt, outs[j].line)) && (forall i | m < i < j :: outs[i].Response?)
    && HolderOf(outs[..m], l.written[k].fd) == SenderOf(outs, l.turn[k])
  }

  /** The answer to the k-th write, at j, takes its own command off the queue and goes to the very connection that
      sent that command. */
  ghost predicate Reaches(opt: Options, outs: seq<Out>, j: nat, k: nat)
    requires j < |outs| && IsLine(outs[j])
  {
    Own(outs, j, k) && exists m: nat :: SentBack(opt, outs, j, k, m)
  }

  ghost predicate AllReach(opt: Options, outs: seq<Out>, tags: seq<Tag>) {
    forall j, k: nat | 0 <= j < |outs| && Answers(outs, tags, j, k) :: Reaches(opt, outs, j, k)
  }

  /** The connection that sent the command of the k-th write was closed, at i, before the answer at j. */
  ghost predicate ClosedBefore(outs: seq<Out>, i: nat, j: nat, k: nat) {
    var l := LedgerOf(outs);
    && k < |l.turn| && k < |l.written| && l.turn[k] < |l.pushed|
    && PushAt(outs, l.turn[k]) < i < j && i < |outs| && outs[i] == Dropped(l.written[k].fd)
  }

  /** Some answer comes after the connection that asked has been closed. */
  ghost predicate Orphaned(outs: seq<Out>, tags: seq<Tag>) {
    exists i: nat, j: nat, k: nat :: j < |outs| && Answers(outs, tags, j, k) && ClosedBefore(outs, i, j, k)
  }

  lemma {:induction false} PipeStays(autoFd: int, outs: seq<Out>)
    requires AllLawful(autoFd, outs)
    ensures HolderOf(outs, autoFd) == -1
    decreases outs
  {
    if outs != [] {
      var front := outs[..|outs| - 1];
      LawfulFront(autoFd, outs, |front|);
      PipeStays(autoFd, front);
      assert Lawful(autoFd, outs[..|front|], outs[|front|]);
    }
  }

  lemma {:induction false} LawfulFront(autoFd: int, outs: seq<Out>, n: nat)
    requires AllLawful(autoFd, outs) && n <= |outs|
    ensures AllLawful(autoFd, outs[..n])
  {
    forall k | 0 <= k < n ensures Lawful(autoFd, outs[..n][..k], outs[..n][k]) {
      assert outs[..n][..k] == outs[..k];
      assert Lawful(autoFd, outs[..k], outs[k]);
    }
  }

  /** A connection that is not closed keeps its descriptor to itself. */
  lemma {:induction false} HolderStays(autoFd: int, outs: seq<Out>, p: nat, m: nat, fd: int)
    requires AllLawful(autoFd, outs) && p <= m <= |outs| && HolderOf(outs[..p], fd) >= 0
    requires forall i | p <= i < m :: outs[i] != Dropped(fd)
    ensures HolderOf(outs[..m], fd) == HolderOf(outs[..p], fd)
    decreases m
  {
    if p < m {
      HolderStays(autoFd, outs, p, m - 1, fd);
      assert Lawful(autoFd, outs[..m - 1], outs[m - 1]);
      assert outs[..m] == outs[..m - 1] + [outs[m - 1]];
      HolderSnoc(outs[..m - 1], outs[m - 1], fd);
    }
  }

  /** Once it is closed it never comes back: the descriptor is free or belongs to a later one. */
  lemma {:induction false} HolderGone(outs: seq<Out>, i: nat, m: nat, fd: int)
    requires i < m <= |outs| && outs[i] == Dropped(fd)
    ensures HolderOf(outs[..m], fd) == -1 || HolderOf(outs[..m], fd) > i
    decreases m
  {
    assert outs[..m] == outs[..m - 1] + [outs[m - 1]];
    HolderSnoc(outs[..m - 1], outs[m - 1], fd);
    if i < m - 1 { HolderGone(outs, i, m - 1, fd); }
  }

  lemma {:induction false} PushBefore(outs: seq<Out>, n: nat, j: nat)
    requires j <= |outs| && n < |LedgerOf(outs[..j]).pushed|
    ensures n < |LedgerOf(outs).pushed| && PushAt(outs, n) < j
  {
    LedgerGrows(outs, j);
    var p := PushAt(outs, n);
    if j <= p {
      assert outs[..p][..j] == outs[..j];
      LedgerGrows(outs[..p], j);
      assert false;
    }
  }

  /** The command of the k-th write was queued before j, by whoever the write names. */
  ghost predicate AskedFor(outs: seq<Out>, j: nat, k: nat) {
    var l := LedgerOf(outs);
    && k < |l.turn| && k < |l.written| && l.turn[k] < |l.pushed| && PushAt(outs, l.turn[k]) < j
    && outs[PushAt(outs, l.turn[k])].command.fd == l.written[k].fd
  }

  lemma {:induction false} AskedBefore(outs: seq<Out>, queue: seq<Command>, tags: seq<Tag>, j: nat, k: nat)
    requires Orderly(outs, queue) && Tagging(outs, tags) && j < |outs| && Answers(outs, tags, j, k)
    ensures AskedFor(outs, j, k)
  {
    var w := WriteBefore(outs, queue, tags, j, k);
    PushBefore(outs, Gone(outs, w), j);
    WrittenIsPushed(LedgerOf(outs), queue, k);
  }

  lemma WrittenIsPushed(l: Ledger, queue: seq<Command>, k: nat)
    requires Balanced(l, queue) && k < |l.turn|
    ensures k < |l.written| && l.turn[k] < |l.pushed| && l.written[k] == l.pushed[l.turn[k]]
  {
  }

  lemma {:induction false} HolderAgrees(autoFd: int, outs: seq<Out>, p: nat, m: nat, fd: int)
    requires AllLawful(autoFd, outs) && p <= m <= |outs| && p < |outs| && outs[p].Pushed? && outs[p].command.fd == fd
    requires forall i | p <= i < m :: outs[i] != Dropped(fd)
    ensures HolderOf(outs[..m], fd) == HolderOf(outs[..p], fd)
  {
    assert Lawful(autoFd, outs[..p], outs[p]);
    if fd == autoFd {
      LawfulFront(autoFd, outs, p);
      LawfulFront(autoFd, outs, m);
      PipeStays(autoFd, outs[..p]);
      PipeStays(autoFd, outs[..m]);
    } else {
      HolderStays(autoFd, outs, p, m, fd);
    }
  }

  lemma {:induction false} HolderDiffers(autoFd: int, outs: seq<Out>, p: nat, i: nat, m: nat, fd: int)
    requires AllLawful(autoFd, outs) && p < i < m <= |outs| && outs[p].Pushed? && outs[p].command.fd == fd
    requires outs[i] == Dropped(fd)
    ensures HolderOf(outs[..m], fd) != HolderOf(outs[..p], fd)
  {
    assert Lawful(autoFd, outs[..p], outs[p]) && Lawful(autoFd, outs[..i], outs[i]);
    LawfulFront(autoFd, outs, i);
    PipeStays(autoFd, outs[..i]);
    HolderGone(outs, i, m, fd);
  }

  /** If the connection is still there when its answer comes, the answer goes to it. */
  lemma {:induction false} StillThere(opt: Options, autoFd: int, outs: seq<Out>, queue: seq<Command>, tags: seq<Tag>, j: nat, k: nat)
    requires Orderly(outs, queue) && Tagging(outs, tags) && AllReplied(opt, outs) && AllLawful(autoFd, outs)
    requires j < |outs| && Answers(outs, tags, j, k) && Own(outs, j, k) && !Orphaned(outs, tags)
    ensures Reaches(opt, outs, j, k)
  {
    AskedBefore(outs, queue, tags, j, k);
    var m := ReplyTo(opt, outs, queue, j, k);
    assert forall i: nat :: !ClosedBefore(outs, i, j, k);
    SentBackTo(opt, autoFd, outs, j, k, m);
  }

  lemma {:induction false} SentBackTo(opt: Options, autoFd: int, outs: seq<Out>, j: nat, k: nat, m: nat)
    requires AllLawful(autoFd, outs) && j < |outs| && IsLine(outs[j]) && AskedFor(outs, j, k)
    requires m < j && outs[m] == Response(LedgerOf(outs).written[k].fd, Answer(opt, outs[j].line))
    requires forall i | m < i < j :: outs[i].Response?
    requires forall i: nat :: !ClosedBefore(outs, i, j, k)
    ensures SentBack(opt, outs, j, k, m)
  {
    var l := LedgerOf(outs);
    var p, fd := PushAt(outs, l.turn[k]), l.written[k].fd;
    forall i | p <= i < m ensures outs[i] != Dropped(fd) {
      assert !ClosedBefore(outs, i, j, k);
    }
    HolderAgrees(autoFd, outs, p, m, fd);
  }

  /** Where the line that takes its own command off the queue has gone out. */
  lemma {:induction false} ReplyTo(opt: Options, outs: seq<Out>, queue: seq<Command>, j: nat, k: nat) returns (m: nat)
    requires Orderly(outs, queue) && AllReplied(opt, outs) && j < |outs| && Own(outs, j, k)
    ensures k < |LedgerOf(outs).written|
    ensures m < j && outs[m] == Response(LedgerOf(outs).written[k].fd, Answer(opt, outs[j].line))
    ensures forall i | m < i < j :: outs[i].Response?
  {
    PoppedAt(outs, j);
    var l := LedgerOf(outs);
    assert (l.popped + queue)[l.turn[k]] == outs[j].command;
    assert Replied(opt, outs, j);
    m :| 0 <= m < j && outs[m] == Response(outs[j].command.fd, Answer(opt, outs[j].line)) && forall i | m < i < j :: outs[i].Response?;
  }

  /** If it has been closed, whoever gets the answer is somebody else, or nobody. */
  lemma {:induction false} SomebodyElse(opt: Options, autoFd: int, outs: seq<Out>, queue: seq<Command>, tags: seq<Tag>, i: nat, j: nat, k: nat)
    requires Orderly(outs, queue) && Tagging(outs, tags) && AllLawful(autoFd, outs)
    requires j < |outs| && Answers(outs, tags, j, k) && ClosedBefore(outs, i, j, k)
    ensures !Reaches(opt, outs, j, k)
  {
    AskedBefore(outs, queue, tags, j, k);
    forall m: nat ensures !SentBack(opt, outs, j, k, m) {
      if SentBack(opt, outs, j, k, m) { NotSentBack(opt, autoFd, outs, i, j, k, m); }
    }
  }

  lemma {:induction false} NotSentBack(opt: Options, autoFd: int, outs: seq<Out>, i: nat, j: nat, k: nat, m: nat)
    requires AllLawful(autoFd, outs) && j < |outs| && IsLine(outs[j]) && AskedFor(outs, j, k) && ClosedBefore(outs, i, j, k)
    ensures !SentBack(opt, outs, j, k, m)
  {
    var l := LedgerOf(outs);
    if m < j && !(m < i) && i != m { HolderDiffers(autoFd, outs, PushAt(outs, l.turn[k]), i, m, l.written[k].fd); }
  }

  lemma {:induction false} AllReachIff(opt: Options, autoFd: int, outs: seq<Out>, queue: seq<Command>, tags: seq<Tag>)
    requires Orderly(outs, queue) && Tagging(outs, tags) && AllReplied(opt, outs) && AllLawful(autoFd, outs)
    ensures AllReach(opt, outs, tags) <==> !Diverted(outs, tags) && !Orphaned(outs, tags)
  {
    AllOwnIffNotDiverted(outs, queue, tags);
    if Orphaned(outs, tags) {
      var i: nat, j: nat, k: nat :| j < |outs| && Answers(outs, tags, j, k) && ClosedBefore(outs, i, j, k);
      SomebodyElse(opt, autoFd, outs, queue, tags, i, j, k);
    } else if AllOwn(outs, tags) {
      forall j, k: nat | 0 <= j < |outs| && Answers(outs, tags, j, k) ensures Reaches(opt, outs, j, k) {
        StillThere(opt, autoFd, outs, queue, tags, j, k);
      }
    }
    if AllReach(opt, outs, tags) {
      forall j, k: nat | 0 <= j < |outs| && Answers(outs, tags, j, k) ensures Own(outs, j, k) {
        assert Reaches(opt, outs, j, k);
      }
    }
  }

  /** EXACTLY WHEN EVERY ANSWER REACHES ITS SENDER, in any run and for any firmware: no intruder takes a written
      command off the queue whose answer is outstanding, and no connection is closed between sending a command and
      the answer to it. Descriptors may be used again once they are free. */
  lemma {:induction false} AnswersReachSenders(s: Setup, turns: seq<Turn>, tags: seq<Tag>)
    requires Unused(s, START, turns) && Tagging(Run(s, START, turns).outs, tags)
    ensures var outs := Run(s, START, turns).outs;
            AllReach(s.opt, outs, tags) <==> !Diverted(outs, tags) && !Orphaned(outs, tags)
  {
    var d := Run(s, START, turns);
    RunOrderly(s, turns);
    LinesGoToHead(s, START, turns);
    RunConnected(s, START, turns);
    AllReachIff(s.opt, s.autoFd, d.outs, d.queue, tags);
  }
}
