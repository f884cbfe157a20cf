/** In what order a turn of the main loop does what it does. */
module LoopOrder {
  import opened Wrappers
  import opened ClientList
  import opened CommandQueue
  import opened Commands
  import opened MainLoop
  import opened LoopLedger
  import opened LoopService
  import opened LoopReads
  import LineReader

  /** The place of an out in its turn: the command that leaves the queue, the new connection, what the sampling process asks
      for, each client in the order of the list, the write to the firmware, and the word to the sampling process. */
  function Rank(autoFd: int, visited: seq<Connection>, o: Out): int {
    match o
    case Response(_, _) => 0
    case Answered(_, _) => 0
    case TimedOut(_, _) => 0
    case Unclaimed(_) => 0
    case Accepted(_) => 1
    case Pushed(c) => if c.fd == autoFd then 2 else 3 + Position(visited, c.fd)
    case Dropped(fd) => 3 + Position(visited, fd)
    case Written(_, _, _) => 4 + |visited|
    case Enabled(_) => 5 + |visited|
  }

  /** From d to e outs have come whose ranks do not fall and lie between lo and hi, responses going with any of them. */
  ghost predicate Sorted(d: Daemon, e: Daemon, rank: Out -> int, lo: int, hi: int) {
    && d.outs <= e.outs && lo <= hi
    && (forall k | |d.outs| <= k < |e.outs| :: e.outs[k].Response? || lo <= rank(e.outs[k]) <= hi)
    && (forall j, k | |d.outs| <= j < k < |e.outs| :: e.outs[j].Response? || e.outs[k].Response? || rank(e.outs[j]) <= rank(e.outs[k]))
  }

  lemma {:induction false} SortedThen(d: Daemon, e: Daemon, f: Daemon, rank: Out -> int, lo: int, mid: int, mid': int, hi: int)
    requires Sorted(d, e, rank, lo, mid) && Sorted(e, f, rank, mid', hi) && mid <= mid'
    ensures Sorted(d, f, rank, lo, hi)
  {
    forall k | |d.outs| <= k < |f.outs| ensures f.outs[k].Response? || lo <= rank(f.outs[k]) <= hi {
      if k < |e.outs| { assert f.outs[k] == e.outs[k]; }
    }
    forall j, k | |d.outs| <= j < k < |f.outs| ensures f.outs[j].Response? || f.outs[k].Response? || rank(f.outs[j]) <= rank(f.outs[k]) {
      if j < |e.outs| { assert f.outs[j] == e.outs[j]; }
      if k < |e.outs| { assert f.outs[k] == e.outs[k]; }
    }
  }

  /** Outs of one rank are sorted. */
  lemma {:induction false} SameRank(d: Daemon, e: Daemon, kind: Out -> bool, rank: Out -> int, r: int)
    requires Adds(d, e, kind) && forall o :: kind(o) ==> o.Response? || rank(o) == r
    ensures Sorted(d, e, rank, r, r)
  {
    assert forall k | |d.outs| <= k < |e.outs| :: kind(e.outs[k]);
  }

  lemma SortedWider(d: Daemon, e: Daemon, rank: Out -> int, lo: int, hi: int, lo': int, hi': int)
    requires Sorted(d, e, rank, lo, hi) && lo' <= lo && hi <= hi'
    ensures Sorted(d, e, rank, lo', hi')
  {
  }

  lemma NothingNew(d: Daemon, e: Daemon, rank: Out -> int, lo: int, hi: int)
    requires e.outs == d.outs && lo <= hi
    ensures Sorted(d, e, rank, lo, hi)
  {
  }

  /** Each descriptor has one connection, and none is that of the sampling process's pipe. */
  ghost predicate Separate(autoFd: int, clients: seq<Connection>) {
    DistinctFds(clients) && NobodyOn(clients, autoFd)
  }

  lemma {:induction false} VisitSorted(s: Setup, d: Daemon, i: nat, input: Input, visited: seq<Connection>, b: nat)
    requires i < |d.clients| && b < |visited| && visited[b].fd == d.clients[i].fd && Separate(s.autoFd, visited)
    ensures Sorted(d, ReadClient(s, d, i, input), (o: Out) => Rank(s.autoFd, visited, o), 3 + b, 3 + b)
  {
    var c, fd := LineReader.ReadLine(d.clients[i].pending, input.bytes, input.end), d.clients[i].fd;
    var rank := (o: Out) => Rank(s.autoFd, visited, o);
    var d1, e := Buffered(d, i, c.pending), ReadClient(s, d, i, input);
    PositionIs(visited, fd, b);
    match c.outcome
    case NoLine =>
    case Line(raw) =>
      ProcessCmdAdds(s, d1, CString(raw), fd);
      SameRank(d1, e, (o: Out) => Asking(fd, o), rank, 3 + b);
    case Closed =>
    case Failed =>
  }

  lemma {:induction false} VisitKeeps(s: Setup, d: Daemon, i: nat, input: Input, visited: seq<Connection>, b: nat)
    requires i < |d.clients| && d.returnValue == 0 && ClientsFit(d.clients) && SameFrom(d.clients, i, visited, b)
    ensures var e, next := ReadClient(s, d, i, input), NextVisit(s, d, i, input);
            ClientsFit(e.clients) && SameFrom(e.clients, next, visited, b + 1) && |e.clients| - next < |d.clients| - i
  {
    VisitLeaves(s, d, i, input);
    SameThen(ReadClient(s, d, i, input).clients, NextVisit(s, d, i, input), d.clients, i + 1, visited, b + 1);
  }

  lemma {:induction false} ClientsSorted(s: Setup, d: Daemon, i: nat, lines: map<int, Input>, visited: seq<Connection>, b: nat)
    requires d.returnValue == 0 && ClientsFit(d.clients) && SameFrom(d.clients, i, visited, b) && Separate(s.autoFd, visited)
    ensures Sorted(d, ReadClients(s, d, i, lines), (o: Out) => Rank(s.autoFd, visited, o), 3 + b, 3 + |visited|)
    decreases |d.clients| - i
  {
    var rank := (o: Out) => Rank(s.autoFd, visited, o);
    if i >= |d.clients| {
      NothingNew(d, d, rank, 3 + b, 3 + |visited|);
    } else {
      assert d.clients[i].fd == visited[b].fd;
      if d.clients[i].fd !in lines {
        assert SameFrom(d.clients, i + 1, visited, b + 1);
        ClientsSorted(s, d, i + 1, lines, visited, b + 1);
        SortedWider(d, ReadClients(s, d, i + 1, lines), rank, 3 + b + 1, 3 + |visited|, 3 + b, 3 + |visited|);
      } else {
        var input := lines[d.clients[i].fd];
        var e, next := ReadClient(s, d, i, input), NextVisit(s, d, i, input);
        VisitSorted(s, d, i, input, visited, b);
        VisitKeeps(s, d, i, input, visited, b);
        if e.returnValue != 0 {
          SortedWider(d, e, rank, 3 + b, 3 + b, 3 + b, 3 + |visited|);
        } else {
          ClientsSorted(s, e, next, lines, visited, b + 1);
          SortedThen(d, e, ReadClients(s, e, next, lines), rank, 3 + b, 3 + b, 3 + b + 1, 3 + |visited|);
        }
      }
    }
  }

  lemma {:induction false} SameThen(x: seq<Connection>, i: nat, y: seq<Connection>, j: nat, z: seq<Connection>, k: nat)
    requires SameFrom(x, i, y, j) && j > 0 && k > 0 && SameFrom(y, j - 1, z, k - 1)
    ensures SameFrom(x, i, z, k)
  {
    forall n | i <= n < |x| ensures x[n].fd == z[n - i + k].fd && x[n].pending == z[n - i + k].pending {
      var m := n - i + j;
      assert y[m].fd == z[m - (j - 1) + (k - 1)].fd && y[m].pending == z[m - (j - 1) + (k - 1)].pending;
    }
  }

  lemma {:induction false} EndSorted(s: Setup, d: Daemon, t: Turn, visited: seq<Connection>)
    ensures Sorted(d, EndOfTurn(s, d, t), (o: Out) => Rank(s.autoFd, visited, o), 4 + |visited|, 5 + |visited|)
  {
    var rank := (o: Out) => Rank(s.autoFd, visited, o);
    var d1 := SendHead(d, t.writeOk, t.now);
    SendAdds(d, t.writeOk, t.now);
    SameRank(d, d1, (o: Out) => o.Written?, rank, 4 + |visited|);
    var e := EndOfTurn(s, d, t);
    assert e.outs == d1.outs || e.outs == d1.outs + [Enabled(!d1.sampling)];
    SortedThen(d, d1, e, rank, 4 + |visited|, 4 + |visited|, 5 + |visited|, 5 + |visited|);
  }

  lemma {:induction false} FromClientsSorted(s: Setup, d: Daemon, r: Round, t: Turn, visited: seq<Connection>)
    requires d.returnValue == 0 && ClientsFit(d.clients) && SameFrom(d.clients, 0, visited, 0) && Separate(s.autoFd, visited)
    ensures Sorted(d, FromClients(s, d, r, t), (o: Out) => Rank(s.autoFd, visited, o), 3, 5 + |visited|)
  {
    var d1 := ReadClients(s, d, 0, r.lines);
    ClientsSorted(s, d, 0, r.lines, visited, 0);
    EndSorted(s, d1, t, visited);
    SortedThen(d, d1, EndOfTurn(s, d1, t), (o: Out) => Rank(s.autoFd, visited, o), 3, 3 + |visited|, 4 + |visited|, 5 + |visited|);
  }

  lemma {:induction false} AutoSorted(s: Setup, d: Daemon, input: Input, visited: seq<Connection>)
    ensures Sorted(d, ReadAuto(s, d, input), (o: Out) => Rank(s.autoFd, visited, o), 2, 2)
  {
    var c := LineReader.ReadLine(d.auto, input.bytes, input.end);
    if c.outcome.Line? {
      var d1 := d.(auto := c.pending);
      ProcessCmdAdds(s, d1, CString(c.outcome.text), s.autoFd);
      SameRank(d1, ReadAuto(s, d, input), (o: Out) => Asking(s.autoFd, o), (o: Out) => Rank(s.autoFd, visited, o), 2);
    }
  }

  lemma {:induction false} FromAutoSorted(s: Setup, d: Daemon, r: Round, t: Turn)
    requires Fit(d) && d.returnValue == 0 && Separate(s.autoFd, d.clients)
    ensures Sorted(d, FromAuto(s, d, r, t), (o: Out) => Rank(s.autoFd, d.clients, o), 2, 5 + |d.clients|)
  {
    var rank := (o: Out) => Rank(s.autoFd, d.clients, o);
    if Polled(s, d, r) {
      var d1 := ReadAuto(s, d, r.auto.value);
      AutoReads(s, d, r.auto.value, 0);
      AutoSorted(s, d, r.auto.value, d.clients);
      if d1.autoOpen && d1.returnValue == 0 {
        FromClientsSorted(s, d1, r, t, d.clients);
        SortedThen(d, d1, FromClients(s, d1, r, t), rank, 2, 2, 3, 5 + |d.clients|);
      }
    } else {
      FromClientsSorted(s, d, r, t, d.clients);
    }
  }

  lemma {:induction false} FromAcceptSorted(s: Setup, d: Daemon, r: Round, t: Turn)
    requires Fit(d) && d.returnValue == 0 && Separate(s.autoFd, Visited(d, r))
    ensures Sorted(d, FromAccept(s, d, r, t), (o: Out) => Rank(s.autoFd, Visited(d, r), o), 1, 5 + |Visited(d, r)|)
  {
    var rank := (o: Out) => Rank(s.autoFd, Visited(d, r), o);
    var d1 := if r.accepted.Some? then Accept(d, r.accepted.value) else d;
    if !AcceptFails(r) {
      assert d1.clients == Visited(d, r) && Fit(d1);
      FromAutoSorted(s, d1, r, t);
      SortedThen(d, d1, FromAuto(s, d1, r, t), rank, 1, 1, 2, 5 + |Visited(d, r)|);
    }
  }

  /** EVERYTHING IN A TURN COMES IN ITS PLACE: first a line of the firmware or a timeout takes the oldest command off the queue, so no
      line answers a command of its own turn; then comes a new connection; then what the sampling process asks for is queued;
      then the clients are served, in the order of the list; then the oldest command is written; and at the end the sampling
      process is told. */
  lemma {:induction false} TurnInOrder(s: Setup, d: Daemon, t: Turn)
    requires Fit(d) && d.returnValue == 0
    requires t.event.Ready? ==> Separate(s.autoFd, Visited(d, t.event.round))
    ensures var visited := if t.event.Ready? then Visited(d, t.event.round) else [];
            Sorted(d, Step(s, d, t), (o: Out) => Rank(s.autoFd, visited, o), 0, 5 + |visited|)
  {
    match t.event
    case SelectFailed =>
    case Interrupted =>
    case Idle =>
      if d.queue != [] && Expired(d.queue[0], t.now) {
        var d1 := PopExpired(d, t.now);
        EndSorted(s, d1, t, []);
        SameRank(d, d1, (o: Out) => o.TimedOut?, (o: Out) => Rank(s.autoFd, [], o), 0);
        SortedThen(d, d1, EndOfTurn(s, d1, t), (o: Out) => Rank(s.autoFd, [], o), 0, 0, 4, 5);
      }
    case Ready(r) => if !r.stop { FromTtySorted(s, d, r, t); }
  }

  lemma {:induction false} FromTtySorted(s: Setup, d: Daemon, r: Round, t: Turn)
    requires Fit(d) && d.returnValue == 0 && Separate(s.autoFd, Visited(d, r))
    ensures Sorted(d, FromTty(s, d, r, t), (o: Out) => Rank(s.autoFd, Visited(d, r), o), 0, 5 + |Visited(d, r)|)
  {
    var rank := (o: Out) => Rank(s.autoFd, Visited(d, r), o);
    var d1 := d;
    NothingNew(d, d, rank, 0, 0);
    if r.tty.Some? {
      d1 := ProcessTty(s, d, r.tty.value);
      TtyReads(s, d, r.tty.value, 0);
      TtyEffect(s, d, r.tty.value);
      SameRank(d, d1, Outgoing, rank, 0);
    }
    if d1.returnValue == 0 {
      FromAcceptSorted(s, d1, r, t);
      SortedThen(d, d1, FromAccept(s, d1, r, t), rank, 0, 0, 1, 5 + |Visited(d, r)|);
    }
  }

  // -------------------------------------------------------------- writes and times

  /** What is written is written in a turn whose write succeeds, at its time; and what times out does so at the turn's time. */
  predicate AtTurn(t: Turn, o: Out) {
    (o.Written? ==> t.writeOk && o.at == t.now) && (o.TimedOut? ==> o.now == t.now)
  }

  lemma {:induction false} AddsAtTurn(d: Daemon, e: Daemon, kind: Out -> bool, t: Turn)
    requires d.outs <= e.outs && (forall k | |d.outs| <= k < |e.outs| :: kind(e.outs[k])) && forall o :: kind(o) ==> AtTurn(t, o)
    ensures KeepsTime(d, e, t)
  {
  }

  ghost predicate KeepsTime(d: Daemon, e: Daemon, t: Turn) {
    d.outs <= e.outs && forall k | |d.outs| <= k < |e.outs| :: AtTurn(t, e.outs[k])
  }

  lemma {:induction false} KeepsTimeThen(d: Daemon, e: Daemon, f: Daemon, t: Turn)
    requires KeepsTime(d, e, t) && KeepsTime(e, f, t)
    ensures KeepsTime(d, f, t)
  {
    forall k | |d.outs| <= k < |f.outs| ensures AtTurn(t, f.outs[k]) {
      if k < |e.outs| { assert f.outs[k] == e.outs[k]; }
    }
  }

  lemma EndAtTurn(s: Setup, d: Daemon, t: Turn)
    ensures KeepsTime(d, EndOfTurn(s, d, t), t)
  {
  }

  lemma {:induction false} FromAcceptAtTurn(s: Setup, d: Daemon, r: Round, t: Turn)
    ensures KeepsTime(d, FromAccept(s, d, r, t), t)
  {
    var d1 := if r.accepted.Some? then Accept(d, r.accepted.value) else d;
    var d2 := d1;
    if s.child && d1.autoOpen && r.auto.Some? {
      d2 := ReadAuto(s, d1, r.auto.value);
      ReadAutoAdds(s, d1, r.auto.value);
      AddsAtTurn(d1, d2, Incoming, t);
    }
    var d3 := ReadClients(s, d2, 0, r.lines);
    ReadClientsAdds(s, d2, 0, r.lines);
    AddsAtTurn(d2, d3, Incoming, t);
    EndAtTurn(s, d3, t);
    KeepsTimeThen(d1, d2, d3, t);
    KeepsTimeThen(d1, d3, EndOfTurn(s, d3, t), t);
    KeepsTimeThen(d, d1, FromAccept(s, d, r, t), t);
  }

  lemma {:induction false} ReadyAtTurn(s: Setup, d: Daemon, r: Round, t: Turn)
    ensures KeepsTime(d, FromTty(s, d, r, t), t)
  {
    var d1 := d;
    if r.tty.Some? {
      d1 := ProcessTty(s, d, r.tty.value);
      TtyEffect(s, d, r.tty.value);
      AddsAtTurn(d, d1, Outgoing, t);
    }
    FromAcceptAtTurn(s, d1, r, t);
    KeepsTimeThen(d, d1, FromAccept(s, d1, r, t), t);
  }

  lemma {:induction false} IdleAtTurn(s: Setup, d: Daemon, t: Turn)
    ensures KeepsTime(d, EndOfTurn(s, PopExpired(d, t.now), t), t)
  {
    EndAtTurn(s, PopExpired(d, t.now), t);
    KeepsTimeThen(d, PopExpired(d, t.now), EndOfTurn(s, PopExpired(d, t.now), t), t);
  }

  /** A TURN WRITES only if its write succeeds, and then its time is noted; nothing is sent and noted otherwise. */
  lemma {:induction false} TurnKeepsTime(s: Setup, d: Daemon, t: Turn)
    ensures KeepsTime(d, Step(s, d, t), t)
  {
    match t.event
    case SelectFailed =>
    case Interrupted =>
    case Idle => IdleAtTurn(s, d, t);
    case Ready(r) => ReadyAtTurn(s, d, r, t);
  }
}
