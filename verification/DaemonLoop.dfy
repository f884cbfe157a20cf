/** The daemon's main loop on its linked lists and buffers, turn by turn. */
module DaemonLoop {
  import opened Wrappers
  import opened ClientList
  import opened CommandQueue
  import opened Commands
  import M = MainLoop
  import LineReader

  class Loop {
    const setup: M.Setup
    const queue: Queue
    const clients: List
    var ttyBuffer: seq<char>
    var autoBuffer: seq<char>
    var autoOpen: bool
    var autosampleEnabled: bool
    var returnValue: int
    var outs: seq<M.Out>

    constructor (setup: M.Setup)
      ensures Valid() && State() == M.START && this.setup == setup
      ensures fresh(queue) && fresh(clients) && clients.repr == {} && queue.repr == {}
    {
      this.setup := setup;
      queue := new Queue();
      clients := new List();
      ttyBuffer, autoBuffer, autoOpen, autosampleEnabled, returnValue, outs := [], [], true, false, 0, [];
    }

    ghost predicate Valid()
      reads queue, queue.repr, clients, clients.repr
    {
      queue.Valid() && clients.Valid()
    }

    ghost function State(): M.Daemon
      reads this, queue, clients
    {
      M.Daemon(queue.contents, clients.contents, ttyBuffer, autoBuffer, autoOpen, autosampleEnabled, returnValue, outs)
    }

    static lemma {:induction false} BroadcastSnoc(contents: seq<Connection>, c: Connection, topic: M.Topic, except: int, text: string)
      ensures M.Broadcast(contents + [c], topic, except, text)
           == M.Broadcast(contents, topic, except, text)
              + (if M.Follows(c.wants, topic) && c.fd != except then [M.Response(c.fd, text)] else [])
      decreases contents
    {
      if contents != [] {
        assert (contents + [c])[1..] == contents[1..] + [c];
        BroadcastSnoc(contents[1..], c, topic, except, text);
      }
    }

    /** The loop of SEND_TO_LISTENER: what is sent, in order. */
    method Recipients(topic: M.Topic, except: int, text: string) returns (sent: seq<M.Out>)
      requires Valid()
      ensures sent == M.Broadcast(clients.contents, topic, except, text)
    {
      sent := [];
      var client := clients.first;
      ghost var i: nat := 0;
      while client != null
        invariant i <= |clients.nodes|
        invariant i < |clients.nodes| ==> client == clients.nodes[i]
        invariant i == |clients.nodes| ==> client == null
        invariant sent == M.Broadcast(clients.contents[..i], topic, except, text)
        decreases |clients.nodes| - i
      {
        assert client.Value() == clients.contents[i];
        BroadcastSnoc(clients.contents[..i], clients.contents[i], topic, except, text);
        assert clients.contents[..i + 1] == clients.contents[..i] + [clients.contents[i]];
        if M.Follows(client.Value().wants, topic) && client.fd != except {
          sent := sent + [M.Response(client.fd, text)];
        }
        client := client.next;
        i := i + 1;
      }
      assert clients.contents[..i] == clients.contents;
    }

    method SendToListeners(topic: M.Topic, except: int, text: string)
      requires Valid()
      modifies `outs
      ensures outs == old(outs) + M.Broadcast(clients.contents, topic, except, text)
    {
      var sent := Recipients(topic, except, text);
      outs := outs + sent;
    }

    method Assign(c: Client, w: Wants)
      modifies c`requestListener, c`errorListener, c`sensorListener, c`movementListener, c`buttonListener
      ensures c.Value() == old(c.Value()).(wants := w)
    {
      c.requestListener, c.errorListener, c.sensorListener := w.request, w.error, w.sensor;
      c.movementListener, c.buttonListener := w.movement, w.button;
    }

    /** The flags a listen command sets. */
    method Subscribe(listener: Client, param: Option<string>)
      modifies listener`requestListener, listener`errorListener, listener`sensorListener,
               listener`movementListener, listener`buttonListener
      ensures listener.Value() == old(listener.Value()).(wants := M.Asked(old(listener.Value()).wants, param))
    {
      if param.None? || StartsWith(param.value, "all") {
        Assign(listener, EVERYTHING);
      } else if StartsWith(param.value, "none") {
        Assign(listener, NOTHING);
      } else if StartsWith(param.value, "request") {
        listener.requestListener := true;
      } else if StartsWith(param.value, "error") {
        listener.errorListener := true;
      } else if StartsWith(param.value, "sensor") {
        listener.sensorListener := true;
      } else if StartsWith(param.value, "movement") {
        listener.movementListener := true;
      } else if StartsWith(param.value, "button") {
        listener.buttonListener := true;
      }
    }

    method SubscribeAt(listener: Client, ghost i: nat, param: Option<string>)
      requires Valid() && i < |clients.nodes| && listener == clients.nodes[i]
      modifies clients`contents, listener
      ensures Valid()
      ensures clients.contents == old(clients.contents)[i := old(clients.contents)[i].(wants := M.Asked(old(clients.contents)[i].wants, param))]
    {
      assert listener.Value() == clients.contents[i];
      Subscribe(listener, param);
      clients.Refresh(i);
    }

    /** The listen command, for the connection it came from. */
    method SetListener(fd: int, param: Option<string>)
      requires Valid()
      modifies clients`contents, clients.repr
      ensures Valid()
      ensures State() == old(State()).(clients := M.Listen(old(clients.contents), fd, param))
    {
      var listener := clients.Find(fd);
      if listener != null {
        SubscribeAt(listener, Position(clients.contents, fd), param);
      }
    }

    /** A command for the firmware: a refusal if its name is unknown, a copy for the listeners, and into the queue. */
    method QueueCommand(p: Parsed, fd: int)
      requires Valid() && ForFirmware(p.cmd)
      modifies `outs, queue, queue.repr
      ensures Valid()
      ensures State() == var d, code := old(State()), Code(setup.opt, p);
                         var d1 := if code.None? then M.Say(d, [M.Response(fd, M.Refusal(p))]) else d;
                         var d2 := M.Say(d1, M.Broadcast(d.clients, M.Requests, fd, "Request: " + p.text));
                         M.Push(d2, Command(fd, p.cmd, code, false, CLEARED))
      ensures fresh(queue.repr - old(queue.repr))
    {
      var code := Code(setup.opt, p);
      if code.None? {
        outs := outs + [M.Response(fd, M.Refusal(p))];
      }
      SendToListeners(M.Requests, fd, "Request: " + p.text);
      outs := outs + [M.Pushed(Command(fd, p.cmd, code, false, CLEARED))];
      queue.Push(fd, p.cmd, code);
    }

    method ProcessCmd(line: string, fd: int)
      requires Valid()
      modifies `outs, queue, queue.repr, clients`contents, clients.repr
      ensures Valid() && State() == M.ProcessCmd(setup, old(State()), line, fd)
      ensures fresh(queue.repr - old(queue.repr))
    {
      match Parse(line)
      case None =>
      case Some(p) =>
        if ForFirmware(p.cmd) {
          QueueCommand(p, fd);
        } else if p.cmd == CmdId.Listen {
          SetListener(fd, p.param);
        }
    }

    /** Copies of a firmware line for those who follow its topic. */
    method SendCopies(line: string, answer: string, except: int)
      requires Valid()
      modifies `outs
      ensures outs == old(outs) + M.Copies(clients.contents, line, answer, except)
    {
      SendIf(StartsWith(line, "Error:"), M.Errors, except, answer);
      SendIf(StartsWith(line, "movement"), M.Movements, except, answer);
      SendIf(StartsWith(line, "PanicButton"), M.Buttons, except, answer);
      SendIf(StartsWith(line, "Sensor "), M.Sensors, except, answer);
      Regroup(old(outs), Chosen(StartsWith(line, "Error:"), M.Errors, except, answer),
              Chosen(StartsWith(line, "movement"), M.Movements, except, answer),
              Chosen(StartsWith(line, "PanicButton"), M.Buttons, except, answer),
              Chosen(StartsWith(line, "Sensor "), M.Sensors, except, answer));
    }

    ghost function Chosen(wanted: bool, topic: M.Topic, except: int, text: string): seq<M.Out>
      reads clients
    {
      if wanted then M.Broadcast(clients.contents, topic, except, text) else []
    }

    static lemma Regroup<T>(a: seq<T>, b: seq<T>, c: seq<T>, d: seq<T>, e: seq<T>)
      ensures a + b + c + d + e == a + (b + c + d + e)
    {
    }

    method SendIf(wanted: bool, topic: M.Topic, except: int, text: string)
      requires Valid()
      modifies `outs
      ensures outs == old(outs) + Chosen(wanted, topic, except, text)
    {
      if wanted {
        SendToListeners(topic, except, text);
      }
    }

    /** A finished line of the firmware. */
    method ProcessLine(raw: seq<char>)
      requires Valid()
      modifies `outs, queue
      ensures Valid() && State() == M.ProcessLine(setup, old(State()), raw)
      ensures queue.repr == old(queue.repr)
    {
      var line := FirmwareLine(raw);
      var answer := Answer(setup.opt, line);
      Deliver(line, answer);
    }

    /** The oldest command gets the answer and leaves the queue, listeners get copies. */
    method Deliver(line: string, answer: string)
      requires Valid()
      modifies `outs, queue
      ensures Valid()
      ensures State() == M.Deliver(old(State()), line, answer)
      ensures queue.repr == old(queue.repr)
    {
      var cmdFd := Reply(answer);
      ghost var d := State();
      SendCopies(line, answer, cmdFd);
      assert State() == M.Say(d, M.Copies(d.clients, line, answer, cmdFd));
      PopAnswered(line);
    }

    /** The line goes to whoever sent the oldest command. */
    method Reply(answer: string) returns (cmdFd: int)
      requires Valid()
      modifies `outs
      ensures cmdFd == if queue.contents == [] then -1 else queue.contents[0].fd
      ensures outs == old(outs) + if queue.contents == [] then [] else [M.Response(cmdFd, answer)]
    {
      cmdFd := -1;
      if queue.first != null {
        assert queue.nodes[0].Value() == queue.contents[0];
        cmdFd := queue.first.fd;
        outs := outs + [M.Response(cmdFd, answer)];
      }
    }

    method PopAnswered(line: string)
      requires Valid()
      modifies `outs, queue
      ensures Valid() && State() == M.PopAnswered(old(State()), line)
      ensures queue.repr == old(queue.repr)
    {
      if queue.first != null {
        assert queue.nodes[0].Value() == queue.contents[0];
        outs := outs + [M.Answered(queue.first.Value(), line)];
      } else {
        outs := outs + [M.Unclaimed(line)];
      }
      queue.Pop();
    }

    method PopExpired(now: TimeVal)
      requires Valid() && queue.contents != []
      modifies `outs, queue
      ensures Valid() && State() == M.PopExpired(old(State()), now)
      ensures queue.repr == old(queue.repr)
    {
      assert queue.nodes[0].Value() == queue.contents[0];
      outs := outs + [M.TimedOut(queue.first.Value(), now)];
      queue.Pop();
    }

    method ProcessTty(input: M.Input)
      requires Valid()
      modifies `outs, `ttyBuffer, `returnValue, queue
      ensures Valid() && State() == M.ProcessTty(setup, old(State()), input)
      ensures queue.repr == old(queue.repr)
    {
      var call := LineReader.ReadLine(ttyBuffer, input.bytes, input.end);
      ttyBuffer := call.pending;
      match call.outcome
      case NoLine =>
      case Line(raw) => ProcessLine(raw);
      case Closed => returnValue := 2;
      case Failed => returnValue := -1;
    }

    method Accept(newFd: int)
      requires Valid()
      modifies `outs, `returnValue, clients, clients.repr
      ensures Valid() && State() == M.Accept(old(State()), newFd)
      ensures fresh(clients.repr - old(clients.repr))
    {
      if newFd < 0 {
        returnValue := -1;
      } else {
        clients.Add(newFd);
        outs := outs + [M.Accepted(newFd)];
      }
    }

    method ReadAuto(input: M.Input)
      requires Valid()
      modifies `outs, `autoBuffer, `autoOpen, `returnValue, queue, queue.repr, clients`contents, clients.repr
      ensures Valid() && State() == M.ReadAuto(setup, old(State()), input)
      ensures fresh(queue.repr - old(queue.repr))
    {
      var call := LineReader.ReadLine(autoBuffer, input.bytes, input.end);
      autoBuffer := call.pending;
      match call.outcome
      case NoLine =>
      case Line(raw) => ProcessCmd(CString(raw), setup.autoFd);
      case Closed => autoOpen := false;
      case Failed => returnValue := -1;
    }

    /** The head goes to the firmware, if it has not gone yet. */
    method SendCommand(ok: bool, now: TimeVal)
      requires Valid()
      modifies `outs, queue, queue.repr
      ensures Valid() && State() == M.SendHead(old(State()), ok, now)
      ensures queue.repr == old(queue.repr)
    {
      if queue.first != null {
        assert queue.nodes[0].Value() == queue.contents[0];
        var head := queue.first.Value();
        if !head.sent && Encode(head).Some? && ok {
          outs := outs + [M.Written(head, Encode(head).value, now)];
          queue.Sent(now);
        }
      }
    }

    /** The count of sensor listeners. */
    method SensorListeners() returns (n: nat)
      requires Valid()
      ensures n > 0 <==> M.Listened(clients.contents)
    {
      n := 0;
      var lst := clients.first;
      ghost var i: nat := 0;
      while lst != null
        invariant i <= |clients.nodes|
        invariant i < |clients.nodes| ==> lst == clients.nodes[i]
        invariant i == |clients.nodes| ==> lst == null
        invariant n > 0 <==> exists k :: 0 <= k < i && clients.contents[k].wants.sensor
        decreases |clients.nodes| - i
      {
        assert lst.Value() == clients.contents[i];
        if lst.sensorListener {
          n := n + 1;
        }
        lst := lst.next;
        i := i + 1;
      }
    }

    method UpdateSampling()
      requires Valid()
      modifies `outs, `autosampleEnabled
      ensures State() == M.UpdateSampling(setup, old(State()))
    {
      if setup.child {
        var listeners := SensorListeners();
        if (!autosampleEnabled && listeners > 0) || (autosampleEnabled && listeners == 0) {
          autosampleEnabled := !autosampleEnabled;
          outs := outs + [M.Enabled(autosampleEnabled)];
        }
      }
    }

    /** Reads what a connection has to say into its buffer; lst is the i-th. */
    method Take(lst: Client, ghost i: nat, input: M.Input) returns (outcome: LineReader.Outcome)
      requires Valid() && i < |clients.nodes| && lst == clients.nodes[i]
      modifies clients`contents, lst`pending
      ensures Valid()
      ensures var c := LineReader.ReadLine(old(clients.contents)[i].pending, input.bytes, input.end);
              outcome == c.outcome && clients.contents == old(clients.contents)[i := old(clients.contents)[i].(pending := c.pending)]
    {
      assert lst.Value() == clients.contents[i];
      var call := LineReader.ReadLine(lst.pending, input.bytes, input.end);
      lst.pending := call.pending;
      outcome := call.outcome;
      clients.Refresh(i);
    }

    /** What a readable connection says; lst is the i-th. */
    method ReadClient(lst: Client, ghost i: nat, input: M.Input)
      requires Valid() && i < |clients.nodes| && lst == clients.nodes[i]
      modifies `outs, `returnValue, queue, queue.repr, clients, clients.repr
      ensures Valid() && State() == M.ReadClient(setup, old(State()), i, input)
      ensures fresh(queue.repr - old(queue.repr)) && clients.repr == old(clients.repr)
      ensures |clients.nodes| <= |old(clients.nodes)|
      ensures clients.nodes[Next(i, |old(clients.nodes)|, |clients.nodes|)..] == old(clients.nodes)[i + 1..]
    {
      assert lst.Value() == clients.contents[i];
      var outcome := Take(lst, i, input);
      Serve(lst.fd, i, outcome);
    }

    method Serve(fd: int, ghost i: nat, outcome: LineReader.Outcome)
      requires Valid() && i < |clients.contents| && clients.contents[i].fd == fd
      modifies `outs, `returnValue, queue, queue.repr, clients, clients.repr
      ensures Valid() && State() == M.Serve(setup, old(State()), fd, outcome)
      ensures fresh(queue.repr - old(queue.repr)) && clients.repr == old(clients.repr)
      ensures |clients.nodes| <= |old(clients.nodes)|
      ensures clients.nodes[Next(i, |old(clients.nodes)|, |clients.nodes|)..] == old(clients.nodes)[i + 1..]
    {
      match outcome
      case NoLine =>
      case Line(raw) => ProcessCmd(CString(raw), fd);
      case Closed => Close(fd, i);
      case Failed => returnValue := -1;
    }

    /** Where the loop goes on: the same place when a connection has been taken out before it. */
    static function Next(i: nat, before: nat, after: nat): nat {
      if after < before then i else i + 1
    }

    /** The first connection on fd is closed; it is the i-th or one before. */
    method Close(fd: int, ghost i: nat)
      requires Valid() && i < |clients.contents| && clients.contents[i].fd == fd
      modifies `outs, clients, clients.repr
      ensures Valid() && clients.contents == Without(old(clients.contents), fd) && outs == old(outs) + [M.Dropped(fd)]
      ensures clients.repr == old(clients.repr) && |clients.nodes| == |old(clients.nodes)| - 1
      ensures clients.nodes[i..] == old(clients.nodes)[i + 1..]
    {
      clients.RemoveUpTo(fd, i);
      outs := outs + [M.Dropped(fd)];
    }

    /** One connection's share of the loop over the connections: its successor is read before it can be taken out. */
    method Visit(lst: Client, ghost i: nat, lines: map<int, M.Input>) returns (next: Client?, ghost j: nat)
      requires Valid() && i < |clients.nodes| && lst == clients.nodes[i] && returnValue == 0
      modifies `outs, `returnValue, queue, queue.repr, clients, clients.repr
      ensures Valid() && fresh(queue.repr - old(queue.repr)) && clients.repr == old(clients.repr)
      ensures j <= |clients.nodes| && |clients.nodes| - j < |old(clients.nodes)| - i
      ensures j < |clients.nodes| ==> next == clients.nodes[j]
      ensures j == |clients.nodes| ==> next == null
      ensures M.ReadClients(setup, old(State()), i, lines)
           == if returnValue == 0 then M.ReadClients(setup, State(), j, lines) else State()
    {
      assert lst.Value() == clients.contents[i];
      next := lst.next;
      j := i + 1;
      if lst.fd in lines {
        ghost var nodes := clients.nodes;
        ReadClient(lst, i, lines[lst.fd]);
        j := Next(i, |nodes|, |clients.nodes|);
        assert |clients.nodes[j..]| == |nodes[i + 1..]|;
        if j < |clients.nodes| { assert clients.nodes[j] == clients.nodes[j..][0] == nodes[i + 1..][0]; }
      }
    }

    /** The loop over the connections. */
    method ReadClients(lines: map<int, M.Input>)
      requires Valid() && returnValue == 0
      modifies `outs, `returnValue, queue, queue.repr, clients, clients.repr
      ensures Valid() && State() == M.ReadClients(setup, old(State()), 0, lines)
      ensures fresh(queue.repr - old(queue.repr)) && clients.repr == old(clients.repr)
    {
      var lst := clients.first;
      ghost var i: nat := 0;
      while lst != null && returnValue == 0
        invariant Valid() && i <= |clients.nodes|
        invariant i < |clients.nodes| ==> lst == clients.nodes[i]
        invariant i == |clients.nodes| ==> lst == null
        invariant M.ReadClients(setup, old(State()), 0, lines)
               == if returnValue == 0 then M.ReadClients(setup, State(), i, lines) else State()
        invariant fresh(queue.repr - old(queue.repr)) && clients.repr == old(clients.repr)
        decreases |clients.nodes| - i
      {
        lst, i := Visit(lst, i, lines);
      }
    }


    method EndOfTurn(ok: bool, now: TimeVal)
      requires Valid()
      modifies `outs, `autosampleEnabled, queue, queue.repr
      ensures Valid() && State() == M.UpdateSampling(setup, M.SendHead(old(State()), ok, now))
      ensures queue.repr == old(queue.repr)
    {
      SendCommand(ok, now);
      UpdateSampling();
    }

    /** Everything after the sampling process's pipe has been seen to. */
    method FromClients(r: M.Round, t: M.Turn)
      requires Valid() && returnValue == 0
      modifies this, queue, queue.repr, clients, clients.repr
      ensures Valid() && State() == M.FromClients(setup, old(State()), r, t)
      ensures fresh(queue.repr - old(queue.repr))
      ensures clients.repr == old(clients.repr)
    {
      ReadClients(r.lines);
      EndOfTurn(t.writeOk, t.now);
    }

    method FromAuto(r: M.Round, t: M.Turn)
      requires Valid() && returnValue == 0
      modifies this, queue, queue.repr, clients, clients.repr
      ensures Valid() && State() == M.FromAuto(setup, old(State()), r, t)
      ensures fresh(queue.repr - old(queue.repr))
      ensures clients.repr == old(clients.repr)
    {
      if setup.child && autoOpen && r.auto.Some? {
        ReadAuto(r.auto.value);
        if !autoOpen || returnValue != 0 {
          return;
        }
      }
      FromClients(r, t);
    }

    method FromAccept(r: M.Round, t: M.Turn)
      requires Valid() && returnValue == 0
      modifies this, queue, queue.repr, clients, clients.repr
      ensures Valid() && State() == M.FromAccept(setup, old(State()), r, t)
      ensures fresh(queue.repr - old(queue.repr))
      ensures fresh(clients.repr - old(clients.repr))
    {
      if r.accepted.Some? {
        Accept(r.accepted.value);
        if returnValue != 0 {
          return;
        }
      }
      FromAuto(r, t);
    }

    method FromTty(r: M.Round, t: M.Turn)
      requires Valid() && returnValue == 0
      modifies this, queue, queue.repr, clients, clients.repr
      ensures Valid() && State() == M.FromTty(setup, old(State()), r, t)
      ensures fresh(queue.repr - old(queue.repr))
      ensures fresh(clients.repr - old(clients.repr))
    {
      if r.tty.Some? {
        ProcessTty(r.tty.value);
        if returnValue != 0 {
          return;
        }
      }
      FromAccept(r, t);
    }

    /** The pass that select's timeout leads to: an expired command goes, and the next one follows. */
    method OnIdle(t: M.Turn)
      requires Valid()
      modifies this, queue, queue.repr
      ensures Valid()
      ensures State() == if old(queue.contents) != [] && Expired(old(queue.contents)[0], t.now)
                         then M.EndOfTurn(setup, M.PopExpired(old(State()), t.now), t) else old(State())
      ensures queue.repr == old(queue.repr)
    {
      if queue.first != null {
        assert queue.nodes[0].Value() == queue.contents[0];
        var expired := queue.first.HasExpired(t.now);
        if expired {
          PopExpired(t.now);
          EndOfTurn(t.writeOk, t.now);
        }
      }
    }

    /** One pass through the body of the main loop. */
    method Turn(t: M.Turn)
      requires Valid()
      modifies this, queue, queue.repr, clients, clients.repr
      ensures Valid() && State() == M.Step(setup, old(State()), t)
      ensures fresh(queue.repr - old(queue.repr))
      ensures fresh(clients.repr - old(clients.repr))
    {
      if returnValue != 0 {
        return;
      }
      match t.event
      case SelectFailed => returnValue := -1;
      case Interrupted =>
      case Idle => OnIdle(t);
      case Ready(r) =>
        if r.stop {
          returnValue := 1;
        } else {
          FromTty(r, t);
        }
    }
  }
}
