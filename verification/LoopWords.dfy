/** The protocol word for word: what a client's line does, what is written to the firmware for it, and who hears the answer. */
module LoopWords {
  import opened Wrappers
  import opened ClientList
  import opened CommandQueue
  import opened Commands
  import opened MainLoop
  import opened LoopLedger
  import LineReader
  import LoopAnswers

  // ------------------------------------------------------ what the firmware gets

  /** The same letter in either case, or the same character. */
  predicate SameButCase(x: char, y: char) {
    x == y || ('a' <= x <= 'z' && y as int == x as int - 32) || ('A' <= x <= 'Z' && y as int == x as int + 32)
  }

  /** The first 60 characters of a code. */
  function Sent60(code: string): string {
    if |code| <= 60 then code else code[..60]
  }

  /** What the firmware reads for a command with this code: on in capitals, off in small letters, a device as configured. */
  ghost predicate SpellsCode(cmd: CmdId, code: string, bytes: string) {
    var sent := Sent60(code);
    && |bytes| == |sent|
    && match cmd
       case PowerOn => forall i | 0 <= i < |bytes| :: SameButCase(sent[i], bytes[i]) && !('a' <= bytes[i] <= 'z')
       case PowerOff => forall i | 0 <= i < |bytes| :: SameButCase(sent[i], bytes[i]) && !('A' <= bytes[i] <= 'Z')
       case Sample => bytes == sent
       case Log => false
       case Listen => false
  }

  lemma EncodeSpells(c: Command)
    ensures Encode(c).Some? <==> c.param.Some? && (c.cmd == PowerOn || c.cmd == PowerOff || c.cmd == Sample)
    ensures Encode(c).Some? ==> SpellsCode(c.cmd, c.param.value, Encode(c).value)
  {
  }

  /** What is written spells the command's code. */
  ghost predicate WritesSpell(o: Out) {
    o.Written? ==> o.command.param.Some? && SpellsCode(o.command.cmd, o.command.param.value, o.bytes)
  }

  /** IN EVERY RUN what is written to the firmware is the first 60 characters of a configured code: for "on" without small
      letters, for "off" without capitals, otherwise the same but for the case; for a sample exactly these characters. */
  lemma {:induction false} WritesSpellCodes(s: Setup, turns: seq<Turn>, o: Out)
    requires o in Run(s, START, turns).outs
    ensures WritesSpell(o)
  {
    RunOrderly(s, turns);
    if o.Written? { EncodeSpells(o.command); }
  }

  // --------------------------------------------------------- what a line asks for

  /** A line without newline or '\0' that fits the buffer. */
  predicate Sendable(line: string) {
    '\n' !in line && '\0' !in line && |line| < 100
  }

  lemma {:induction false} CStringWhole(s: string)
    requires '\0' !in s
    ensures CString(s) == s
    decreases s
  {
    if s != [] {
      CStringWhole(s[1..]);
      assert s == [s[0]] + s[1..];
    }
  }

  /** A C string ends at the first '\0'. */
  lemma {:induction false} CStringEnds(s: string)
    ensures CString(s) <= s && '\0' !in CString(s) && (|CString(s)| < |s| ==> s[|CString(s)|] == '\0')
    decreases s
  {
    if s != [] && s[0] != '\0' {
      CStringEnds(s[1..]);
      assert s == [s[0]] + s[1..];
    }
  }

  lemma {:induction false} LineRead(line: seq<char>, end: LineReader.End)
    requires '\n' !in line && |line| < 100
    ensures LineReader.ReadLine([], line + "\n", end) == LineReader.Call(LineReader.Line(line), [], |line| + 1)
  {
    LineReader.InTwoPieces([], line, "\n", end);
    assert [] + line == line;
  }

  /** A client's line goes to process_cmd as it is. */
  lemma {:induction false} ClientLine(s: Setup, d: Daemon, i: nat, line: string, end: LineReader.End)
    requires i < |d.clients| && d.clients[i].pending == [] && Sendable(line)
    ensures ReadClient(s, d, i, Input(line + "\n", end)) == ProcessCmd(s, d, line, d.clients[i].fd)
  {
    LineRead(line, end);
    CStringWhole(line);
    assert d.clients[i := d.clients[i].(pending := [])] == d.clients;
  }

  /** And so does a line of the sampling process. */
  lemma {:induction false} AutoLine(s: Setup, d: Daemon, line: string, end: LineReader.End)
    requires d.auto == [] && Sendable(line)
    ensures ReadAuto(s, d, Input(line + "\n", end)) == ProcessCmd(s, d, line, s.autoFd)
  {
    LineRead(line, end);
    CStringWhole(line);
  }

  /** These outs are the text, sent to the clients who are to hear it, to each of them once, and to nobody else. */
  ghost predicate HeardBy(outs: seq<Out>, text: string, clients: seq<Connection>, who: Connection -> bool) {
    && (forall o | o in outs :: o.Response? && o.text == text)
    && (forall fd :: Response(fd, text) in outs <==> exists i :: 0 <= i < |clients| && clients[i].fd == fd && who(clients[i]))
    && (DistinctFds(clients) ==> forall i, j | 0 <= i < j < |outs| :: outs[i] != outs[j])
  }

  lemma {:induction false} BroadcastOnce(clients: seq<Connection>, topic: Topic, except: int, text: string)
    requires DistinctFds(clients)
    ensures forall i, j | 0 <= i < j < |Broadcast(clients, topic, except, text)| ::
              Broadcast(clients, topic, except, text)[i] != Broadcast(clients, topic, except, text)[j]
    decreases clients
  {
    if clients != [] {
      BroadcastOnce(clients[1..], topic, except, text);
      LoopAnswers.BroadcastReaches(clients[1..], topic, except, text, clients[0].fd);
    }
  }

  lemma {:induction false} BroadcastSame(clients: seq<Connection>, topic: Topic, except: int, text: string)
    ensures forall o | o in Broadcast(clients, topic, except, text) :: o.Response? && o.text == text
    decreases clients
  {
    if clients != [] { BroadcastSame(clients[1..], topic, except, text); }
  }

  lemma {:induction false} BroadcastHeard(clients: seq<Connection>, topic: Topic, except: int, text: string, who: Connection -> bool)
    requires forall c :: who(c) <==> c.fd != except && Follows(c.wants, topic)
    ensures HeardBy(Broadcast(clients, topic, except, text), text, clients, who)
  {
    BroadcastSame(clients, topic, except, text);
    if DistinctFds(clients) { BroadcastOnce(clients, topic, except, text); }
    forall fd ensures Response(fd, text) in Broadcast(clients, topic, except, text)
                 <==> exists i :: 0 <= i < |clients| && clients[i].fd == fd && who(clients[i])
    {
      LoopAnswers.BroadcastReaches(clients, topic, except, text, fd);
    }
  }

  /** From d to e one command has been queued, as its client asked, under the code its name stands for; without a code the
      client has been sent the error; and the others who listen for requests have heard of it. */
  ghost predicate Queued(d: Daemon, e: Daemon, fd: int, cmd: CmdId, code: Option<string>, error: string, request: string) {
    var c, errors := Command(fd, cmd, code, false, TimeVal(0, 0)), if code.None? then [Response(fd, error)] else [];
    && |e.outs| > |d.outs| + |errors|
    && var copies := e.outs[|d.outs| + |errors|..|e.outs| - 1];
       && HeardBy(copies, request, d.clients, (k: Connection) => k.fd != fd && k.wants.request)
       && e == d.(queue := d.queue + [c], outs := d.outs + errors + copies + [Pushed(c)])
  }

  lemma {:induction false} CmdQueued(s: Setup, d: Daemon, line: string, fd: int, p: Parsed)
    requires Parse(line) == Some(p) && ForFirmware(p.cmd)
    ensures Queued(d, ProcessCmd(s, d, line, fd), fd, p.cmd, Code(s.opt, p), Refusal(p), "Request: " + p.text)
  {
    var code, copies := Code(s.opt, p), Broadcast(d.clients, Topic.Requests, fd, "Request: " + p.text);
    BroadcastHeard(d.clients, Topic.Requests, fd, "Request: " + p.text, (k: Connection) => k.fd != fd && k.wants.request);
    var errors := if code.None? then [Response(fd, Refusal(p))] else [];
    var c := Command(fd, p.cmd, code, false, TimeVal(0, 0));
    var e := ProcessCmd(s, d, line, fd);
    assert d.outs + [] == d.outs;
    assert e.outs == d.outs + errors + copies + [Pushed(c)];
    assert e.outs[|d.outs| + |errors|..|e.outs| - 1] == copies;
    assert e.queue == d.queue + [c];
  }

  lemma Requested(rest: string)
    ensures "Request: " + ("power_on" + rest) == "Request: power_on" + rest
    ensures "Request: " + ("power_off" + rest) == "Request: power_off" + rest
    ensures "Request: " + ("sample" + rest) == "Request: sample" + rest
    ensures "Request: " + ("power_on " + rest) == "Request: power_on " + rest
    ensures "Request: " + ("power_off " + rest) == "Request: power_off " + rest
    ensures "Request: " + ("sample " + rest) == "Request: sample " + rest
  {
  }

  /** ON: the name is looked up among the power ids. */
  lemma {:induction false} PowerOnQueues(s: Setup, d: Daemon, fd: int, name: string)
    ensures Queued(d, ProcessCmd(s, d, "power on " + name, fd), fd, PowerOn, Find(s.opt.powerIds, name),
                   "Error: invalid power id", "Request: power_on " + name)
  {
    PowerOnUnderstood(name);
    Requested(name);
    CmdQueued(s, d, "power on " + name, fd, Parsed(PowerOn, "power_on " + name, Some(name)));
  }

  /** OFF: the same. */
  lemma {:induction false} PowerOffQueues(s: Setup, d: Daemon, fd: int, name: string)
    ensures Queued(d, ProcessCmd(s, d, "power off " + name, fd), fd, PowerOff, Find(s.opt.powerIds, name),
                   "Error: invalid power id", "Request: power_off " + name)
  {
    PowerOffUnderstood(name);
    Requested(name);
    CmdQueued(s, d, "power off " + name, fd, Parsed(PowerOff, "power_off " + name, Some(name)));
  }

  /** SAMPLE: the name is looked up among the devices. */
  lemma {:induction false} SampleQueues(s: Setup, d: Daemon, fd: int, name: string)
    ensures Queued(d, ProcessCmd(s, d, "sample " + name, fd), fd, Sample, Find(s.opt.sampleDevs, name),
                   "Error: invalid sample device", "Request: sample " + name)
  {
    SampleUnderstood(name);
    Requested(name);
    CmdQueued(s, d, "sample " + name, fd, Parsed(Sample, "sample " + name, Some(name)));
  }

  lemma {:induction false} NoBlank(s: string)
    requires ' ' !in s
    ensures AfterBlank(s) == None
    decreases s
  {
    if s != [] { NoBlank(s[1..]); }
  }

  lemma {:induction false} NamelessOnParsed(word: string)
    requires ' ' !in word
    ensures Parse("power on" + word) == Some(Parsed(PowerOn, "power_on" + word, None))
  {
    NoBlank("power_on" + word);
    assert ("power on" + word)[5 := '_'] == "power_on" + word;
  }

  lemma {:induction false} NamelessOffParsed(word: string)
    requires ' ' !in word
    ensures Parse("power off" + word) == Some(Parsed(PowerOff, "power_off" + word, None))
  {
    NoBlank("power_off" + word);
    assert ("power off" + word)[7] == 'f' && ("power off" + word)[5 := '_'] == "power_off" + word;
  }

  /** Without a name nothing is found, and the command is queued all the same, to be dequeued unwritten. */
  lemma {:induction false} NamelessOnQueues(s: Setup, d: Daemon, fd: int, word: string)
    requires ' ' !in word
    ensures Queued(d, ProcessCmd(s, d, "power on" + word, fd), fd, PowerOn, None, "Error: invalid power id", "Request: power_on" + word)
  {
    NamelessOnParsed(word);
    Requested(word);
    CmdQueued(s, d, "power on" + word, fd, Parsed(PowerOn, "power_on" + word, None));
  }

  lemma {:induction false} NamelessOffQueues(s: Setup, d: Daemon, fd: int, word: string)
    requires ' ' !in word
    ensures Queued(d, ProcessCmd(s, d, "power off" + word, fd), fd, PowerOff, None, "Error: invalid power id", "Request: power_off" + word)
  {
    NamelessOffParsed(word);
    Requested(word);
    CmdQueued(s, d, "power off" + word, fd, Parsed(PowerOff, "power_off" + word, None));
  }

  lemma {:induction false} NamelessSampleQueues(s: Setup, d: Daemon, fd: int, word: string)
    requires ' ' !in word
    ensures Queued(d, ProcessCmd(s, d, "sample" + word, fd), fd, Sample, None, "Error: invalid sample device", "Request: sample" + word)
  {
    NoBlank("sample" + word);
    assert Parse("sample" + word) == Some(Parsed(Sample, "sample" + word, None));
    Requested(word);
    CmdQueued(s, d, "sample" + word, fd, Parsed(Sample, "sample" + word, None));
  }

  // ------------------------------------------------------------ who wants to hear what

  /** The connection's wishes are now these, and nothing else has changed. */
  ghost predicate NowWants(d: Daemon, e: Daemon, i: nat, w: Wants) {
    i < |d.clients| && e == d.(clients := d.clients[i := d.clients[i].(wants := w)])
  }

  /** The first connection on its descriptor. */
  ghost predicate FirstOn(clients: seq<Connection>, i: nat) {
    i < |clients| && forall k | 0 <= k < i :: clients[k].fd != clients[i].fd
  }

  lemma {:induction false} ListenParsed(topic: string)
    ensures Parse("listen " + topic) == Some(Parsed(CmdId.Listen, "listen " + topic, Some(topic)))
  {
    AfterBlankIs("listen", topic);
    assert "listen" + " " + topic == "listen " + topic;
    assert ("listen " + topic)[1] == 'i';
  }

  /** Asking for a topic turns these wishes into those. */
  ghost predicate Chooses(topic: string, w: Wants, r: Wants) {
    || ("all" <= topic && r == Wants(true, true, true, true, true))
    || ("none" <= topic && r == Wants(false, false, false, false, false))
    || ("request" <= topic && r == Wants(true, w.error, w.sensor, w.movement, w.button))
    || ("error" <= topic && r == Wants(w.request, true, w.sensor, w.movement, w.button))
    || ("sensor" <= topic && r == Wants(w.request, w.error, true, w.movement, w.button))
    || ("movement" <= topic && r == Wants(w.request, w.error, w.sensor, true, w.button))
    || ("button" <= topic && r == Wants(w.request, w.error, w.sensor, w.movement, true))
  }

  predicate Topical(topic: string) {
    || "all" <= topic || "none" <= topic || "request" <= topic || "error" <= topic
    || "sensor" <= topic || "movement" <= topic || "button" <= topic
  }

  lemma AskedChooses(w: Wants, topic: string)
    ensures Topical(topic) ==> Chooses(topic, w, Asked(w, Some(topic)))
    ensures !Topical(topic) ==> Asked(w, Some(topic)) == w
  {
  }

  /** No two topics start alike. */
  lemma {:induction false} ChoosesOne(topic: string, w: Wants, x: Wants, y: Wants)
    requires Chooses(topic, w, x) && Chooses(topic, w, y)
    ensures x == y
  {
    var c := topic[0];
    assert "all"[0] == 'a' && "none"[0] == 'n' && "request"[0] == 'r' && "error"[0] == 'e' && "sensor"[0] == 's' && "movement"[0] == 'm' && "button"[0] == 'b';
  }

  /** "listen TOPIC" sets exactly what the topic stands for: all or nothing at once, any other one in addition to those asked for
      before, by the connection it comes from and by no other. An unknown topic changes nothing. */
  lemma {:induction false} ListenMeans(s: Setup, d: Daemon, i: nat, topic: string, w: Wants)
    requires FirstOn(d.clients, i) && if Topical(topic) then Chooses(topic, d.clients[i].wants, w) else w == d.clients[i].wants
    ensures NowWants(d, ProcessCmd(s, d, "listen " + topic, d.clients[i].fd), i, w)
  {
    ListenParsed(topic);
    PositionIs(d.clients, d.clients[i].fd, i);
    AskedChooses(d.clients[i].wants, topic);
    if Topical(topic) { ChoosesOne(topic, d.clients[i].wants, w, Asked(d.clients[i].wants, Some(topic))); }
  }

  /** "listen" alone asks for everything. */
  lemma {:induction false} ListenAlone(s: Setup, d: Daemon, i: nat)
    requires FirstOn(d.clients, i)
    ensures NowWants(d, ProcessCmd(s, d, "listen", d.clients[i].fd), i, Wants(true, true, true, true, true))
  {
    NoBlank("listen");
    PositionIs(d.clients, d.clients[i].fd, i);
  }

  /** The lines that have no effect on the daemon: "log", an unknown topic, "listen" from nobody on the list, any other word. */
  predicate WithoutEffect(clients: seq<Connection>, line: string, fd: int) {
    || "log" <= line
    || ("listen" <= line && NobodyOn(clients, fd))
    || !("power on" <= line || "power off" <= line || "sample" <= line || "listen" <= line)
  }

  lemma {:induction false} NothingDone(s: Setup, d: Daemon, line: string, fd: int)
    requires WithoutEffect(d.clients, line, fd)
    ensures ProcessCmd(s, d, line, fd) == d
  {
    if "log" <= line {
      assert line[0] == 'l' && line[1] == 'o';
    } else if "listen" <= line {
      assert line[0] == 'l' && line[1] == 'i';
      PositionIs(d.clients, fd, |d.clients|);
    }
  }

  // --------------------------------------------------------- what the firmware says

  /** The firmware ends its lines with a carriage return, which is not part of what it says. */
  lemma {:induction false} CarriageReturnDropped(line: string)
    requires '\0' !in line
    ensures FirmwareLine(line + "\r") == line
    ensures line == [] || line[|line| - 1] != '\r' ==> FirmwareLine(line) == line
  {
    CStringWhole(line);
    assert (line + "\r")[..|line|] == line;
  }

  /** Only a reading is reworded: the device's name stands for its one-character code, if there is such a device. */
  lemma {:induction false} AnswerIs(opt: Options, line: string, code: char, rest: string)
    ensures Answer(opt, "Sensor " + [code] + rest)
         == match FindKey(opt.sampleDevs, [code]) { case Some(name) => name + rest case None => "Sensor " + [code] + rest }
    ensures !("Sensor " <= line) || |line| <= 7 ==> Answer(opt, line) == line
  {
    var reading := "Sensor " + [code] + rest;
    assert reading[..7] == "Sensor " && reading[7..8] == [code] && reading[8..] == rest;
  }

  /** Who has asked to hear such a line. */
  predicate HearsLine(w: Wants, line: string) {
    || ("Error:" <= line && w.error)
    || ("movement" <= line && w.movement)
    || ("PanicButton" <= line && w.button)
    || ("Sensor " <= line && w.sensor)
  }

  lemma {:induction false} CopiesHeard(clients: seq<Connection>, line: string, answer: string, except: int)
    ensures HeardBy(Copies(clients, line, answer, except), answer, clients, (k: Connection) => k.fd != except && HearsLine(k.wants, line))
  {
    assert "Error:"[0] == 'E' && "movement"[0] == 'm' && "PanicButton"[0] == 'P' && "Sensor "[0] == 'S';
    var who := (k: Connection) => k.fd != except && HearsLine(k.wants, line);
    if "Error:" <= line {
      BroadcastHeard(clients, Errors, except, answer, who);
      assert Copies(clients, line, answer, except) == Broadcast(clients, Errors, except, answer);
    } else if "movement" <= line {
      BroadcastHeard(clients, Movements, except, answer, who);
      assert Copies(clients, line, answer, except) == Broadcast(clients, Movements, except, answer);
    } else if "PanicButton" <= line {
      BroadcastHeard(clients, Buttons, except, answer, who);
      assert Copies(clients, line, answer, except) == Broadcast(clients, Buttons, except, answer);
    } else if "Sensor " <= line {
      BroadcastHeard(clients, Sensors, except, answer, who);
      assert Copies(clients, line, answer, except) == Broadcast(clients, Sensors, except, answer);
    }
  }

  /** From d to e a line has been answered with these words: whoever asked for the oldest command gets them, everybody else who has
      asked to hear such lines gets a copy, and the command is off the queue. */
  ghost predicate Answering(d: Daemon, e: Daemon, line: string, answer: string) {
    var to := if d.queue == [] then -1 else d.queue[0].fd;
    var reply := if d.queue == [] then [] else [Response(to, answer)];
    && |e.outs| > |d.outs| + |reply|
    && var copies := e.outs[|d.outs| + |reply|..|e.outs| - 1];
       && HeardBy(copies, answer, d.clients, (k: Connection) => k.fd != to && HearsLine(k.wants, line))
       && e == if d.queue == [] then d.(outs := d.outs + copies + [Unclaimed(line)])
               else d.(queue := d.queue[1..], outs := d.outs + reply + copies + [Answered(d.queue[0], line)])
  }

  lemma {:induction false} DeliverAnswers(d: Daemon, line: string, answer: string)
    ensures Answering(d, Deliver(d, line, answer), line, answer)
  {
    var to := if d.queue == [] then -1 else d.queue[0].fd;
    var reply := if d.queue == [] then [] else [Response(to, answer)];
    var copies, e := Copies(d.clients, line, answer, to), Deliver(d, line, answer);
    CopiesHeard(d.clients, line, answer, to);
    var last := if d.queue == [] then Unclaimed(line) else Answered(d.queue[0], line);
    assert d.outs + [] == d.outs;
    assert e.outs == d.outs + reply + copies + [last];
    assert e.outs[|d.outs| + |reply|..|e.outs| - 1] == copies;
  }

  /** A LINE OF THE FIRMWARE, carriage return and all, is answered as it stands, ... */
  lemma {:induction false} FirmwareLineAnswers(s: Setup, d: Daemon, line: string, end: LineReader.End)
    requires d.tty == [] && Sendable(line + "\r")
    ensures Answering(d, ProcessTty(s, d, Input(line + "\r\n", end)), line, Answer(s.opt, line))
  {
    assert line + "\r\n" == (line + "\r") + "\n";
    LineRead(line + "\r", end);
    CarriageReturnDropped(line);
    assert d.(tty := []) == d;
    DeliverAnswers(d, line, Answer(s.opt, line));
  }

  /** ... AND A READING under the name of its device. */
  lemma {:induction false} ReadingAnswers(s: Setup, d: Daemon, code: char, name: string, reading: string, end: LineReader.End)
    requires d.tty == [] && Sendable("Sensor " + [code] + reading + "\r") && FindKey(s.opt.sampleDevs, [code]) == Some(name)
    ensures Answering(d, ProcessTty(s, d, Input("Sensor " + [code] + reading + "\r\n", end)), "Sensor " + [code] + reading, name + reading)
  {
    AnswerIs(s.opt, "", code, reading);
    FirmwareLineAnswers(s, d, "Sensor " + [code] + reading, end);
  }
}
