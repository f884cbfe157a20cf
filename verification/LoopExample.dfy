/** Runs of the daemon in which a queued command is dequeued although it was never written, in which an answer goes
    to the wrong client, and in which it goes to a client that was not there when the question was asked. */
module LoopExample {
  import opened Wrappers
  import opened ClientList
  import opened CommandQueue
  import opened Commands
  import opened MainLoop
  import opened LoopLedger
  import opened LoopService
  import opened LoopWaiting
  import opened LoopAnswers
  import opened LoopConnections
  import LineReader

  const SETUP := Setup(Options([], [("a", "*")]), 3, true)
  const NOW := TimeVal(1000, 0)
  const NOBODY := Round(false, None, None, None, map[])

  function At(r: Round): Turn {
    Turn(Ready(r), true, NOW)
  }

  /** A client connects on a descriptor. */
  function Connects(fd: int): Turn {
    At(NOBODY.(accepted := Some(fd)))
  }

  const ASK := Input("sample a" + "\n", LineReader.WouldBlock)

  /** It asks for a reading of the only device. */
  function Asks(fd: int): Turn {
    At(NOBODY.(lines := map[fd := ASK]))
  }

  /** The firmware says something. */
  function Says(line: string): Turn {
    At(NOBODY.(tty := Some(Input(line + "\n", LineReader.WouldBlock))))
  }

  /** The firmware answers, and the sampling process is found gone in the same turn. */
  const ANSWERED_AND_GONE := At(NOBODY.(tty := Some(Input([] + "\n", LineReader.WouldBlock)), auto := Some(Input("", LineReader.EndOfFile))))

  const NOTHING_HAPPENS := Turn(Idle, true, NOW)

  function Reading(fd: int): Command {
    Command(fd, Sample, Some("*"), false, CLEARED)
  }

  function Sent(c: Command): Command {
    c.(sent := true, start := NOW)
  }

  // ------------------------------------------------------------- turn by turn

  /** The loop goes on, nothing is half read, and no client listens to anything. */
  predicate Quiet(d: Daemon) {
    && d.returnValue == 0 && d.tty == [] && d.auto == [] && d.autoOpen && !d.sampling
    && (forall i | 0 <= i < |d.clients| :: d.clients[i].wants == NOTHING && d.clients[i].pending == [])
    && (forall i, j | 0 <= i < j < |d.clients| :: d.clients[i].fd != d.clients[j].fd)
  }

  lemma {:induction false} NobodyHears(clients: seq<Connection>, topic: Topic, except: int, text: string)
    requires forall i | 0 <= i < |clients| :: clients[i].wants == NOTHING
    ensures Broadcast(clients, topic, except, text) == []
    decreases clients
  {
    if clients != [] { NobodyHears(clients[1..], topic, except, text); }
  }

  lemma {:induction false} NoCopies(clients: seq<Connection>, line: string, answer: string, except: int)
    requires forall i | 0 <= i < |clients| :: clients[i].wants == NOTHING
    ensures Copies(clients, line, answer, except) == []
  {
    NobodyHears(clients, Errors, except, answer);
    NobodyHears(clients, Movements, except, answer);
    NobodyHears(clients, Buttons, except, answer);
    NobodyHears(clients, Sensors, except, answer);
  }

  lemma {:induction false} WholeLine(pending: seq<char>, line: seq<char>, end: LineReader.End)
    requires '\n' !in line && |pending| + |line| < LineReader.BUFFER_SIZE
    ensures LineReader.ReadLine(pending, line + "\n", end) == LineReader.Call(LineReader.Line(pending + line), [], |line| + 1)
    decreases line
  {
    if line == [] {
      assert line + "\n" == "\n" && pending + line == pending;
    } else {
      assert (line + "\n")[1..] == line[1..] + "\n";
      WholeLine(pending + [line[0]], line[1..], end);
      assert pending + [line[0]] + line[1..] == pending + line;
    }
  }

  lemma {:induction false} NoNul(s: seq<char>)
    requires '\0' !in s
    ensures CString(s) == s
    decreases s
  {
    if s != [] { NoNul(s[1..]); }
  }

  lemma {:induction false} AskIsParsed()
    ensures var p := Parsed(Sample, "sample a", Some("a")); Parse("sample a") == Some(p) && Code(SETUP.opt, p) == Some("*")
  {
    SampleUnderstood("a");
    assert "sample " + "a" == "sample a";
  }

  lemma {:induction false} AskIsQueued(d: Daemon, fd: int)
    requires Quiet(d)
    ensures ProcessCmd(SETUP, d, "sample a", fd) == Push(d, Reading(fd))
  {
    AskIsParsed();
    NobodyHears(d.clients, Requests, fd, "Request: " + "sample a");
  }

  lemma {:induction false} AskIsLine()
    ensures LineReader.ReadLine([], ASK.bytes, ASK.end) == LineReader.Call(LineReader.Line("sample a"), [], 9)
  {
    var line := "sample a";
    WholeLine([], line, ASK.end);
    assert [] + line == line;
  }

  lemma {:induction false} AskIsString()
    ensures CString("sample a") == "sample a"
  {
    NoNul("sample a");
  }

  lemma {:induction false} AskIsRead(d: Daemon, k: nat)
    requires Quiet(d) && k < |d.clients|
    ensures ReadClient(SETUP, d, k, ASK) == Push(d, Reading(d.clients[k].fd))
  {
    AskIsLine();
    AskIsString();
    assert d.clients[k := d.clients[k].(pending := [])] == d.clients;
    AskIsQueued(d, d.clients[k].fd);
  }

  lemma {:induction false} ReadsOne(d: Daemon, i: nat, input: Input, e: Daemon)
    requires i < |d.clients| && e == ReadClient(SETUP, d, i, input) && e.clients == d.clients && e.returnValue == 0
    requires forall k | i < k < |d.clients| :: d.clients[k].fd != d.clients[i].fd
    ensures ReadClients(SETUP, d, i, map[d.clients[i].fd := input]) == e
  {
    NothingToRead(SETUP, e, i + 1, map[d.clients[i].fd := input]);
  }

  /** One command of the k-th client: the reading loop passes over the others and queues it. */
  lemma {:induction false} OneAsks(d: Daemon, i: nat, k: nat)
    requires Quiet(d) && i <= k < |d.clients|
    ensures ReadClients(SETUP, d, i, map[d.clients[k].fd := ASK]) == Push(d, Reading(d.clients[k].fd))
    decreases k - i
  {
    if i < k {
      OneAsks(d, i + 1, k);
    } else {
      AskIsRead(d, k);
      ReadsOne(d, k, ASK, Push(d, Reading(d.clients[k].fd)));
    }
  }

  lemma {:induction false} Asking(d: Daemon, k: nat)
    requires Quiet(d) && k < |d.clients|
    ensures Step(SETUP, d, Asks(d.clients[k].fd)) == SendHead(Push(d, Reading(d.clients[k].fd)), true, NOW)
  {
    OneAsks(d, 0, k);
  }

  /** With nothing queued the command is written at once. */
  lemma {:induction false} AskingFirst(d: Daemon, k: nat)
    requires Quiet(d) && k < |d.clients| && d.queue == []
    ensures var c := Reading(d.clients[k].fd);
            Step(SETUP, d, Asks(c.fd)) == d.(queue := [Sent(c)], outs := d.outs + [Pushed(c), Written(c, "*", NOW)])
  {
    Asking(d, k);
    var c := Reading(d.clients[k].fd);
    assert d.outs + [Pushed(c)] + [Written(c, "*", NOW)] == d.outs + [Pushed(c), Written(c, "*", NOW)];
  }

  /** Behind a written command it waits. */
  lemma {:induction false} AskingSecond(d: Daemon, k: nat)
    requires Quiet(d) && k < |d.clients| && |d.queue| == 1 && d.queue[0].sent
    ensures var c := Reading(d.clients[k].fd);
            Step(SETUP, d, Asks(c.fd)) == d.(queue := [d.queue[0], c], outs := d.outs + [Pushed(c)])
  {
    Asking(d, k);
  }

  lemma {:induction false} Connecting(d: Daemon, fd: int)
    requires Quiet(d) && fd >= 0 && (d.queue == [] || d.queue[0].sent)
    ensures Step(SETUP, d, Connects(fd)) == d.(clients := d.clients + [Connection(fd, NOTHING, [])], outs := d.outs + [Accepted(fd)])
  {
    NothingToRead(SETUP, Accept(d, fd), 0, map[]);
  }

  /** What a line does to the queue and its clients. */
  function Heard(d: Daemon, line: string): Daemon
    requires d.queue != []
  {
    PopAnswered(Say(d, [Response(d.queue[0].fd, Answer(SETUP.opt, line))]), line)
  }

  lemma {:induction false} Delivering(d: Daemon, line: string)
    requires Quiet(d) && d.queue != []
    ensures Deliver(d, line, Answer(SETUP.opt, line)) == Heard(d, line)
  {
    var fd, answer := d.queue[0].fd, Answer(SETUP.opt, line);
    NoCopies(d.clients, line, answer, fd);
    assert Say(Say(d, [Response(fd, answer)]), []) == Say(d, [Response(fd, answer)]);
  }

  lemma {:induction false} PlainLine(line: string)
    requires '\0' !in line && '\r' !in line
    ensures FirmwareLine(line) == line
  {
    NoNul(line);
  }

  lemma {:induction false} LineHeard(d: Daemon, line: string)
    requires Quiet(d) && d.queue != [] && |line| < LineReader.BUFFER_SIZE
    requires '\n' !in line && '\0' !in line && '\r' !in line
    ensures ProcessTty(SETUP, d, Input(line + "\n", LineReader.WouldBlock)) == Heard(d, line)
  {
    WholeLine([], line, LineReader.WouldBlock);
    assert [] + line == line;
    PlainLine(line);
    Delivering(d, line);
  }

  lemma {:induction false} Hearing(d: Daemon, line: string)
    requires Quiet(d) && d.queue != [] && |line| < LineReader.BUFFER_SIZE
    requires '\n' !in line && '\0' !in line && '\r' !in line
    ensures Step(SETUP, d, Says(line)) == SendHead(Heard(d, line), true, NOW)
  {
    LineHeard(d, line);
    NothingToRead(SETUP, Heard(d, line), 0, map[]);
  }

  lemma {:induction false} HearingFirst(d: Daemon, line: string)
    requires Quiet(d) && |d.queue| == 2 && d.queue[1] == Reading(d.queue[1].fd) && |line| < LineReader.BUFFER_SIZE
    requires '\n' !in line && '\0' !in line && '\r' !in line
    ensures var c, next := d.queue[0], d.queue[1];
            Step(SETUP, d, Says(line)) ==
              d.(queue := [Sent(next)],
                 outs := d.outs + [Response(c.fd, Answer(SETUP.opt, line)), Answered(c, line), Written(next, "*", NOW)])
  {
    Hearing(d, line);
    var c, next := d.queue[0], d.queue[1];
    var reply := Response(c.fd, Answer(SETUP.opt, line));
    assert d.outs + [reply] + [Answered(c, line)] + [Written(next, "*", NOW)]
        == d.outs + [reply, Answered(c, line), Written(next, "*", NOW)];
  }

  lemma {:induction false} HearingLast(d: Daemon, line: string)
    requires Quiet(d) && |d.queue| == 1 && |line| < LineReader.BUFFER_SIZE
    requires '\n' !in line && '\0' !in line && '\r' !in line
    ensures Step(SETUP, d, Says(line)) ==
              d.(queue := [], outs := d.outs + [Response(d.queue[0].fd, Answer(SETUP.opt, line)), Answered(d.queue[0], line)])
  {
    Hearing(d, line);
  }

  lemma {:induction false} HearingAndGone(d: Daemon)
    requires Quiet(d) && d.queue != []
    ensures Step(SETUP, d, ANSWERED_AND_GONE) == Heard(d, []).(autoOpen := false)
  {
    LineHeard(d, []);
  }

  // -------------------------------------------------------- a command is lost

  /** Two commands are queued, and the second is waiting when the turn that answers the first is cut short. */
  function LosingRun(last: Turn): seq<Turn> {
    [Connects(5), Asks(5), Asks(5), ANSWERED_AND_GONE, last]
  }

  lemma {:induction false} Unfold(d: Daemon, t: Turn, turns: seq<Turn>)
    ensures Run(SETUP, d, [t] + turns) == Run(SETUP, Step(SETUP, d, t), turns)
    ensures NoneDropped(SETUP, d, [t] + turns) ==> NoneDropped(SETUP, Step(SETUP, d, t), turns)
  {
    assert ([t] + turns)[1..] == turns;
  }

  lemma {:induction false} LosingRunUnfolds(d1: Daemon, d2: Daemon, d3: Daemon, last: Turn)
    requires d1 == Step(SETUP, START, Connects(5)) && d2 == Step(SETUP, d1, Asks(5)) && d3 == Step(SETUP, d2, Asks(5))
    ensures NoneDropped(SETUP, START, LosingRun(last)) ==> NoneDropped(SETUP, Step(SETUP, d3, ANSWERED_AND_GONE), [last])
  {
    var turns := LosingRun(last);
    Unfold(START, Connects(5), turns[1..]);
    Unfold(d1, Asks(5), turns[2..]);
    Unfold(d2, Asks(5), turns[3..]);
    Unfold(d3, ANSWERED_AND_GONE, turns[4..]);
    assert [Connects(5)] + turns[1..] == turns;
    assert [Asks(5)] + turns[2..] == turns[1..];
    assert [Asks(5)] + turns[3..] == turns[2..];
    assert [ANSWERED_AND_GONE] + turns[4..] == turns[3..];
    assert turns[4..] == [last];
  }

  lemma {:induction false} LeftWaiting(last: Turn) returns (d: Daemon)
    ensures d.returnValue == 0 && d.queue == [Reading(5)] && d.tty == []
    ensures NoneDropped(SETUP, START, LosingRun(last)) ==> NoneDropped(SETUP, d, [last])
  {
    Connecting(START, 5);
    var d1 := Step(SETUP, START, Connects(5));
    assert d1.clients == [Connection(5, NOTHING, [])];
    AskingFirst(d1, 0);
    var d2 := Step(SETUP, d1, Asks(5));
    AskingSecond(d2, 0);
    var d3 := Step(SETUP, d2, Asks(5));
    HearingAndGone(d3);
    d := Step(SETUP, d3, ANSWERED_AND_GONE);
    LosingRunUnfolds(d1, d2, d3, last);
  }

  /** Both ways of losing the second command: the next line of the firmware, or nothing happening at all. Every
      write succeeds. */
  lemma {:induction false} ACommandIsLost()
    ensures WritesSucceed(LosingRun(Says([]))) && !Served(Run(SETUP, START, LosingRun(Says([]))).outs)
    ensures WritesSucceed(LosingRun(NOTHING_HAPPENS)) && !Served(Run(SETUP, START, LosingRun(NOTHING_HAPPENS)).outs)
  {
    LostIfDropped(Says([]));
    LostIfDropped(NOTHING_HAPPENS);
  }

  lemma {:induction false} LostIfDropped(last: Turn)
    requires last == NOTHING_HAPPENS || last == Says([])
    ensures !Served(Run(SETUP, START, LosingRun(last)).outs)
  {
    var d := LeftWaiting(last);
    WholeLine([], [], LineReader.WouldBlock);
    assert Drops(d, last) && !Prompt(d);
    RunServes(SETUP, START, LosingRun(last));
  }

  // ------------------------------------------------- an answer goes to the wrong client

  const ANSWER := "Sensor *:20"

  /** Two clients ask; something moves before the answer to the first comes. */
  const MISROUTING_RUN := [Connects(5), Connects(6), Asks(5), Asks(6), Says("movement"), Says(ANSWER)]

  const CONNECTED := [Accepted(5), Accepted(6)]
  const ASKED := [Pushed(Reading(5)), Written(Reading(5), "*", NOW)]
  const ALSO_ASKED := [Pushed(Reading(6))]
  const MOVED := [Response(5, "movement"), Answered(Sent(Reading(5)), "movement"), Written(Reading(6), "*", NOW)]
  const REPLIED := [Response(6, "a:20"), Answered(Sent(Reading(6)), ANSWER)]

  /** What the daemon does. */
  const MISROUTING_OUTS := CONNECTED + ASKED + ALSO_ASKED + MOVED + REPLIED

  const MISROUTING_TAGS := [Unsolicited, AnswerTo(0)]

  /** Both clients are connected. */
  function Both(queue: seq<Command>, outs: seq<Out>): Daemon {
    Daemon(queue, [Connection(5, NOTHING, []), Connection(6, NOTHING, [])], [], [], true, false, 0, outs)
  }

  /** Nobody is connected, or one client on descriptor 5. */
  function One(connected: bool, queue: seq<Command>, outs: seq<Out>): Daemon {
    Daemon(queue, if connected then [Connection(5, NOTHING, [])] else [], [], [], true, false, 0, outs)
  }

  lemma {:induction false} OneConnects(queue: seq<Command>, outs: seq<Out>)
    requires queue == [] || queue[0].sent
    ensures Step(SETUP, One(false, queue, outs), Connects(5)) == One(true, queue, outs + [Accepted(5)])
    ensures NewIsUnused(SETUP, One(false, queue, outs), Connects(5))
  {
    Connecting(One(false, queue, outs), 5);
  }

  lemma {:induction false} AnotherConnects(outs: seq<Out>)
    ensures Step(SETUP, One(true, [], outs), Connects(6)) == Both([], outs + [Accepted(6)])
  {
    Connecting(One(true, [], outs), 6);
  }

  lemma {:induction false} BothConnect()
    ensures Step(SETUP, Step(SETUP, START, Connects(5)), Connects(6)) == Both([], CONNECTED)
  {
    OneConnects([], []);
    AnotherConnects([Accepted(5)]);
    assert [] + [Accepted(5)] == [Accepted(5)];
    assert [Accepted(5)] + [Accepted(6)] == CONNECTED;
  }

  lemma {:induction false} FirstAsks(outs: seq<Out>)
    ensures Step(SETUP, Both([], outs), Asks(5)) == Both([Sent(Reading(5))], outs + ASKED)
  {
    AskingFirst(Both([], outs), 0);
  }

  lemma {:induction false} SecondAsks(outs: seq<Out>)
    ensures Step(SETUP, Both([Sent(Reading(5))], outs), Asks(6)) == Both([Sent(Reading(5)), Reading(6)], outs + ALSO_ASKED)
  {
    AskingSecond(Both([Sent(Reading(5))], outs), 1);
  }

  lemma {:induction false} SomethingMoves(outs: seq<Out>)
    ensures Step(SETUP, Both([Sent(Reading(5)), Reading(6)], outs), Says("movement")) == Both([Sent(Reading(6))], outs + MOVED)
  {
    HearingFirst(Both([Sent(Reading(5)), Reading(6)], outs), "movement");
  }

  lemma {:induction false} AnswerComes(outs: seq<Out>)
    ensures Step(SETUP, Both([Sent(Reading(6))], outs), Says(ANSWER)) == Both([], outs + REPLIED)
  {
    HearingLast(Both([Sent(Reading(6))], outs), ANSWER);
    AnswerIs();
  }

  lemma {:induction false} AnswerIs()
    ensures Answer(SETUP.opt, ANSWER) == "a:20"
  {
    assert ANSWER[7..8] == "*" && "a" + ANSWER[8..] == "a:20";
  }

  lemma {:induction false} MisroutingIs()
    ensures Run(SETUP, START, MISROUTING_RUN).outs == MISROUTING_OUTS
  {
    BothConnect();
    FirstAsks(CONNECTED);
    SecondAsks(CONNECTED + ASKED);
    SomethingMoves(CONNECTED + ASKED + ALSO_ASKED);
    AnswerComes(CONNECTED + ASKED + ALSO_ASKED + MOVED);
    RunOfSix(Step(SETUP, START, Connects(5)), Both([], CONNECTED), Both([Sent(Reading(5))], CONNECTED + ASKED),
             Both([Sent(Reading(5)), Reading(6)], CONNECTED + ASKED + ALSO_ASKED),
             Both([Sent(Reading(6))], CONNECTED + ASKED + ALSO_ASKED + MOVED));
  }

  lemma {:induction false} RunOfSix(d1: Daemon, d2: Daemon, d3: Daemon, d4: Daemon, d5: Daemon)
    requires d1 == Step(SETUP, START, Connects(5)) && d2 == Step(SETUP, d1, Connects(6)) && d3 == Step(SETUP, d2, Asks(5))
    requires d4 == Step(SETUP, d3, Asks(6)) && d5 == Step(SETUP, d4, Says("movement"))
    ensures Run(SETUP, START, MISROUTING_RUN) == Step(SETUP, d5, Says(ANSWER))
  {
    Unfold(START, Connects(5), MISROUTING_RUN[1..]);
    Unfold(d1, Connects(6), MISROUTING_RUN[2..]);
    Unfold(d2, Asks(5), MISROUTING_RUN[3..]);
    Unfold(d3, Asks(6), MISROUTING_RUN[4..]);
    Unfold(d4, Says("movement"), MISROUTING_RUN[5..]);
    Unfold(d5, Says(ANSWER), []);
    assert [Connects(5)] + MISROUTING_RUN[1..] == MISROUTING_RUN;
    assert [Connects(6)] + MISROUTING_RUN[2..] == MISROUTING_RUN[1..];
    assert [Asks(5)] + MISROUTING_RUN[3..] == MISROUTING_RUN[2..];
    assert [Asks(6)] + MISROUTING_RUN[4..] == MISROUTING_RUN[3..];
    assert [Says("movement")] + MISROUTING_RUN[5..] == MISROUTING_RUN[4..];
    assert [Says(ANSWER)] + [] == MISROUTING_RUN[5..];
  }

  lemma MisroutingAt()
    ensures var o := MISROUTING_OUTS;
            && |o| == 10 && o[0] == CONNECTED[0] && o[1] == CONNECTED[1] && o[2] == ASKED[0] && o[3] == ASKED[1]
            && o[4] == ALSO_ASKED[0] && o[5] == MOVED[0] && o[6] == MOVED[1] && o[7] == MOVED[2]
            && o[8] == REPLIED[0] && o[9] == REPLIED[1]
  {
  }

  /** The ledger of those outs; only two of them are lines of the firmware. */
  lemma {:induction false} MisroutingLedger()
    ensures var o := MISROUTING_OUTS;
            && LedgerOf(o).turn == [0, 1] && |LedgerOf(o).written| == 2 && LedgerOf(o).written[0] == RequestOf(Reading(5))
            && LedgerOf(o[..9]).turn == [0, 1] && Gone(o, 9) == 1
            && LineCount(o[..6]) == 0 && LineCount(o[..9]) == 1
  {
    var o := MISROUTING_OUTS;
    MisroutingAt();
    LedgerAtSix(o);
    LedgerAtNine(o);
    LedgerAfter(o, 9);
    assert o[..10] == o;
  }

  lemma {:induction false} LedgerAtSix(o: seq<Out>)
    requires |o| == 10 && o[0].Accepted? && o[1].Accepted? && o[2].Pushed? && o[3].Written? && o[4].Pushed? && o[5].Response?
    ensures LedgerOf(o[..6]).turn == [0] && LedgerOf(o[..6]).written == [RequestOf(o[3].command)]
    ensures LedgerOf(o[..6]).popped == [] && LineCount(o[..6]) == 0
  {
    LedgerAfter(o, 0);
    LedgerAfter(o, 1);
    LedgerAfter(o, 2);
    LedgerAfter(o, 3);
    LedgerAfter(o, 4);
    LedgerAfter(o, 5);
  }

  lemma {:induction false} LedgerAtNine(o: seq<Out>)
    requires |o| == 10 && o[6].Answered? && o[7].Written? && o[8].Response?
    requires LedgerOf(o[..6]).popped == []
    ensures LedgerOf(o[..9]).turn == LedgerOf(o[..6]).turn + [1]
    ensures LedgerOf(o[..9]).written == LedgerOf(o[..6]).written + [RequestOf(o[7].command)]
    ensures |LedgerOf(o[..9]).popped| == 1 && LineCount(o[..9]) == LineCount(o[..6]) + 1
  {
    LedgerAfter(o, 6);
    LedgerAfter(o, 7);
    LedgerAfter(o, 8);
  }

  lemma {:induction false} LedgerAfter(o: seq<Out>, i: nat)
    requires i < |o|
    ensures LedgerOf(o[..i + 1]) == Post(LedgerOf(o[..i]), o[i])
    ensures LineCount(o[..i + 1]) == LineCount(o[..i]) + (if IsLine(o[i]) then 1 else 0)
    ensures i == 0 ==> LedgerOf(o[..i]) == Ledger([], [], [], [], []) && LineCount(o[..i]) == 0
  {
    assert o[..i + 1][..i] == o[..i];
  }

  lemma {:induction false} LinesAreTwo(i: nat)
    requires i < |MISROUTING_OUTS| && IsLine(MISROUTING_OUTS[i])
    ensures i == 6 || i == 9
  {
    MisroutingAt();
  }

  lemma {:induction false} MisroutingTagged()
    ensures Tagging(MISROUTING_OUTS, MISROUTING_TAGS)
    ensures MISROUTING_OUTS[9].Answered? && Answers(MISROUTING_OUTS, MISROUTING_TAGS, 9, 0)
  {
    var o := MISROUTING_OUTS;
    MisroutingLedger();
    forall i, k: nat | 0 <= i < |o| && Answers(o, MISROUTING_TAGS, i, k) ensures k < |LedgerOf(o[..i]).turn| {
      LinesAreTwo(i);
    }
  }

  lemma {:induction false} WhoGotIt()
    ensures Response(6, "a:20") in MISROUTING_OUTS && Response(5, "a:20") !in MISROUTING_OUTS
  {
    MisroutingAt();
    assert MISROUTING_OUTS[8] == Response(6, "a:20");
  }

  lemma {:induction false} NotItsOwn()
    ensures !AllOwn(MISROUTING_OUTS, MISROUTING_TAGS)
  {
    MisroutingLedger();
    MisroutingTagged();
    assert !Own(MISROUTING_OUTS, 9, 0);
  }

  /** The first line is nobody's answer and the second is the answer to the first write. The first client's
      command is gone by then, so the second client gets what the first one asked for. */
  lemma {:induction false} AnAnswerIsMisrouted()
    ensures var outs := Run(SETUP, START, MISROUTING_RUN).outs;
            && Tagging(outs, MISROUTING_TAGS) && !AllOwn(outs, MISROUTING_TAGS)
            && LedgerOf(outs).written != [] && LedgerOf(outs).written[0] == RequestOf(Reading(5))
            && Response(6, "a:20") in outs && Response(5, "a:20") !in outs
  {
    MisroutingIs();
    MisroutingLedger();
    MisroutingTagged();
    NotItsOwn();
    WhoGotIt();
  }

  // ------------------------------------- an answer goes to whoever has the descriptor by then

  /** A client hangs up. */
  function HangsUp(fd: int): Turn {
    At(NOBODY.(lines := map[fd := Input("", LineReader.EndOfFile)]))
  }

  /** A client asks and hangs up, the next one gets its descriptor, and then the answer comes. */
  const REUSE_RUN := [Connects(5), Asks(5), HangsUp(5), Connects(5), Says(ANSWER)]

  const GOT := [Response(5, "a:20"), Answered(Sent(Reading(5)), ANSWER)]

  /** What the daemon does. */
  const REUSE_OUTS := [Accepted(5)] + ASKED + [Dropped(5)] + [Accepted(5)] + GOT

  const REUSE_TAGS := [AnswerTo(0)]

  lemma {:induction false} OneHangsUp(queue: seq<Command>, outs: seq<Out>)
    requires queue != [] && queue[0].sent
    ensures Step(SETUP, One(true, queue, outs), HangsUp(5)) == One(false, queue, outs + [Dropped(5)])
  {
    var d, lines := One(true, queue, outs), map[5 := Input("", LineReader.EndOfFile)];
    assert d.clients[0 := d.clients[0].(pending := [])] == d.clients;
    assert Without(d.clients, 5) == [];
    assert ReadClient(SETUP, d, 0, lines[5]) == One(false, queue, outs + [Dropped(5)]);
    NothingToRead(SETUP, One(false, queue, outs + [Dropped(5)]), 0, lines);
  }

  lemma {:induction false} OnlyOneAsks(outs: seq<Out>)
    ensures Step(SETUP, One(true, [], outs), Asks(5)) == One(true, [Sent(Reading(5))], outs + ASKED)
  {
    AskingFirst(One(true, [], outs), 0);
  }

  lemma {:induction false} OneHears(outs: seq<Out>)
    ensures Step(SETUP, One(true, [Sent(Reading(5))], outs), Says(ANSWER)) == One(true, [], outs + GOT)
  {
    HearingLast(One(true, [Sent(Reading(5))], outs), ANSWER);
    AnswerIs();
  }

  lemma {:induction false} UnfoldUnused(d: Daemon, t: Turn, turns: seq<Turn>)
    requires NewIsUnused(SETUP, d, t) && Unused(SETUP, Step(SETUP, d, t), turns)
    ensures Unused(SETUP, d, [t] + turns)
    ensures Run(SETUP, d, [t] + turns) == Run(SETUP, Step(SETUP, d, t), turns)
  {
    assert ([t] + turns)[1..] == turns;
  }

  lemma {:induction false} ReuseIs()
    ensures Unused(SETUP, START, REUSE_RUN) && Run(SETUP, START, REUSE_RUN).outs == REUSE_OUTS
  {
    var o1 := [Accepted(5)];
    var o3 := o1 + ASKED + [Dropped(5)];
    var d1, d2 := One(true, [], o1), One(true, [Sent(Reading(5))], o1 + ASKED);
    var d3, d4 := One(false, [Sent(Reading(5))], o3), One(true, [Sent(Reading(5))], o3 + [Accepted(5)]);
    OneConnects([], []);
    assert [] + [Accepted(5)] == o1;
    OnlyOneAsks(o1);
    OneHangsUp([Sent(Reading(5))], o1 + ASKED);
    OneConnects([Sent(Reading(5))], o3);
    OneHears(o3 + [Accepted(5)]);
    ReuseUnfolds(d1, d2, d3, d4);
  }

  lemma {:induction false} ReuseUnfolds(d1: Daemon, d2: Daemon, d3: Daemon, d4: Daemon)
    requires d1 == Step(SETUP, START, Connects(5)) && d2 == Step(SETUP, d1, Asks(5)) && d3 == Step(SETUP, d2, HangsUp(5))
    requires d4 == Step(SETUP, d3, Connects(5))
    requires NewIsUnused(SETUP, START, Connects(5)) && NewIsUnused(SETUP, d3, Connects(5))
    ensures Unused(SETUP, START, REUSE_RUN) && Run(SETUP, START, REUSE_RUN) == Step(SETUP, d4, Says(ANSWER))
  {
    UnfoldUnused(d4, Says(ANSWER), []);
    UnfoldUnused(d3, Connects(5), [Says(ANSWER)]);
    UnfoldUnused(d2, HangsUp(5), REUSE_RUN[3..]);
    UnfoldUnused(d1, Asks(5), REUSE_RUN[2..]);
    UnfoldUnused(START, Connects(5), REUSE_RUN[1..]);
    assert [Says(ANSWER)] + [] == [Says(ANSWER)];
    assert [Connects(5)] + [Says(ANSWER)] == REUSE_RUN[3..];
    assert [HangsUp(5)] + REUSE_RUN[3..] == REUSE_RUN[2..];
    assert [Asks(5)] + REUSE_RUN[2..] == REUSE_RUN[1..];
    assert [Connects(5)] + REUSE_RUN[1..] == REUSE_RUN;
  }

  lemma ReuseAt()
    ensures var o := REUSE_OUTS;
            && |o| == 7 && o[0] == Accepted(5) && o[1] == ASKED[0] && o[2] == ASKED[1] && o[3] == Dropped(5)
            && o[4] == Accepted(5) && o[5] == GOT[0] && o[6] == GOT[1]
  {
  }

  lemma {:induction false} ReuseLedger(o: seq<Out>)
    requires |o| == 7 && o[0] == Accepted(5) && o[1].Pushed? && o[2].Written? && o[3] == Dropped(5)
    requires o[4] == Accepted(5) && o[5].Response? && o[6].Answered?
    ensures LedgerOf(o[..6]).turn == LedgerOf(o).turn == [0] && LedgerOf(o[..6]).popped == []
    ensures LedgerOf(o).pushed == [RequestOf(o[1].command)] && LedgerOf(o[..1]).pushed == []
    ensures LedgerOf(o).written == [RequestOf(o[2].command)] && LineCount(o[..6]) == 0
  {
    LedgerAfter(o, 0);
    LedgerAfter(o, 1);
    LedgerAfter(o, 2);
    LedgerAfter(o, 3);
    LedgerAfter(o, 4);
    LedgerAfter(o, 5);
    LedgerAfter(o, 6);
    assert o[..7] == o;
  }

  lemma {:induction false} ReuseTagged()
    ensures Tagging(REUSE_OUTS, REUSE_TAGS) && AllOwn(REUSE_OUTS, REUSE_TAGS)
    ensures Answers(REUSE_OUTS, REUSE_TAGS, 6, 0) && ClosedBefore(REUSE_OUTS, 3, 6, 0)
  {
    var o := REUSE_OUTS;
    ReuseAt();
    ReuseLedger(o);
    forall i, k: nat | 0 <= i < |o| && Answers(o, REUSE_TAGS, i, k) ensures i == 6 && k == 0 {}
    assert Own(o, 6, 0);
    assert PushAt(o, 0) == 1 by { PushIsFirst(o); }
  }

  lemma {:induction false} PushIsFirst(o: seq<Out>)
    requires |o| > 1 && o[1].Pushed? && LedgerOf(o).pushed == [RequestOf(o[1].command)] && LedgerOf(o[..1]).pushed == []
    ensures PushAt(o, 0) == 1
  {
    var p := PushAt(o, 0);
    LedgerAfter(o, 1);
    if p > 1 {
      assert o[..p][..2] == o[..2];
      LedgerGrows(o[..p], 2);
      assert false;
    }
  }

  lemma {:induction false} ReuseOrphaned()
    ensures Orphaned(REUSE_OUTS, REUSE_TAGS) && AllOwn(REUSE_OUTS, REUSE_TAGS)
  {
    ReuseTagged();
    ReuseAt();
  }

  /** The descriptor is the same, the connection is not. */
  lemma {:induction false} ReuseHolders()
    ensures HolderOf(REUSE_OUTS[..1], 5) == 0 && HolderOf(REUSE_OUTS[..5], 5) == 4
  {
    var o := REUSE_OUTS;
    ReuseAt();
    HolderSnoc(o[..4], o[4], 5);
    assert o[..5] == o[..4] + [o[4]];
    HolderSnoc(o[..0], o[0], 5);
    assert o[..1] == o[..0] + [o[0]];
  }

  /** The answer takes its own command off the queue, no intruder about, but the client that asked has hung up: the
      answer goes to a connection that was accepted after the question, at 4 and not at 0. */
  lemma {:induction false} AnAnswerGoesToTheNextClient()
    ensures var outs := Run(SETUP, START, REUSE_RUN).outs;
            && Unused(SETUP, START, REUSE_RUN) && Tagging(outs, REUSE_TAGS)
            && !Diverted(outs, REUSE_TAGS) && Orphaned(outs, REUSE_TAGS) && !AllReach(SETUP.opt, outs, REUSE_TAGS)
            && |outs| == 7 && outs[5] == Response(5, "a:20") && HolderOf(outs[..5], 5) == 4 && HolderOf(outs[..1], 5) == 0
  {
    ReuseIs();
    ReuseTagged();
    ReuseOrphaned();
    ReuseHolders();
    ReuseAt();
    AnswersReachSenders(SETUP, REUSE_RUN, REUSE_TAGS);
    AnswersGoToDescriptors(SETUP, REUSE_RUN, REUSE_TAGS);
  }
}
