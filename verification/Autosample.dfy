/** The sampling process beside the daemon, and the two of them connected by a pipe. */
module Autosample {
  import opened Wrappers
  import opened MainLoop
  import opened LoopService

  /** A device to sample, and every how many seconds. */
  datatype Device = Device(name: string, delay: int)

  function SampleCommand(name: string): string {
    "sample " + name + "\n"
  }

  /** The devices' counters and the switch. */
  datatype Sampler = Sampler(cnt: seq<int>, enabled: bool)

  /** What select reports: a second has passed, a byte has come through the pipe, or a signal interrupted it. */
  datatype Wake = Elapsed | Byte(on: bool) | Signalled

  /** The counter of one device after one more second. */
  function Counted(cnt: int, delay: int): int {
    if cnt + 1 >= delay then 0 else cnt + 1
  }

  function AllCounted(devices: seq<Device>, cnt: seq<int>): (r: seq<int>)
    requires |cnt| == |devices|
    ensures |r| == |devices|
  {
    seq(|devices|, i requires 0 <= i < |devices| => Counted(cnt[i], devices[i].delay))
  }

  /** What the devices from the i-th on cause to be sent in one second. */
  function Due(devices: seq<Device>, cnt: seq<int>, i: nat, enabled: bool): seq<string>
    requires |cnt| == |devices|
    decreases |devices| - i
  {
    if i >= |devices| then []
    else (if cnt[i] + 1 >= devices[i].delay && enabled then [SampleCommand(devices[i].name)] else [])
         + Due(devices, cnt, i + 1, enabled)
  }

  lemma DueStep(devices: seq<Device>, cnt: seq<int>, i: nat, enabled: bool, sent: seq<string>)
    requires |cnt| == |devices| && i < |devices|
    ensures sent + Due(devices, cnt, i, enabled)
         == (if cnt[i] + 1 >= devices[i].delay && enabled then sent + [SampleCommand(devices[i].name)] else sent)
            + Due(devices, cnt, i + 1, enabled)
  {
  }

  /** One pass of the process's loop. */
  function Woken(devices: seq<Device>, p: Sampler, w: Wake): (r: (Sampler, seq<string>))
    requires |p.cnt| == |devices|
    ensures |r.0.cnt| == |devices|
  {
    match w
    case Elapsed => (p.(cnt := AllCounted(devices, p.cnt)), Due(devices, p.cnt, 0, p.enabled))
    case Byte(on) => (p.(enabled := on), [])
    case Signalled => (p, [])
  }

  class Process {
    const devices: seq<Device>
    const cnt: array<int>
    var sampleEnabled: bool

    constructor (devices: seq<Device>)
      ensures this.devices == devices && Valid() && fresh(cnt)
      ensures State() == Fresh(devices, false)
    {
      this.devices := devices;
      cnt := new int[|devices|](_ => 0);
      sampleEnabled := false;
    }

    ghost predicate Valid() {
      cnt.Length == |devices|
    }

    ghost function State(): Sampler
      reads this, cnt
    {
      Sampler(cnt[..], sampleEnabled)
    }

    /** select has timed out after a second. */
    method Second() returns (sent: seq<string>)
      requires Valid()
      modifies cnt
      ensures (State(), sent) == Woken(devices, old(State()), Elapsed)
    {
      sent := [];
      ghost var before := cnt[..];
      ghost var all := Due(devices, before, 0, sampleEnabled);
      for i := 0 to |devices|
        invariant sent + Due(devices, before, i, sampleEnabled) == all
        invariant forall k | 0 <= k < i :: cnt[k] == Counted(before[k], devices[k].delay)
        invariant forall k | i <= k < |devices| :: cnt[k] == before[k]
      {
        DueStep(devices, before, i, sampleEnabled, sent);
        cnt[i] := cnt[i] + 1;
        if cnt[i] >= devices[i].delay {
          if sampleEnabled {
            sent := sent + [SampleCommand(devices[i].name)];
          }
          cnt[i] := 0;
        }
      }
      assert sent + [] == sent;
      assert cnt[..] == AllCounted(devices, before);
    }

    /** One pass of the loop: what select reports is dealt with. */
    method Pass(w: Wake) returns (sent: seq<string>)
      requires Valid()
      modifies this, cnt
      ensures (State(), sent) == Woken(devices, old(State()), w)
    {
      sent := [];
      match w {
        case Elapsed => sent := Second();
        case Byte(on) => sampleEnabled := on;
        case Signalled =>
      }
    }
  }

  function Fresh(devices: seq<Device>, enabled: bool): Sampler {
    Sampler(seq(|devices|, _ => 0), enabled)
  }

  // ---------------------------------------------------------------- the counters

  function Period(delay: int): (p: nat)
    ensures p > 0
  {
    if delay < 1 then 1 else delay
  }

  /** A device's counter after n seconds. */
  function CountAfter(delay: int, n: nat): int {
    if n == 0 then 0 else Counted(CountAfter(delay, n - 1), delay)
  }

  /** A device is due in the last second of every period, counted from the start whether or not sampling is on. */
  lemma {:induction false} DueEveryPeriod(delay: int, periods: nat, rest: nat)
    requires rest < Period(delay)
    ensures CountAfter(delay, periods * Period(delay) + rest) == rest
    ensures CountAfter(delay, periods * Period(delay) + rest) + 1 >= delay <==> rest == Period(delay) - 1
    decreases periods, rest
  {
    var p := Period(delay);
    if rest > 0 {
      DueEveryPeriod(delay, periods, rest - 1);
      OneMoreSecond(delay, periods * p + (rest - 1));
    } else if periods > 0 {
      DueEveryPeriod(delay, periods - 1, p - 1);
      assert periods * p == (periods - 1) * p + p;
      OneMoreSecond(delay, (periods - 1) * p + (p - 1));
    }
  }

  lemma OneMoreSecond(delay: int, n: nat)
    ensures CountAfter(delay, n + 1) == Counted(CountAfter(delay, n), delay)
  {
  }

  /** In the n-th second, counted from 0, a device is due. */
  predicate IsDue(d: Device, n: nat) {
    n % Period(d.delay) == Period(d.delay) - 1
  }

  function CountsAfter(devices: seq<Device>, n: nat): (r: seq<int>)
    ensures |r| == |devices|
  {
    seq(|devices|, i requires 0 <= i < |devices| => CountAfter(devices[i].delay, n))
  }

  lemma {:induction false} DueWhenPeriodEnds(d: Device, n: nat)
    ensures CountAfter(d.delay, n) + 1 >= d.delay <==> IsDue(d, n)
  {
    var p := Period(d.delay);
    assert n == n / p * p + n % p;
    DueEveryPeriod(d.delay, n / p, n % p);
  }

  /** The commands of the devices due in the n-th second, in the order the devices are listed. */
  function CommandsDue(devices: seq<Device>, n: nat): seq<string>
    decreases devices
  {
    if devices == [] then []
    else (if IsDue(devices[0], n) then [SampleCommand(devices[0].name)] else []) + CommandsDue(devices[1..], n)
  }

  lemma {:induction false} DueIs(devices: seq<Device>, n: nat, i: nat, enabled: bool)
    requires i <= |devices|
    ensures Due(devices, CountsAfter(devices, n), i, enabled) == if enabled then CommandsDue(devices[i..], n) else []
    decreases |devices| - i
  {
    if i < |devices| {
      DueWhenPeriodEnds(devices[i], n);
      DueIs(devices, n, i + 1, enabled);
      assert devices[i..][0] == devices[i] && devices[i..][1..] == devices[i + 1..];
    }
  }

  lemma {:induction false} CommandsDueAre(devices: seq<Device>, n: nat, command: string)
    ensures command in CommandsDue(devices, n)
       <==> exists i :: 0 <= i < |devices| && IsDue(devices[i], n) && command == SampleCommand(devices[i].name)
    decreases devices
  {
    if devices != [] {
      CommandsDueAre(devices[1..], n, command);
      if i :| 0 <= i < |devices| && IsDue(devices[i], n) && command == SampleCommand(devices[i].name) {
        if i > 0 { assert devices[1..][i - 1] == devices[i]; }
      }
      if i :| 0 <= i < |devices[1..]| && IsDue(devices[1..][i], n) && command == SampleCommand(devices[1..][i].name) {
        assert devices[i + 1] == devices[1..][i];
      }
    }
  }

  /** They go out in the order the devices are listed. */
  lemma {:induction false} DueInOrder(first: seq<Device>, rest: seq<Device>, n: nat)
    ensures CommandsDue(first + rest, n) == CommandsDue(first, n) + CommandsDue(rest, n)
    decreases first
  {
    if first == [] {
      assert first + rest == rest;
    } else {
      DueInOrder(first[1..], rest, n);
      assert (first + rest)[1..] == first[1..] + rest && (first + rest)[0] == first[0];
      Regroup(if IsDue(first[0], n) then [SampleCommand(first[0].name)] else [], CommandsDue(first[1..], n), CommandsDue(rest, n));
    }
  }

  lemma Regroup(x: seq<string>, y: seq<string>, z: seq<string>)
    ensures (x + y) + z == x + (y + z)
  {
  }

  // --------------------------------------------------- the daemon and the process

  /** What earlier runs of the daemon's loop have left behind, the process outliving them: how many seconds it has
      counted, its switch, and the bytes still unread in the pipe. */
  datatype Past = Past(seconds: nat, on: bool, unread: seq<bool>)

  /** All that can be read from the pipe: what was left in it, then what this run of the loop has said. */
  function Piped(past: Past, d: Daemon): seq<bool> {
    past.unread + Said(d.outs)
  }

  /** A second of the process's: how many bytes it had taken from the pipe by then, and what it sent. */
  datatype Sampling = Sampling(taken: nat, sent: seq<string>)

  /** The daemon, the process, how many bytes the process has taken from the pipe, and its seconds in this run. */
  datatype System = System(daemon: Daemon, sampler: Sampler, taken: nat, log: seq<Sampling>)

  /** The daemon turns once, a second passes for the process, the process takes a byte, if there is one, or it is interrupted. */
  datatype Move = Turns(turn: Turn) | Waits | Takes | Interrupts

  function Next(s: Setup, devices: seq<Device>, past: Past, y: System, m: Move): (r: System)
    requires |y.sampler.cnt| == |devices|
    ensures |r.sampler.cnt| == |devices|
  {
    match m
    case Turns(t) => y.(daemon := Step(s, y.daemon, t))
    case Waits =>
      var (p, sent) := Woken(devices, y.sampler, Elapsed);
      y.(sampler := p, log := y.log + [Sampling(y.taken, sent)])
    case Takes =>
      var piped := Piped(past, y.daemon);
      if y.taken < |piped| then y.(sampler := Woken(devices, y.sampler, Byte(piped[y.taken])).0, taken := y.taken + 1) else y
    case Interrupts => y.(sampler := Woken(devices, y.sampler, Signalled).0)
  }

  function Play(s: Setup, devices: seq<Device>, past: Past, y: System, moves: seq<Move>): System
    requires |y.sampler.cnt| == |devices|
    decreases moves
  {
    if moves == [] then y else Play(s, devices, past, Next(s, devices, past, y, moves[0]), moves[1..])
  }

  /** The daemon at the start of its loop; the process as earlier loops have left it, or just started. */
  function Begin(devices: seq<Device>, past: Past): System {
    System(START, Sampler(CountsAfter(devices, past.seconds), past.on), 0, [])
  }

  lemma {:induction false} BeginsFresh(devices: seq<Device>)
    ensures Begin(devices, Past(0, false, [])).sampler == Fresh(devices, false)
  {
    assert CountsAfter(devices, 0) == seq(|devices|, _ => 0);
  }

  /** What the process was last told, having taken so many bytes. */
  function LastTold(piped: seq<bool>, taken: nat, first: bool): bool
    requires taken <= |piped|
  {
    if taken == 0 then first else piped[taken - 1]
  }

  /** In its n-th second of this run the process has sent the commands of exactly the devices due, if it was last told
      "on". */
  predicate SecondRight(devices: seq<Device>, past: Past, piped: seq<bool>, n: nat, second: Sampling) {
    second.taken <= |piped|
    && second.sent == if LastTold(piped, second.taken, past.on) then CommandsDue(devices, past.seconds + n) else []
  }

  ghost predicate SampledRight(devices: seq<Device>, past: Past, piped: seq<bool>, log: seq<Sampling>) {
    forall n | 0 <= n < |log| :: SecondRight(devices, past, piped, n, log[n])
  }

  /** The process does what it was last told; before it was told anything it does what it did at first. */
  ghost predicate Obeys(s: Setup, devices: seq<Device>, past: Past, y: System) {
    var piped := Piped(past, y.daemon);
    && Alternates(y.daemon)
    && (y.daemon.returnValue == 0 ==> Tracks(s, y.daemon))
    && y.taken <= |piped|
    && y.sampler == Sampler(CountsAfter(devices, past.seconds + |y.log|), LastTold(piped, y.taken, past.on))
    && SampledRight(devices, past, piped, y.log)
  }

  lemma {:induction false} SaidGrows(s: Setup, d: Daemon, t: Turn)
    requires Alternates(d) && (d.returnValue == 0 ==> Tracks(s, d))
    ensures Alternates(Step(s, d, t)) && (Step(s, d, t).returnValue == 0 ==> Tracks(s, Step(s, d, t)))
    ensures Said(d.outs) <= Said(Step(s, d, t).outs)
  {
    if d.returnValue == 0 {
      StepSampling(s, d, t);
      OutsGrow(s, d, t);
      SaidOfLonger(d.outs, Step(s, d, t).outs);
    }
  }

  lemma {:induction false} SaidOfLonger(outs: seq<Out>, more: seq<Out>)
    requires outs <= more
    ensures Said(outs) <= Said(more)
    decreases |more|
  {
    if |outs| < |more| {
      SaidOfLonger(outs, more[..|more| - 1]);
    } else {
      assert outs == more;
    }
  }

  lemma EndGrows(s: Setup, d: Daemon, t: Turn)
    ensures d.outs <= EndOfTurn(s, d, t).outs
  {
  }

  lemma {:induction false} FromAcceptGrows(s: Setup, d: Daemon, r: Round, t: Turn)
    ensures d.outs <= FromAccept(s, d, r, t).outs
  {
    var d1 := if r.accepted.Some? then Accept(d, r.accepted.value) else d;
    var d2 := d1;
    if s.child && d1.autoOpen && r.auto.Some? {
      d2 := ReadAuto(s, d1, r.auto.value);
      ReadAutoAdds(s, d1, r.auto.value);
    }
    ReadClientsAdds(s, d2, 0, r.lines);
    EndGrows(s, ReadClients(s, d2, 0, r.lines), t);
  }

  lemma {:induction false} OutsGrow(s: Setup, d: Daemon, t: Turn)
    ensures d.outs <= Step(s, d, t).outs
  {
    match t.event
    case SelectFailed =>
    case Interrupted =>
    case Idle => EndGrows(s, PopExpired(d, t.now), t);
    case Ready(r) =>
      if r.tty.Some? {
        TtyEffect(s, d, r.tty.value);
        FromAcceptGrows(s, ProcessTty(s, d, r.tty.value), r, t);
      } else {
        FromAcceptGrows(s, d, r, t);
      }
  }

  lemma {:induction false} MorePiped(devices: seq<Device>, past: Past, piped: seq<bool>, more: seq<bool>, log: seq<Sampling>)
    requires piped <= more && SampledRight(devices, past, piped, log)
    ensures SampledRight(devices, past, more, log)
  {
    forall n | 0 <= n < |log| ensures SecondRight(devices, past, more, n, log[n]) {
      assert SecondRight(devices, past, piped, n, log[n]);
    }
  }

  lemma CountsOn(devices: seq<Device>, n: nat)
    ensures AllCounted(devices, CountsAfter(devices, n)) == CountsAfter(devices, n + 1)
  {
  }

  lemma {:induction false} SecondObeys(devices: seq<Device>, past: Past, piped: seq<bool>, taken: nat, log: seq<Sampling>)
    requires SampledRight(devices, past, piped, log) && taken <= |piped|
    ensures var sent := Due(devices, CountsAfter(devices, past.seconds + |log|), 0, LastTold(piped, taken, past.on));
            SampledRight(devices, past, piped, log + [Sampling(taken, sent)])
  {
    var on := LastTold(piped, taken, past.on);
    DueIs(devices, past.seconds + |log|, 0, on);
    assert devices[0..] == devices;
    var second := Sampling(taken, Due(devices, CountsAfter(devices, past.seconds + |log|), 0, on));
    assert SecondRight(devices, past, piped, |log|, second);
    OneMoreRight(devices, past, piped, log, second);
  }

  lemma {:induction false} OneMoreRight(devices: seq<Device>, past: Past, piped: seq<bool>, log: seq<Sampling>, second: Sampling)
    requires SampledRight(devices, past, piped, log) && SecondRight(devices, past, piped, |log|, second)
    ensures SampledRight(devices, past, piped, log + [second])
  {
    forall n | 0 <= n < |log| + 1 ensures SecondRight(devices, past, piped, n, (log + [second])[n]) {
      if n < |log| { assert SecondRight(devices, past, piped, n, log[n]); }
    }
  }

  lemma {:induction false} TurnObeys(s: Setup, devices: seq<Device>, past: Past, y: System, t: Turn)
    requires Obeys(s, devices, past, y)
    ensures Obeys(s, devices, past, y.(daemon := Step(s, y.daemon, t)))
  {
    SaidGrows(s, y.daemon, t);
    MorePiped(devices, past, Piped(past, y.daemon), Piped(past, Step(s, y.daemon, t)), y.log);
  }

  lemma {:induction false} WaitObeys(s: Setup, devices: seq<Device>, past: Past, y: System)
    requires Obeys(s, devices, past, y)
    ensures Obeys(s, devices, past, Next(s, devices, past, y, Waits))
  {
    CountsOn(devices, past.seconds + |y.log|);
    SecondObeys(devices, past, Piped(past, y.daemon), y.taken, y.log);
  }

  lemma {:induction false} NextObeys(s: Setup, devices: seq<Device>, past: Past, y: System, m: Move)
    requires Obeys(s, devices, past, y)
    ensures Obeys(s, devices, past, Next(s, devices, past, y, m))
  {
    match m
    case Turns(t) => TurnObeys(s, devices, past, y, t);
    case Waits => WaitObeys(s, devices, past, y);
    case Takes =>
    case Interrupts =>
  }

  lemma {:induction false} PlayObeys(s: Setup, devices: seq<Device>, past: Past, y: System, moves: seq<Move>)
    requires Obeys(s, devices, past, y)
    ensures Obeys(s, devices, past, Play(s, devices, past, y, moves))
    decreases moves
  {
    if moves != [] {
      NextObeys(s, devices, past, y, moves[0]);
      PlayObeys(s, devices, past, Next(s, devices, past, y, moves[0]), moves[1..]);
    }
  }

  lemma {:induction false} BeginObeys(s: Setup, devices: seq<Device>, past: Past)
    ensures Obeys(s, devices, past, Begin(devices, past))
  {
    StartSampling(s);
  }

  ghost predicate SampledAt(devices: seq<Device>, past: Past, piped: seq<bool>, n: nat, second: Sampling, command: string) {
    && SecondRight(devices, past, piped, n, second)
    && (command in second.sent <==>
          LastTold(piped, second.taken, past.on)
          && exists i :: 0 <= i < |devices| && IsDue(devices[i], past.seconds + n) && command == SampleCommand(devices[i].name))
  }

  lemma {:induction false} RightAt(devices: seq<Device>, past: Past, piped: seq<bool>, log: seq<Sampling>, n: nat, command: string)
    requires SampledRight(devices, past, piped, log) && n < |log|
    ensures SampledAt(devices, past, piped, n, log[n], command)
  {
    CommandsDueAre(devices, past.seconds + n, command);
  }

  /** WHAT IS SAMPLED WHEN, however daemon and process are interleaved and whatever earlier runs of the loop have left
      behind: in every second of the process's the sample command of a device is sent if and only if the second,
      counted from the start of the process, is the last of a period of that device's and the last byte taken from the
      pipe was "on"; commands go out in the order the devices are listed. */
  lemma {:induction false} SamplesWhenDueAndOn(s: Setup, devices: seq<Device>, past: Past, moves: seq<Move>, n: nat, command: string)
    requires n < |Play(s, devices, past, Begin(devices, past), moves).log|
    ensures var y := Play(s, devices, past, Begin(devices, past), moves);
            SampledAt(devices, past, Piped(past, y.daemon), n, y.log[n], command)
  {
    var y := Play(s, devices, past, Begin(devices, past), moves);
    BeginObeys(s, devices, past);
    PlayObeys(s, devices, past, Begin(devices, past), moves);
    RightAt(devices, past, Piped(past, y.daemon), y.log, n, command);
  }

  /** What the process will do once it has taken the bytes that were left in the pipe. */
  function LeftOn(past: Past): bool {
    LastTold(past.unread, |past.unread|, past.on)
  }

  /** THE PROCESS AGREES WITH THE DAEMON once it has drained the pipe, however the two are interleaved, if and only if
      it has been told something in this run of the loop or was left to be off. (The process outlives the loop when the
      tty is reopened, and the new loop takes it to be off.) */
  lemma {:induction false} DrainedProcessAgrees(s: Setup, devices: seq<Device>, past: Past, moves: seq<Move>)
    ensures var y := Play(s, devices, past, Begin(devices, past), moves);
            y.taken == |Piped(past, y.daemon)| ==>
              (y.sampler.enabled == y.daemon.sampling <==> Said(y.daemon.outs) != [] || !LeftOn(past))
    ensures var y := Play(s, devices, past, Begin(devices, past), moves);
            s.child && y.taken == |Piped(past, y.daemon)| && y.daemon.returnValue == 0 && (Said(y.daemon.outs) != [] || !LeftOn(past))
            ==> (y.sampler.enabled <==> Listened(y.daemon.clients))
  {
    BeginObeys(s, devices, past);
    PlayObeys(s, devices, past, Begin(devices, past), moves);
    var y := Play(s, devices, past, Begin(devices, past), moves);
    if Said(y.daemon.outs) == [] { assert Piped(past, y.daemon) == past.unread; }
  }
}
