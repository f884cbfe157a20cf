/** The receive interrupt: a sampler that run-length encodes the infrared line. */
module IrReceive {
  import opened IrTiming

  datatype RcvState = StateIdle | StateMark | StateSpace | StateStop

  /** The receiver as its callers see it: only the recorded entries of rawbuf. */
  datatype Rx = Rx(state: RcvState, timer: nat, raw: seq<nat>)

  const TIMER_WRAP := 0x1_0000

  /** One interrupt on one sample of the line. */
  function Tick(rx: Rx, irdata: Level): Rx {
    var timer := (rx.timer + 1) % TIMER_WRAP;
    var state := if |rx.raw| >= RAWBUF then StateStop else rx.state;
    match (state, irdata)
    case (StateIdle, Mark) => if timer < GAP_TICKS then Rx(state, 0, rx.raw) else Rx(StateMark, 0, [timer])
    case (StateMark, Space) => Rx(StateSpace, 0, rx.raw + [timer])
    case (StateSpace, Mark) => Rx(StateMark, 0, rx.raw + [timer])
    case (StateSpace, Space) => Rx(if timer > GAP_TICKS then StateStop else state, timer, rx.raw)
    case (StateStop, Mark) => Rx(state, 0, rx.raw)
    case _ => Rx(state, timer, rx.raw)
  }

  function Ticks(rx: Rx, samples: seq<Level>): Rx
    decreases samples
  {
    if samples == [] then rx else Ticks(Tick(rx, samples[0]), samples[1..])
  }

  class IrParams {
    var rcvstate: RcvState
    var timer: nat
    const rawbuf: array<nat>
    var rawlen: nat

    ghost predicate Valid()
      reads this
    {
      rawbuf.Length == RAWBUF && rawlen <= RAWBUF
    }

    ghost function View(): Rx
      requires Valid()
      reads this, rawbuf
    {
      Rx(rcvstate, timer, rawbuf[..rawlen])
    }

    constructor ()
      ensures Valid() && fresh(rawbuf)
      ensures View() == Rx(StateIdle, 0, [])
    {
      rawbuf := new nat[RAWBUF](_ => 0);
      rcvstate, timer, rawlen := StateIdle, 0, 0;
    }

    /** The timer interrupt. */
    method Interrupt(irdata: Level)
      requires Valid()
      modifies this, rawbuf
      ensures Valid()
      ensures View() == Tick(old(View()), irdata)
    {
      timer := (timer + 1) % TIMER_WRAP;
      if rawlen >= RAWBUF {
        rcvstate := StateStop;
      }
      match rcvstate {
        case StateIdle =>
          if irdata == Mark {
            if timer < GAP_TICKS {
              timer := 0;
            } else {
              rawlen := 0;
              rawbuf[rawlen] := timer;
              rawlen := rawlen + 1;
              timer := 0;
              rcvstate := StateMark;
            }
          }
        case StateMark =>
          if irdata == Space {
            Record();
            rcvstate := StateSpace;
          }
        case StateSpace =>
          if irdata == Mark {
            Record();
            rcvstate := StateMark;
          } else {
            if timer > GAP_TICKS {
              rcvstate := StateStop;
            }
          }
        case StateStop =>
          if irdata == Mark {
            timer := 0;
          }
      }
    }

    /** Stores the run that just ended and restarts the timer. */
    method Record()
      requires Valid() && rawlen < RAWBUF
      modifies this, rawbuf
      ensures Valid() && rcvstate == old(rcvstate)
      ensures View() == old(View()).(timer := 0, raw := old(View()).raw + [old(timer)])
    {
      rawbuf[rawlen] := timer;
      rawlen := rawlen + 1;
      timer := 0;
    }

    method Resume()
      requires Valid()
      modifies this
      ensures Valid() && View() == old(View()).(state := StateIdle, raw := [])
    {
      rcvstate := StateIdle;
      rawlen := 0;
    }
  }

  // ---------------------------------------------------- every reachable state

  /** In a mark the next entry to be recorded has an odd index, in a space an even one. */
  ghost predicate Consistent(rx: Rx) {
    && |rx.raw| <= RAWBUF
    && (rx.state == StateMark ==> |rx.raw| % 2 == 1)
    && (rx.state == StateSpace ==> |rx.raw| % 2 == 0 && |rx.raw| > 0)
  }

  lemma {:induction false} ReachableConsistent(rx: Rx, samples: seq<Level>)
    requires Consistent(rx)
    ensures Consistent(Ticks(rx, samples))
    decreases samples
  {
    if samples != [] {
      ReachableConsistent(Tick(rx, samples[0]), samples[1..]);
    }
  }

  lemma {:induction false} TicksAppend(rx: Rx, x: seq<Level>, y: seq<Level>)
    ensures Ticks(rx, x + y) == Ticks(Ticks(rx, x), y)
    decreases x
  {
    if x == [] {
      assert x + y == y;
    } else {
      assert (x + y)[1..] == x[1..] + y;
      TicksAppend(Tick(rx, x[0]), x[1..], y);
    }
  }

  // ------------------------------------------------------ the run-length theorem

  function Flip(l: Level): Level {
    if l == Mark then Space else Mark
  }

  function Hold(l: Level, n: nat): (s: seq<Level>)
    ensures |s| == n
  {
    if n == 0 then [] else [l] + Hold(l, n - 1)
  }

  /** The line during runs of the given lengths, alternating from level l. */
  function Wave(runs: seq<nat>, l: Level): seq<Level> {
    if runs == [] then [] else Hold(l, runs[0]) + Wave(runs[1..], Flip(l))
  }

  /** What the 16-bit timer makes of the run lengths. */
  function Wrapped(runs: seq<nat>): (w: seq<nat>)
    ensures |w| == |runs|
  {
    seq(|runs|, i requires 0 <= i < |runs| => runs[i] % 0x1_0000)
  }

  /** Runs the recorder keeps: none empty, no inner space long enough to look like a gap. */
  ghost predicate Recordable(runs: seq<nat>, l: Level) {
    forall i | 0 <= i < |runs| :: runs[i] > 0 && ((l == Space) == (i % 2 == 0) ==> runs[i] <= 101)
  }

  /** Just after the first sample of a run at level l. */
  function Entered(l: Level, raw: seq<nat>): Rx {
    Rx(if l == Mark then StateMark else StateSpace, 0, raw)
  }

  /** Staying on the level of the current run only advances the timer. */
  lemma {:induction false} HoldRun(l: Level, t: nat, raw: seq<nat>, n: nat)
    requires |raw| < RAWBUF && t < TIMER_WRAP && (l == Space ==> t + n <= GAP_TICKS)
    ensures Ticks(Entered(l, raw).(timer := t), Hold(l, n)) == Entered(l, raw).(timer := (t + n) % TIMER_WRAP)
    decreases n
  {
    if n > 0 {
      HoldOne(l, t, raw);
      TicksCons(Entered(l, raw).(timer := t), l, Hold(l, n - 1));
      assert Hold(l, n) == [l] + Hold(l, n - 1);
      HoldRun(l, (t + 1) % TIMER_WRAP, raw, n - 1);
      WrapAdds(t + 1, n - 1);
    }
  }

  lemma WrapAdds(x: nat, y: nat)
    ensures (x % TIMER_WRAP + y) % TIMER_WRAP == (x + y) % TIMER_WRAP
  {
  }

  lemma HoldOne(l: Level, t: nat, raw: seq<nat>)
    requires |raw| < RAWBUF && t < TIMER_WRAP && (l == Space ==> t + 1 <= GAP_TICKS)
    ensures Tick(Entered(l, raw).(timer := t), l) == Entered(l, raw).(timer := (t + 1) % TIMER_WRAP)
  {
  }

  /** A whole run of n samples, up to the first sample of the next, is recorded as n. */
  lemma {:induction false} RunRecorded(l: Level, raw: seq<nat>, n: nat, rest: seq<Level>)
    requires |raw| < RAWBUF && n > 0 && (l == Space ==> n <= GAP_TICKS + 1)
    ensures Ticks(Entered(l, raw), Hold(l, n - 1) + ([Flip(l)] + rest)) == Ticks(Entered(Flip(l), raw + [n % TIMER_WRAP]), rest)
  {
    TicksAppend(Entered(l, raw), Hold(l, n - 1), [Flip(l)] + rest);
    HoldRun(l, 0, raw, n - 1);
    TicksCons(Entered(l, raw).(timer := (n - 1) % TIMER_WRAP), Flip(l), rest);
    RunEnds(l, raw, n);
  }

  lemma {:induction false} RunEnds(l: Level, raw: seq<nat>, n: nat)
    requires |raw| < RAWBUF && n > 0
    ensures Tick(Entered(l, raw).(timer := (n - 1) % TIMER_WRAP), Flip(l)) == Entered(Flip(l), raw + [n % TIMER_WRAP])
  {
    assert ((n - 1) % TIMER_WRAP + 1) % TIMER_WRAP == n % TIMER_WRAP;
  }

  lemma {:induction false} TicksCons(rx: Rx, l: Level, rest: seq<Level>)
    ensures Ticks(rx, [l] + rest) == Ticks(Tick(rx, l), rest)
  {
    assert ([l] + rest)[1..] == rest;
  }

  /** A space that outlasts the gap stops the recorder, and nothing afterwards changes what was recorded. */
  lemma {:induction false} StopKeepsRaw(rx: Rx, samples: seq<Level>)
    requires rx.state == StateStop
    ensures Ticks(rx, samples).state == StateStop && Ticks(rx, samples).raw == rx.raw
    decreases samples
  {
    if samples != [] {
      StopKeepsRaw(Tick(rx, samples[0]), samples[1..]);
    }
  }

  lemma SpaceTick(t: nat, raw: seq<nat>)
    requires |raw| <= RAWBUF && t <= GAP_TICKS
    ensures var rx := Tick(Rx(StateSpace, t, raw), Space);
            rx.raw == raw && if t == GAP_TICKS then rx.state == StateStop else |raw| < RAWBUF ==> rx == Rx(StateSpace, t + 1, raw)
  {
  }

  lemma {:induction false} LongSpaceStops(t: nat, raw: seq<nat>, n: nat, rest: seq<Level>)
    requires |raw| <= RAWBUF && t <= GAP_TICKS && t + n > GAP_TICKS && n > 0
    ensures Ticks(Rx(StateSpace, t, raw), Hold(Space, n) + rest).state == StateStop
    ensures Ticks(Rx(StateSpace, t, raw), Hold(Space, n) + rest).raw == raw
    decreases n
  {
    var after := Hold(Space, n - 1) + rest;
    assert Hold(Space, n) + rest == [Space] + after;
    TicksCons(Rx(StateSpace, t, raw), Space, after);
    SpaceTick(t, raw);
    if t == GAP_TICKS {
      StopKeepsRaw(Tick(Rx(StateSpace, t, raw), Space), after);
    } else {
      LongSpaceStops(t + 1, raw, n - 1, rest);
    }
  }

  /** The line after the first sample of the first run, closed by a space and anything else. */
  function AfterFirst(runs: seq<nat>, l: Level, closing: seq<Level>): seq<Level>
    requires runs != [] && runs[0] > 0
  {
    Hold(l, runs[0] - 1) + (Wave(runs[1..], Flip(l)) + closing)
  }

  lemma {:induction false} WaveFirst(runs: seq<nat>, l: Level, closing: seq<Level>)
    requires runs != [] && runs[0] > 0
    ensures Wave(runs, l) + closing == [l] + AfterFirst(runs, l, closing)
  {
    assert Hold(l, runs[0]) == [l] + Hold(l, runs[0] - 1);
  }

  lemma {:induction false} RecordableTail(runs: seq<nat>, l: Level)
    requires runs != [] && Recordable(runs, l)
    ensures Recordable(runs[1..], Flip(l))
  {
    forall i | 0 <= i < |runs[1..]|
      ensures runs[1..][i] > 0 && ((Flip(l) == Space) == (i % 2 == 0) ==> runs[1..][i] <= 101)
    {
      assert runs[1..][i] == runs[i + 1];
    }
  }

  ghost predicate RecordedAs(rx: Rx, raw: seq<nat>) {
    rx.state == StateStop && rx.raw == raw
  }

  lemma {:induction false} LastRunRecorded(raw: seq<nat>, n: nat, tail: nat, rest: seq<Level>)
    requires |raw| < RAWBUF && n > 0 && tail > GAP_TICKS + 1
    ensures RecordedAs(Ticks(Entered(Mark, raw), AfterFirst([n], Mark, Hold(Space, tail) + rest)), raw + Wrapped([n]))
  {
    var after := Hold(Space, tail - 1) + rest;
    assert Hold(Space, tail) == [Space] + Hold(Space, tail - 1);
    assert Wave([n][1..], Space) + (Hold(Space, tail) + rest) == [Space] + after;
    RunRecorded(Mark, raw, n, after);
    LongSpaceStops(0, raw + [n % TIMER_WRAP], tail - 1, rest);
    assert raw + [n % TIMER_WRAP] == raw + Wrapped([n]);
  }

  /** From the first sample of the first run on: every run is recorded, then the closing space stops. */
  lemma {:induction false} RunsRecorded(l: Level, raw: seq<nat>, runs: seq<nat>, tail: nat, rest: seq<Level>)
    requires runs != [] && Recordable(runs, l) && tail > GAP_TICKS + 1
    requires |raw| + |runs| <= RAWBUF
    requires (l == Mark) == (|runs| % 2 == 1)
    ensures runs[0] > 0
    ensures RecordedAs(Ticks(Entered(l, raw), AfterFirst(runs, l, Hold(Space, tail) + rest)), raw + Wrapped(runs))
    decreases runs
  {
    var n := runs[0];
    assert n > 0;
    var raw' := raw + [n % TIMER_WRAP];
    if |runs| == 1 {
      LastRunRecorded(raw, n, tail, rest);
      assert runs == [n] && runs[1..] == [];
    } else {
      assert runs[1..][0] > 0;
      RecordableTail(runs, l);
      var after := AfterFirst(runs[1..], Flip(l), Hold(Space, tail) + rest);
      WaveFirst(runs[1..], Flip(l), Hold(Space, tail) + rest);
      RunRecorded(l, raw, n, after);
      RunsRecorded(Flip(l), raw', runs[1..], tail, rest);
      assert raw + Wrapped(runs) == raw' + Wrapped(runs[1..]);
    }
  }

  lemma {:induction false} GapTimed(t: nat, raw: seq<nat>, g: nat)
    requires |raw| < RAWBUF && t < TIMER_WRAP
    ensures Ticks(Rx(StateIdle, t, raw), Hold(Space, g)) == Rx(StateIdle, (t + g) % TIMER_WRAP, raw)
    decreases g
  {
    if g > 0 {
      GapTimed((t + 1) % TIMER_WRAP, raw, g - 1);
    }
  }

  /** THE RECORDER IS A RUN-LENGTH ENCODER. An idle receiver that sees a long enough gap,
      k <= 38 marks separated by spaces of at most 101 samples, and a closing space of at
      least 102, stops with the gap and the 2k - 1 run lengths recorded; what the line does
      afterwards does not matter. */
  lemma {:induction false} RunLengthEncoded(rx: Rx, g: nat, runs: seq<nat>, tail: nat, rest: seq<Level>)
    requires rx.state == StateIdle && |rx.raw| < 76 && rx.timer < 0x1_0000
    requires (rx.timer + g + 1) % 0x1_0000 >= 100
    requires |runs| % 2 == 1 && |runs| < 76 && Recordable(runs, Mark) && tail > 101
    ensures RecordedAs(Ticks(rx, Hold(Space, g) + (Wave(runs, Mark) + (Hold(Space, tail) + rest))),
                       [(rx.timer + g + 1) % 0x1_0000] + Wrapped(runs))
  {
    var closing := Hold(Space, tail) + rest;
    assert runs[0] > 0;
    WaveFirst(runs, Mark, closing);
    GapThenMark(rx.timer, rx.raw, g, AfterFirst(runs, Mark, closing));
    RunsRecorded(Mark, [(rx.timer + g + 1) % TIMER_WRAP], runs, tail, rest);
  }

  /** An idle receiver times the gap and records it with the first mark. */
  lemma {:induction false} GapThenMark(t: nat, raw: seq<nat>, g: nat, after: seq<Level>)
    requires |raw| < RAWBUF && t < TIMER_WRAP && (t + g + 1) % TIMER_WRAP >= GAP_TICKS
    ensures Ticks(Rx(StateIdle, t, raw), Hold(Space, g) + ([Mark] + after))
         == Ticks(Entered(Mark, [(t + g + 1) % TIMER_WRAP]), after)
  {
    var idle := Rx(StateIdle, (t + g) % TIMER_WRAP, raw);
    TicksAppend(Rx(StateIdle, t, raw), Hold(Space, g), [Mark] + after);
    GapTimed(t, raw, g);
    TicksCons(idle, Mark, after);
    GapEnds(t + g, raw);
  }

  lemma {:induction false} GapEnds(t: nat, raw: seq<nat>)
    requires |raw| < RAWBUF && (t + 1) % TIMER_WRAP >= GAP_TICKS
    ensures Tick(Rx(StateIdle, t % TIMER_WRAP, raw), Mark) == Entered(Mark, [(t + 1) % TIMER_WRAP])
  {
    assert (t % TIMER_WRAP + 1) % TIMER_WRAP == (t + 1) % TIMER_WRAP;
  }

  // ------------------------------------------------- between frames, and too long ones

  /** Every mark comes before the timer, started at t and restarted by each mark, has counted 100 samples. */
  predicate ShortGaps(t: nat, samples: seq<Level>)
    decreases samples
  {
    samples == []
    || (if samples[0] == Mark then (t + 1) % 0x1_0000 < 100 && ShortGaps(0, samples[1..]) else ShortGaps((t + 1) % 0x1_0000, samples[1..]))
  }

  /** The timer after these samples: how many of them have passed since the last mark. */
  function SinceMark(t: nat, samples: seq<Level>): nat
    decreases samples
  {
    if samples == [] then t else SinceMark(if samples[0] == Mark then 0 else (t + 1) % 0x1_0000, samples[1..])
  }

  lemma {:induction false} LeavesIdleForGood(rx: Rx, samples: seq<Level>)
    requires !rx.state.StateIdle?
    ensures !Ticks(rx, samples).state.StateIdle?
    decreases samples
  {
    if samples != [] { LeavesIdleForGood(Tick(rx, samples[0]), samples[1..]); }
  }

  /** AN IDLE RECEIVER WAITS FOR A LONG GAP: it stays idle if and only if no mark comes after one; then it keeps what it
      had recorded and times the gap since the last mark. */
  lemma {:induction false} StaysIdleIffShortGaps(rx: Rx, samples: seq<Level>)
    requires rx.state == StateIdle && |rx.raw| < 76
    ensures Ticks(rx, samples).state == StateIdle <==> ShortGaps(rx.timer, samples)
    ensures ShortGaps(rx.timer, samples) ==> Ticks(rx, samples) == Rx(StateIdle, SinceMark(rx.timer, samples), rx.raw)
    decreases samples
  {
    if samples != [] {
      var rx1 := Tick(rx, samples[0]);
      if rx1.state == StateIdle {
        StaysIdleIffShortGaps(rx1, samples[1..]);
      } else {
        LeavesIdleForGood(rx1, samples[1..]);
      }
    }
  }

  /** A stopped receiver times the gap since the last mark too, so a frame that begins soon after is not cut into. */
  lemma {:induction false} StopTimesGap(rx: Rx, samples: seq<Level>)
    requires rx.state == StateStop
    ensures Ticks(rx, samples) == Rx(StateStop, SinceMark(rx.timer, samples), rx.raw)
    decreases samples
  {
    if samples != [] { StopTimesGap(Tick(rx, samples[0]), samples[1..]); }
  }

  /** RESUMED IN THE MIDDLE OF A FRAME, the receiver records nothing of it: however the line goes on while the receiver is
      stopped and after it is resumed, only after a gap of 100 samples does it record, and then exactly the next frame. */
  lemma {:induction false} ResumedInsideFrame(rx: Rx, stopped: seq<Level>, rest: seq<Level>, g: nat, runs: seq<nat>, tail: nat, more: seq<Level>)
    requires rx.state == StateStop && rx.timer < 0x1_0000
    requires ShortGaps(SinceMark(rx.timer, stopped), rest)
    requires (SinceMark(SinceMark(rx.timer, stopped), rest) + g + 1) % 0x1_0000 >= 100
    requires |runs| % 2 == 1 && |runs| < 76 && Recordable(runs, Mark) && tail > 101
    ensures var resumed := Ticks(rx, stopped).(state := StateIdle, raw := []);
            && Ticks(resumed, rest).state == StateIdle && Ticks(resumed, rest).raw == []
            && RecordedAs(Ticks(resumed, rest + (Hold(Space, g) + (Wave(runs, Mark) + (Hold(Space, tail) + more)))),
                          [(SinceMark(SinceMark(rx.timer, stopped), rest) + g + 1) % 0x1_0000] + Wrapped(runs))
  {
    var resumed := Ticks(rx, stopped).(state := StateIdle, raw := []);
    StopTimesGap(rx, stopped);
    StaysIdleIffShortGaps(resumed, rest);
    SinceMarkSmall(rx.timer, stopped);
    SinceMarkSmall(SinceMark(rx.timer, stopped), rest);
    TicksAppend(resumed, rest, Hold(Space, g) + (Wave(runs, Mark) + (Hold(Space, tail) + more)));
    RunLengthEncoded(Ticks(resumed, rest), g, runs, tail, more);
  }

  lemma {:induction false} SinceMarkSmall(t: nat, samples: seq<Level>)
    requires t < 0x1_0000
    ensures SinceMark(t, samples) < 0x1_0000
    decreases samples
  {
    if samples != [] { SinceMarkSmall(if samples[0] == Mark then 0 else (t + 1) % 0x1_0000, samples[1..]); }
  }

  /** The next sample stops a receiver whose buffer is full, in whatever state, and the 76 entries stay. */
  lemma {:induction false} FullBufferStops(rx: Rx, samples: seq<Level>)
    requires |rx.raw| >= 76 && samples != []
    ensures RecordedAs(Ticks(rx, samples), rx.raw)
  {
    StopKeepsRaw(Tick(rx, samples[0]), samples[1..]);
  }

  /** A FRAME THAT IS TOO LONG is recorded up to the end of the buffer, whatever follows it. */
  lemma {:induction false} LongFrameCut(l: Level, raw: seq<nat>, runs: seq<nat>, closing: seq<Level>)
    requires runs != [] && Recordable(runs, l) && |raw| < 76 && |raw| + |runs| > 76 && closing != []
    ensures runs[0] > 0
    ensures RecordedAs(Ticks(Entered(l, raw), AfterFirst(runs, l, closing)), (raw + Wrapped(runs))[..76])
    decreases runs
  {
    var n := runs[0];
    assert n > 0 && runs[1] > 0;
    var raw' := raw + [n % TIMER_WRAP];
    RecordableTail(runs, l);
    var after := AfterFirst(runs[1..], Flip(l), closing);
    WaveFirst(runs[1..], Flip(l), closing);
    RunRecorded(l, raw, n, after);
    assert (raw + Wrapped(runs))[..76] == (raw' + Wrapped(runs[1..]))[..76] by {
      assert raw + Wrapped(runs) == raw' + Wrapped(runs[1..]);
    }
    if |raw'| < 76 {
      LongFrameCut(Flip(l), raw', runs[1..], closing);
    } else {
      assert (raw' + Wrapped(runs[1..]))[..76] == raw';
      FullBufferStops(Entered(Flip(l), raw'), after);
    }
  }
}
