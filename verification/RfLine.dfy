/** The 433 MHz line as a sequence of pin levels, one per timer interval, and the receiver that
    tells a long pulse from a short one. */
module RfLine {
  import opened Wrappers
  import opened Bytes

  datatype Pin = On | Off

  function Hold(p: Pin, n: nat): (w: seq<Pin>)
    ensures |w| == n
    ensures forall i | 0 <= i < n :: w[i] == p
  {
    if n == 0 then [] else [p] + Hold(p, n - 1)
  }

  function Repeat(w: seq<Pin>, n: nat): seq<Pin> {
    if n == 0 then [] else w + Repeat(w, n - 1)
  }

  /** One pulse: on for some intervals, then off for some. */
  datatype Pulse = Pulse(on: nat, off: nat) {
    predicate Long() { on > off }
  }

  function PulseWave(p: Pulse): seq<Pin> {
    Hold(On, p.on) + Hold(Off, p.off)
  }

  function Waves(ps: seq<Pulse>): seq<Pin> {
    if ps == [] then [] else PulseWave(ps[0]) + Waves(ps[1..])
  }

  lemma {:induction false} WavesAppend(x: seq<Pulse>, y: seq<Pulse>)
    ensures Waves(x + y) == Waves(x) + Waves(y)
    decreases x
  {
    if x == [] {
      assert x + y == y;
    } else {
      assert (x + y)[1..] == x[1..] + y;
      WavesAppend(x[1..], y);
    }
  }

  // -------------------------------------------------------------- transmitting

  /** One interrupt leads from state i of a trace to the next; before it the pin is at level i of the wave. */
  predicate Linked<S(==)>(step: S -> Option<S>, pin: S -> Pin, trace: seq<S>, wave: seq<Pin>, i: nat)
    requires i < |wave| < |trace|
  {
    step(trace[i]) == Some(trace[i + 1]) && wave[i] == pin(trace[i])
  }

  ghost predicate IsTrace<S>(step: S -> Option<S>, pin: S -> Pin, trace: seq<S>, wave: seq<Pin>) {
    |trace| == |wave| + 1 && forall i | 0 <= i < |wave| :: Linked(step, pin, trace, wave, i)
  }

  /** The levels a transmitter holds from s on, one before each of its interrupts, the last of which leads to s';
      step is one interrupt, if the timer runs. */
  ghost predicate Carries<S(!new)>(step: S -> Option<S>, pin: S -> Pin, s: S, wave: seq<Pin>, s': S) {
    exists trace: seq<S> :: IsTrace(step, pin, trace, wave) && trace[0] == s && trace[|wave|] == s'
  }

  lemma {:induction false} CarriesNothing<S(!new)>(step: S -> Option<S>, pin: S -> Pin, s: S)
    ensures Carries(step, pin, s, [], s)
  {
    assert IsTrace(step, pin, [s], []);
  }

  lemma {:induction false} CarriesOne<S(!new)>(step: S -> Option<S>, pin: S -> Pin, s: S, s': S)
    requires step(s) == Some(s')
    ensures Carries(step, pin, s, [pin(s)], s')
  {
    assert IsTrace(step, pin, [s, s'], [pin(s)]);
  }

  lemma {:induction false} CarriesThen<S(!new)>(step: S -> Option<S>, pin: S -> Pin, s: S, x: seq<Pin>, s': S, y: seq<Pin>, s'': S)
    requires Carries(step, pin, s, x, s') && Carries(step, pin, s', y, s'')
    ensures Carries(step, pin, s, x + y, s'')
  {
    var t :| IsTrace(step, pin, t, x) && t[0] == s && t[|x|] == s';
    var u :| IsTrace(step, pin, u, y) && u[0] == s' && u[|y|] == s'';
    var trace := t + u[1..];
    forall i | 0 <= i < |x + y| ensures Linked(step, pin, trace, x + y, i) {
      if i < |x| {
        assert Linked(step, pin, t, x, i);
      } else {
        assert Linked(step, pin, u, y, i - |x|);
      }
    }
    assert IsTrace(step, pin, trace, x + y);
  }

  // ----------------------------------------------------------------- receiving

  /** How many leading intervals are at level p. */
  function Lead(w: seq<Pin>, p: Pin): (n: nat)
    ensures n <= |w|
    ensures forall i | 0 <= i < n :: w[i] == p
    ensures n < |w| ==> w[n] != p
  {
    if w == [] || w[0] != p then 0 else 1 + Lead(w[1..], p)
  }

  /** A receiver that knows nothing of the sender: it only times on and off periods. */
  function Pulses(w: seq<Pin>): seq<Pulse>
    decreases |w|
  {
    var on := Lead(w, On);
    if on == 0 then [] else
      var off := Lead(w[on..], Off);
      [Pulse(on, off)] + Pulses(w[on + off..])
  }

  ghost predicate Proper(ps: seq<Pulse>) {
    forall i | 0 <= i < |ps| :: ps[i].on > 0 && ps[i].off > 0
  }

  lemma {:induction false} LeadOf(p: Pin, n: nat, rest: seq<Pin>)
    requires rest == [] || rest[0] != p
    ensures Lead(Hold(p, n) + rest, p) == n
  {
    if n > 0 {
      assert Hold(p, n) == [p] + Hold(p, n - 1);
      assert (Hold(p, n) + rest)[1..] == Hold(p, n - 1) + rest;
      LeadOf(p, n - 1, rest);
    } else {
      assert Hold(p, n) + rest == rest;
    }
  }

  /** Timing the line gives back exactly the pulses it was made of. */
  lemma {:induction false} PulsesOfWaves(ps: seq<Pulse>)
    requires Proper(ps)
    ensures Pulses(Waves(ps)) == ps
    decreases ps
  {
    if ps != [] {
      var p, rest := ps[0], Waves(ps[1..]);
      assert ps[0].on > 0 && ps[0].off > 0;
      WavesStartOn(ps[1..]);
      var w := Waves(ps);
      assert w == Hold(On, p.on) + (Hold(Off, p.off) + rest);
      assert (Hold(Off, p.off) + rest)[0] == Off;
      LeadOf(On, p.on, Hold(Off, p.off) + rest);
      assert w[p.on..] == Hold(Off, p.off) + rest;
      LeadOf(Off, p.off, rest);
      assert w[p.on + p.off..] == rest;
      PulsesOfWaves(ps[1..]);
    }
  }

  lemma {:induction false} WavesStartOn(ps: seq<Pulse>)
    requires Proper(ps)
    ensures Waves(ps) == [] || Waves(ps)[0] == On
  {
    if ps != [] { assert ps[0].on > 0; }
  }

  /** The same train of pulses n times over. */
  function Copies(ps: seq<Pulse>, n: nat): (r: seq<Pulse>)
    ensures |r| == n * |ps|
  {
    if n == 0 then [] else ps + Copies(ps, n - 1)
  }

  lemma {:induction false} CopiesAt(ps: seq<Pulse>, n: nat, c: nat, k: nat)
    requires c < n && k < |ps|
    ensures c * |ps| + k < n * |ps| && Copies(ps, n)[c * |ps| + k] == ps[k]
    decreases n
  {
    assert n * |ps| == |ps| + (n - 1) * |ps|;
    if c > 0 {
      CopiesAt(ps, n - 1, c - 1, k);
      assert c * |ps| == |ps| + (c - 1) * |ps|;
    }
  }

  lemma {:induction false} WavesOfCopies(ps: seq<Pulse>, n: nat)
    ensures Waves(Copies(ps, n)) == Repeat(Waves(ps), n)
    decreases n
  {
    if n > 0 {
      WavesOfCopies(ps, n - 1);
      WavesAppend(ps, Copies(ps, n - 1));
    }
  }

  lemma {:induction false} CopiesProper(ps: seq<Pulse>, n: nat)
    requires Proper(ps)
    ensures Proper(Copies(ps, n))
    decreases n
  {
    if n > 0 { CopiesProper(ps, n - 1); }
  }

  /** The last pulse of a train, held off for one interval more. */
  function Prolonged(ps: seq<Pulse>): (r: seq<Pulse>)
    requires ps != []
    ensures |r| == |ps|
  {
    ps[|ps| - 1 := Pulse(ps[|ps| - 1].on, ps[|ps| - 1].off + 1)]
  }

  lemma {:induction false} WavesProlonged(ps: seq<Pulse>)
    requires ps != []
    ensures Waves(Prolonged(ps)) == Waves(ps) + [Off]
  {
    var front, last := ps[..|ps| - 1], ps[|ps| - 1];
    var longer := Pulse(last.on, last.off + 1);
    assert ps == front + [last] && Prolonged(ps) == front + [longer];
    WavesAppend(front, [last]);
    WavesAppend(front, [longer]);
    HoldMore(Off, last.off);
    OneWave(last);
    OneWave(longer);
  }

  lemma {:induction false} OneWave(p: Pulse)
    ensures Waves([p]) == PulseWave(p)
  {
    assert [p][1..] == [];
    assert Waves([]) == [];
  }

  lemma HoldMore(p: Pin, n: nat)
    ensures Hold(p, n + 1) == Hold(p, n) + [p]
  {
  }

  /** What a receiver times on a line that carries a train n times over and then goes off: n trains, the very last
      pulse one interval longer. */
  lemma {:induction false} PulsesOfLine(ps: seq<Pulse>, n: nat)
    requires Proper(ps) && ps != [] && n > 0
    ensures Copies(ps, n) != [] && Pulses(Repeat(Waves(ps), n) + [Off]) == Prolonged(Copies(ps, n))
  {
    var all := Copies(ps, n);
    CopiesAt(ps, n, 0, 0);
    WavesOfCopies(ps, n);
    WavesProlonged(all);
    CopiesProper(ps, n);
    PulsesOfWaves(Prolonged(all));
  }

  /** Long pulses are ones. */
  function Bits(ps: seq<Pulse>): (bits: seq<bool>)
    ensures |bits| == |ps|
  {
    seq(|ps|, i requires 0 <= i < |ps| => ps[i].Long())
  }

  // -------------------------------------------------------------- three bytes

  function SignalBits(signal: seq<bv8>): (bits: seq<bool>)
    requires |signal| == 3
    ensures |bits| == 24
  {
    ByteBits(signal[0]) + ByteBits(signal[1]) + ByteBits(signal[2])
  }

  function Pack(bits: seq<bool>): (signal: seq<bv8>)
    requires |bits| == 24
    ensures |signal| == 3
  {
    [ByteOf(bits[..8]), ByteOf(bits[8..16]), ByteOf(bits[16..])]
  }

  lemma {:induction false} PackBits(bits: seq<bool>)
    requires |bits| == 24
    ensures SignalBits(Pack(bits)) == bits
  {
    ByteOfBits(bits[..8]);
    ByteOfBits(bits[8..16]);
    ByteOfBits(bits[16..]);
    assert bits == bits[..8] + bits[8..16] + bits[16..];
  }

  /** The three bytes are determined by their bits. */
  lemma {:induction false} SignalBitsInjective(s: seq<bv8>, t: seq<bv8>)
    requires |s| == 3 && |t| == 3 && SignalBits(s) == SignalBits(t)
    ensures s == t
  {
    var x, y := SignalBits(s), SignalBits(t);
    assert ByteBits(s[0]) == x[..8] && ByteBits(t[0]) == y[..8];
    assert ByteBits(s[1]) == x[8..16] && ByteBits(t[1]) == y[8..16];
    assert ByteBits(s[2]) == x[16..] && ByteBits(t[2]) == y[16..];
    ByteBitsInjective(s[0], t[0]);
    ByteBitsInjective(s[1], t[1]);
    ByteBitsInjective(s[2], t[2]);
  }
}
