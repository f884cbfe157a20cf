/** The transmitter in use: an interrupt that counts ticks, bits and repeats over three bytes. */
module RfCounter {
  import opened Bytes
  import opened RfLine

  const NUM_REPEAT_SIGNAL := 8
  const RF_SIGNAL_BITS := 24
  const SHORT := 6
  const LONG := 18
  const SYNC := 186

  /** current_state, the pin, whether the timer runs, and the transmissions not yet reported. */
  datatype Tx = Tx(atime: nat, bit: nat, repeatc: nat, state: nat, pin: Pin, running: bool, pending: nat)

  /** What every reachable state satisfies: in particular a bit index is only used below 24. */
  ghost predicate Consistent(t: Tx) {
    && t.bit <= RF_SIGNAL_BITS && t.state <= 2 && t.repeatc <= NUM_REPEAT_SIGNAL && t.atime <= SYNC
    && (t.state == 1 ==> t.bit < RF_SIGNAL_BITS)
    && (t.state == 2 ==> t.bit == RF_SIGNAL_BITS)
    && (!t.running ==> Idle(t))
  }

  predicate Idle(t: Tx) {
    t.state == 0 && t.bit == 0 && t.repeatc == 0 && t.atime == 0
  }

  /** The bit sent while `bit` counts down from 24: number 0 first, least significant bit of byte 0. */
  function CurrentBit(signal: seq<bv8>, bit: nat): bool
    requires |signal| == 3 && bit < RF_SIGNAL_BITS
  {
    SignalBits(signal)[RF_SIGNAL_BITS - bit - 1]
  }

  lemma SignalBitAt(signal: seq<bv8>, k: nat)
    requires |signal| == 3 && k < 24
    ensures SignalBits(signal)[k] == Bit(signal[k / 8], k % 8)
  {
  }

  lemma {:induction false} CurrentBitIs(signal: seq<bv8>, bit: nat)
    requires |signal| == 3 && bit < RF_SIGNAL_BITS
    ensures CurrentBit(signal, bit) == ShiftedBit(signal[(23 - bit) / 8], (23 - bit) % 8)
  {
    SignalBitAt(signal, 23 - bit);
    BitIsShifted(signal[(23 - bit) / 8], (23 - bit) % 8);
  }

  /** One timer interrupt. */
  function Tick(signal: seq<bv8>, t: Tx): Tx
    requires |signal| == 3 && (t.state == 0 || t.state == 2 || t.bit < RF_SIGNAL_BITS) && t.bit <= RF_SIGNAL_BITS
  {
    if Idle(t) then t.(running := false, pin := Off, pending := t.pending + 1)
    else if t.atime > 0 then t.(atime := t.atime - 1)
    else if t.state == 2 then t.(pin := Off, atime := SYNC, state := 0)
    else if t.state != 0 then t.(pin := Off, atime := if CurrentBit(signal, t.bit) then SHORT else LONG, state := 0)
    else if t.bit > 0 then
      t.(bit := t.bit - 1, state := 1, pin := On, atime := if CurrentBit(signal, t.bit - 1) then LONG else SHORT)
    else if t.repeatc > 0 then t.(bit := RF_SIGNAL_BITS, repeatc := t.repeatc - 1, state := 2, pin := On, atime := SHORT)
    else t
  }

  class Transmitter {
    var signal: seq<bv8>
    var atime: nat
    var bit: nat
    var repeatc: nat
    var state: nat
    var pin: Pin
    var running: bool
    var pending: nat
    var printed: nat

    ghost predicate Valid()
      reads this
    {
      |signal| == 3 && Consistent(View())
    }

    ghost function View(): Tx
      reads this
    {
      Tx(atime, bit, repeatc, state, pin, running, pending)
    }

    constructor ()
      ensures Valid() && View() == Tx(0, 0, 0, 0, Off, false, 0) && printed == 0
    {
      signal := [0, 0, 0];
      atime, bit, repeatc, state := 0, 0, 0, 0;
      pin, running, pending, printed := Off, false, 0, 0;
    }

    /** CURRENT_BIT: shift and mask of one of the three bytes. */
    method ReadBit() returns (b: bool)
      requires Valid() && bit < RF_SIGNAL_BITS
      ensures b == CurrentBit(signal, bit)
    {
      var cnt := RF_SIGNAL_BITS - bit - 1;
      b := ShiftedBit(signal[cnt / 8], cnt % 8);
      CurrentBitIs(signal, bit);
    }

    /** The timer interrupt. */
    method Interrupt()
      requires Valid() && running
      modifies this
      ensures Valid() && View() == Tick(signal, old(View()))
      ensures signal == old(signal) && printed == old(printed)
    {
      if state != 0 || bit != 0 || repeatc != 0 || atime != 0 {
        if atime != 0 {
          atime := atime - 1;
        } else if state != 0 {
          pin := Off;
          if state == 2 {
            atime := SYNC;
          } else {
            var b := ReadBit();
            atime := if b then SHORT else LONG;
          }
          state := 0;
        } else if bit != 0 {
          bit := bit - 1;
          state := 1;
          var b := ReadBit();
          atime := if b then LONG else SHORT;
          pin := On;
        } else if repeatc != 0 {
          bit := RF_SIGNAL_BITS;
          repeatc := repeatc - 1;
          state := 2;
          pin := On;
          atime := SHORT;
        }
      } else {
        running := false;
        pin := Off;
        pending := pending + 1;
      }
    }

    /** send_rf_cmd, once its wait for the previous transmission is over. */
    method Send(sr: seq<bv8>)
      requires Valid() && !running && |sr| == 3
      modifies this
      ensures Valid() && signal == sr && printed == old(printed)
      ensures View() == old(View()).(repeatc := NUM_REPEAT_SIGNAL, running := true)
    {
      var chr := 0;
      while chr < 3
        invariant 0 <= chr <= 3 && |signal| == 3
        invariant signal[..chr] == sr[..chr]
        invariant View() == old(View()) && printed == old(printed)
      {
        signal := signal[chr := sr[chr]];
        chr := chr + 1;
      }
      repeatc := NUM_REPEAT_SIGNAL;
      running := true;
    }

    /** check_frame_done: one "Ok" per finished transmission. */
    method CheckFrameDone()
      requires Valid()
      modifies this
      ensures Valid() && signal == old(signal)
      ensures View() == old(View()).(pending := 0) && printed == old(printed) + old(pending)
    {
      while pending > 0
        invariant Valid() && signal == old(signal)
        invariant View() == old(View()).(pending := pending) && printed + pending == old(printed) + old(pending)
      {
        pending := pending - 1;
        printed := printed + 1;
      }
    }
  }

  // ------------------------------------------------------------- the waveform

  /** The state after n interrupts. */
  function Ticks(signal: seq<bv8>, t: Tx, n: nat): Tx
    requires |signal| == 3 && Consistent(t)
    decreases n
  {
    if n == 0 then t else
      ConsistentKept(signal, t);
      Ticks(signal, Tick(signal, t), n - 1)
  }

  /** The pin level after each of n interrupts. */
  function Levels(signal: seq<bv8>, t: Tx, n: nat): (w: seq<Pin>)
    requires |signal| == 3 && Consistent(t)
    ensures |w| == n
    decreases n
  {
    if n == 0 then [] else
      ConsistentKept(signal, t);
      [Tick(signal, t).pin] + Levels(signal, Tick(signal, t), n - 1)
  }

  lemma ConsistentKept(signal: seq<bv8>, t: Tx)
    requires |signal| == 3 && Consistent(t)
    ensures Consistent(Tick(signal, t))
  {
  }

  /** From t the next |w| interrupts drive the line through w and end in t'. */
  ghost predicate Drives(signal: seq<bv8>, t: Tx, w: seq<Pin>, t': Tx) {
    |signal| == 3 && Consistent(t) && Ticks(signal, t, |w|) == t' && Levels(signal, t, |w|) == w
  }

  lemma {:induction false} DrivesThen(signal: seq<bv8>, t: Tx, w: seq<Pin>, t': Tx, w': seq<Pin>, t'': Tx)
    requires Drives(signal, t, w, t') && Drives(signal, t', w', t'')
    ensures Drives(signal, t, w + w', t'')
    decreases w
  {
    if w == [] {
      assert w + w' == w';
    } else {
      ConsistentKept(signal, t);
      assert Levels(signal, t, |w|)[1..] == w[1..];
      DrivesThen(signal, Tick(signal, t), w[1..], t', w', t'');
      assert w + w' == [w[0]] + (w[1..] + w');
    }
  }

  /** Waiting: the pin stays put while atime runs out. */
  lemma {:induction false} Waits(signal: seq<bv8>, t: Tx)
    requires |signal| == 3 && Consistent(t)
    ensures Drives(signal, t, Hold(t.pin, t.atime), t.(atime := 0))
    decreases t.atime
  {
    if t.atime > 0 {
      ConsistentKept(signal, t);
      Waits(signal, Tick(signal, t));
      assert Hold(t.pin, t.atime) == [t.pin] + Hold(t.pin, t.atime - 1);
    }
  }

  /** One interrupt that sets the pin and a waiting time, then the wait. */
  lemma {:induction false} StepAndWait(signal: seq<bv8>, t: Tx, p: Pin, n: nat)
    requires |signal| == 3 && Consistent(t)
    requires Tick(signal, t).pin == p && Tick(signal, t).atime == n
    ensures Drives(signal, t, Hold(p, n + 1), Tick(signal, t).(atime := 0))
  {
    ConsistentKept(signal, t);
    Waits(signal, Tick(signal, t));
    assert Hold(p, n + 1) == [p] + Hold(p, n);
    assert Hold(p, n + 1)[1..] == Hold(p, n);
  }

  function BitPulse(b: bool): Pulse {
    if b then Pulse(LONG + 1, SHORT + 1) else Pulse(SHORT + 1, LONG + 1)
  }

  const SYNC_PULSE := Pulse(SHORT + 1, SYNC + 1)

  function BitPulses(bits: seq<bool>): (ps: seq<Pulse>)
    ensures |ps| == |bits|
    ensures forall i | 0 <= i < |ps| :: ps[i] == BitPulse(bits[i])
  {
    if bits == [] then [] else [BitPulse(bits[0])] + BitPulses(bits[1..])
  }

  /** One copy of the signal: the sync pulse, then 24 bit pulses. */
  function FramePulses(signal: seq<bv8>): seq<Pulse>
    requires |signal| == 3
  {
    [SYNC_PULSE] + BitPulses(SignalBits(signal))
  }

  /** Between bits: b bits and r repeats still to send. */
  function Between(t: Tx, b: nat, r: nat, p: Pin): Tx {
    t.(atime := 0, state := 0, bit := b, repeatc := r, pin := p)
  }

  lemma {:induction false} SendsBit(signal: seq<bv8>, t: Tx, b: nat, r: nat)
    requires |signal| == 3 && b < RF_SIGNAL_BITS && r <= NUM_REPEAT_SIGNAL && t.running
    ensures Drives(signal, Between(t, b + 1, r, Off), PulseWave(BitPulse(CurrentBit(signal, b))), Between(t, b, r, Off))
  {
    var t0 := Between(t, b + 1, r, Off);
    var on := BitPulse(CurrentBit(signal, b)).on;
    var off := BitPulse(CurrentBit(signal, b)).off;
    StepAndWait(signal, t0, On, on - 1);
    var t1 := Between(t, b, r, On).(state := 1);
    StepAndWait(signal, t1, Off, off - 1);
    DrivesThen(signal, t0, Hold(On, on), t1, Hold(Off, off), Between(t, b, r, Off));
  }

  lemma {:induction false} SendsBits(signal: seq<bv8>, t: Tx, b: nat, r: nat)
    requires |signal| == 3 && b <= RF_SIGNAL_BITS && r <= NUM_REPEAT_SIGNAL && t.running
    ensures Drives(signal, Between(t, b, r, Off), Waves(BitPulses(SignalBits(signal)[RF_SIGNAL_BITS - b..])), Between(t, 0, r, Off))
    decreases b
  {
    var bits := SignalBits(signal)[RF_SIGNAL_BITS - b..];
    if b == 0 {
      assert bits == [];
    } else {
      SendsBit(signal, t, b - 1, r);
      SendsBits(signal, t, b - 1, r);
      assert bits[0] == CurrentBit(signal, b - 1);
      assert bits[1..] == SignalBits(signal)[RF_SIGNAL_BITS - (b - 1)..];
      DrivesThen(signal, Between(t, b, r, Off), PulseWave(BitPulse(bits[0])), Between(t, b - 1, r, Off),
                 Waves(BitPulses(bits[1..])), Between(t, 0, r, Off));
      assert BitPulses(bits)[1..] == BitPulses(bits[1..]);
    }
  }

  lemma {:induction false} SendsSync(signal: seq<bv8>, t: Tx, r: nat)
    requires |signal| == 3 && r < NUM_REPEAT_SIGNAL && t.running
    ensures Drives(signal, Between(t, 0, r + 1, Off), PulseWave(SYNC_PULSE), Between(t, RF_SIGNAL_BITS, r, Off))
  {
    var t0 := Between(t, 0, r + 1, Off);
    StepAndWait(signal, t0, On, SHORT);
    var t1 := Between(t, RF_SIGNAL_BITS, r, On).(state := 2);
    StepAndWait(signal, t1, Off, SYNC);
    DrivesThen(signal, t0, Hold(On, SHORT + 1), t1, Hold(Off, SYNC + 1), Between(t, RF_SIGNAL_BITS, r, Off));
  }

  lemma {:induction false} SendsFrame(signal: seq<bv8>, t: Tx, r: nat)
    requires |signal| == 3 && r < NUM_REPEAT_SIGNAL && t.running
    ensures Drives(signal, Between(t, 0, r + 1, Off), Waves(FramePulses(signal)), Between(t, 0, r, Off))
  {
    SendsSync(signal, t, r);
    SendsBits(signal, t, RF_SIGNAL_BITS, r);
    assert SignalBits(signal)[0..] == SignalBits(signal);
    DrivesThen(signal, Between(t, 0, r + 1, Off), PulseWave(SYNC_PULSE), Between(t, RF_SIGNAL_BITS, r, Off),
               Waves(BitPulses(SignalBits(signal))), Between(t, 0, r, Off));
    assert FramePulses(signal)[1..] == BitPulses(SignalBits(signal));
  }

  lemma {:induction false} SendsFrames(signal: seq<bv8>, t: Tx, r: nat)
    requires |signal| == 3 && r <= NUM_REPEAT_SIGNAL && t.running
    ensures Drives(signal, Between(t, 0, r, Off), Repeat(Waves(FramePulses(signal)), r), Between(t, 0, 0, Off))
    decreases r
  {
    if r > 0 {
      SendsFrame(signal, t, r - 1);
      SendsFrames(signal, t, r - 1);
      DrivesThen(signal, Between(t, 0, r, Off), Waves(FramePulses(signal)), Between(t, 0, r - 1, Off),
                 Repeat(Waves(FramePulses(signal)), r - 1), Between(t, 0, 0, Off));
    }
  }

  /** The line a transmission drives. */
  function Line(signal: seq<bv8>): seq<Pin>
    requires |signal| == 3
  {
    Repeat(Waves(FramePulses(signal)), NUM_REPEAT_SIGNAL) + [Off]
  }

  /** THE TRANSMISSION: from the moment send_rf_cmd starts the timer, the interrupts drive exactly
      eight copies of sync and 24 bits, then one last interrupt stops the timer, leaves the pin off
      and owes one acknowledgement. */
  lemma {:induction false} Transmission(signal: seq<bv8>, t: Tx)
    requires |signal| == 3 && Idle(t) && t.running && t.pin == Off
    ensures Drives(signal, t.(repeatc := NUM_REPEAT_SIGNAL), Line(signal),
                   t.(running := false, pending := t.pending + 1))
  {
    SendsFrames(signal, t, NUM_REPEAT_SIGNAL);
    var w := Repeat(Waves(FramePulses(signal)), NUM_REPEAT_SIGNAL);
    assert Ticks(signal, Tick(signal, t), 0) == Tick(signal, t);
    assert Drives(signal, t, [Off], t.(running := false, pending := t.pending + 1));
    DrivesThen(signal, t.(repeatc := NUM_REPEAT_SIGNAL), w, t, [Off], t.(running := false, pending := t.pending + 1));
  }

  /** The line timed, for any train of 25 pulses that ends in a bit: longer off time does not make a bit another one. */
  lemma {:induction false} LinePulse(ps: seq<Pulse>, n: nat, c: nat, k: nat)
    requires |ps| == 25 && Proper(ps) && c < n && k < 25 && (ps[24] == BitPulse(true) || ps[24] == BitPulse(false))
    ensures var line := Pulses(Repeat(Waves(ps), n) + [Off]);
            |line| == 25 * n && 25 * c + k < 25 * n && line[25 * c + k].Long() == ps[k].Long()
  {
    PulsesOfLine(ps, n);
    CopiesAt(ps, n, c, k);
    CopiesAt(ps, n, n - 1, 24);
    ProlongedLong(Copies(ps, n), 25 * c + k);
  }

  lemma ProlongedLong(ps: seq<Pulse>, i: nat)
    requires i < |ps| && (ps[|ps| - 1] == BitPulse(true) || ps[|ps| - 1] == BitPulse(false))
    ensures Prolonged(ps)[i].Long() == ps[i].Long()
  {
  }

  lemma {:induction false} LineBit(signal: seq<bv8>, c: nat, k: nat)
    requires |signal| == 3 && c < NUM_REPEAT_SIGNAL && k < 24
    ensures |Pulses(Line(signal))| == 200 && Pulses(Line(signal))[25 * c + 1 + k].Long() == SignalBits(signal)[k]
  {
    FramePulsesAre(signal);
    LinePulse(FramePulses(signal), NUM_REPEAT_SIGNAL, c, k + 1);
    BitPulseLong(SignalBits(signal)[k]);
  }

  lemma {:induction false} BitsOfSlice(ps: seq<Pulse>, at: nat, bits: seq<bool>)
    requires at + |bits| <= |ps| && forall k | 0 <= k < |bits| :: ps[at + k].Long() == bits[k]
    ensures Bits(ps[at..at + |bits|]) == bits
  {
    forall k | 0 <= k < |bits| ensures Bits(ps[at..at + |bits|])[k] == bits[k] {
      assert ps[at..at + |bits|][k] == ps[at + k];
    }
  }

  lemma BitPulseLong(b: bool)
    ensures BitPulse(b).Long() == b
  {
  }

  lemma {:induction false} FramePulsesAre(signal: seq<bv8>)
    requires |signal| == 3
    ensures var ps := FramePulses(signal);
            && |ps| == 25 && Proper(ps) && (forall k | 0 <= k < 24 :: ps[k + 1] == BitPulse(SignalBits(signal)[k]))
            && (ps[24] == BitPulse(true) || ps[24] == BitPulse(false))
  {
    var ps := FramePulses(signal);
    assert ps[23 + 1] == BitPulse(SignalBits(signal)[23]);
  }

  lemma {:induction false} PackOfBits(signal: seq<bv8>)
    requires |signal| == 3
    ensures Pack(SignalBits(signal)) == signal
  {
    PackBits(SignalBits(signal));
    SignalBitsInjective(Pack(SignalBits(signal)), signal);
  }

  lemma {:induction false} CopyBits(signal: seq<bv8>, c: nat, line: seq<Pulse>, bits: seq<bool>)
    requires |signal| == 3 && c < NUM_REPEAT_SIGNAL && line == Pulses(Line(signal)) && bits == SignalBits(signal)
    ensures |line| == 200 && Bits(line[25 * c + 1..25 * (c + 1)]) == bits
  {
    LineBit(signal, c, 0);
    forall k | 0 <= k < 24 ensures line[25 * c + 1 + k].Long() == bits[k] {
      LineBit(signal, c, k);
    }
    BitsOfSlice(line, 25 * c + 1, bits);
  }

  /** THE TRANSMISSION CAN BE READ BACK: timing on against off on the whole line finds eight copies of 25 pulses, and
      each copy spells the three bytes. */
  lemma {:induction false} FrameReadBack(signal: seq<bv8>, c: nat)
    requires |signal| == 3 && c < NUM_REPEAT_SIGNAL
    ensures |Pulses(Line(signal))| == 25 * NUM_REPEAT_SIGNAL
    ensures Bits(Pulses(Line(signal))[25 * c + 1..25 * (c + 1)]) == SignalBits(signal)
    ensures Pack(Bits(Pulses(Line(signal))[25 * c + 1..25 * (c + 1)])) == signal
  {
    CopyBits(signal, c, Pulses(Line(signal)), SignalBits(signal));
    PackOfBits(signal);
  }

  /** The bits go out byte by byte, each from its least significant bit up, a 1 as a long pulse. */
  lemma {:induction false} BitsInOrder(signal: seq<bv8>, k: nat)
    requires |signal| == 3 && k < 24
    ensures FramePulses(signal)[k + 1] == if ShiftedBit(signal[k / 8], k % 8) then Pulse(19, 7) else Pulse(7, 19)
    ensures FramePulses(signal)[0] == Pulse(7, 187)
  {
    SignalBitAt(signal, k);
    BitIsShifted(signal[k / 8], k % 8);
  }

  // -------------------------------------------------------------------- timing

  /** Interrupts still to come, counted from the state alone. */
  function Remaining(signal: seq<bv8>, t: Tx): nat
    requires |signal| == 3 && Consistent(t)
  {
    if !t.running then 0 else
      t.atime + 26 * t.bit + 818 * t.repeatc + 1
      + (if t.state == 2 then SYNC + 1 else if t.state == 1 then BitPulse(CurrentBit(signal, t.bit)).off else 0)
  }

  /** Every interrupt brings the end one step nearer, whatever the data. */
  lemma {:induction false} RemainingDrops(signal: seq<bv8>, t: Tx)
    requires |signal| == 3 && Consistent(t) && t.running
    ensures Consistent(Tick(signal, t)) && Remaining(signal, Tick(signal, t)) == Remaining(signal, t) - 1
    ensures Tick(signal, t).running <==> Remaining(signal, t) > 1
    ensures Tick(signal, t).pending == t.pending + (if Remaining(signal, t) == 1 then 1 else 0)
  {
    ConsistentKept(signal, t);
  }

  /** So a transmission takes 8 * 818 + 1 interrupts for every three bytes, acknowledged once. */
  lemma TransmissionTime(signal: seq<bv8>, t: Tx)
    requires |signal| == 3 && Idle(t) && t.running
    ensures Remaining(signal, t.(repeatc := NUM_REPEAT_SIGNAL)) == 8 * 818 + 1
  {
  }

  lemma {:induction false} EndsOnTime(signal: seq<bv8>, t: Tx, n: nat)
    requires |signal| == 3 && Consistent(t) && t.running && n <= Remaining(signal, t)
    ensures var t' := Ticks(signal, t, n);
            && Consistent(t') && (t'.running <==> n < Remaining(signal, t))
            && t'.pending == t.pending + (if n == Remaining(signal, t) then 1 else 0)
    decreases n
  {
    if n > 0 {
      RemainingDrops(signal, t);
      if Tick(signal, t).running {
        EndsOnTime(signal, Tick(signal, t), n - 1);
      }
    }
  }

  // ------------------------------------------------------------ acknowledgements

  datatype Event = Interrupted | Sent(sr: seq<bv8>) | Checked

  /** The firmware as a whole: the transmitter, what it sends, the "Ok"s printed, and how many sends were accepted. */
  datatype Firmware = Firmware(tx: Tx, signal: seq<bv8>, printed: nat, sends: nat)

  /** One event; an interrupt needs a running timer and a send waits for a stopped one. */
  function Step(f: Firmware, e: Event): Firmware
    requires |f.signal| == 3 && Consistent(f.tx)
  {
    match e
    case Interrupted => if f.tx.running then f.(tx := Tick(f.signal, f.tx)) else f
    case Sent(sr) =>
      if f.tx.running || |sr| != 3 then f
      else f.(tx := f.tx.(repeatc := NUM_REPEAT_SIGNAL, running := true), signal := sr, sends := f.sends + 1)
    case Checked => f.(tx := f.tx.(pending := 0), printed := f.printed + f.tx.pending)
  }

  ghost predicate Accounted(f: Firmware) {
    && |f.signal| == 3 && Consistent(f.tx)
    && f.sends == f.printed + f.tx.pending + (if f.tx.running then 1 else 0)
  }

  function Run(f: Firmware, events: seq<Event>): Firmware
    requires Accounted(f)
    decreases events
  {
    if events == [] then f else
      AccountKept(f, events[0]);
      Run(Step(f, events[0]), events[1..])
  }

  lemma {:induction false} AccountKept(f: Firmware, e: Event)
    requires Accounted(f)
    ensures Accounted(Step(f, e))
  {
    if f.tx.running { RemainingDrops(f.signal, f.tx); }
  }

  /** In every run each accepted send is either under way, waiting to be reported, or reported. */
  lemma {:induction false} EverySendAccounted(f: Firmware, events: seq<Event>)
    requires Accounted(f)
    ensures Accounted(Run(f, events))
    decreases events
  {
    if events != [] {
      AccountKept(f, events[0]);
      EverySendAccounted(Step(f, events[0]), events[1..]);
    }
  }
}
