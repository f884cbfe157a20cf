/** The consolidated transmitter: an interrupt that walks tables of symbol waveforms. */
module RfTable {
  import opened Wrappers
  import opened RfLine

  datatype Symbol = ZERO | ONE | FLOAT | SYNC

  /** Up to `offset` intervals into the symbol the line is at `pin`. */
  datatype Chunk = Chunk(offset: nat, pin: Pin)

  const END := Chunk(0, Off)

  function BitDef(s: Symbol): (d: seq<Chunk>)
    ensures |d| >= 3 && d[|d| - 1] == END
  {
    match s
    case ZERO => [Chunk(4, On), Chunk(16, Off), Chunk(20, On), Chunk(32, Off), END]
    case ONE => [Chunk(12, On), Chunk(16, Off), Chunk(28, On), Chunk(32, Off), END]
    case FLOAT => [Chunk(4, On), Chunk(16, Off), Chunk(28, On), Chunk(32, Off), END]
    case SYNC => [Chunk(4, On), Chunk(128, Off), END]
  }

  const WORD_LEN := 13
  const FRAME_LEN := 8

  datatype Status = Sending | Idle | Finished

  /** The interrupt's counters, the pin and the timer. */
  datatype Tx = Tx(alpha: nat, chunk: nat, bit: nat, word: nat, pin: Pin, running: bool, status: Status)

  /** The counters point at a live table entry and alpha has not passed it. */
  predicate Consistent(w: seq<Symbol>, t: Tx) {
    && |w| == WORD_LEN && t.bit < WORD_LEN && t.word < FRAME_LEN
    && t.chunk < |BitDef(w[t.bit])| - 1
    && (if t.chunk == 0 then 0 else BitDef(w[t.bit])[t.chunk - 1].offset) <= t.alpha < BitDef(w[t.bit])[t.chunk].offset
    && t.pin == BitDef(w[t.bit])[t.chunk].pin
    && t.running && t.status == Sending
  }

  function InitWord(w: seq<Symbol>, t: Tx): Tx
    requires |w| == WORD_LEN
  {
    t.(alpha := 0, chunk := 0, bit := 0, pin := BitDef(w[0])[0].pin, running := true)
  }

  /** One timer interrupt. */
  function Tick(w: seq<Symbol>, t: Tx): Tx
    requires Consistent(w, t)
  {
    var d := BitDef(w[t.bit]);
    if t.alpha + 1 < d[t.chunk].offset then t.(alpha := t.alpha + 1)
    else if d[t.chunk + 1].offset != 0 then t.(alpha := t.alpha + 1, chunk := t.chunk + 1, pin := d[t.chunk + 1].pin)
    else if t.bit + 1 < WORD_LEN then
      t.(alpha := 0, chunk := 0, bit := t.bit + 1, pin := BitDef(w[t.bit + 1])[0].pin)
    else if t.word + 1 < FRAME_LEN then InitWord(w, t.(word := t.word + 1))
    else t.(alpha := t.alpha + 1, chunk := t.chunk + 1, bit := t.bit + 1, word := t.word + 1,
            pin := Off, running := false, status := Finished)
  }

  lemma {:induction false} ConsistentKept(w: seq<Symbol>, t: Tx)
    requires Consistent(w, t)
    ensures var t' := Tick(w, t); if t'.status == Finished then !t'.running && t'.pin == Off else Consistent(w, t')
  {
    match w[t.bit] { case ZERO => case ONE => case FLOAT => case SYNC => }
  }

  class Transmitter {
    var currentWord: seq<Symbol>
    var alphaCnt: nat
    var chunkCnt: nat
    var bitCnt: nat
    var wordCnt: nat
    var pin: Pin
    var running: bool
    var frameFinished: Status

    ghost function View(): Tx
      reads this
    {
      Tx(alphaCnt, chunkCnt, bitCnt, wordCnt, pin, running, frameFinished)
    }

    constructor ()
      ensures View() == Tx(0, 0, 0, 0, Off, false, Idle)
    {
      currentWord := [];
      alphaCnt, chunkCnt, bitCnt, wordCnt := 0, 0, 0, 0;
      pin, running, frameFinished := Off, false, Idle;
    }

    method Init(w: seq<Symbol>)
      requires |w| == WORD_LEN
      modifies this
      ensures currentWord == w && View() == InitWord(w, old(View()))
    {
      currentWord := w;
      alphaCnt, chunkCnt, bitCnt := 0, 0, 0;
      pin := BitDef(currentWord[bitCnt])[chunkCnt].pin;
      running := true;
    }

    /** The timer interrupt. */
    method Interrupt()
      requires Consistent(currentWord, View())
      modifies this
      ensures currentWord == old(currentWord)
      ensures View() == Tick(currentWord, old(View()))
      ensures frameFinished == Finished || Consistent(currentWord, View())
    {
      ConsistentKept(currentWord, View());
      alphaCnt := alphaCnt + 1;
      if alphaCnt < BitDef(currentWord[bitCnt])[chunkCnt].offset {
        return;
      }
      chunkCnt := chunkCnt + 1;
      if BitDef(currentWord[bitCnt])[chunkCnt].offset != 0 {
        pin := BitDef(currentWord[bitCnt])[chunkCnt].pin;
        return;
      }
      bitCnt := bitCnt + 1;
      if bitCnt < WORD_LEN {
        alphaCnt := 0;
        chunkCnt := 0;
        pin := BitDef(currentWord[bitCnt])[chunkCnt].pin;
        return;
      }
      running := false;
      pin := Off;
      wordCnt := wordCnt + 1;
      if wordCnt < FRAME_LEN {
        Init(currentWord);
      } else {
        frameFinished := Finished;
      }
    }

    /** send_frame, once its wait for the previous frame is over. */
    method SendFrame(w: seq<Symbol>)
      requires |w| == WORD_LEN && !running
      modifies this
      ensures currentWord == w
      ensures View() == InitWord(w, old(View()).(word := 0, status := Sending))
      ensures Consistent(w, View())
    {
      wordCnt := 0;
      frameFinished := Sending;
      Init(w);
      ConsistentStart(w, View());
    }
  }

  lemma ConsistentStart(w: seq<Symbol>, t: Tx)
    requires |w| == WORD_LEN && t.word < FRAME_LEN && t.status == Sending
    ensures Consistent(w, InitWord(w, t))
  {
  }

  // --------------------------------------------------------------- the waveform

  function StepOf(w: seq<Symbol>): Tx -> Option<Tx> {
    t => if Consistent(w, t) then Some(Tick(w, t)) else None
  }

  function PinOf(t: Tx): Pin {
    t.pin
  }

  /** The line level during consecutive intervals, the one before the first interrupt included. */
  ghost predicate Drives(w: seq<Symbol>, t: Tx, wave: seq<Pin>, t': Tx) {
    Carries(StepOf(w), PinOf, t, wave, t')
  }

  lemma {:induction false} DrivesNothing(w: seq<Symbol>, t: Tx)
    ensures Drives(w, t, [], t)
  {
    CarriesNothing(StepOf(w), PinOf, t);
  }

  lemma {:induction false} DrivesOne(w: seq<Symbol>, t: Tx)
    requires Consistent(w, t)
    ensures Drives(w, t, [t.pin], Tick(w, t))
  {
    CarriesOne(StepOf(w), PinOf, t, Tick(w, t));
  }

  lemma {:induction false} DrivesThen(w: seq<Symbol>, t: Tx, x: seq<Pin>, t': Tx, y: seq<Pin>, t'': Tx)
    requires Drives(w, t, x, t') && Drives(w, t', y, t'')
    ensures Drives(w, t, x + y, t'')
  {
    CarriesThen(StepOf(w), PinOf, t, x, t', y, t'');
  }

  /** The rest of one table entry: the pin holds until alpha reaches its offset. */
  lemma {:induction false} HoldsChunk(w: seq<Symbol>, t: Tx)
    requires Consistent(w, t)
    ensures var last := t.(alpha := BitDef(w[t.bit])[t.chunk].offset - 1);
            Consistent(w, last) && Drives(w, t, Hold(t.pin, BitDef(w[t.bit])[t.chunk].offset - t.alpha), Tick(w, last))
  {
    HoldsFor(w, t, t.(alpha := BitDef(w[t.bit])[t.chunk].offset - 1), BitDef(w[t.bit])[t.chunk].offset - t.alpha);
  }

  lemma {:induction false} HoldsFor(w: seq<Symbol>, t: Tx, last: Tx, n: nat)
    requires Consistent(w, t) && Consistent(w, last) && n > 0
    requires t.alpha + n == BitDef(w[t.bit])[t.chunk].offset && last == t.(alpha := t.alpha + n - 1)
    ensures Drives(w, t, Hold(t.pin, n), Tick(w, last))
    decreases n
  {
    if n > 1 {
      TickHolds(w, t);
      HoldsFor(w, Tick(w, t), last, n - 1);
    } else {
      DrivesNothing(w, Tick(w, t));
    }
    HoldsOne(w, t, n, Tick(w, last));
  }

  lemma {:induction false} HoldsOne(w: seq<Symbol>, t: Tx, n: nat, end: Tx)
    requires Consistent(w, t) && n > 0 && Drives(w, Tick(w, t), Hold(t.pin, n - 1), end)
    ensures Drives(w, t, Hold(t.pin, n), end)
  {
    DrivesOne(w, t);
    DrivesThen(w, t, [t.pin], Tick(w, t), Hold(t.pin, n - 1), end);
    assert Hold(t.pin, n) == [t.pin] + Hold(t.pin, n - 1);
  }

  lemma TickHolds(w: seq<Symbol>, t: Tx)
    requires Consistent(w, t) && t.alpha + 1 < BitDef(w[t.bit])[t.chunk].offset
    ensures Tick(w, t) == t.(alpha := t.alpha + 1) && Consistent(w, Tick(w, t))
  {
  }

  /** The pulses of one symbol. */
  function SymbolPulses(s: Symbol): seq<Pulse> {
    match s
    case ZERO => [Pulse(4, 12), Pulse(4, 12)]
    case ONE => [Pulse(12, 4), Pulse(12, 4)]
    case FLOAT => [Pulse(4, 12), Pulse(12, 4)]
    case SYNC => [Pulse(4, 124)]
  }

  /** At the beginning of symbol b. */
  function AtBit(w: seq<Symbol>, t: Tx, b: nat): Tx
    requires |w| == WORD_LEN && b < WORD_LEN
  {
    t.(alpha := 0, chunk := 0, bit := b, pin := BitDef(w[b])[0].pin, running := true, status := Sending)
  }

  /** Where the last interrupt of symbol b leads. */
  function AfterBit(w: seq<Symbol>, t: Tx, b: nat): Tx
    requires |w| == WORD_LEN && b < WORD_LEN
  {
    if b + 1 < WORD_LEN then AtBit(w, t, b + 1)
    else if t.word + 1 < FRAME_LEN then AtBit(w, t.(word := t.word + 1), 0)
    else t.(alpha := BitDef(w[b])[|BitDef(w[b])| - 2].offset, chunk := |BitDef(w[b])| - 1, bit := WORD_LEN,
            word := FRAME_LEN, pin := Off, running := false, status := Finished)
  }

  /** The last interval of a table entry that is not its symbol's last. */
  lemma NextChunk(w: seq<Symbol>, t: Tx)
    requires Consistent(w, t)
    requires var d := BitDef(w[t.bit]); t.chunk + 1 < |d| - 1 && d[t.chunk].offset < d[t.chunk + 1].offset
    ensures var d := BitDef(w[t.bit]);
            var last, mid := t.(alpha := d[t.chunk].offset - 1), t.(alpha := d[t.chunk].offset, chunk := t.chunk + 1, pin := d[t.chunk + 1].pin);
            Consistent(w, last) && Tick(w, last) == mid && Consistent(w, mid)
  {
  }

  /** Two table entries are one pulse. */
  lemma {:induction false} DrivesPulse(w: seq<Symbol>, t: Tx, p: Pulse)
    requires Consistent(w, t)
    requires var d := BitDef(w[t.bit]);
             && t.chunk + 1 < |d| - 1 && d[t.chunk].pin == On && d[t.chunk + 1].pin == Off
             && p == Pulse(d[t.chunk].offset - t.alpha, d[t.chunk + 1].offset - d[t.chunk].offset)
             && d[t.chunk].offset < d[t.chunk + 1].offset
    ensures var d := BitDef(w[t.bit]);
            var last := t.(alpha := d[t.chunk + 1].offset - 1, chunk := t.chunk + 1, pin := Off);
            Consistent(w, last) && Drives(w, t, PulseWave(p), Tick(w, last))
  {
    var d := BitDef(w[t.bit]);
    var mid := t.(alpha := d[t.chunk].offset, chunk := t.chunk + 1, pin := Off);
    var last := mid.(alpha := d[t.chunk + 1].offset - 1);
    FirstHold(w, t, mid, p.on);
    SecondHold(w, t, mid, last, p.off);
    BothHolds(w, t, mid, last, p);
  }

  lemma {:induction false} FirstHold(w: seq<Symbol>, t: Tx, mid: Tx, n: nat)
    requires Consistent(w, t)
    requires var d := BitDef(w[t.bit]);
             && t.chunk + 1 < |d| - 1 && d[t.chunk].offset < d[t.chunk + 1].offset && n == d[t.chunk].offset - t.alpha
             && mid == t.(alpha := d[t.chunk].offset, chunk := t.chunk + 1, pin := d[t.chunk + 1].pin)
    ensures Drives(w, t, Hold(t.pin, n), mid)
  {
    NextChunk(w, t);
    HoldsChunk(w, t);
  }

  lemma {:induction false} SecondHold(w: seq<Symbol>, t: Tx, mid: Tx, last: Tx, n: nat)
    requires Consistent(w, t)
    requires var d := BitDef(w[t.bit]);
             && t.chunk + 1 < |d| - 1 && d[t.chunk].offset < d[t.chunk + 1].offset && n == d[t.chunk + 1].offset - d[t.chunk].offset
             && mid == t.(alpha := d[t.chunk].offset, chunk := t.chunk + 1, pin := d[t.chunk + 1].pin)
             && last == mid.(alpha := d[t.chunk + 1].offset - 1)
    ensures Consistent(w, last) && Drives(w, mid, Hold(mid.pin, n), Tick(w, last))
  {
    NextChunk(w, t);
    HoldsChunk(w, mid);
  }

  lemma {:induction false} BothHolds(w: seq<Symbol>, t: Tx, mid: Tx, last: Tx, p: Pulse)
    requires Consistent(w, last) && Drives(w, t, Hold(On, p.on), mid) && Drives(w, mid, Hold(Off, p.off), Tick(w, last))
    ensures Drives(w, t, PulseWave(p), Tick(w, last))
  {
    DrivesThen(w, t, Hold(On, p.on), mid, Hold(Off, p.off), Tick(w, last));
  }

  lemma {:induction false} DrivesSymbol(w: seq<Symbol>, t: Tx, b: nat)
    requires |w| == WORD_LEN && b < WORD_LEN && t.word < FRAME_LEN
    ensures Drives(w, AtBit(w, t, b), Waves(SymbolPulses(w[b])), AfterBit(w, t, b))
  {
    WavesOfSymbol(w[b]);
    if w[b] == SYNC { DrivesSync(w, t, b); } else { DrivesData(w, t, b); }
  }

  lemma {:induction false} DrivesSync(w: seq<Symbol>, t: Tx, b: nat)
    requires |w| == WORD_LEN && b < WORD_LEN && t.word < FRAME_LEN && w[b] == SYNC
    ensures Drives(w, AtBit(w, t, b), PulseWave(SymbolPulses(w[b])[0]), AfterBit(w, t, b))
  {
    DrivesPulse(w, AtBit(w, t, b), Pulse(4, 124));
  }

  lemma {:induction false} DrivesData(w: seq<Symbol>, t: Tx, b: nat)
    requires |w| == WORD_LEN && b < WORD_LEN && t.word < FRAME_LEN && w[b] != SYNC
    ensures Drives(w, AtBit(w, t, b), PulseWave(SymbolPulses(w[b])[0]) + PulseWave(SymbolPulses(w[b])[1]), AfterBit(w, t, b))
  {
    var s, ps := AtBit(w, t, b), SymbolPulses(w[b]);
    var mid := s.(alpha := 16, chunk := 2, pin := On);
    FirstPulse(w, t, b);
    SecondPulse(w, t, b);
    DrivesThen(w, s, PulseWave(ps[0]), mid, PulseWave(ps[1]), AfterBit(w, t, b));
  }

  lemma {:induction false} FirstPulse(w: seq<Symbol>, t: Tx, b: nat)
    requires |w| == WORD_LEN && b < WORD_LEN && t.word < FRAME_LEN && w[b] != SYNC
    ensures Drives(w, AtBit(w, t, b), PulseWave(SymbolPulses(w[b])[0]), AtBit(w, t, b).(alpha := 16, chunk := 2, pin := On))
  {
    DrivesPulse(w, AtBit(w, t, b), SymbolPulses(w[b])[0]);
  }

  lemma {:induction false} SecondPulse(w: seq<Symbol>, t: Tx, b: nat)
    requires |w| == WORD_LEN && b < WORD_LEN && t.word < FRAME_LEN && w[b] != SYNC
    ensures Drives(w, AtBit(w, t, b).(alpha := 16, chunk := 2, pin := On), PulseWave(SymbolPulses(w[b])[1]), AfterBit(w, t, b))
  {
    DrivesPulse(w, AtBit(w, t, b).(alpha := 16, chunk := 2, pin := On), SymbolPulses(w[b])[1]);
  }

  lemma {:induction false} WavesOfSymbol(s: Symbol)
    ensures Waves(SymbolPulses(s)) == if s == SYNC then PulseWave(SymbolPulses(s)[0])
                                      else PulseWave(SymbolPulses(s)[0]) + PulseWave(SymbolPulses(s)[1])
  {
    var ps := SymbolPulses(s);
    if s == SYNC {
      assert ps[1..] == [];
      assert PulseWave(ps[0]) + [] == PulseWave(ps[0]);
    } else {
      assert ps[1..][1..] == [];
      assert PulseWave(ps[1]) + [] == PulseWave(ps[1]);
      assert Waves(ps[1..]) == PulseWave(ps[1]);
    }
  }

  function WordPulses(w: seq<Symbol>): seq<Pulse> {
    if w == [] then [] else SymbolPulses(w[0]) + WordPulses(w[1..])
  }

  lemma {:induction false} WavesOfWord(w: seq<Symbol>, b: nat)
    requires b < |w|
    ensures Waves(WordPulses(w[b..])) == Waves(SymbolPulses(w[b])) + Waves(WordPulses(w[b + 1..]))
    ensures b + 1 == |w| ==> Waves(WordPulses(w[b..])) == Waves(SymbolPulses(w[b]))
  {
    assert w[b..][1..] == w[b + 1..];
    WavesAppend(SymbolPulses(w[b]), WordPulses(w[b + 1..]));
    if b + 1 == |w| {
      assert w[b + 1..] == [];
      assert Waves(SymbolPulses(w[b])) + [] == Waves(SymbolPulses(w[b]));
    }
  }

  lemma NextBit(w: seq<Symbol>, t: Tx, b: nat)
    requires |w| == WORD_LEN && b + 1 < WORD_LEN
    ensures AfterBit(w, t, b) == AtBit(w, t, b + 1)
  {
  }

  lemma {:induction false} DrivesSymbols(w: seq<Symbol>, t: Tx, b: nat)
    requires |w| == WORD_LEN && b < WORD_LEN && t.word < FRAME_LEN
    ensures Drives(w, AtBit(w, t, b), Waves(WordPulses(w[b..])), AfterBit(w, t, WORD_LEN - 1))
    decreases WORD_LEN - b
  {
    DrivesSymbol(w, t, b);
    WavesOfWord(w, b);
    if b + 1 < WORD_LEN {
      NextBit(w, t, b);
      DrivesSymbols(w, t, b + 1);
      DrivesThen(w, AtBit(w, t, b), Waves(SymbolPulses(w[b])), AtBit(w, t, b + 1),
                 Waves(WordPulses(w[b + 1..])), AfterBit(w, t, WORD_LEN - 1));
    }
  }

  lemma {:induction false} DrivesOneWord(w: seq<Symbol>, t: Tx)
    requires |w| == WORD_LEN && t.word < FRAME_LEN
    ensures Drives(w, AtBit(w, t, 0), Waves(WordPulses(w)), AfterBit(w, t, WORD_LEN - 1))
  {
    DrivesSymbols(w, t, 0);
    assert w[0..] == w;
  }

  lemma NextWord(w: seq<Symbol>, t: Tx)
    requires |w| == WORD_LEN && t.word + 1 < FRAME_LEN
    ensures AfterBit(w, t, WORD_LEN - 1) == AtBit(w, t.(word := t.word + 1), 0)
  {
  }

  lemma {:induction false} DrivesWords(w: seq<Symbol>, t: Tx)
    requires |w| == WORD_LEN && t.word < FRAME_LEN
    ensures Drives(w, AtBit(w, t, 0), Repeat(Waves(WordPulses(w)), FRAME_LEN - t.word),
                   AfterBit(w, t.(word := FRAME_LEN - 1), WORD_LEN - 1))
    decreases FRAME_LEN - t.word
  {
    var wave := Waves(WordPulses(w));
    DrivesOneWord(w, t);
    if t.word + 1 < FRAME_LEN {
      var t' := t.(word := t.word + 1);
      NextWord(w, t);
      DrivesWords(w, t');
      DrivesThen(w, AtBit(w, t, 0), wave, AtBit(w, t', 0), Repeat(wave, FRAME_LEN - t'.word),
                 AfterBit(w, t.(word := FRAME_LEN - 1), WORD_LEN - 1));
    } else {
      assert Repeat(wave, 1) == wave + [];
      assert wave + [] == wave;
      assert t.(word := FRAME_LEN - 1) == t;
    }
  }

  /** THE TABLE TRANSMISSION: from send_frame on, for any 13 symbols, the line carries eight copies of
      the symbols' pulses and then stays off, the frame marked finished. */
  lemma {:induction false} Transmission(w: seq<Symbol>, t: Tx)
    requires |w| == WORD_LEN
    ensures exists end: Tx :: end.pin == Off && !end.running && end.status == Finished
              && Drives(w, InitWord(w, t.(word := 0, status := Sending)), Repeat(Waves(WordPulses(w)), FRAME_LEN), end)
  {
    var t0 := t.(word := 0, status := Sending);
    DrivesWords(w, t0);
    assert AtBit(w, t0, 0) == InitWord(w, t0);
  }
}
