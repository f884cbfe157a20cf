/** Exactly which buffers the RC5 and RC6 decoders accept with which bits, exactly when an RC6 frame is hidden by
    the Sony decoder, which is tried first, and every protocol from line samples to decoded value. */
module IrAcceptance {
  import opened Wrappers
  import opened IrTiming
  import opened IrReceive
  import opened IrSend
  import opened IrDecode
  import opened IrRuns
  import opened IrBiphase
  import opened IrRoundTrip
  import opened IrPulseDistance

  // ------------------------------------------------------------ trailing spaces

  /** s is full less some half-bits of space at its end. */
  predicate Trimmed(s: seq<Option<Level>>, full: seq<Option<Level>>) {
    |s| <= |full| && s == full[..|s|] && forall i | |s| <= i < |full| :: full[i] == Some(Space)
  }

  /** Reading past the end gives spaces, so a trimmed sequence reads like the full one. */
  lemma {:induction false} NextTrimmed(s: seq<Option<Level>>, level: Level, full: seq<Option<Level>>)
    ensures Trimmed(s, [Some(level)] + full) <==> Next(s).0 == Some(level) && Trimmed(Next(s).1, full)
  {
    var all := [Some(level)] + full;
    assert all[1..] == full;
    if s != [] && s[0].Some? {
      if Trimmed(s, all) { assert all[..|s|][1..] == full[..|s| - 1]; TrimmedTail(s, all); }
      if s[0] == Some(level) && Trimmed(s[1..], full) { TrimmedCons(s, all); }
    } else if s == [] {
      TrimmedEmpty(level, full);
    }
  }

  lemma {:induction false} TrimmedTail(s: seq<Option<Level>>, all: seq<Option<Level>>)
    requires s != [] && Trimmed(s, all)
    ensures Trimmed(s[1..], all[1..]) && s[0] == all[0]
  {
    assert all[..|s|][1..] == all[1..][..|s| - 1];
    forall i | |s| - 1 <= i < |all[1..]| ensures all[1..][i] == Some(Space) { assert all[1..][i] == all[i + 1]; }
  }

  lemma {:induction false} TrimmedCons(s: seq<Option<Level>>, all: seq<Option<Level>>)
    requires s != [] && all != [] && s[0] == all[0] && Trimmed(s[1..], all[1..])
    ensures Trimmed(s, all)
  {
    assert s == [s[0]] + s[1..] && all[..|s|] == [all[0]] + all[1..][..|s| - 1];
    forall i | |s| <= i < |all| ensures all[i] == Some(Space) { assert all[i] == all[1..][i - 1]; }
  }

  lemma {:induction false} TrimmedEmpty(level: Level, full: seq<Option<Level>>)
    ensures Trimmed([], [Some(level)] + full) <==> level == Space && Trimmed([], full)
  {
    var all := [Some(level)] + full;
    assert all[..0] == [] && full[..0] == [];
    if Trimmed([], all) {
      assert all[0] == Some(Space);
      forall i | 0 <= i < |full| ensures full[i] == Some(Space) { assert full[i] == all[i + 1]; }
    }
  }

  lemma {:induction false} HalfBitTrimmed(s: seq<Option<Level>>, level: Level, k: nat, full: seq<Option<Level>>)
    requires k == 1 || k == 2
    ensures Trimmed(s, Repeat(level, k) + full) <==> HalfBit(s, k == 2).0 == Some(level) && Trimmed(HalfBit(s, k == 2).1, full)
  {
    var rest := Repeat(level, k - 1) + full;
    assert Repeat(level, k) + full == [Some(level)] + rest;
    NextTrimmed(s, level, rest);
    if k == 1 {
      assert rest == full;
    } else {
      assert rest == [Some(level)] + full;
      NextTrimmed(Next(s).1, level, full);
    }
  }

  /** A bit is never all space. */
  lemma {:induction false} BitNotTrimmedAway(bit: Bit, full: seq<Option<Level>>)
    requires bit.k > 0
    ensures !Trimmed([], BitCells(bit) + full)
  {
    var all := BitCells(bit) + full;
    var at := if bit.first == Mark then 0 else bit.k;
    assert all[at] == BitCells(bit)[at] == Some(Mark);
  }

  lemma {:induction false} BitTrimmed(s: seq<Option<Level>>, first: Level, k: nat, full: seq<Option<Level>>)
    requires k == 1 || k == 2
    ensures var (a, s1) := HalfBit(s, k == 2);
            var (b, s2) := HalfBit(s1, k == 2);
            Trimmed(s, BitCells(Bit(first, k)) + full) <==> a == Some(first) && b == Some(Flip(first)) && Trimmed(s2, full)
  {
    SeqAssoc(Repeat(first, k), Repeat(Flip(first), k), full);
    HalfBitTrimmed(s, first, k, Repeat(Flip(first), k) + full);
    HalfBitTrimmed(HalfBit(s, k == 2).1, Flip(first), k, full);
  }

  // ---------------------------------------------------------------- the pairs

  lemma {:induction false} Rc6PairsCons(s: seq<Option<Level>>, i: nat, bit: bool, bits: seq<bool>)
    requires s != []
    ensures var (a, s1) := HalfBit(s, i == 3);
            var (b, s2) := HalfBit(s1, i == 3);
            Rc6Pairs(s, i) == Some([bit] + bits)
            <==> a == Some(Six.First(bit)) && b == Some(Flip(Six.First(bit))) && Rc6Pairs(s2, i + 1) == Some(bits)
  {
    var (a, s1) := HalfBit(s, i == 3);
    var (b, s2) := HalfBit(s1, i == 3);
    if Rc6Pairs(s2, i + 1).Some? {
      ConsInjective(a == Some(Mark), Rc6Pairs(s2, i + 1).value, bit, bits);
    }
  }

  lemma {:induction false} ConsInjective(x: bool, xs: seq<bool>, y: bool, ys: seq<bool>)
    ensures [x] + xs == [y] + ys <==> x == y && xs == ys
  {
    assert ([x] + xs)[1..] == xs && ([y] + ys)[1..] == ys && ([x] + xs)[0] == x && ([y] + ys)[0] == y;
  }

  /** The RC6 pairs of s are these bits if and only if s is the half-bits of these bits, less trailing spaces. */
  lemma {:induction false} Rc6PairsIff(s: seq<Option<Level>>, i: nat, bits: seq<bool>)
    ensures Rc6Pairs(s, i) == Some(bits) <==> Trimmed(s, Cells(LineBits(Six, bits, i)))
    decreases bits
  {
    if bits == [] {
      Rc6PairsEmpty(s, i);
    } else {
      var first, k, rest := Six.First(bits[0]), Six.Width(i), Cells(LineBits(Six, bits[1..], i + 1));
      assert bits == [bits[0]] + bits[1..];
      BitNotTrimmedAway(Bit(first, k), rest);
      if s != [] {
        Rc6PairsCons(s, i, bits[0], bits[1..]);
        BitTrimmed(s, first, k, rest);
        Rc6PairsIff(HalfBit(HalfBit(s, k == 2).1, k == 2).1, i + 1, bits[1..]);
      }
    }
  }

  lemma Rc6PairsEmpty(s: seq<Option<Level>>, i: nat)
    ensures Rc6Pairs(s, i) == Some([]) <==> Trimmed(s, [])
  {
  }

  lemma {:induction false} Rc5PairsCons(s: seq<Option<Level>>, bit: bool, bits: seq<bool>)
    requires s != []
    ensures var (a, s1) := Next(s);
            var (b, s2) := Next(s1);
            Rc5Pairs(s) == Some([bit] + bits)
            <==> a == Some(Five.First(bit)) && b == Some(Flip(Five.First(bit))) && Rc5Pairs(s2) == Some(bits)
  {
    var (a, s1) := Next(s);
    var (b, s2) := Next(s1);
    if Rc5Pairs(s2).Some? {
      ConsInjective(b == Some(Mark), Rc5Pairs(s2).value, bit, bits);
    }
  }

  lemma {:induction false} Rc5PairsIff(s: seq<Option<Level>>, i: nat, bits: seq<bool>)
    ensures Rc5Pairs(s) == Some(bits) <==> Trimmed(s, Cells(LineBits(Five, bits, i)))
    decreases bits
  {
    if bits == [] {
      Rc5PairsEmpty(s);
    } else {
      var first, rest := Five.First(bits[0]), Cells(LineBits(Five, bits[1..], i + 1));
      assert bits == [bits[0]] + bits[1..];
      BitNotTrimmedAway(Bit(first, 1), rest);
      if s != [] {
        Rc5PairsCons(s, bits[0], bits[1..]);
        BitTrimmed(s, first, 1, rest);
        Rc5PairsIff(Next(Next(s).1).1, i + 1, bits[1..]);
      }
    }
  }

  lemma Rc5PairsEmpty(s: seq<Option<Level>>)
    ensures Rc5Pairs(s) == Some([]) <==> Trimmed(s, [])
  {
  }

  /** The widths that count as one, two and three half-bits of RC5, in ticks of 50 microseconds; where windows overlap the
      shorter one counts. */
  lemma Rc5Windows(width: nat)
    ensures Counter(889)(Mark, width) == if 14 <= width <= 25 then 1 else if 28 <= width <= 47 then 2 else if 48 <= width <= 70 then 3 else 0
    ensures Counter(889)(Space, width) == if 11 <= width <= 20 then 1 else if 25 <= width <= 42 then 2 else if 43 <= width <= 65 then 3 else 0
  {
  }

  /** And of RC6. */
  lemma Rc6Windows(width: nat)
    ensures Counter(444)(Mark, width) == if 8 <= width <= 14 then 1 else if 15 <= width <= 25 then 2 else if 26 <= width <= 36 then 3 else 0
    ensures Counter(444)(Space, width) == if 5 <= width <= 9 then 1 else if 11 <= width <= 20 then 2 else if 21 <= width <= 31 then 3 else 0
  {
  }

  // ------------------------------------------------------------ RC6 acceptance

  /** Header widths in their windows; what follows stands for a start bit and the bits, less trailing spaces. */
  ghost predicate Rc6FrameWidths(raw: seq<nat>, bits: seq<bool>) {
    && |raw| >= 3 && 41 <= raw[1] <= 70 && 11 <= raw[2] <= 20
    && Trimmed(Stream(raw, 3, 0, Counter(444)), [Some(Mark), Some(Space)] + Cells(LineBits(Six, bits, 0)))
  }

  /** The decoder reads exactly these bits. */
  predicate ReadsBits(r: Option<Decoded>, kind: Kind, bits: seq<bool>) {
    r == Some(Decoded(kind, WordValue(bits), |bits|))
  }

  lemma {:induction false} Rc6FrameIff(s: seq<Option<Level>>, bits: seq<bool>)
    ensures Trimmed(s, [Some(Mark), Some(Space)] + Cells(LineBits(Six, bits, 0)))
       <==> Next(s).0 == Some(Mark) && Next(Next(s).1).0 == Some(Space) && Rc6Pairs(Next(Next(s).1).1, 0) == Some(bits)
  {
    var cells := Cells(LineBits(Six, bits, 0));
    assert [Some(Mark), Some(Space)] + cells == [Some(Mark)] + ([Some(Space)] + cells);
    NextTrimmed(s, Mark, [Some(Space)] + cells);
    NextTrimmed(Next(s).1, Space, cells);
    Rc6PairsIff(Next(Next(s).1).1, 0, bits);
  }

  /** RC6 TOLERANCE, both ways: the decoder reports value and count if and only if the widths are those of a frame
      with that value and count; up to 32 bits there is only one such frame. */
  lemma {:induction false} Rc6Accepts(raw: seq<nat>, bits: seq<bool>)
    ensures Rc6FrameWidths(raw, bits) ==> ReadsBits(DecodeRc6Spec(raw), RC6, bits)
    ensures |bits| <= 32 ==> (ReadsBits(DecodeRc6Spec(raw), RC6, bits) <==> Rc6FrameWidths(raw, bits))
    ensures forall r :: DecodeRc6Spec(raw) == Some(r) <==> exists x :: Rc6FrameWidths(raw, x) && r == Decoded(RC6, WordValue(x), |x|)
  {
    var s := Stream(raw, 3, 0, Counter(RC6_T1));
    forall x ensures Rc6FrameWidths(raw, x) ==> ReadsBits(DecodeRc6Spec(raw), RC6, x) { Rc6FrameIff(s, x); }
    if DecodeRc6Spec(raw).Some? {
      var x := Rc6Pairs(Next(Next(s).1).1, 0).value;
      Rc6FrameIff(s, x);
      assert Rc6FrameWidths(raw, x);
      if |bits| <= 32 && |x| == |bits| { SameWord(x, bits); }
    }
  }

  // ------------------------------------------------------------ RC5 acceptance

  /** Enough entries, and from the first on they stand for the two start bits and the bits, less trailing spaces. */
  ghost predicate Rc5FrameWidths(raw: seq<nat>, bits: seq<bool>) {
    && |raw| >= 13
    && Trimmed(Stream(raw, 1, 0, Counter(889)), [Some(Mark), Some(Space), Some(Mark)] + Cells(LineBits(Five, bits, 0)))
  }

  lemma {:induction false} Rc5FrameIff(s: seq<Option<Level>>, bits: seq<bool>)
    ensures Trimmed(s, [Some(Mark), Some(Space), Some(Mark)] + Cells(LineBits(Five, bits, 0)))
       <==> Next(s).0 == Some(Mark) && Next(Next(s).1).0 == Some(Space) && Next(Next(Next(s).1).1).0 == Some(Mark)
            && Rc5Pairs(Next(Next(Next(s).1).1).1) == Some(bits)
  {
    var cells := Cells(LineBits(Five, bits, 0));
    assert [Some(Mark), Some(Space), Some(Mark)] + cells == [Some(Mark)] + ([Some(Space)] + ([Some(Mark)] + cells));
    NextTrimmed(s, Mark, [Some(Space)] + ([Some(Mark)] + cells));
    NextTrimmed(Next(s).1, Space, [Some(Mark)] + cells);
    NextTrimmed(Next(Next(s).1).1, Mark, cells);
    Rc5PairsIff(Next(Next(Next(s).1).1).1, 0, bits);
  }

  /** RC5 TOLERANCE, both ways. No other decoder takes such a frame. */
  lemma {:induction false} Rc5Accepts(raw: seq<nat>, bits: seq<bool>)
    ensures Rc5FrameWidths(raw, bits) ==> ReadsBits(DecodeRc5Spec(raw), RC5, bits) && DecodeSpec(raw) == DecodeRc5Spec(raw)
    ensures |bits| <= 32 ==> (ReadsBits(DecodeRc5Spec(raw), RC5, bits) <==> Rc5FrameWidths(raw, bits))
    ensures forall r :: DecodeRc5Spec(raw) == Some(r) <==> exists x :: Rc5FrameWidths(raw, x) && r == Decoded(RC5, WordValue(x), |x|)
  {
    var s := Stream(raw, 1, 0, Counter(RC5_T1));
    forall x ensures Rc5FrameWidths(raw, x) ==> ReadsBits(DecodeRc5Spec(raw), RC5, x) { Rc5FrameIff(s, x); }
    DecodersExclusive(raw);
    if DecodeRc5Spec(raw).Some? {
      var x := Rc5Pairs(Next(Next(Next(s).1).1).1).value;
      Rc5FrameIff(s, x);
      assert Rc5FrameWidths(raw, x);
      if |bits| <= 32 && |x| == |bits| { SameWord(x, bits); }
    }
  }

  // ------------------------------------------------------------- Sony before RC6

  lemma {:induction false} SonyAcceptsSome(raw: seq<nat>)
    ensures DecodeSonySpec(raw).Some? <==> exists x :: SonyFrameWidths(raw, x)
  {
    if DecodeSonySpec(raw).Some? {
      SonyAccepts(raw, SonyBits(raw, 0).value);
      assert SonyFrameWidths(raw, SonyBits(raw, 0).value);
    }
    forall x | SonyFrameWidths(raw, x) ensures DecodeSonySpec(raw).Some? { SonyAccepts(raw, x); }
  }

  lemma {:induction false} Rc6AcceptsSome(raw: seq<nat>)
    ensures DecodeRc6Spec(raw).Some? <==> exists y :: Rc6FrameWidths(raw, y)
  {
    Rc6Accepts(raw, []);
    if DecodeRc6Spec(raw).Some? {
      var r := DecodeRc6Spec(raw).value;
      assert exists y :: Rc6FrameWidths(raw, y) && r == Decoded(RC6, WordValue(y), |y|);
    }
    forall y | Rc6FrameWidths(raw, y) ensures DecodeRc6Spec(raw).Some? { Rc6Accepts(raw, y); }
  }

  /** Some decoder finds the widths it looks for. */
  ghost predicate FrameOfSomeKind(raw: seq<nat>) {
    || NecRepeatWidths(raw)
    || (exists x :: NecFrameWidths(raw, x))
    || (exists x :: SonyFrameWidths(raw, x))
    || (exists x :: Rc5FrameWidths(raw, x))
    || (exists x :: Rc6FrameWidths(raw, x))
  }

  lemma {:induction false} Rc5AcceptsSome(raw: seq<nat>)
    ensures DecodeRc5Spec(raw).Some? <==> exists y :: Rc5FrameWidths(raw, y)
  {
    Rc5Accepts(raw, []);
    if DecodeRc5Spec(raw).Some? {
      var r := DecodeRc5Spec(raw).value;
      assert exists y :: Rc5FrameWidths(raw, y) && r == Decoded(RC5, WordValue(y), |y|);
    }
    forall y | Rc5FrameWidths(raw, y) ensures DecodeRc5Spec(raw).Some? { Rc5Accepts(raw, y); }
  }

  /** WHAT IS NO FRAME of any kind is reported, as unknown and without a value, if and only if it has six entries or more. */
  lemma {:induction false} UnknownIff(raw: seq<nat>)
    ensures DecodeSpec(raw) == Some(Decoded(UNKNOWN, 0, 0)) <==> !FrameOfSomeKind(raw) && |raw| >= 6
    ensures DecodeSpec(raw) == None <==> !FrameOfSomeKind(raw) && |raw| < 6
  {
    NecAcceptsOnly(raw);
    SonyAcceptsSome(raw);
    Rc5AcceptsSome(raw);
    Rc6AcceptsSome(raw);
    if DecodeSpec(raw).Some? { KindIsKnown(raw); }
  }

  lemma KindIsKnown(raw: seq<nat>)
    requires DecodeSpec(raw).Some?
    ensures DecodeSpec(raw).value.kind != UNKNOWN
       <==> DecodeNecSpec(raw).Some? || DecodeSonySpec(raw).Some? || DecodeRc5Spec(raw).Some? || DecodeRc6Spec(raw).Some?
  {
  }

  /** RC6 reports are never equal to Sony reports, and only Sony stands in the way of RC6. */
  lemma {:induction false} HiddenIffBoth(raw: seq<nat>)
    ensures DecodeSpec(raw) != DecodeRc6Spec(raw) && DecodeRc6Spec(raw).Some?
       <==> DecodeSonySpec(raw).Some? && DecodeRc6Spec(raw).Some?
  {
    DecodersExclusive(raw);
    if DecodeSonySpec(raw).Some? && DecodeRc6Spec(raw).Some? {
      assert DecodeSonySpec(raw).value.kind == SONY;
      KindIsRc6(raw);
    }
  }

  lemma KindIsRc6(raw: seq<nat>)
    requires DecodeRc6Spec(raw).Some?
    ensures DecodeRc6Spec(raw).value.kind == RC6
  {
  }

  /** EXACTLY WHEN SONY HIDES AN RC6 FRAME: the widths are those of a Sony frame and those of an RC6 frame. */
  lemma {:induction false} SonyHidesRc6(raw: seq<nat>)
    ensures DecodeSpec(raw) != DecodeRc6Spec(raw) && DecodeRc6Spec(raw).Some?
       <==> (exists x :: SonyFrameWidths(raw, x)) && (exists y :: Rc6FrameWidths(raw, y))
  {
    HiddenIffBoth(raw);
    SonyAcceptsSome(raw);
    Rc6AcceptsSome(raw);
  }

  /** Such a buffer is reported as the Sony frame. Its header mark has 41 to 63 ticks and its first space 11 to 13, so
      a first space of any other width, like the nominal 15 of RC6 and 10 of Sony, tells the two apart. */
  lemma {:induction false} HiddenOnlyIn(raw: seq<nat>, x: seq<bool>, y: seq<bool>)
    requires SonyFrameWidths(raw, x) && Rc6FrameWidths(raw, y)
    ensures ReadsBits(DecodeSpec(raw), SONY, x) && |raw| >= 26 && 41 <= raw[1] <= 63 && 11 <= raw[2] <= 13
  {
    SonyAccepts(raw, x);
    assert SonyBitWidths(raw, 0 + 0, x[0]);
  }

  // ------------------------------------------------------- from samples to value

  /** No decoder looks at the gap before a frame. */
  lemma {:induction false} GapDoesNotMatter(gap: nat, gap': nat, runs: seq<nat>)
    ensures DecodeSpec([gap] + runs) == DecodeSpec([gap'] + runs)
  {
    var raw, raw' := [gap] + runs, [gap'] + runs;
    if |raw| >= 68 { NecBitsSame(raw, raw', 32); }
    SonyBitsSame(raw, raw', 0);
    StreamSame(raw, raw', 1, Counter(RC5_T1));
    StreamSame(raw, raw', 3, Counter(RC6_T1));
    assert DecodeNecSpec(raw) == DecodeNecSpec(raw') && DecodeSonySpec(raw) == DecodeSonySpec(raw');
    assert DecodeRc5Spec(raw) == DecodeRc5Spec(raw') && DecodeRc6Spec(raw) == DecodeRc6Spec(raw');
  }

  predicate SameRuns(raw: seq<nat>, raw': seq<nat>) {
    |raw| == |raw'| && forall i | 1 <= i < |raw| :: raw[i] == raw'[i]
  }

  lemma {:induction false} NecBitsSame(raw: seq<nat>, raw': seq<nat>, n: nat)
    requires SameRuns(raw, raw') && 2 * n + 3 <= |raw|
    ensures NecBits(raw, n) == NecBits(raw', n)
    decreases n
  {
    if n > 0 { NecBitsSame(raw, raw', n - 1); }
  }

  lemma {:induction false} SonyBitsSame(raw: seq<nat>, raw': seq<nat>, i: nat)
    requires SameRuns(raw, raw')
    ensures SonyBits(raw, i) == SonyBits(raw', i)
    decreases |raw| - 2 * i
  {
    if 2 * i + 3 < |raw| { SonyBitsSame(raw, raw', i + 1); }
  }

  lemma {:induction false} StreamSame(raw: seq<nat>, raw': seq<nat>, o: nat, avail: (Level, nat) -> nat)
    requires SameRuns(raw, raw') && o >= 1
    ensures Stream(raw, o, 0, avail) == Stream(raw', o, 0, avail)
    decreases |raw| - o
  {
    if o < |raw| { StreamSame(raw, raw', o + 1, avail); }
  }

  /** What the interrupt leaves behind after a gap, the runs and a closing space. */
  function Recording(rx: Rx, g: nat, runs: seq<nat>, tail: nat, rest: seq<Level>): Rx {
    Ticks(rx, Hold(Space, g) + (Wave(runs, Mark) + (Hold(Space, tail) + rest)))
  }

  /** FROM LINE SAMPLES TO VALUE, for all protocols: whatever can be recorded is decoded as its run lengths call
      for, whatever the gap before it. */
  lemma {:induction false} OverTheAir(rx: Rx, g: nat, runs: seq<nat>, tail: nat, rest: seq<Level>, bits: seq<bool>)
    requires rx.state == StateIdle && |rx.raw| < 76 && rx.timer < 0x1_0000
    requires (rx.timer + g + 1) % 0x1_0000 >= 100
    requires |runs| % 2 == 1 && |runs| < 76 && Recordable(runs, Mark) && tail > 101
    ensures var end, raw := Recording(rx, g, runs, tail, rest), [0] + Wrapped(runs);
            && end.state == StateStop && DecodeSpec(end.raw) == DecodeSpec(raw)
            && (NecFrameWidths(raw, bits) ==> ReadsBits(DecodeSpec(end.raw), NEC, bits))
            && (SonyFrameWidths(raw, bits) ==> ReadsBits(DecodeSpec(end.raw), SONY, bits))
            && (Rc5FrameWidths(raw, bits) ==> ReadsBits(DecodeSpec(end.raw), RC5, bits))
            && (Rc6FrameWidths(raw, bits) && DecodeSonySpec(raw).None? ==> ReadsBits(DecodeSpec(end.raw), RC6, bits))
  {
    var raw := [0] + Wrapped(runs);
    RunLengthEncoded(rx, g, runs, tail, rest);
    GapDoesNotMatter((rx.timer + g + 1) % TIMER_WRAP, 0, Wrapped(runs));
    if |bits| == 32 { NecAccepts(raw, bits); }
    SonyAccepts(raw, bits);
    Rc5Accepts(raw, bits);
    Rc6Accepts(raw, bits);
    DecodersExclusive(raw);
  }
}
