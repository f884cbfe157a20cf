/** The round trips the library's own test sketch exercises on a few values, for all values;
    the jitter the decoders tolerate; and why their order does no harm. */
module IrRoundTrip {
  import opened Wrappers
  import opened IrTiming
  import opened IrReceive
  import opened IrSend
  import opened IrDecode
  import opened IrRuns
  import opened IrBiphase

  // ------------------------------------------------------ the decoders exclude each other

  /** A frame accepted by two of NEC, Sony and RC5, or by RC6 and one of NEC and RC5, does not exist:
      their first marks lie in disjoint windows. */
  lemma {:induction false} DecodersExclusive(raw: seq<nat>)
    ensures !(DecodeNecSpec(raw).Some? && DecodeSonySpec(raw).Some?)
    ensures !(DecodeNecSpec(raw).Some? && DecodeRc5Spec(raw).Some?)
    ensures !(DecodeSonySpec(raw).Some? && DecodeRc5Spec(raw).Some?)
    ensures !(DecodeRc6Spec(raw).Some? && DecodeNecSpec(raw).Some?)
    ensures !(DecodeRc6Spec(raw).Some? && DecodeRc5Spec(raw).Some?)
  {
    if DecodeRc5Spec(raw).Some? {
      Rc5FirstMark(raw);
    }
  }

  /** RC5 starts with a single mark of 14 to 25 ticks. */
  lemma {:induction false} Rc5FirstMark(raw: seq<nat>)
    requires DecodeRc5Spec(raw).Some?
    ensures |raw| > 1 && 14 <= raw[1] <= 25
  {
    var n := Avail(LevelAt(1), raw[1], RC5_T1);
    var rest := Stream(raw, 2, 0, Counter(RC5_T1));
    if n > 1 {
      RepeatHead(Mark, n, rest);
      RepeatHead(Mark, n - 1, rest);
    }
  }

  /** 24 short marks and spaces after a Sony header, with one long mark and two longer spaces. */
  const AMBIGUOUS: seq<nat> := seq(26, j requires 0 <= j < 26 =>
    if j == 0 then 100 else if j == 1 then 50 else if j == 2 || j == 12 then 12
    else if j == 11 then 20 else if j % 2 == 1 then 10 else 8)

  /** Sony and RC6 do overlap: this buffer is a Sony frame, which therefore wins, and also an RC6 frame. */
  lemma {:induction false} SonyShadowsRc6()
    ensures DecodeSonySpec(AMBIGUOUS).Some? && DecodeRc6Spec(AMBIGUOUS).Some?
    ensures DecodeSpec(AMBIGUOUS) == DecodeSonySpec(AMBIGUOUS)
  {
    AmbiguousSony(0);
    AmbiguousRc6();
    DecodersExclusive(AMBIGUOUS);
  }

  lemma {:induction false} AmbiguousSony(i: nat)
    requires i <= 12
    ensures SonyBits(AMBIGUOUS, i).Some? && |SonyBits(AMBIGUOUS, i).value| == 12 - i
    decreases 12 - i
  {
    if i < 12 { AmbiguousSony(i + 1); }
  }

  lemma {:induction false} AmbiguousRc6()
    ensures DecodeRc6Spec(AMBIGUOUS).Some?
  {
    AmbiguousBits(0);
    TwoRuns(AMBIGUOUS, 3, 1);
    StartBit(Stream(AMBIGUOUS, 5, 0, Counter(RC6_T1)));
  }

  lemma {:induction false} StartBit(rest: seq<Option<Level>>)
    ensures Next([Some(Mark), Some(Space)] + rest) == (Some(Mark), [Some(Space)] + rest)
    ensures Next([Some(Space)] + rest) == (Some(Space), rest)
  {
    assert ([Some(Mark), Some(Space)] + rest)[1..] == [Some(Space)] + rest;
    assert ([Some(Space)] + rest)[1..] == rest;
  }

  lemma {:induction false} AmbiguousBits(i: nat)
    requires i <= 10
    ensures Rc6Pairs(Stream(AMBIGUOUS, 2 * i + 5, 0, Counter(RC6_T1)), i).Some?
    decreases 10 - i
  {
    if i == 10 {
      AmbiguousEnd();
    } else {
      AmbiguousBits(i + 1);
      AmbiguousRuns(i);
      OneMoreBit(AMBIGUOUS, 2 * i + 5, i);
    }
  }

  lemma AmbiguousRuns(i: nat)
    requires i < 10
    ensures AMBIGUOUS[2 * i + 5] == (if i == 3 then 20 else 10) && AMBIGUOUS[2 * i + 6] == (if i == 3 then 12 else 8)
  {
  }

  lemma {:induction false} AmbiguousEnd()
    ensures Rc6Pairs(Stream(AMBIGUOUS, 25, 0, Counter(RC6_T1)), 10).Some?
  {
    assert Stream(AMBIGUOUS, 26, 0, Counter(RC6_T1)) == [];
    assert Stream(AMBIGUOUS, 25, 0, Counter(RC6_T1)) == [Some(Mark)];
    assert Rc6Pairs([], 11) == Some([]);
  }

  lemma TwoRuns(raw: seq<nat>, o: nat, k: nat)
    requires o % 2 == 1 && o + 1 < |raw| && (k == 1 || k == 2)
    requires raw[o] == (if k == 1 then 10 else 20) && raw[o + 1] == (if k == 1 then 8 else 12)
    ensures Stream(raw, o, 0, Counter(RC6_T1)) == Repeat(Mark, k) + (Repeat(Space, k) + Stream(raw, o + 2, 0, Counter(RC6_T1)))
    ensures k == 1 ==> Stream(raw, o, 0, Counter(RC6_T1)) == [Some(Mark), Some(Space)] + Stream(raw, o + 2, 0, Counter(RC6_T1))
  {
  }

  lemma {:induction false} OneMoreBit(raw: seq<nat>, o: nat, i: nat)
    requires o % 2 == 1 && o + 1 < |raw|
    requires raw[o] == (if i == 3 then 20 else 10) && raw[o + 1] == (if i == 3 then 12 else 8)
    requires Rc6Pairs(Stream(raw, o + 2, 0, Counter(RC6_T1)), i + 1).Some?
    ensures Rc6Pairs(Stream(raw, o, 0, Counter(RC6_T1)), i).Some?
  {
    var k := if i == 3 then 2 else 1;
    var rest := Stream(raw, o + 2, 0, Counter(RC6_T1));
    TwoRuns(raw, o, k);
    HalfBitOf(Mark, k, Repeat(Space, k) + rest);
    HalfBitOf(Space, k, rest);
  }

  // -------------------------------------------------------------------- RC6, RC5

  lemma {:induction false} MergeEnd(buf: seq<nat>)
    requires buf != []
    ensures Merge(buf, [0]) == buf
  {
    assert [0][1..] == [];
    assert Merge(buf, []) == buf;
  }

  /** The frame in the buffer is the start followed by the bits pushed one by one. */
  lemma {:induction false} RcChannel(rc: Rc, gap: nat, head: seq<int>, buf0: seq<nat>, bits: seq<bool>)
    requires Merge([gap], head) == buf0 && Small(buf0)
    ensures Merge([gap], head + RcBitsLog(rc, bits, 0) + [0]) == PushBits(RcCodec(rc), buf0, LineBits(rc, bits, 0))
    ensures Channel(gap, head + RcBitsLog(rc, bits, 0) + [0]) == WithoutTrailingSpace(PushBits(RcCodec(rc), buf0, LineBits(rc, bits, 0)))
  {
    var log := RcBitsLog(rc, bits, 0);
    MergeAppend([gap], head + log, [0]);
    MergeAppend([gap], head, log);
    MergeEnd(Merge(buf0, log));
    MergeBits(rc, buf0, bits, 0);
    OtherLevel(Space, |PushBits(RcCodec(rc), buf0, LineBits(rc, bits, 0))|);
  }

  /** How many entries the bits of a frame add, the trailing space dropped. */
  function RcEntries(rc: Rc, bits: seq<bool>): int
    requires bits != []
  {
    var line := LineBits(rc, bits, 0);
    2 * |bits| - Merges(if rc.Five? then Mark else Space, line) - (if EndLevel(Mark, line) == Space then 1 else 0)
  }

  /** The frame as received keeps its fixed start and has a known number of entries. */
  lemma {:induction false} RcReceivedShape(rc: Rc, gap: nat, head: seq<int>, buf0: seq<nat>, bits: seq<bool>)
    requires bits != [] && Merge([gap], head) == buf0 && Small(buf0)
    requires LevelAt(|buf0| - 1) == if rc.Five? then Mark else Space
    ensures var raw := Channel(gap, head + RcBitsLog(rc, bits, 0) + [0]);
            |raw| == |buf0| + RcEntries(rc, bits) >= |buf0| && raw[..|buf0| - 1] == buf0[..|buf0| - 1]
  {
    RcChannel(rc, gap, head, buf0, bits);
    RcPushedLength(rc, buf0, bits);
    PushKeepsPrefix(RcCodec(rc), buf0, LineBits(rc, bits, 0), |buf0| - 1);
    PrefixOfTrimmed(PushBits(RcCodec(rc), buf0, LineBits(rc, bits, 0)), |buf0| - 1);
  }

  lemma {:induction false} RcPushedLength(rc: Rc, buf0: seq<nat>, bits: seq<bool>)
    requires bits != [] && buf0 != [] && LevelAt(|buf0| - 1) == if rc.Five? then Mark else Space
    ensures |WithoutTrailingSpace(PushBits(RcCodec(rc), buf0, LineBits(rc, bits, 0)))| == |buf0| + RcEntries(rc, bits) >= |buf0|
  {
    BitsLength(RcCodec(rc), buf0, LineBits(rc, bits, 0));
    MergesBound(LevelAt(|buf0| - 1), LineBits(rc, bits, 0));
  }

  lemma PrefixOfTrimmed(buf: seq<nat>, n: nat)
    requires n < |buf|
    ensures n <= |WithoutTrailingSpace(buf)| && WithoutTrailingSpace(buf)[..n] == buf[..n]
  {
  }

  lemma {:induction false} PushKeepsPrefix(c: Codec, buf: seq<nat>, bits: seq<Bit>, n: nat)
    requires n < |buf|
    ensures PushBits(c, buf, bits)[..n] == buf[..n]
    decreases bits
  {
    if bits != [] {
      PushBitKeepsPrefix(c, buf, bits[0], n);
      PushKeepsPrefix(c, PushBit(c, buf, bits[0]), bits[1..], n);
    }
  }

  lemma {:induction false} PushBitKeepsPrefix(c: Codec, buf: seq<nat>, bit: Bit, n: nat)
    requires n < |buf|
    ensures n < |PushBit(c, buf, bit)| && PushBit(c, buf, bit)[..n] == buf[..n]
  {
    assert Push(c, buf, bit.first, bit.k)[..n] == buf[..n];
  }

  /** The frame as received holds, after its start, exactly the half-bits of the bits. */
  lemma {:induction false} RcReceivedStream(rc: Rc, gap: nat, head: seq<int>, buf0: seq<nat>, o: nat, start: seq<Option<Level>>, bits: seq<bool>)
    requires bits != [] && Merge([gap], head) == buf0 && Small(buf0)
    requires Holding(RcCodec(rc), rc.Six?, buf0, o, start, 1)
    ensures Stream(Channel(gap, head + RcBitsLog(rc, bits, 0) + [0]), o, 0, Counter(rc.T1())) == start + Seen(LineBits(rc, bits, 0))
  {
    RcChannel(rc, gap, head, buf0, bits);
    RcSeparates(rc);
    LineSmooth(rc, 1, bits, 0);
    FrameSeen(RcCodec(rc), rc.Six?, buf0, o, start, LineBits(rc, bits, 0));
  }

  /** What an RC6 frame leaves in the buffer. */
  lemma {:induction false} Rc6Received(gap: nat, bits: seq<bool>)
    requires bits != []
    ensures var raw := Channel(gap, Rc6Frame(bits));
            && |raw| > 4 && raw[1] == 55 && raw[2] == 15
            && Stream(raw, 3, 0, Counter(RC6_T1)) == [Some(Mark), Some(Space)] + Seen(LineBits(Six, bits, 0))
  {
    var head := [RC6_HDR_MARK, -RC6_HDR_SPACE, RC6_T1, -RC6_T1];
    var buf0: seq<nat> := [gap, 55, 15, 10, 6];
    Rc6Head(gap);
    RcReceivedShape(Six, gap, head, buf0, bits);
    RcReceivedStream(Six, gap, head, buf0, 3, [Some(Mark), Some(Space)], bits);
    var raw := Channel(gap, Rc6Frame(bits));
    assert raw[1] == raw[..4][1] && raw[2] == raw[..4][2];
  }

  /** THE RC6 ROUND TRIP, for every bit string of one bit or more. */
  lemma {:induction false} Rc6RoundTrip(gap: nat, bits: seq<bool>)
    requires bits != []
    ensures DecodeSpec(Channel(gap, Rc6Frame(bits))) == Some(Decoded(RC6, WordValue(bits), |bits|))
  {
    var raw := Channel(gap, Rc6Frame(bits));
    Rc6Received(gap, bits);
    Rc6PairsOfSeen(bits, 0);
    Rc6Starts(raw, Seen(LineBits(Six, bits, 0)), bits);
    OthersRejectRc6(raw);
  }

  /** A first mark of 55 ticks is no NEC header and three half-bits in RC5, which needs one; it does
      pass as a Sony header, but the first space of 15 ticks is no Sony space. */
  lemma {:induction false} OthersRejectRc6(raw: seq<nat>)
    requires |raw| > 4 && raw[1] == 55 && raw[2] == 15
    ensures DecodeNecSpec(raw) == None && DecodeSonySpec(raw) == None && DecodeRc5Spec(raw) == None
  {
    if DecodeRc5Spec(raw).Some? { Rc5FirstMark(raw); }
    assert SonyBits(raw, 0) == Some([]);
  }

  lemma {:induction false} Rc6Head(gap: nat)
    ensures Merge([gap], [RC6_HDR_MARK, -RC6_HDR_SPACE, RC6_T1, -RC6_T1]) == [gap, 55, 15, 10, 6]
    ensures Holding(RcCodec(Six), true, [gap, 55, 15, 10, 6], 3, [Some(Mark), Some(Space)], 1)
  {
    MergeTwo([gap], RC6_HDR_MARK, -RC6_HDR_SPACE);
    assert Merge1([gap], RC6_HDR_MARK) == [gap, 55];
    assert Merge1([gap, 55], -RC6_HDR_SPACE) == [gap, 55, 15];
    MergeTwo([gap, 55, 15], RC6_T1, -RC6_T1);
    assert Merge1([gap, 55, 15], RC6_T1) == [gap, 55, 15, 10];
    MergeAppend([gap], [RC6_HDR_MARK, -RC6_HDR_SPACE], [RC6_T1, -RC6_T1]);
    assert [RC6_HDR_MARK, -RC6_HDR_SPACE] + [RC6_T1, -RC6_T1] == [RC6_HDR_MARK, -RC6_HDR_SPACE, RC6_T1, -RC6_T1];
    Rc6HeadHolds(gap);
  }

  lemma {:induction false} Rc6HeadHolds(gap: nat)
    ensures Holding(RcCodec(Six), true, [gap, 55, 15, 10, 6], 3, [Some(Mark), Some(Space)], 1)
  {
    var c := RcCodec(Six);
    assert Reads(c, [gap, 55, 15], 3, []);
    NewRun(c, [gap, 55, 15], 3, [], 10);
    assert [] + Repeat(Mark, 1) == [Some(Mark)];
    assert [gap, 55, 15] + [10] == [gap, 55, 15, 10];
    NewRun(c, [gap, 55, 15, 10], 3, [Some(Mark)], 6);
    assert [Some(Mark)] + Repeat(Space, 1) == [Some(Mark), Some(Space)];
    assert [gap, 55, 15, 10] + [6] == [gap, 55, 15, 10, 6];
  }

  lemma {:induction false} Rc6Starts(raw: seq<nat>, seen: seq<Option<Level>>, bits: seq<bool>)
    requires |raw| > 3 && raw[1] == 55 && raw[2] == 15
    requires Stream(raw, 3, 0, Counter(RC6_T1)) == [Some(Mark), Some(Space)] + seen
    requires Rc6Pairs(seen, 0) == Some(bits)
    ensures DecodeRc6Spec(raw) == Some(Decoded(RC6, WordValue(bits), |bits|))
  {
    var s := [Some(Mark), Some(Space)] + seen;
    assert s[1..] == [Some(Space)] + seen;
    assert ([Some(Space)] + seen)[1..] == seen;
  }

  /** How many entries an RC5 frame leaves in the buffer, the gap included. */
  function Rc5Entries(bits: seq<bool>): int
    requires bits != []
  {
    4 + RcEntries(Five, bits)
  }

  /** THE RC5 ROUND TRIP, exactly: the frame comes back as sent if and only if it merges to
      at least 13 entries; otherwise it is not taken for RC5 at all. */
  lemma {:induction false} Rc5RoundTrip(gap: nat, bits: seq<bool>)
    requires bits != []
    ensures |Channel(gap, Rc5Frame(bits))| == Rc5Entries(bits)
    ensures DecodeSpec(Channel(gap, Rc5Frame(bits))) == Some(Decoded(RC5, WordValue(bits), |bits|))
            <==> Rc5Entries(bits) >= 13
    ensures Rc5Entries(bits) < 13 ==>
              DecodeSpec(Channel(gap, Rc5Frame(bits))) == if Rc5Entries(bits) >= 6 then Some(Decoded(UNKNOWN, 0, 0)) else None
  {
    var raw := Channel(gap, Rc5Frame(bits));
    Rc5Received(gap, bits);
    Rc5PairsOfSeen(bits, 0);
    OthersRejectRc5(raw);
    if |raw| >= 13 {
      Rc5Starts(raw, Seen(LineBits(Five, bits, 0)), bits);
    }
  }

  /** What an RC5 frame leaves in the buffer. */
  lemma {:induction false} Rc5Received(gap: nat, bits: seq<bool>)
    requires bits != []
    ensures var raw := Channel(gap, Rc5Frame(bits));
            && |raw| == Rc5Entries(bits) >= 4 && raw[1] == 19
            && Stream(raw, 1, 0, Counter(RC5_T1)) == [Some(Mark), Some(Space), Some(Mark)] + Seen(LineBits(Five, bits, 0))
  {
    var head := [RC5_T1, -RC5_T1, RC5_T1];
    var buf0: seq<nat> := [gap, 19, 15, 19];
    Rc5Head(gap);
    RcReceivedShape(Five, gap, head, buf0, bits);
    RcReceivedStream(Five, gap, head, buf0, 1, [Some(Mark), Some(Space), Some(Mark)], bits);
    var raw := Channel(gap, Rc5Frame(bits));
    assert raw[1] == raw[..3][1];
  }

  /** A first mark of 19 ticks is nobody else's header. */
  lemma OthersRejectRc5(raw: seq<nat>)
    requires |raw| >= 4 && raw[1] == 19
    ensures DecodeNecSpec(raw) == None && DecodeSonySpec(raw) == None && DecodeRc6Spec(raw) == None
  {
  }

  lemma {:induction false} Rc5Head(gap: nat)
    ensures Merge([gap], [RC5_T1, -RC5_T1, RC5_T1]) == [gap, 19, 15, 19]
    ensures Holding(RcCodec(Five), false, [gap, 19, 15, 19], 1, [Some(Mark), Some(Space), Some(Mark)], 1)
  {
    MergeTwo([gap], RC5_T1, -RC5_T1);
    MergeAppend([gap], [RC5_T1, -RC5_T1], [RC5_T1]);
    assert [RC5_T1, -RC5_T1] + [RC5_T1] == [RC5_T1, -RC5_T1, RC5_T1];
    assert [RC5_T1][1..] == [];
    assert Merge([gap, 19, 15, 19], []) == [gap, 19, 15, 19];
    Rc5HeadHolds(gap);
  }

  lemma {:induction false} Rc5HeadHolds(gap: nat)
    ensures Holding(RcCodec(Five), false, [gap, 19, 15, 19], 1, [Some(Mark), Some(Space), Some(Mark)], 1)
  {
    var c := RcCodec(Five);
    assert Reads(c, [gap], 1, []);
    NewRun(c, [gap], 1, [], 19);
    assert [] + Repeat(Mark, 1) == [Some(Mark)];
    assert [gap] + [19] == [gap, 19];
    NewRun(c, [gap, 19], 1, [Some(Mark)], 15);
    assert [Some(Mark)] + Repeat(Space, 1) == [Some(Mark), Some(Space)];
    assert [gap, 19] + [15] == [gap, 19, 15];
    NewRun(c, [gap, 19, 15], 1, [Some(Mark), Some(Space)], 19);
    assert [Some(Mark), Some(Space)] + Repeat(Mark, 1) == [Some(Mark), Some(Space), Some(Mark)];
    assert [gap, 19, 15] + [19] == [gap, 19, 15, 19];
  }

  lemma {:induction false} Rc5Starts(raw: seq<nat>, seen: seq<Option<Level>>, bits: seq<bool>)
    requires |raw| >= 13 && raw[1] == 19
    requires Stream(raw, 1, 0, Counter(RC5_T1)) == [Some(Mark), Some(Space), Some(Mark)] + seen
    requires Rc5Pairs(seen) == Some(bits)
    ensures DecodeRc5Spec(raw) == Some(Decoded(RC5, WordValue(bits), |bits|))
  {
    var s := [Some(Mark), Some(Space), Some(Mark)] + seen;
    assert s[1..] == [Some(Space), Some(Mark)] + seen;
    assert s[1..][1..] == [Some(Mark)] + seen;
    assert ([Some(Mark)] + seen)[1..] == seen;
  }

  /** Counted on the bits: two entries a bit, one fewer wherever a bit differs from the one before it
      (the start bit counting as a one), and one fewer after a final zero. */
  lemma {:induction false} MergesAreChanges(previous: bool, bits: seq<bool>, i: nat)
    ensures Merges(if previous then Mark else Space, LineBits(Five, bits, i)) == Changes(previous, bits)
    decreases bits
  {
    if bits != [] { MergesAreChanges(bits[0], bits[1..], i + 1); }
  }

  function Changes(previous: bool, bits: seq<bool>): nat
    decreases bits
  {
    if bits == [] then 0 else (if bits[0] != previous then 1 else 0) + Changes(bits[0], bits[1..])
  }

  lemma {:induction false} Rc5EntriesCounted(bits: seq<bool>)
    requires bits != []
    ensures Rc5Entries(bits) == 4 + 2 * |bits| - Changes(true, bits) - (if bits[|bits| - 1] then 0 else 1)
  {
    MergesAreChanges(true, bits, 0);
    LastOfLine(Five, bits, 0);
  }

  lemma {:induction false} LastOfLine(rc: Rc, bits: seq<bool>, i: nat)
    requires bits != []
    ensures LineBits(rc, bits, i)[|bits| - 1].first == rc.First(bits[|bits| - 1])
    decreases bits
  {
    if |bits| > 1 { LastOfLine(rc, bits[1..], i + 1); }
  }

  /** Ten bits are always enough; nine are not: a strictly alternating frame merges to twelve entries. */
  lemma {:induction false} Rc5TenBitsSuffice(bits: seq<bool>)
    requires |bits| >= 10
    ensures Rc5Entries(bits) >= 13
  {
    MergesBound(Mark, LineBits(Five, bits, 0));
  }

  lemma {:induction false} Rc5NineBitsMayFail()
    ensures Rc5Entries(Alternating(9, false)) == 12
  {
    Rc5EntriesCounted(Alternating(9, false));
    ChangesOfAlternating(9, true);
  }

  lemma {:induction false} ChangesOfAlternating(n: nat, previous: bool)
    ensures Changes(previous, Alternating(n, !previous)) == n
  {
    if n > 0 {
      ChangesOfAlternating(n - 1, !previous);
    }
  }

  function Alternating(n: nat, b: bool): (bits: seq<bool>)
    ensures |bits| == n
    ensures forall i | 0 <= i < n :: bits[i] == if i % 2 == 0 then b else !b
  {
    if n == 0 then [] else [b] + Alternating(n - 1, !b)
  }
}
