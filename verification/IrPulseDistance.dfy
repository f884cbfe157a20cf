/** NEC and Sony: exactly which buffers are accepted with which value, the round trips, and the one NEC width the
    decoder would accept but the recorder cuts. */
module IrPulseDistance {
  import opened Wrappers
  import opened IrTiming
  import opened IrReceive
  import opened IrSend
  import opened IrDecode
  import opened IrRoundTrip
  import opened IrBiphase
  import opened IrRuns

  // ----------------------------------------------------------- NEC acceptance

  /** Every width in the window of the pulse that the bits call for, in ticks of 50 microseconds. */
  ghost predicate NecFrameWidths(raw: seq<nat>, bits: seq<bool>) {
    && |bits| == 32 && |raw| >= 68
    && 136 <= raw[1] <= 228 && 66 <= raw[2] <= 111
    && forall i | 0 <= i < |bits| :: NecBitWidths(raw, i, bits[i])
  }

  ghost predicate NecBitWidths(raw: seq<nat>, i: nat, bit: bool) {
    && 2 * i + 4 < |raw|
    && 9 <= raw[2 * i + 3] <= 17
    && if bit then 22 <= raw[2 * i + 4] <= 38 else 6 <= raw[2 * i + 4] <= 12
  }

  ghost predicate NecRepeatWidths(raw: seq<nat>) {
    |raw| == 4 && 136 <= raw[1] <= 228 && 32 <= raw[2] <= 54 && 9 <= raw[3] <= 17
  }

  /** The one and zero windows are disjoint, so a bit reads as b exactly when its widths are those of b. */
  lemma NecBitIff(raw: seq<nat>, i: nat, b: bool)
    requires 2 * i + 4 < |raw|
    ensures NecBit(raw, i) == Some(b) <==> NecBitWidths(raw, i, b)
  {
  }

  lemma {:induction false} NecBitsIff(raw: seq<nat>, n: nat, bits: seq<bool>)
    requires 2 * n + 3 <= |raw|
    ensures NecBits(raw, n) == Some(bits) <==> |bits| == n && forall i | 0 <= i < n :: NecBitWidths(raw, i, bits[i])
    decreases n
  {
    if n > 0 {
      if |bits| == n {
        var front, last := bits[..n - 1], bits[n - 1];
        assert bits == front + [last];
        NecBitsIff(raw, n - 1, front);
        NecBitIff(raw, n - 1, last);
        NecBitsSnoc(raw, n - 1, front, last);
      } else {
        NecBitsLength(raw, n);
      }
    }
  }

  lemma {:induction false} NecBitsSnoc(raw: seq<nat>, n: nat, front: seq<bool>, last: bool)
    requires 2 * n + 5 <= |raw|
    ensures NecBits(raw, n + 1) == Some(front + [last]) <==> NecBits(raw, n) == Some(front) && NecBit(raw, n) == Some(last)
  {
    if NecBits(raw, n).Some? && NecBit(raw, n).Some? {
      var f, l := NecBits(raw, n).value, NecBit(raw, n).value;
      assert f + [l] == front + [last] ==> (f + [l])[..|f + [l]| - 1] == f && (front + [last])[..|front + [last]| - 1] == front;
    }
  }

  lemma {:induction false} NecBitsLength(raw: seq<nat>, n: nat)
    requires 2 * n + 3 <= |raw|
    ensures NecBits(raw, n).Some? ==> |NecBits(raw, n).value| == n
    decreases n
  {
    if n > 0 { NecBitsLength(raw, n - 1); }
  }

  /** NEC TOLERANCE, both ways: a buffer decodes to these 32 bits if and only if every width lies
      in the window of the pulse the bits call for. */
  lemma {:induction false} NecAccepts(raw: seq<nat>, bits: seq<bool>)
    requires |bits| == 32
    ensures DecodeNecSpec(raw) == Some(Decoded(NEC, WordValue(bits), 32)) <==> NecFrameWidths(raw, bits)
    ensures NecFrameWidths(raw, bits) ==> DecodeSpec(raw) == Some(Decoded(NEC, WordValue(bits), 32))
  {
    if |raw| >= 68 {
      NecBitsIff(raw, 32, bits);
      NecBitsLength(raw, 32);
      if NecBits(raw, 32).Some? {
        SameWord(NecBits(raw, 32).value, bits);
      }
    }
  }

  lemma {:induction false} ShortWord(bits: seq<bool>)
    requires |bits| <= 32
    ensures WordValue(bits) == Value(bits)
  {
    Pow2Values();
    Pow2Monotonic(|bits|, 32);
    ValueBound(bits);
  }

  /** Strings of up to 32 bits of one length are told apart by their word. */
  lemma {:induction false} SameWord(x: seq<bool>, y: seq<bool>)
    requires |x| == |y| <= 32
    ensures WordValue(x) == WordValue(y) <==> x == y
  {
    ShortWord(x);
    ShortWord(y);
    if WordValue(x) == WordValue(y) { ValueInjective(x, y); }
  }

  /** NEC accepts nothing else but the four-entry repeat code. */
  lemma {:induction false} NecAcceptsOnly(raw: seq<nat>)
    ensures DecodeNecSpec(raw).Some? <==> NecRepeatWidths(raw) || exists bits :: NecFrameWidths(raw, bits)
    ensures NecRepeatWidths(raw) <==> DecodeNecSpec(raw) == Some(Decoded(NEC, 0xffff_ffff, 0))
  {
    if |raw| >= 68 {
      NecBitsLength(raw, 32);
      if NecBits(raw, 32).Some? {
        var bits := NecBits(raw, 32).value;
        NecBitsIff(raw, 32, bits);
        assert 136 <= raw[1] <= 228 && 66 <= raw[2] <= 111 ==> NecFrameWidths(raw, bits);
      }
      forall bits | NecFrameWidths(raw, bits) ensures DecodeNecSpec(raw).Some? { NecAccepts(raw, bits); }
    }
  }

  // ---------------------------------------------------------- Sony acceptance

  ghost predicate SonyBitWidths(raw: seq<nat>, i: nat, bit: bool) {
    && 2 * i + 3 < |raw|
    && 7 <= raw[2 * i + 2] <= 13
    && if bit then 19 <= raw[2 * i + 3] <= 33 else 10 <= raw[2 * i + 3] <= 18
  }

  /** After n bits the buffer ends, or the next space is not a one-unit space. */
  ghost predicate SonyEnds(raw: seq<nat>, n: nat) {
    2 * n + 3 >= |raw| || !(7 <= raw[2 * n + 2] <= 13)
  }

  ghost predicate SonyFrameWidths(raw: seq<nat>, bits: seq<bool>) {
    && |raw| >= 26 && |bits| >= 12
    && 37 <= raw[1] <= 63
    && SonyWidthsFrom(raw, 0, bits)
    && SonyEnds(raw, |bits|)
  }

  ghost predicate SonyWidthsFrom(raw: seq<nat>, k: nat, bits: seq<bool>) {
    forall i | 0 <= i < |bits| :: SonyBitWidths(raw, k + i, bits[i])
  }

  lemma {:induction false} SonyWidthsCons(raw: seq<nat>, k: nat, bits: seq<bool>)
    requires bits != []
    ensures SonyWidthsFrom(raw, k, bits) <==> SonyBitWidths(raw, k, bits[0]) && SonyWidthsFrom(raw, k + 1, bits[1..])
  {
    if SonyWidthsFrom(raw, k, bits) {
      assert SonyBitWidths(raw, k + 0, bits[0]);
      forall i | 0 <= i < |bits[1..]| ensures SonyBitWidths(raw, k + 1 + i, bits[1..][i]) {
        assert SonyBitWidths(raw, k + (i + 1), bits[i + 1]);
      }
    }
    if SonyBitWidths(raw, k, bits[0]) && SonyWidthsFrom(raw, k + 1, bits[1..]) {
      forall i | 0 <= i < |bits| ensures SonyBitWidths(raw, k + i, bits[i]) {
        if i > 0 { assert SonyBitWidths(raw, k + 1 + (i - 1), bits[1..][i - 1]); }
      }
    }
  }

  lemma {:induction false} SonyBitsIff(raw: seq<nat>, k: nat, bits: seq<bool>)
    ensures SonyBits(raw, k) == Some(bits) <==> SonyWidthsFrom(raw, k, bits) && SonyEnds(raw, k + |bits|)
    decreases bits
  {
    if bits != [] {
      SonyBitsIff(raw, k + 1, bits[1..]);
      SonyWidthsCons(raw, k, bits);
      SonyBitsCons(raw, k, bits[0], bits[1..]);
      assert bits == [bits[0]] + bits[1..];
    }
  }

  /** The touching windows [10, 18] and [19, 33] decide every mark. */
  lemma {:induction false} SonyBitsCons(raw: seq<nat>, k: nat, b: bool, rest: seq<bool>)
    ensures SonyBits(raw, k) == Some([b] + rest) <==> SonyBitWidths(raw, k, b) && SonyBits(raw, k + 1) == Some(rest)
  {
    if SonyBits(raw, k + 1).Some? {
      var r := SonyBits(raw, k + 1).value;
      assert forall c :: [c] + r == [b] + rest ==> ([c] + r)[1..] == r && ([b] + rest)[1..] == rest && ([c] + r)[0] == c;
    }
  }

  /** SONY TOLERANCE, both ways: the decoder reads exactly these bits if and only if every consumed
      width lies in its window and the frame ends right there. */
  lemma {:induction false} SonyAccepts(raw: seq<nat>, bits: seq<bool>)
    ensures DecodeSonySpec(raw).Some? && SonyBits(raw, 0) == Some(bits) <==> SonyFrameWidths(raw, bits)
    ensures SonyFrameWidths(raw, bits) ==> DecodeSpec(raw) == Some(Decoded(SONY, WordValue(bits), |bits|))
  {
    SonyBitsIff(raw, 0, bits);
    DecodersExclusive(raw);
  }

  // ------------------------------------------------------------- round trips

  function NecRuns(bits: seq<bool>): (r: seq<nat>)
    ensures |r| == 2 * |bits|
  {
    if bits == [] then [] else [13, if bits[0] then 30 else 9] + NecRuns(bits[1..])
  }

  lemma {:induction false} NecMerged(buf: seq<nat>, bits: seq<bool>)
    requires |buf| % 2 == 1
    ensures Merge(buf, NecBitsLog(bits)) == buf + NecRuns(bits)
    decreases bits
  {
    if bits == [] {
      assert buf + [] == buf;
    } else {
      var pair: seq<nat> := [13, if bits[0] then 30 else 9];
      var log := NecBitLog(bits[0]);
      MergeTwo(buf, log[0], log[1]);
      assert log == [log[0], log[1]];
      assert Merge(buf, log) == buf + pair;
      MergeAppend(buf, log, NecBitsLog(bits[1..]));
      NecMerged(buf + pair, bits[1..]);
      SeqAssoc(buf, pair, NecRuns(bits[1..]));
    }
  }

  lemma {:induction false} NecRunsAt(bits: seq<bool>, i: nat)
    requires i < |bits|
    ensures NecRuns(bits)[2 * i] == 13 && NecRuns(bits)[2 * i + 1] == if bits[i] then 30 else 9
    decreases bits
  {
    if i > 0 {
      NecRunsAt(bits[1..], i - 1);
    }
  }

  lemma {:induction false} NecMergedAll(gap: nat, bits: seq<bool>, buf0: seq<nat>, runs: seq<nat>)
    requires buf0 == [gap, 182, 88] && runs == NecRuns(bits)
    ensures Merge([gap], NecFrame(bits)) == buf0 + runs + [13]
  {
    NecHead(gap);
    NecMerged(buf0, bits);
    NecTail(buf0 + runs);
    MergeThree([gap], [NEC_HDR_MARK, -NEC_HDR_SPACE], NecBitsLog(bits), [NEC_BIT_MARK, 0]);
  }

  lemma {:induction false} NecReceived(gap: nat, bits: seq<bool>)
    ensures Merge([gap], NecFrame(bits)) == [gap, 182, 88] + NecRuns(bits) + [13]
    ensures Channel(gap, NecFrame(bits)) == [gap, 182, 88] + NecRuns(bits) + [13]
  {
    NecMergedAll(gap, bits, [gap, 182, 88], NecRuns(bits));
  }

  lemma {:induction false} NecHead(gap: nat)
    ensures Merge([gap], [NEC_HDR_MARK, -NEC_HDR_SPACE]) == [gap, 182, 88]
  {
    assert Merge1([gap], NEC_HDR_MARK) == [gap, 182];
    MergeTwo([gap], NEC_HDR_MARK, -NEC_HDR_SPACE);
  }

  lemma {:induction false} NecTail(buf: seq<nat>)
    requires |buf| % 2 == 1
    ensures Merge(buf, [NEC_BIT_MARK, 0]) == buf + [13]
  {
    MergeTwo(buf, NEC_BIT_MARK, 0);
  }

  /** THE NEC ROUND TRIP: every 32-bit frame comes back as sent. */
  lemma {:induction false} NecRoundTrip(gap: nat, bits: seq<bool>)
    requires |bits| == 32
    ensures DecodeSpec(Channel(gap, NecFrame(bits))) == Some(Decoded(NEC, WordValue(bits), 32))
  {
    NecReceived(gap, bits);
    NecRunsFit(gap, bits);
    NecAccepts(Channel(gap, NecFrame(bits)), bits);
  }

  lemma {:induction false} NecRunsFit(gap: nat, bits: seq<bool>)
    requires |bits| == 32
    ensures NecFrameWidths([gap, 182, 88] + NecRuns(bits) + [13], bits)
  {
    var raw := [gap, 182, 88] + NecRuns(bits) + [13];
    forall i | 0 <= i < |bits| ensures NecBitWidths(raw, i, bits[i]) {
      NecRunsAt(bits, i);
      assert raw[2 * i + 3] == NecRuns(bits)[2 * i] && raw[2 * i + 4] == NecRuns(bits)[2 * i + 1];
    }
  }

  function SonyRuns(bits: seq<bool>): (r: seq<nat>)
    ensures |r| == 2 * |bits|
  {
    if bits == [] then [] else [if bits[0] then 26 else 14, 10] + SonyRuns(bits[1..])
  }

  lemma {:induction false} SonyMerged(buf: seq<nat>, bits: seq<bool>)
    requires |buf| % 2 == 1
    ensures Merge(buf, SonyBitsLog(bits)) == buf + SonyRuns(bits)
    decreases bits
  {
    if bits == [] {
      assert buf + [] == buf;
    } else {
      var pair: seq<nat> := [if bits[0] then 26 else 14, 10];
      var log := SonyBitLog(bits[0]);
      MergeTwo(buf, log[0], log[1]);
      assert log == [log[0], log[1]];
      assert Merge(buf, log) == buf + pair;
      MergeAppend(buf, log, SonyBitsLog(bits[1..]));
      SonyMerged(buf + pair, bits[1..]);
      SeqAssoc(buf, pair, SonyRuns(bits[1..]));
    }
  }

  lemma {:induction false} SonyRunsAt(bits: seq<bool>, i: nat)
    requires i < |bits|
    ensures SonyRuns(bits)[2 * i] == (if bits[i] then 26 else 14) && SonyRuns(bits)[2 * i + 1] == 10
    decreases bits
  {
    if i > 0 {
      SonyRunsAt(bits[1..], i - 1);
    }
  }

  lemma {:induction false} SonyReceived(gap: nat, bits: seq<bool>)
    ensures Merge([gap], SonyFrame(bits)) == [gap, 50, 10] + SonyRuns(bits)
    ensures Channel(gap, SonyFrame(bits)) == ([gap, 50, 10] + SonyRuns(bits))[..2 * |bits| + 2]
  {
    SonyHead(gap);
    MergeAppend([gap], [SONY_HDR_MARK, -SONY_HDR_SPACE], SonyBitsLog(bits));
    SonyMerged([gap, 50, 10], bits);
  }

  lemma {:induction false} SonyHead(gap: nat)
    ensures Merge([gap], [SONY_HDR_MARK, -SONY_HDR_SPACE]) == [gap, 50, 10]
  {
    assert Merge1([gap], SONY_HDR_MARK) == [gap, 50];
    MergeTwo([gap], SONY_HDR_MARK, -SONY_HDR_SPACE);
  }

  /** THE SONY ROUND TRIP, exactly: a frame comes back as Sony if and only if it has at least 12 bits. */
  lemma {:induction false} SonyRoundTrip(gap: nat, bits: seq<bool>)
    ensures DecodeSpec(Channel(gap, SonyFrame(bits))) == Some(Decoded(SONY, WordValue(bits), |bits|)) <==> |bits| >= 12
  {
    SonyReceived(gap, bits);
    if |bits| >= 12 {
      SonyRunsFit(gap, bits);
      SonyAccepts(Channel(gap, SonyFrame(bits)), bits);
    }
  }

  lemma {:induction false} SonyRunsFit(gap: nat, bits: seq<bool>)
    requires |bits| >= 12
    ensures SonyFrameWidths(([gap, 50, 10] + SonyRuns(bits))[..2 * |bits| + 2], bits)
  {
    var raw := ([gap, 50, 10] + SonyRuns(bits))[..2 * |bits| + 2];
    forall i | 0 <= i < |bits| ensures SonyBitWidths(raw, 0 + i, bits[i]) {
      SonyRunsAt(bits, i);
      assert raw[2 * i + 3] == SonyRuns(bits)[2 * i];
      SonySpaceAt(gap, bits, i);
    }
  }

  lemma {:induction false} SonySpaceAt(gap: nat, bits: seq<bool>, i: nat)
    requires i < |bits|
    ensures ([gap, 50, 10] + SonyRuns(bits))[2 * i + 2] == 10
  {
    if i > 0 {
      SonyRunsAt(bits, i - 1);
      assert ([gap, 50, 10] + SonyRuns(bits))[2 * i + 2] == SonyRuns(bits)[2 * (i - 1) + 1];
    }
  }

  // ----------------------------------------------------------- a cut header

  /** A header space of 102 to 111 samples is inside the decoder's window but ends the recording:
      the frame is lost, whatever follows. */
  lemma {:induction false} NecHeaderSpaceCut(rx: Rx, g: nat, m: nat, s: nat, rest: seq<Level>)
    requires rx.state == StateIdle && |rx.raw| < 76 && rx.timer < 0x1_0000
    requires (rx.timer + g + 1) % 0x1_0000 >= 100 && m > 0
    requires 102 <= s <= 111
    ensures var end := Ticks(rx, Hold(Space, g) + (Wave([m], Mark) + (Hold(Space, s) + rest)));
            MatchSpace(s, NEC_HDR_SPACE) && end.state == StateStop && |end.raw| == 2 && DecodeSpec(end.raw) == None
  {
    RunLengthEncoded(rx, g, [m], s, rest);
  }
}
