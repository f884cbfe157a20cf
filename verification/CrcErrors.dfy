/** What the 8-bit CRC detects: linearity, parity, bursts, and every error of up to three bits. */
module CrcErrors {
  import opened Crc8

  // ------------------------------------------------------- the CRC, bit by bit

  function FeedBit(crc: bv8, bit: bool): bv8 {
    Shift(crc, if bit then 1 else 0)
  }

  /** A state machine over a bit string. */
  function Fold<S>(step: (S, bool) -> S, s: S, bits: seq<bool>): S
    decreases bits
  {
    if bits == [] then s else Fold(step, step(s, bits[0]), bits[1..])
  }

  function FeedBits(crc: bv8, bits: seq<bool>): bv8 {
    Fold(FeedBit, crc, bits)
  }

  /** The low n bits of b, least significant first: the order in which the wire carries them. */
  function LowBits(b: bv8, n: nat): (bits: seq<bool>)
    ensures |bits| == n
    decreases n
  {
    if n == 0 then [] else [b & 1 != 0] + LowBits(b >> 1, n - 1)
  }

  function MessageBits(message: seq<bv8>): (bits: seq<bool>)
    ensures |bits| == 8 * |message|
  {
    if message == [] then [] else LowBits(message[0], 8) + MessageBits(message[1..])
  }

  lemma {:induction false} FoldAppend<S>(step: (S, bool) -> S, s: S, x: seq<bool>, y: seq<bool>)
    ensures Fold(step, s, x + y) == Fold(step, Fold(step, s, x), y)
    decreases x
  {
    if x == [] {
      assert x + y == y;
    } else {
      assert (x + y)[1..] == x[1..] + y;
      FoldAppend(step, step(s, x[0]), x[1..], y);
    }
  }

  lemma {:induction false} FeedAppend(crc: bv8, x: seq<bool>, y: seq<bool>)
    ensures FeedBits(crc, x + y) == FeedBits(FeedBits(crc, x), y)
  {
    FoldAppend(FeedBit, crc, x, y);
  }

  lemma {:induction false} ShiftsFeedLowBits(crc: bv8, b: bv8, n: nat)
    ensures Shifts(crc, b, n) == FeedBits(crc, LowBits(b, n))
    decreases n
  {
    if n > 0 {
      assert Shift(crc, b) == FeedBit(crc, b & 1 != 0);
      assert LowBits(b, n)[1..] == LowBits(b >> 1, n - 1);
      ShiftsFeedLowBits(Shift(crc, b), b >> 1, n - 1);
    }
  }

  /** The byte-wise CRC is the bit-wise CRC of the bits on the wire. */
  lemma {:induction false} CrcFeedsMessageBits(crc: bv8, message: seq<bv8>)
    ensures CrcFrom(crc, message) == FeedBits(crc, MessageBits(message))
    decreases message
  {
    if message != [] {
      ShiftsFeedLowBits(crc, message[0], 8);
      FeedAppend(crc, LowBits(message[0], 8), MessageBits(message[1..]));
      CrcFeedsMessageBits(CrcByte(crc, message[0]), message[1..]);
    }
  }

  // ----------------------------------------------------------------- linearity

  function XorBits(x: seq<bool>, y: seq<bool>): (d: seq<bool>)
    requires |x| == |y|
    ensures |d| == |x|
    ensures forall i | 0 <= i < |d| :: d[i] == (x[i] != y[i])
  {
    seq(|x|, i requires 0 <= i < |x| => x[i] != y[i])
  }

  function Xor8(c: bv8, d: bv8): bv8 {
    c ^ d
  }

  lemma FeedBitMixes(c: bv8, x: bool)
    ensures FeedBit(c, x) == if (c & 1 != 0) != x then (c >> 1) ^ 0x8C else c >> 1
  {
  }

  lemma {:induction false} FeedBothZeros(c: bv8, d: bv8)
    ensures FeedBit(Xor8(c, d), false) == Xor8(FeedBit(c, false), FeedBit(d, false))
  {
    FeedBitMixes(c, false);
    FeedBitMixes(d, false);
    FeedBitMixes(c ^ d, false);
    if c & 1 != 0 { if d & 1 != 0 {} else {} } else { if d & 1 != 0 {} else {} }
  }

  lemma {:induction false} FeedBothOnes(c: bv8, d: bv8)
    ensures FeedBit(Xor8(c, d), false) == Xor8(FeedBit(c, true), FeedBit(d, true))
  {
    FeedBitMixes(c, true);
    FeedBitMixes(d, true);
    FeedBitMixes(c ^ d, false);
    if c & 1 != 0 { if d & 1 != 0 {} else {} } else { if d & 1 != 0 {} else {} }
  }

  lemma {:induction false} FeedOneAndZero(c: bv8, d: bv8)
    ensures FeedBit(Xor8(c, d), true) == Xor8(FeedBit(c, true), FeedBit(d, false))
  {
    FeedBitMixes(c, true);
    FeedBitMixes(d, false);
    FeedBitMixes(c ^ d, true);
    if c & 1 != 0 { if d & 1 != 0 {} else {} } else { if d & 1 != 0 {} else {} }
  }

  lemma {:induction false} FeedZeroAndOne(c: bv8, d: bv8)
    ensures FeedBit(Xor8(c, d), true) == Xor8(FeedBit(c, false), FeedBit(d, true))
  {
    FeedBitMixes(c, false);
    FeedBitMixes(d, true);
    FeedBitMixes(c ^ d, true);
    if c & 1 != 0 { if d & 1 != 0 {} else {} } else { if d & 1 != 0 {} else {} }
  }

  /** A step that respects a mixing of states, for one pair of states and bits. */
  predicate Mixes<S(==)>(step: (S, bool) -> S, mix: (S, S) -> S, c: S, d: S, x: bool, y: bool) {
    step(mix(c, d), x != y) == mix(step(c, x), step(d, y))
  }

  lemma {:induction false} FeedBitLinear(c: bv8, d: bv8, x: bool, y: bool)
    ensures Mixes(FeedBit, Xor8, c, d, x, y)
  {
    if x {
      if y { FeedBothOnes(c, d); } else { FeedOneAndZero(c, d); }
    } else {
      if y { FeedZeroAndOne(c, d); } else { FeedBothZeros(c, d); }
    }
  }

  lemma {:induction false} FeedCons(crc: bv8, bit: bool, rest: seq<bool>)
    ensures FeedBits(crc, [bit] + rest) == FeedBits(FeedBit(crc, bit), rest)
  {
    assert ([bit] + rest)[1..] == rest;
  }

  /** If every step respects the mixing, the whole run does. */
  lemma {:induction false} FoldLinear<S(!new)>(step: (S, bool) -> S, mix: (S, S) -> S, c: S, d: S, x: seq<bool>, y: seq<bool>)
    requires |x| == |y|
    requires forall c: S, d: S, b: bool, e: bool :: Mixes(step, mix, c, d, b, e)
    ensures Fold(step, mix(c, d), XorBits(x, y)) == mix(Fold(step, c, x), Fold(step, d, y))
    decreases x
  {
    if x != [] {
      FoldLinear(step, mix, step(c, x[0]), step(d, y[0]), x[1..], y[1..]);
      assert Mixes(step, mix, c, d, x[0], y[0]);
      assert XorBits(x, y)[1..] == XorBits(x[1..], y[1..]);
    }
  }

  /** Feeding the xor of two bit strings into the xor of two registers gives the xor of the results. */
  lemma {:induction false} FeedLinear(c: bv8, d: bv8, x: seq<bool>, y: seq<bool>)
    requires |x| == |y|
    ensures FeedBits(Xor8(c, d), XorBits(x, y)) == Xor8(FeedBits(c, x), FeedBits(d, y))
  {
    forall c, d, b, e ensures Mixes(FeedBit, Xor8, c, d, b, e) { FeedBitLinear(c, d, b, e); }
    FoldLinear(FeedBit, Xor8, c, d, x, y);
  }

  /** The wire difference of two messages; its syndrome decides whether the CRC notices. */
  function Difference(m: seq<bv8>, m': seq<bv8>): (d: seq<bool>)
    requires |m| == |m'|
    ensures |d| == 8 * |m|
  {
    XorBits(MessageBits(m), MessageBits(m'))
  }

  lemma {:induction false} CrcLinear(m: seq<bv8>, m': seq<bv8>)
    requires |m| == |m'|
    ensures Crc(m) ^ Crc(m') == FeedBits(0, Difference(m, m'))
  {
    CrcFeedsMessageBits(0, m);
    CrcFeedsMessageBits(0, m');
    FeedLinear(0, 0, MessageBits(m), MessageBits(m'));
    assert 0 as bv8 ^ 0 == 0;
  }

  /** A difference goes unnoticed exactly when its own CRC is zero. */
  lemma {:induction false} UndetectedIffZeroSyndrome(m: seq<bv8>, m': seq<bv8>)
    requires |m| == |m'|
    ensures Crc(m) == Crc(m') <==> FeedBits(0, Difference(m, m')) == 0
  {
    CrcLinear(m, m');
    var c, d := Crc(m), Crc(m');
    assert c == d <==> c ^ d == 0;
  }

  // ------------------------------------------------------------ the CRC byte

  /** A message followed by its own CRC byte has CRC zero, and no other byte does that. */
  lemma {:induction false} AppendedCrcIsZero(message: seq<bv8>, c: bv8)
    ensures Crc(message + [c]) == 0 <==> c == Crc(message)
  {
    CrcSnoc(0, message, c);
    CrcByteOfXor(Crc(message), c);
    var x := Crc(message) ^ c;
    Zero8OnlyFromZero(x);
    assert x == 0 <==> c == Crc(message);
  }

  lemma ZeroOnlyFromZero(x: bv8)
    ensures Zero(x) == 0 <==> x == 0
  {
  }

  lemma Zero8OnlyFromZero(x: bv8)
    ensures Zero8(x) == 0 <==> x == 0
  {
  }

  // -------------------------------------------------------------------- parity

  /** Whether a byte has an odd number of ones. */
  function OddByte(b: bv8): bool {
    (b ^ (b >> 1) ^ (b >> 2) ^ (b >> 3) ^ (b >> 4) ^ (b >> 5) ^ (b >> 6) ^ (b >> 7)) & 1 != 0
  }

  function Ones(bits: seq<bool>): nat {
    if bits == [] then 0 else (if bits[0] then 1 else 0) + Ones(bits[1..])
  }

  lemma FeedBitParity(crc: bv8, bit: bool)
    ensures OddByte(FeedBit(crc, bit)) == (OddByte(crc) != bit)
  {
  }

  /** If every step flips a property exactly on a 1, a run flips it exactly on an odd number of ones. */
  lemma {:induction false} FoldParity<S(!new)>(step: (S, bool) -> S, odd: S -> bool, s: S, bits: seq<bool>)
    requires forall s: S, b: bool :: odd(step(s, b)) == (odd(s) != b)
    ensures odd(Fold(step, s, bits)) == (odd(s) != (Ones(bits) % 2 == 1))
    decreases bits
  {
    if bits != [] {
      FoldParity(step, odd, step(s, bits[0]), bits[1..]);
    }
  }

  lemma {:induction false} FeedParity(crc: bv8, bits: seq<bool>)
    ensures OddByte(FeedBits(crc, bits)) == (OddByte(crc) != (Ones(bits) % 2 == 1))
  {
    forall s, b
      ensures OddByte(FeedBit(s, b)) == (OddByte(s) != b)
    { FeedBitParity(s, b); }
    FoldParity(FeedBit, OddByte, crc, bits);
  }

  /** The CRC byte has the parity of the whole message. */
  lemma {:induction false} CrcKeepsParity(message: seq<bv8>)
    ensures OddByte(Crc(message)) <==> Ones(MessageBits(message)) % 2 == 1
  {
    CrcFeedsMessageBits(0, message);
    FeedParity(0, MessageBits(message));
  }

  /** Any odd number of flipped bits is noticed. */
  lemma {:induction false} DetectsOddErrors(m: seq<bv8>, m': seq<bv8>)
    requires |m| == |m'| && Ones(Difference(m, m')) % 2 == 1
    ensures Crc(m) != Crc(m')
  {
    UndetectedIffZeroSyndrome(m, m');
    FeedParity(0, Difference(m, m'));
  }

  // -------------------------------------------------------------------- bursts

  ghost predicate Clear(bits: seq<bool>) {
    forall i | 0 <= i < |bits| :: !bits[i]
  }

  lemma {:induction false} FeedClear(crc: bv8, bits: seq<bool>)
    requires Clear(bits)
    ensures FeedBits(crc, bits) == Zeros(crc, |bits|)
    ensures FeedBits(crc, bits) == 0 <==> crc == 0
    decreases bits
  {
    if bits != [] {
      ZeroOnlyFromZero(crc);
      FeedClear(Zero(crc), bits[1..]);
    }
  }

  lemma {:induction false} ClearFromZero(bits: seq<bool>)
    requires Clear(bits)
    ensures FeedBits(0, bits) == 0
  {
    FeedClear(0, bits);
  }

  function FromBits(bits: seq<bool>): bv8 {
    if bits == [] then 0 else Pack(FromBits(bits[1..]), bits[0])
  }

  function Pack(low: bv8, bit: bool): bv8 {
    (low << 1) | (if bit then 1 else 0)
  }

  /** b holds exactly these bits. */
  ghost predicate Holds(b: bv8, bits: seq<bool>) {
    |bits| <= 8 && LowBits(b, |bits|) == bits && (|bits| < 8 ==> b < Limit(|bits|))
  }

  /** Eight or fewer bits packed into a byte can be read back. */
  lemma {:induction false} PackedBits(bits: seq<bool>)
    requires |bits| <= 8
    ensures Holds(FromBits(bits), bits)
  {
    if bits != [] {
      PackedBits(bits[1..]);
      HoldsOneMore(FromBits(bits[1..]), bits[1..], bits[0]);
      assert [bits[0]] + bits[1..] == bits;
    }
  }

  lemma {:induction false} HoldsOneMore(b: bv8, bits: seq<bool>, bit: bool)
    requires |bits| < 8 && Holds(b, bits)
    ensures Holds(Pack(b, bit), [bit] + bits)
  {
    LimitStep(b, |bits|, bit);
  }

  function Limit(n: nat): bv8
    requires n < 8
  {
    match n
    case 0 => 1
    case 1 => 2
    case 2 => 4
    case 3 => 8
    case 4 => 16
    case 5 => 32
    case 6 => 64
    case 7 => 128
  }

  lemma LimitStep(low: bv8, n: nat, bit: bool)
    requires n < 8 && low < Limit(n)
    ensures var b := Pack(low, bit);
            (b & 1 != 0) == bit && b >> 1 == low && (n < 7 ==> b < Limit(n + 1))
  {
  }

  /** Eight bits leave a zero register zero only if all are zero. */
  lemma {:induction false} FullWindow(w: seq<bool>)
    requires |w| == 8
    ensures FeedBits(0, w) == 0 ==> Clear(w)
  {
    PackedBits(w);
    var b := FromBits(w);
    ShiftsFeedLowBits(0, b, 8);
    CrcByteOfXor(0, b);
    assert 0 ^ b == b;
    Zero8OnlyFromZero(b);
    LowBitsOfZero(8);
  }

  lemma {:induction false} ShortWindow(w: seq<bool>)
    requires |w| <= 8
    ensures FeedBits(0, w) == 0 ==> Clear(w)
  {
    var front := seq(8 - |w|, _ => false);
    FeedAppend(0, front, w);
    ClearFromZero(front);
    FullWindow(front + w);
    assert forall i | 0 <= i < |w| :: w[i] == (front + w)[|front| + i];
  }

  lemma {:induction false} LowBitsOfZero(n: nat)
    ensures Clear(LowBits(0, n))
    decreases n
  {
    if n > 0 {
      LowBitsOfZero(n - 1);
    }
  }

  /** Any error confined to eight consecutive bits of the wire is noticed. */
  lemma {:induction false} DetectsBursts(m: seq<bv8>, m': seq<bv8>, i: nat)
    requires |m| == |m'| && !Clear(Difference(m, m'))
    requires forall j | 0 <= j < 8 * |m| :: Difference(m, m')[j] ==> i <= j < i + 8
    ensures Crc(m) != Crc(m')
  {
    UndetectedIffZeroSyndrome(m, m');
    BurstSyndrome(Difference(m, m'), i);
  }

  lemma {:induction false} BurstSyndrome(d: seq<bool>, i: nat)
    requires !Clear(d)
    requires forall j | 0 <= j < |d| :: d[j] ==> i <= j < i + 8
    ensures FeedBits(0, d) != 0
  {
    var j :| 0 <= j < |d| && d[j];
    var k := if i + 8 <= |d| then i + 8 else |d|;
    FeedWindow(d, i, k);
    assert d[i..k][j - i];
    ShortWindow(d[i..k]);
  }

  /** Clear bits before and after a window do not change whether the register ends at zero. */
  lemma {:induction false} FeedWindow(d: seq<bool>, i: nat, k: nat)
    requires i <= k <= |d| && Clear(d[..i]) && Clear(d[k..])
    ensures FeedBits(0, d) == 0 <==> FeedBits(0, d[i..k]) == 0
  {
    assert d == d[..i] + (d[i..k] + d[k..]);
    FeedAppend(0, d[..i], d[i..k] + d[k..]);
    ClearFromZero(d[..i]);
    FeedAppend(0, d[i..k], d[k..]);
    FeedClear(FeedBits(0, d[i..k]), d[k..]);
  }

  // -------------------------------------------------------------- double errors

  /** The free-running register reaches 0x8C from x after n steps and not before. */
  ghost predicate Reaches(x: bv8, n: nat)
    decreases n
  {
    if n == 0 then x == 0x8C else x != 0x8C && Reaches(Zero(x), n - 1)
  }

  lemma {:induction false} ReachesMeans(x: bv8, n: nat, d: nat)
    requires Reaches(x, n) && d <= n
    ensures Zeros(x, d) == 0x8C <==> d == n
    decreases d
  {
    if d > 0 {
      ReachesMeans(Zero(x), n - 1, d - 1);
    }
  }

  lemma {:induction false} ReachesBlock(x: bv8, n: nat)
    requires x != 0x8C && Zero(x) != 0x8C && Zero(Zero(x)) != 0x8C && Zero(Zero(Zero(x))) != 0x8C
    requires var y := Zero(Zero(Zero(Zero(x))));
             y != 0x8C && Zero(y) != 0x8C && Zero(Zero(y)) != 0x8C && Zero(Zero(Zero(y))) != 0x8C
    requires Reaches(Zero8(x), n)
    ensures Reaches(x, n + 8)
  {
    var x1 := Zero(x); var x2 := Zero(x1); var x3 := Zero(x2); var x4 := Zero(x3);
    var x5 := Zero(x4); var x6 := Zero(x5); var x7 := Zero(x6);
    assert Reaches(x7, n + 1);
    assert Reaches(x6, n + 2);
    assert Reaches(x5, n + 3);
    assert Reaches(x4, n + 4);
    assert Reaches(x3, n + 5);
    assert Reaches(x2, n + 6);
    assert Reaches(x1, n + 7);
  }

  /** Started at 0x8C the register first returns after 127 steps: 0x46 is one step on. */
  lemma {:induction false} LongPeriod()
    ensures Reaches(0x46, 126)
  {
    LongPeriodTail();
    assert Zero8(0xC7) == 0x49; ReachesBlock(0xC7, 70);
    assert Zero8(0x75) == 0xC7; ReachesBlock(0x75, 78);
    assert Zero8(0xE9) == 0x75; ReachesBlock(0xE9, 86);
    assert Zero8(0xE0) == 0xE9; ReachesBlock(0xE0, 94);
    assert Zero8(0x31) == 0xE0; ReachesBlock(0x31, 102);
    assert Zero8(0x9B) == 0x31; ReachesBlock(0x9B, 110);
    assert Zero8(0x46) == 0x9B; ReachesBlock(0x46, 118);
  }

  lemma {:induction false} LongPeriodTail()
    ensures Reaches(0x49, 70)
  {
    assert Reaches(0x20, 6) by {
      assert Zero(0x01) == 0x8C && Reaches(0x8C, 0) && Reaches(0x01, 1);
      assert Zero(0x02) == 0x01 && Reaches(0x02, 2);
      assert Zero(0x04) == 0x02 && Reaches(0x04, 3);
      assert Zero(0x08) == 0x04 && Reaches(0x08, 4);
      assert Zero(0x10) == 0x08 && Reaches(0x10, 5);
      assert Zero(0x20) == 0x10 && Reaches(0x20, 6);
    }
    assert Zero8(0x0B) == 0x20; ReachesBlock(0x0B, 6);
    assert Zero8(0xE3) == 0x0B; ReachesBlock(0xE3, 14);
    assert Zero8(0x1A) == 0xE3; ReachesBlock(0x1A, 22);
    assert Zero8(0x73) == 0x1A; ReachesBlock(0x73, 30);
    assert Zero8(0xBF) == 0x73; ReachesBlock(0xBF, 38);
    assert Zero8(0x29) == 0xBF; ReachesBlock(0x29, 46);
    assert Zero8(0xDA) == 0x29; ReachesBlock(0xDA, 54);
    assert Zero8(0x49) == 0xDA; ReachesBlock(0x49, 62);
  }

  lemma ZerosStep(x: bv8, n: nat)
    ensures Zeros(x, n + 1) == Zeros(Zero(x), n)
  {
  }

  lemma {:induction false} ZerosLast(x: bv8, n: nat)
    ensures Zeros(x, n + 1) == Zero(Zeros(x, n))
    decreases n
  {
    if n > 0 {
      ZerosLast(Zero(x), n - 1);
    }
  }

  ghost predicate ExactlyTwo(bits: seq<bool>, p: nat, q: nat) {
    p < q < |bits| && forall j | 0 <= j < |bits| :: bits[j] <==> j == p || j == q
  }

  /** Two lone ones leave a zero register zero exactly when the second cancels the first. */
  lemma {:induction false} FeedTwoOnes(d: seq<bool>, p: nat, q: nat)
    requires ExactlyTwo(d, p, q)
    ensures FeedBits(0, d) == 0 <==> FeedBit(Zeros(FeedBit(0, true), q - p - 1), true) == 0
  {
    var gap, tail := d[p + 1..q], d[q + 1..];
    assert d == d[..p] + ([true] + (gap + ([true] + tail)));
    FeedAppend(0, d[..p], [true] + (gap + ([true] + tail)));
    ClearFromZero(d[..p]);
    FeedCons(0, true, gap + ([true] + tail));
    var s := FeedBit(0, true);
    FeedAppend(s, gap, [true] + tail);
    FeedClear(s, gap);
    FeedCons(Zeros(s, |gap|), true, tail);
    FeedClear(FeedBit(Zeros(s, |gap|), true), tail);
  }

  lemma {:induction false} ZerosAdd(x: bv8, a: nat, b: nat)
    ensures Zeros(x, a + b) == Zeros(Zeros(x, a), b)
    decreases a
  {
    if a > 0 { ZerosAdd(Zero(x), a - 1, b); }
  }

  /** The period is 127. */
  lemma {:induction false} PeriodIs(n: nat)
    ensures Zeros(0x8C, n) == 0x8C <==> n % 127 == 0
    decreases n
  {
    assert Zero(0x8C) == 0x46;
    LongPeriod();
    if n > 127 {
      PeriodIs(127);
      PeriodIs(n - 127);
      ZerosAdd(0x8C, 127, n - 127);
    } else if n > 0 {
      ZerosStep(0x8C, n - 1);
      ReachesMeans(0x46, 126, n - 1);
    }
  }

  /** Two flipped bits go unnoticed if and only if they are a multiple of 127 positions apart. */
  lemma {:induction false} DoubleErrorUnnoticedIff(m: seq<bv8>, m': seq<bv8>, p: nat, q: nat)
    requires |m| == |m'| && ExactlyTwo(Difference(m, m'), p, q)
    ensures Crc(m) == Crc(m') <==> (q - p) % 127 == 0
  {
    UndetectedIffZeroSyndrome(m, m');
    FeedTwoOnes(Difference(m, m'), p, q);
    assert FeedBit(0, true) == 0x8C;
    ZerosLast(0x8C, q - p - 1);
    FeedOneFlips(Zeros(0x8C, q - p - 1));
    PeriodIs(q - p);
  }

  lemma FeedOneFlips(crc: bv8)
    ensures FeedBit(crc, true) == 0 <==> Zero(crc) == 0x8C
  {
  }

  /** So two flipped bits fewer than 127 positions apart are noticed. */
  lemma {:induction false} DetectsDoubleErrors(m: seq<bv8>, m': seq<bv8>, p: nat, q: nat)
    requires |m| == |m'| && ExactlyTwo(Difference(m, m'), p, q) && q - p < 127
    ensures Crc(m) != Crc(m')
  {
    DoubleErrorUnnoticedIff(m, m', p, q);
  }

  lemma {:induction false} TwoOnes(bits: seq<bool>) returns (p: nat, q: nat)
    requires Ones(bits) == 2
    ensures ExactlyTwo(bits, p, q)
  {
    if bits[0] {
      p := 0;
      q := OneOne(bits[1..]);
      q := q + 1;
      assert forall j | 0 < j < |bits| :: bits[j] == bits[1..][j - 1];
    } else {
      p, q := TwoOnes(bits[1..]);
      p, q := p + 1, q + 1;
      assert forall j | 0 < j < |bits| :: bits[j] == bits[1..][j - 1];
    }
  }

  lemma {:induction false} OneOne(bits: seq<bool>) returns (p: nat)
    requires Ones(bits) == 1
    ensures p < |bits| && forall j | 0 <= j < |bits| :: bits[j] <==> j == p
  {
    if bits[0] {
      p := 0;
      NoOnes(bits[1..]);
      assert forall j | 0 < j < |bits| :: bits[j] == bits[1..][j - 1];
    } else {
      p := OneOne(bits[1..]);
      p := p + 1;
      assert forall j | 0 < j < |bits| :: bits[j] == bits[1..][j - 1];
    }
  }

  lemma {:induction false} NoOnes(bits: seq<bool>)
    requires Ones(bits) == 0
    ensures Clear(bits)
  {
    if bits != [] {
      NoOnes(bits[1..]);
      assert forall j | 0 < j < |bits| :: bits[j] == bits[1..][j - 1];
    }
  }

  /** Up to 15 bytes (a ROM is 8, a scratchpad 9) every error of one, two or three bits is noticed. */
  lemma {:induction false} DetectsUpToThreeErrors(m: seq<bv8>, m': seq<bv8>)
    requires |m| == |m'| <= 15
    requires 1 <= Ones(Difference(m, m')) <= 3
    ensures Crc(m) != Crc(m')
  {
    if Ones(Difference(m, m')) == 2 {
      var p, q := TwoOnes(Difference(m, m'));
      DetectsDoubleErrors(m, m', p, q);
    } else {
      DetectsOddErrors(m, m');
    }
  }
}
