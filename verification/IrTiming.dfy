/** Pulse constants, tick windows and bit values shared by the infrared senders and decoders. */
module IrTiming {

  datatype Level = Mark | Space

  const USEC_PER_TICK := 50
  const MARK_EXCESS := 100
  const RAWBUF := 76
  const GAP_TICKS := 100

  const NEC_HDR_MARK := 9000
  const NEC_HDR_SPACE := 4500
  const NEC_BIT_MARK := 560
  const NEC_ONE_SPACE := 1600
  const NEC_ZERO_SPACE := 560
  const NEC_RPT_SPACE := 2250
  const SONY_HDR_MARK := 2400
  const SONY_HDR_SPACE := 600
  const SONY_ONE_MARK := 1200
  const SONY_ZERO_MARK := 600
  const RC5_T1 := 889
  const RC6_HDR_MARK := 2666
  const RC6_HDR_SPACE := 889
  const RC6_T1 := 444

  const NEC_BITS := 32
  const SONY_BITS := 12
  const MIN_RC5_SAMPLES := 11
  const MIN_RC6_SAMPLES := 1

  /** A measured width within 25% of us microseconds, in ticks of 50: the lower end is
      rounded down, the upper end is rounded down after adding one tick. */
  predicate Match(ticks: nat, us: nat) {
    3 * us / 200 <= ticks <= us / 40 + 1
  }

  predicate MatchMark(ticks: nat, us: nat) {
    Match(ticks, us + MARK_EXCESS)
  }

  predicate MatchSpace(ticks: nat, us: nat)
    requires us >= MARK_EXCESS
  {
    Match(ticks, us - MARK_EXCESS)
  }

  // ------------------------------------------------------------ 32-bit words

  const WORD := 0x1_0000_0000
  const TOPBIT := 0x8000_0000

  type Word = w: nat | w < WORD

  function Shl1(data: Word): Word {
    (2 * data) % WORD
  }

  function Pow2(n: nat): nat {
    if n == 0 then 1 else 2 * Pow2(n - 1)
  }

  /** data << n on a 32-bit word. */
  function Shl(data: Word, n: nat): Word {
    (data * Pow2(n)) % WORD
  }

  /** The n top bits of data, in the order a sender shifts them out. */
  function TopBits(data: Word, n: nat): (bits: seq<bool>)
    ensures |bits| == n
    decreases n
  {
    if n == 0 then [] else [data >= TOPBIT] + TopBits(Shl1(data), n - 1)
  }

  /** The number a decoder shifts in, first bit most significant. */
  function Value(bits: seq<bool>): nat {
    if bits == [] then 0
    else 2 * Value(bits[..|bits| - 1]) + (if bits[|bits| - 1] then 1 else 0)
  }

  /** The same number as it sits in a 32-bit word. */
  function WordValue(bits: seq<bool>): Word {
    Value(bits) % WORD
  }

  /** Shifting one more bit into the word. */
  lemma {:induction false} WordValueSnoc(bits: seq<bool>, b: bool)
    ensures WordValue(bits + [b]) == Shl1(WordValue(bits)) + (if b then 1 else 0)
  {
    assert (bits + [b])[..|bits|] == bits;
    DoubleInWord(Value(bits));
  }

  /** The lowest bit of a word that has been shifted is free. */
  lemma {:induction false} DoubleInWord(v: nat)
    ensures 2 * v % WORD == 2 * (v % WORD) % WORD
    ensures (2 * v + 1) % WORD == 2 * (v % WORD) % WORD + 1
  {
    var q, r := v / WORD, v % WORD;
    assert 2 * v == 2 * q * WORD + 2 * r;
    if 2 * r < WORD {
      WordRest(2 * v, 2 * q, 2 * r);
      WordRest(2 * v + 1, 2 * q, 2 * r + 1);
    } else {
      WordRest(2 * v, 2 * q + 1, 2 * r - WORD);
      WordRest(2 * v + 1, 2 * q + 1, 2 * r + 1 - WORD);
    }
  }

  lemma WordRest(x: nat, q: nat, r: nat)
    requires x == q * WORD + r && r < WORD
    ensures x % WORD == r
  {
  }

  lemma {:induction false} ValueCons(b: bool, bits: seq<bool>)
    ensures Value([b] + bits) == (if b then Pow2(|bits|) else 0) + Value(bits)
    decreases bits
  {
    if bits == [] {
      assert [b] + bits == [b];
      assert [b][..0] == [];
    } else {
      var front := bits[..|bits| - 1];
      assert ([b] + bits)[..|bits|] == [b] + front;
      ValueCons(b, front);
    }
  }

  lemma {:induction false} ValueBound(bits: seq<bool>)
    ensures Value(bits) < Pow2(|bits|)
  {
    if bits != [] { ValueBound(bits[..|bits| - 1]); }
  }

  lemma {:induction false} Pow2Add(a: nat, b: nat)
    ensures Pow2(a + b) == Pow2(a) * Pow2(b)
  {
    if a > 0 { Pow2Add(a - 1, b); }
  }

  lemma {:induction false} Pow2Values()
    ensures Pow2(31) == TOPBIT && Pow2(32) == WORD
  {
    assert Pow2(8) == 256;
    Pow2Add(8, 8);
    Pow2Add(16, 8);
    Pow2Add(24, 7);
    assert Pow2(7) == 128;
    assert Pow2(32) == 2 * Pow2(31);
  }

  lemma {:induction false} Pow2Monotonic(a: nat, b: nat)
    requires a <= b
    ensures Pow2(a) <= Pow2(b)
    decreases b
  {
    if a < b { Pow2Monotonic(a, b - 1); }
  }

  lemma {:induction false} PowPositive(n: nat)
    ensures Pow2(n) > 0
  {
    if n > 0 { PowPositive(n - 1); }
  }

  /** One shift of a left-aligned number: q is the weight of its top bit, p that of the padding. */
  lemma {:induction false} PeelTopBit(v: nat, q: nat, p: nat)
    requires q * p == TOPBIT && v < 2 * q && p > 0
    ensures v * p < WORD
    ensures v * p >= TOPBIT <==> v >= q
    ensures Shl1(v * p) == (if v >= q then v - q else v) * (2 * p)
  {
    var d := v * p;
    assert d < 2 * q * p == 2 * (q * p) by { MulLess(v, 2 * q, p); assert 2 * q * p == 2 * (q * p); }
    if v >= q {
      MulMonotonic(q, v, p);
      assert (v - q) * p == v * p - q * p;
      assert (v - q) * (2 * p) == 2 * ((v - q) * p);
    } else {
      MulLess(v, q, p);
      assert v * (2 * p) == 2 * (v * p);
    }
  }

  lemma MulLess(a: nat, b: nat, c: nat)
    requires a < b && 0 < c
    ensures a * c < b * c
  {
  }

  lemma MulMonotonic(a: nat, b: nat, c: nat)
    requires a <= b
    ensures a * c <= b * c
  {
  }

  /** Shifting n bits out of a left-aligned n-bit number sends exactly that number. */
  lemma {:induction false} AlignedBits(v: nat, n: nat, p: nat)
    requires v < Pow2(n) && Pow2(n) * p == WORD && p > 0
    ensures v * p < WORD && Value(TopBits(v * p, n)) == v
    decreases n
  {
    if n == 0 {
      assert v == 0 && v * p == 0;
    } else {
      var q := Pow2(n - 1);
      assert 2 * q * p == 2 * (q * p);
      PeelTopBit(v, q, p);
      var v' := if v >= q then v - q else v;
      assert q * (2 * p) == 2 * (q * p);
      AlignedBits(v', n - 1, 2 * p);
      ValueCons(v * p >= TOPBIT, TopBits(Shl1(v * p), n - 1));
    }
  }

  /** The n bits a sender shifts out of data << (32 - n) spell the n-bit number it was given. */
  lemma {:induction false} SentBitsHaveValue(v: Word, n: nat)
    requires n <= 32 && v < Pow2(n)
    ensures WordValue(TopBits(Shl(v, 32 - n), n)) == v
  {
    Aligned(v, n, 32 - n);
    WordValueExact(TopBits(Shl(v, 32 - n), n), v);
  }

  lemma WordValueExact(bits: seq<bool>, v: Word)
    requires Value(bits) == v
    ensures WordValue(bits) == v
  {
  }

  lemma {:induction false} Aligned(v: Word, n: nat, k: nat)
    requires n + k == 32 && v < Pow2(n)
    ensures Value(TopBits(Shl(v, k), n)) == v
  {
    Pow2Values();
    Pow2Add(n, k);
    PowPositive(k);
    AlignedBits(v, n, Pow2(k));
    ShlExact(v, k);
  }

  lemma ShlExact(v: Word, k: nat)
    requires v * Pow2(k) < WORD
    ensures Shl(v, k) == v * Pow2(k)
  {
  }

  // ------------------------------------------------------- which bit is sent when

  /** Bit j of a number, the least significant one being bit 0. */
  predicate BitOf(x: nat, j: nat) {
    PowPositive(j);
    x / Pow2(j) % 2 == 1
  }

  lemma {:induction false} DivOfSum(a: nat, r: nat, p: nat)
    requires p > 0
    ensures (a * p + r) / p == a + r / p
  {
    var q := r / p;
    assert r == q * p + r % p;
    assert a * p + r == (a + q) * p + r % p by { assert (a + q) * p == a * p + q * p; }
    DivUnique(a * p + r, p, a + q, r % p);
  }

  lemma {:induction false} DivUnique(x: nat, p: nat, q: nat, r: nat)
    requires p > 0 && x == q * p + r && r < p
    ensures x / p == q
  {
    var q', r' := x / p, x % p;
    assert x == q' * p + r';
    assert (q' - q) * p == q' * p - q * p == r - r';
    Multiple(q' - q, p);
  }

  lemma {:induction false} Multiple(d: int, p: nat)
    requires 0 - p < d * p < p
    ensures d == 0
  {
    if d > 0 {
      MulMonotonic(1, d, p);
    } else if d < 0 {
      assert (-d) * p == -(d * p);
      MulMonotonic(1, -d, p);
    }
  }

  lemma {:induction false} KeepsParity(a: nat, h: nat, p: nat, r: nat)
    requires p > 0
    ensures (a * (2 * h * p) + r) / p % 2 == r / p % 2
  {
    var x := a * h;
    ThreeFactors(a, h, p);
    DivOfSum(2 * x, r, p);
    EvenMore(x, r / p);
  }

  lemma EvenMore(x: nat, y: nat)
    ensures (2 * x + y) % 2 == y % 2
  {
  }

  /** What falls off the top of a 32-bit word does not matter to the bits below. */
  lemma {:induction false} WordKeepsBit(x: nat, j: nat)
    requires j < 32
    ensures BitOf(x % WORD, j) <==> BitOf(x, j)
  {
    PowPositive(j);
    WordFactors(j);
    Quotient(x, WORD);
    KeepsParity(x / WORD, Pow2(31 - j), Pow2(j), x % WORD);
  }

  lemma Quotient(x: nat, m: nat)
    requires m > 0
    ensures x == (x / m) * m + x % m
  {
  }

  lemma {:induction false} WordFactors(j: nat)
    requires j < 32
    ensures 2 * Pow2(31 - j) * Pow2(j) == WORD
  {
    Pow2Values();
    Pow2Add(31 - j, j);
    TwiceProduct(Pow2(31 - j), Pow2(j));
  }

  lemma TwiceProduct(h: nat, p: nat)
    ensures 2 * h * p == 2 * (h * p)
  {
  }

  lemma {:induction false} ThreeFactors(a: nat, h: nat, p: nat)
    ensures a * (2 * h * p) == (2 * (a * h)) * p
  {
    assert a * (2 * h * p) == 2 * (a * (h * p)) by { assert 2 * h * p == 2 * (h * p); }
    assert a * (h * p) == (a * h) * p;
    assert (2 * (a * h)) * p == 2 * ((a * h) * p);
  }

  /** A shift to the left moves a bit up. */
  lemma {:induction false} ShiftMovesBit(x: nat, k: nat, j: nat)
    ensures BitOf(x * Pow2(k), j + k) <==> BitOf(x, j)
    decreases k
  {
    if k == 0 {
      assert x * 1 == x;
    } else {
      var y := x * Pow2(k - 1);
      ShiftMovesBit(x, k - 1, j);
      PowPositive(j + k - 1);
      assert x * (2 * Pow2(k - 1)) == 2 * y;
      HalfBoth(y, Pow2(j + k - 1));
    }
  }

  lemma {:induction false} HalfBoth(y: nat, p: nat)
    requires p > 0
    ensures 2 * y / (2 * p) == y / p
  {
    var q, r := y / p, y % p;
    assert y == q * p + r;
    assert 2 * y == q * (2 * p) + 2 * r by { assert q * (2 * p) == 2 * (q * p); }
    DivUnique(2 * y, 2 * p, q, 2 * r);
  }

  lemma {:induction false} Shl1MovesBit(data: Word, j: nat)
    requires j < 31
    ensures BitOf(Shl1(data), j + 1) <==> BitOf(data, j)
  {
    WordKeepsBit(2 * data, j + 1);
    ShiftMovesBit(data, 1, j);
    assert Pow2(1) == 2;
  }

  lemma TopBit(data: Word)
    requires Pow2(31) == TOPBIT
    ensures BitOf(data, 31) <==> data >= TOPBIT
  {
  }

  /** NEC sends the word from bit 31 down. */
  lemma {:induction false} TopBitsAre(data: Word, n: nat, i: nat)
    requires i < n && i < 32
    ensures TopBits(data, n)[i] <==> BitOf(data, 31 - i)
    decreases i
  {
    if i == 0 {
      Pow2Values();
      TopBit(data);
    } else {
      TopBitsAre(Shl1(data), n - 1, i - 1);
      Shl1MovesBit(data, 31 - i);
    }
  }

  /** The others send the low n bits of the word, from bit n - 1 down. */
  lemma {:induction false} LowBitsAre(data: Word, n: nat, i: nat)
    requires i < n <= 32
    ensures TopBits(Shl(data, 32 - n), n)[i] <==> BitOf(data, n - 1 - i)
  {
    TopBitsAre(Shl(data, 32 - n), n, i);
    WordKeepsBit(data * Pow2(32 - n), 31 - i);
    ShiftMovesBit(data, 32 - n, n - 1 - i);
  }

  /** Two bit strings of the same length with the same value are the same. */
  lemma {:induction false} ValueInjective(x: seq<bool>, y: seq<bool>)
    requires |x| == |y| && Value(x) == Value(y)
    ensures x == y
  {
    if x != [] {
      ValueInjective(x[..|x| - 1], y[..|y| - 1]);
      assert x == x[..|x| - 1] + [x[|x| - 1]] && y == y[..|y| - 1] + [y[|y| - 1]];
    }
  }
}
