/** Merging and splitting back, for any line code: if the width windows tell merged runs apart,
    the half-bits that went in are the half-bits that come out. */
module IrRuns {
  import opened Wrappers
  import opened IrTiming
  import opened IrReceive
  import opened IrDecode

  /** How a line code shows up in the receive buffer: the width of a run begun by a pulse of k
      half-bits, what a further pulse adds, and the decoder's count of half-bits for a width. */
  datatype Codec = Codec(initial: (Level, nat) -> nat, more: nat -> nat, avail: (Level, nat) -> nat)

  /** A half of a bit: k half-bit times at a level, k being 1, or 2 where the code has wide bits. */
  predicate Half(wide: bool, k: nat) {
    k == 1 || (wide && k == 2)
  }

  ghost predicate CountsSingles(c: Codec, wide: bool) {
    forall level, k: nat {:trigger c.initial(level, k)} :: Half(wide, k) ==> c.avail(level, c.initial(level, k)) == k
  }

  predicate CountsRun(c: Codec, level: Level, h: nat, k: nat) {
    c.avail(level, c.initial(level, h) + c.more(k)) == h + k
  }

  ghost predicate CountsMerged(c: Codec, wide: bool) {
    forall level, h: nat, k: nat :: Half(wide, h) && Half(wide, k) && h + k <= 3 ==> CountsRun(c, level, h, k)
  }

  /** The windows are right for single pulses and for two merged ones. */
  ghost predicate Separates(c: Codec, wide: bool) {
    CountsSingles(c, wide) && CountsMerged(c, wide)
  }

  /** One pulse arriving at the buffer: more of the last run, or a new one. */
  function Push(c: Codec, buf: seq<nat>, level: Level, k: nat): seq<nat>
    requires buf != []
  {
    if level == LevelAt(|buf| - 1) then buf[|buf| - 1 := buf[|buf| - 1] + c.more(k)] else buf + [c.initial(level, k)]
  }

  /** From entry o on every width stands for some number of half-bits, and together they are cells. */
  ghost predicate Reads(c: Codec, buf: seq<nat>, o: nat, cells: seq<Option<Level>>) {
    && o <= |buf|
    && (forall j | o <= j < |buf| :: c.avail(LevelAt(j), buf[j]) > 0)
    && Stream(buf, o, 0, c.avail) == cells
  }

  lemma SeqAssoc<T>(x: seq<T>, y: seq<T>, z: seq<T>)
    ensures x + y + z == x + (y + z)
  {
  }

  lemma {:induction false} RepeatAdd(level: Level, m: nat, n: nat)
    ensures Repeat(level, m + n) == Repeat(level, m) + Repeat(level, n)
    decreases m
  {
    if m > 0 { RepeatAdd(level, m - 1, n); }
  }

  /** Appending a width that stands for n half-bits appends those half-bits. */
  lemma {:induction false} StreamSnoc(c: Codec, buf: seq<nat>, o: nat, w: nat)
    requires o <= |buf| && forall j | o <= j < |buf| :: c.avail(LevelAt(j), buf[j]) > 0
    requires c.avail(LevelAt(|buf|), w) > 0
    ensures Stream(buf + [w], o, 0, c.avail) == Stream(buf, o, 0, c.avail) + Repeat(LevelAt(|buf|), c.avail(LevelAt(|buf|), w))
    decreases |buf| - o
  {
    if o == |buf| {
      assert Stream(buf + [w], o + 1, 0, c.avail) == [];
    } else {
      StreamSnoc(c, buf, o + 1, w);
      assert (buf + [w])[o] == buf[o];
    }
  }

  lemma {:induction false} NewRun(c: Codec, buf: seq<nat>, o: nat, cells: seq<Option<Level>>, w: nat)
    requires Reads(c, buf, o, cells) && c.avail(LevelAt(|buf|), w) > 0
    ensures Reads(c, buf + [w], o, cells + Repeat(LevelAt(|buf|), c.avail(LevelAt(|buf|), w)))
  {
    StreamSnoc(c, buf, o, w);
  }

  /** Without its last run the buffer reads as before that run. */
  lemma {:induction false} WithoutLastRun(c: Codec, buf: seq<nat>, o: nat, cells: seq<Option<Level>>)
    requires Reads(c, buf, o, cells) && o < |buf|
    ensures var front, level, n := buf[..|buf| - 1], LevelAt(|buf| - 1), c.avail(LevelAt(|buf| - 1), buf[|buf| - 1]);
            Reads(c, front, o, Stream(front, o, 0, c.avail)) && cells == Stream(front, o, 0, c.avail) + Repeat(level, n)
  {
    var front := buf[..|buf| - 1];
    assert front + [buf[|buf| - 1]] == buf;
    StreamSnoc(c, front, o, buf[|buf| - 1]);
  }

  /** A last run that grows by k half-bits appends k half-bits. */
  lemma {:induction false} LongerRun(c: Codec, buf: seq<nat>, o: nat, cells: seq<Option<Level>>, w: nat, k: nat)
    requires Reads(c, buf, o, cells) && o < |buf|
    requires c.avail(LevelAt(|buf| - 1), w) == c.avail(LevelAt(|buf| - 1), buf[|buf| - 1]) + k
    ensures Reads(c, buf[|buf| - 1 := w], o, cells + Repeat(LevelAt(|buf| - 1), k))
  {
    var front, level, n := buf[..|buf| - 1], LevelAt(|buf| - 1), c.avail(LevelAt(|buf| - 1), buf[|buf| - 1]);
    WithoutLastRun(c, buf, o, cells);
    NewRun(c, front, o, Stream(front, o, 0, c.avail), w);
    assert front + [w] == buf[|buf| - 1 := w];
    RepeatAdd(level, n, k);
    SeqAssoc(Stream(front, o, 0, c.avail), Repeat(level, n), Repeat(level, k));
  }

  /** buf, read from entry o on, is exactly cells, and its last run is a single pulse of h half-bits. */
  ghost predicate Holding(c: Codec, wide: bool, buf: seq<nat>, o: nat, cells: seq<Option<Level>>, h: nat) {
    && o < |buf| && Half(wide, h) && buf[|buf| - 1] == c.initial(LevelAt(|buf| - 1), h)
    && c.avail(LevelAt(|buf| - 1), buf[|buf| - 1]) == h
    && Reads(c, buf, o, cells)
  }

  /** A bit on the line: k half-bit times at a level, then k at the other. */
  datatype Bit = Bit(first: Level, k: nat)

  function PushBit(c: Codec, buf: seq<nat>, bit: Bit): seq<nat>
    requires buf != []
  {
    Push(c, Push(c, buf, bit.first, bit.k), Flip(bit.first), bit.k)
  }

  function BitCells(bit: Bit): seq<Option<Level>> {
    Repeat(bit.first, bit.k) + Repeat(Flip(bit.first), bit.k)
  }

  lemma OtherLevel(level: Level, n: nat)
    requires n > 0
    ensures level != LevelAt(n - 1) <==> level == LevelAt(n)
  {
  }

  lemma {:induction false} MergedHalf(c: Codec, buf: seq<nat>, o: nat, cells: seq<Option<Level>>, h: nat, k: nat)
    requires o < |buf| && Reads(c, buf, o, cells)
    requires c.avail(LevelAt(|buf| - 1), buf[|buf| - 1]) == h
    requires c.avail(LevelAt(|buf| - 1), buf[|buf| - 1] + c.more(k)) == h + k
    ensures Reads(c, Push(c, buf, LevelAt(|buf| - 1), k), o, cells + Repeat(LevelAt(|buf| - 1), k))
  {
    LongerRun(c, buf, o, cells, buf[|buf| - 1] + c.more(k), k);
  }

  lemma {:induction false} StartedHalf(c: Codec, buf: seq<nat>, o: nat, cells: seq<Option<Level>>, level: Level, k: nat)
    requires o < |buf| && Reads(c, buf, o, cells) && level == LevelAt(|buf|) && k > 0
    requires c.avail(level, c.initial(level, k)) == k
    ensures Push(c, buf, level, k) == buf + [c.initial(level, k)]
    ensures Reads(c, Push(c, buf, level, k), o, cells + Repeat(level, k))
  {
    OtherLevel(level, |buf|);
    NewRun(c, buf, o, cells, c.initial(level, k));
  }

  /** The first half of a bit: a new run, or more of the last one. */
  lemma {:induction false} FirstHalf(c: Codec, wide: bool, buf: seq<nat>, o: nat, cells: seq<Option<Level>>, h: nat, level: Level, k: nat)
    requires Separates(c, wide) && Holding(c, wide, buf, o, cells, h) && Half(wide, k) && h + k <= 3
    ensures Reads(c, Push(c, buf, level, k), o, cells + Repeat(level, k))
  {
    OtherLevel(level, |buf|);
    if level == LevelAt(|buf| - 1) {
      assert CountsRun(c, level, h, k);
      MergedHalf(c, buf, o, cells, h, k);
    } else {
      StartedHalf(c, buf, o, cells, level, k);
    }
  }

  lemma {:induction false} PushLength(c: Codec, buf: seq<nat>, level: Level, k: nat)
    requires buf != []
    ensures |Push(c, buf, level, k)| == |buf| + (if level == LevelAt(|buf| - 1) then 0 else 1)
    ensures LevelAt(|Push(c, buf, level, k)| - 1) == level
  {
    OtherLevel(level, |buf|);
  }

  /** One bit through the channel: its half-bits are appended and the last run is again a single pulse. */
  lemma {:induction false} OneBit(c: Codec, wide: bool, buf: seq<nat>, o: nat, cells: seq<Option<Level>>, h: nat, bit: Bit)
    requires Separates(c, wide) && Holding(c, wide, buf, o, cells, h) && Half(wide, bit.k) && h + bit.k <= 3
    ensures Holding(c, wide, PushBit(c, buf, bit), o, cells + BitCells(bit), bit.k)
    ensures |PushBit(c, buf, bit)| == |buf| + (if bit.first == LevelAt(|buf| - 1) then 1 else 2)
    ensures LevelAt(|PushBit(c, buf, bit)| - 1) == Flip(bit.first)
  {
    FirstHalf(c, wide, buf, o, cells, h, bit.first, bit.k);
    BitLength(c, buf, bit);
    PushLength(c, buf, bit.first, bit.k);
    var buf1 := Push(c, buf, bit.first, bit.k);
    OtherLevel(Flip(bit.first), |buf1|);
    StartedHalf(c, buf1, o, cells + Repeat(bit.first, bit.k), Flip(bit.first), bit.k);
    SeqAssoc(cells, Repeat(bit.first, bit.k), Repeat(Flip(bit.first), bit.k));
  }

  // ------------------------------------------------------------ a whole frame

  function PushBits(c: Codec, buf: seq<nat>, bits: seq<Bit>): (buf': seq<nat>)
    requires buf != []
    ensures |buf'| >= |buf|
    decreases bits
  {
    if bits == [] then buf else PushBits(c, PushBit(c, buf, bits[0]), bits[1..])
  }

  function Cells(bits: seq<Bit>): seq<Option<Level>> {
    if bits == [] then [] else BitCells(bits[0]) + Cells(bits[1..])
  }

  /** No two neighbouring halves are both wide. */
  ghost predicate Smooth(wide: bool, h: nat, bits: seq<Bit>)
    decreases bits
  {
    bits == [] || (Half(wide, bits[0].k) && h + bits[0].k <= 3 && Smooth(wide, bits[0].k, bits[1..]))
  }

  function LastK(h: nat, bits: seq<Bit>): nat {
    if bits == [] then h else bits[|bits| - 1].k
  }

  function EndLevel(start: Level, bits: seq<Bit>): Level {
    if bits == [] then start else Flip(bits[|bits| - 1].first)
  }

  /** How many bits begin at the level the line is on. */
  function Merges(start: Level, bits: seq<Bit>): nat
    decreases bits
  {
    if bits == [] then 0
    else (if bits[0].first == start then 1 else 0) + Merges(Flip(bits[0].first), bits[1..])
  }

  lemma {:induction false} AllBits(c: Codec, wide: bool, buf: seq<nat>, o: nat, cells: seq<Option<Level>>, h: nat, bits: seq<Bit>)
    requires Separates(c, wide) && Holding(c, wide, buf, o, cells, h) && Smooth(wide, h, bits)
    ensures Holding(c, wide, PushBits(c, buf, bits), o, cells + Cells(bits), LastK(h, bits))
    decreases bits
  {
    if bits == [] {
      assert cells + [] == cells;
    } else {
      OneBit(c, wide, buf, o, cells, h, bits[0]);
      AllBits(c, wide, PushBit(c, buf, bits[0]), o, cells + BitCells(bits[0]), bits[0].k, bits[1..]);
      SeqAssoc(cells, BitCells(bits[0]), Cells(bits[1..]));
    }
  }

  /** Each bit adds two entries, one fewer when its first half lengthens the last run. */
  lemma {:induction false} BitsLength(c: Codec, buf: seq<nat>, bits: seq<Bit>)
    requires buf != []
    ensures |PushBits(c, buf, bits)| == |buf| + 2 * |bits| - Merges(LevelAt(|buf| - 1), bits)
    ensures LevelAt(|PushBits(c, buf, bits)| - 1) == EndLevel(LevelAt(|buf| - 1), bits)
    decreases bits
  {
    if bits != [] {
      BitLength(c, buf, bits[0]);
      BitsLength(c, PushBit(c, buf, bits[0]), bits[1..]);
    }
  }

  lemma {:induction false} BitLength(c: Codec, buf: seq<nat>, bit: Bit)
    requires buf != []
    ensures |PushBit(c, buf, bit)| == |buf| + (if bit.first == LevelAt(|buf| - 1) then 1 else 2)
    ensures LevelAt(|PushBit(c, buf, bit)| - 1) == Flip(bit.first)
  {
    PushLength(c, buf, bit.first, bit.k);
    PushLength(c, Push(c, buf, bit.first, bit.k), Flip(bit.first), bit.k);
  }

  lemma {:induction false} MergesBound(start: Level, bits: seq<Bit>)
    ensures Merges(start, bits) <= |bits|
    decreases bits
  {
    if bits != [] { MergesBound(Flip(bits[0].first), bits[1..]); }
  }

  // ------------------------------------------------------- after the trimming

  /** The half-bits of a trailing space. */
  function TrailingSpace(bits: seq<Bit>): seq<Option<Level>>
    requires bits != []
  {
    if EndLevel(Mark, bits) == Space then Repeat(Space, LastK(0, bits)) else []
  }

  /** The half-bits a decoder sees: those of a trailing space are gone. */
  function Seen(bits: seq<Bit>): seq<Option<Level>> {
    if bits == [] then []
    else if |bits| == 1 then Repeat(bits[0].first, bits[0].k) + (if bits[0].first == Mark then [] else Repeat(Mark, bits[0].k))
    else BitCells(bits[0]) + Seen(bits[1..])
  }

  lemma {:induction false} SeenIsTrimmed(bits: seq<Bit>)
    requires bits != []
    ensures Cells(bits) == Seen(bits) + TrailingSpace(bits)
  {
    if |bits| == 1 {
      assert Cells(bits[1..]) == [];
    } else {
      SeenIsTrimmed(bits[1..]);
      TrailingOfTail(bits);
      SeqAssoc(BitCells(bits[0]), Seen(bits[1..]), TrailingSpace(bits));
    }
  }

  lemma {:induction false} TrailingOfTail(bits: seq<Bit>)
    requires |bits| > 1
    ensures TrailingSpace(bits) == TrailingSpace(bits[1..])
  {
    assert bits[|bits| - 1] == bits[1..][|bits[1..]| - 1];
  }

  lemma {:induction false} SamePrefix<T>(x: seq<T>, y: seq<T>, z: seq<T>)
    requires x + z == y + z
    ensures x == y
  {
    assert |x| == |y|;
    assert x == (x + z)[..|x|] && y == (y + z)[..|x|];
  }

  /** What the channel finally delivers: the buffer without a trailing space. */
  function WithoutTrailingSpace(buf: seq<nat>): seq<nat> {
    if buf != [] && LevelAt(|buf| - 1) == Space then buf[..|buf| - 1] else buf
  }

  /** Dropping a trailing space from the buffer removes exactly its half-bits. */
  lemma {:induction false} TrimmedStream(c: Codec, wide: bool, buf: seq<nat>, o: nat, h: nat,
                      seen: seq<Option<Level>>, tail: seq<Option<Level>>)
    requires Holding(c, wide, buf, o, seen + tail, h)
    requires tail == if LevelAt(|buf| - 1) == Space then Repeat(Space, h) else []
    ensures Stream(WithoutTrailingSpace(buf), o, 0, c.avail) == seen
  {
    if LevelAt(|buf| - 1) == Space {
      WithoutLastRun(c, buf, o, seen + tail);
      SamePrefix(Stream(buf[..|buf| - 1], o, 0, c.avail), seen, Repeat(Space, h));
    } else {
      assert seen + [] == seen;
    }
  }

  lemma {:induction false} FrameHolds(c: Codec, wide: bool, buf0: seq<nat>, o: nat, start: seq<Option<Level>>, bits: seq<Bit>)
    requires Separates(c, wide) && Holding(c, wide, buf0, o, start, 1) && Smooth(wide, 1, bits) && bits != []
    ensures Holding(c, wide, PushBits(c, buf0, bits), o, start + Seen(bits) + TrailingSpace(bits), LastK(1, bits))
  {
    AllBits(c, wide, buf0, o, start, 1, bits);
    SeenAfter(start, bits);
  }

  /** THE WHOLE PASSAGE, for any code whose single and merged widths stay apart: the half-bits of a start and of
      the bits after it are merged into runs, lose a trailing space, and are read back as the half-bits sent. */
  lemma {:induction false} FrameSeen(c: Codec, wide: bool, buf0: seq<nat>, o: nat, start: seq<Option<Level>>, bits: seq<Bit>)
    requires Separates(c, wide) && Holding(c, wide, buf0, o, start, 1) && Smooth(wide, 1, bits) && bits != []
    ensures Stream(WithoutTrailingSpace(PushBits(c, buf0, bits)), o, 0, c.avail) == start + Seen(bits)
    ensures Cells(bits) == Seen(bits) + TrailingSpace(bits)
  {
    FrameHolds(c, wide, buf0, o, start, bits);
    FrameTrimmed(c, wide, buf0, o, start, bits);
    SeenIsTrimmed(bits);
  }

  lemma {:induction false} FrameTrimmed(c: Codec, wide: bool, buf0: seq<nat>, o: nat, start: seq<Option<Level>>, bits: seq<Bit>)
    requires bits != [] && buf0 != []
    requires Holding(c, wide, PushBits(c, buf0, bits), o, start + Seen(bits) + TrailingSpace(bits), LastK(1, bits))
    ensures Stream(WithoutTrailingSpace(PushBits(c, buf0, bits)), o, 0, c.avail) == start + Seen(bits)
  {
    var buf, seen, tail := PushBits(c, buf0, bits), start + Seen(bits), TrailingSpace(bits);
    FrameEnd(c, buf0, bits);
    assert Holding(c, wide, buf, o, seen + tail, LastK(1, bits));
    TrimmedStream(c, wide, buf, o, LastK(1, bits), seen, tail);
  }

  lemma {:induction false} FrameEnd(c: Codec, buf0: seq<nat>, bits: seq<Bit>)
    requires bits != [] && buf0 != []
    ensures TrailingSpace(bits) == if LevelAt(|PushBits(c, buf0, bits)| - 1) == Space then Repeat(Space, LastK(1, bits)) else []
  {
    BitsLength(c, buf0, bits);
  }

  lemma {:induction false} SeenAfter(start: seq<Option<Level>>, bits: seq<Bit>)
    requires bits != []
    ensures start + Cells(bits) == start + Seen(bits) + TrailingSpace(bits)
  {
    SeenIsTrimmed(bits);
    SeqAssoc(start, Seen(bits), TrailingSpace(bits));
  }
}
