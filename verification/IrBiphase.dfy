/** RC5 and RC6 as line codes: their widths separate merged runs, the channel is the abstract
    one, and the pair parsers read back the bits. */
module IrBiphase {
  import opened Wrappers
  import opened IrTiming
  import opened IrReceive
  import opened IrSend
  import opened IrDecode
  import opened IrRuns

  /** The ticks recorded for a pulse of k half-bits that starts a run. */
  function Initial(rc: Rc, level: Level, k: nat): nat {
    var us := k * rc.T1() + (if level == Mark then MARK_EXCESS else -MARK_EXCESS);
    if us < 0 then 0 else us / USEC_PER_TICK
  }

  function RcCodec(rc: Rc): Codec {
    Codec((level, k) => Initial(rc, level, k), (k: nat) => k * rc.T1() / USEC_PER_TICK, Counter(rc.T1()))
  }

  lemma {:induction false} InitialWindow(rc: Rc, level: Level, k: nat)
    requires Half(rc.Six?, k)
    ensures Avail(level, Initial(rc, level, k), rc.T1()) == k
  {
    match rc { case Five => case Six => if k == 1 {} else {} }
  }

  lemma {:induction false} MergedWindow(rc: Rc, level: Level, h: nat, k: nat)
    requires Half(rc.Six?, h) && Half(rc.Six?, k) && h + k <= 3
    ensures Avail(level, Initial(rc, level, h) + k * rc.T1() / USEC_PER_TICK, rc.T1()) == h + k
  {
    match rc { case Five => case Six => if h == 1 {} else {} }
  }

  lemma {:induction false} RcCountsSingles(rc: Rc)
    ensures CountsSingles(RcCodec(rc), rc.Six?)
  {
    forall level, k: nat {:trigger RcCodec(rc).initial(level, k)} | Half(rc.Six?, k)
      ensures RcCodec(rc).avail(level, RcCodec(rc).initial(level, k)) == k
    {
      InitialWindow(rc, level, k);
    }
  }

  lemma {:induction false} RcCountsRun(rc: Rc, level: Level, h: nat, k: nat)
    requires Half(rc.Six?, h) && Half(rc.Six?, k) && h + k <= 3
    ensures CountsRun(RcCodec(rc), level, h, k)
  {
    MergedWindow(rc, level, h, k);
  }

  lemma {:induction false} RcCountsMerged(rc: Rc)
    ensures CountsMerged(RcCodec(rc), rc.Six?)
  {
    forall level, h: nat, k: nat | Half(rc.Six?, h) && Half(rc.Six?, k) && h + k <= 3 ensures CountsRun(RcCodec(rc), level, h, k) {
      RcCountsRun(rc, level, h, k);
    }
  }

  /** THE WINDOWS SEPARATE: single pulses, doubled runs, and the triple runs around RC6's wide bit
      are each counted right. */
  lemma {:induction false} RcSeparates(rc: Rc)
    ensures Separates(RcCodec(rc), rc.Six?)
  {
    RcCountsSingles(rc);
    RcCountsMerged(rc);
  }

  function LineBits(rc: Rc, bits: seq<bool>, i: nat): (line: seq<Bit>)
    ensures |line| == |bits|
    decreases bits
  {
    if bits == [] then [] else [Bit(rc.First(bits[0]), rc.Width(i))] + LineBits(rc, bits[1..], i + 1)
  }

  lemma {:induction false} LineSmooth(rc: Rc, h: nat, bits: seq<bool>, i: nat)
    requires h + rc.Width(i) <= 3
    ensures Smooth(rc.Six?, h, LineBits(rc, bits, i))
    decreases bits
  {
    if bits != [] {
      LineSmooth(rc, rc.Width(i), bits[1..], i + 1);
    }
  }

  // ---------------------------------------------------------------- the channel

  /** The last width is far from the 16-bit limit. */
  ghost predicate Small(buf: seq<nat>) {
    buf != [] && buf[|buf| - 1] <= 1000
  }

  lemma NoOverflow(w: nat, us: nat)
    requires w <= 2000 && MARK_EXCESS < us <= 10000
    ensures Cell((us + MARK_EXCESS) / USEC_PER_TICK) == (us + MARK_EXCESS) / USEC_PER_TICK
    ensures Cell(TruncDiv(us - MARK_EXCESS, USEC_PER_TICK)) == (us - MARK_EXCESS) / USEC_PER_TICK
    ensures Cell(w + us / USEC_PER_TICK) == w + us / USEC_PER_TICK
  {
  }

  /** One pulse of us microseconds, no cell overflowing. */
  lemma {:induction false} MergePulse(buf: seq<nat>, level: Level, us: nat)
    requires buf != [] && buf[|buf| - 1] <= 2000 && MARK_EXCESS < us <= 10000
    ensures Merge1(buf, Pulse(level, us)) ==
              if level == LevelAt(|buf| - 1) then buf[|buf| - 1 := buf[|buf| - 1] + us / USEC_PER_TICK]
              else buf + [(us + (if level == Mark then MARK_EXCESS else -MARK_EXCESS)) / USEC_PER_TICK]
  {
    NoOverflow(buf[|buf| - 1], us);
  }

  /** A pulse of at most two half-bits adds less than 40 ticks, so nothing wraps. */
  lemma {:induction false} MergeIsPush(rc: Rc, buf: seq<nat>, level: Level, k: nat)
    requires buf != [] && buf[|buf| - 1] <= 2000 && (k == 1 || k == 2)
    ensures Merge1(buf, Pulse(level, k * rc.T1())) == Push(RcCodec(rc), buf, level, k)
  {
    var us := k * rc.T1();
    assert 400 < us < 2000 by { if k == 1 {} else {} }
    MergePulse(buf, level, us);
  }

  lemma {:induction false} WidthsSmall(rc: Rc, level: Level, k: nat)
    requires k == 1 || k == 2
    ensures Initial(rc, level, k) <= 40 && k * rc.T1() / USEC_PER_TICK <= 40
  {
    match rc { case Five => case Six => }
  }

  lemma {:induction false} MergeTwo(buf: seq<nat>, e: int, f: int)
    requires buf != []
    ensures Merge(buf, [e, f]) == Merge1(Merge1(buf, e), f)
  {
    var buf1 := Merge1(buf, e);
    assert [e, f][1..] == [f] && [f][1..] == [];
    assert Merge(Merge1(buf1, f), []) == Merge1(buf1, f);
    assert Merge(buf1, [f]) == Merge1(buf1, f);
  }

  lemma {:induction false} MergeAppend(buf: seq<nat>, x: seq<int>, y: seq<int>)
    requires buf != []
    ensures Merge(buf, x + y) == Merge(Merge(buf, x), y)
    decreases x
  {
    if x == [] {
      assert x + y == y;
    } else {
      assert (x + y)[1..] == x[1..] + y;
      MergeAppend(Merge1(buf, x[0]), x[1..], y);
    }
  }

  lemma {:induction false} MergeThree(buf: seq<nat>, x: seq<int>, y: seq<int>, z: seq<int>)
    requires buf != []
    ensures Merge(buf, x + y + z) == Merge(Merge(Merge(buf, x), y), z)
  {
    MergeAppend(buf, x + y, z);
    MergeAppend(buf, x, y);
  }

  lemma {:induction false} MergeBit(rc: Rc, buf: seq<nat>, bit: bool, i: nat)
    requires Small(buf)
    ensures var buf' := PushBit(RcCodec(rc), buf, Bit(rc.First(bit), rc.Width(i)));
            Merge(buf, RcBitLog(rc, bit, i)) == buf' && Small(buf')
  {
    var level, k := rc.First(bit), rc.Width(i);
    MergeIsPush(rc, buf, level, k);
    WidthsSmall(rc, level, k);
    WidthsSmall(rc, Flip(level), k);
    var buf1 := Push(RcCodec(rc), buf, level, k);
    PushLength(RcCodec(rc), buf, level, k);
    MergeIsPush(rc, buf1, Flip(level), k);
    MergeTwo(buf, Pulse(level, k * rc.T1()), Pulse(Flip(level), k * rc.T1()));
  }

  /** On the frames of RC5 and RC6 the test channel is the abstract one. */
  lemma {:induction false} MergeBits(rc: Rc, buf: seq<nat>, bits: seq<bool>, i: nat)
    requires Small(buf)
    ensures Merge(buf, RcBitsLog(rc, bits, i)) == PushBits(RcCodec(rc), buf, LineBits(rc, bits, i))
    decreases bits
  {
    if bits != [] {
      MergeBit(rc, buf, bits[0], i);
      MergeAppend(buf, RcBitLog(rc, bits[0], i), RcBitsLog(rc, bits[1..], i + 1));
      MergeBits(rc, PushBit(RcCodec(rc), buf, Bit(rc.First(bits[0]), rc.Width(i))), bits[1..], i + 1);
    }
  }

  // ---------------------------------------------------------------- parsing

  lemma {:induction false} HalfBitOf(level: Level, k: nat, rest: seq<Option<Level>>)
    requires k == 1 || k == 2
    ensures HalfBit(Repeat(level, k) + rest, k == 2) == (Some(level), rest)
  {
    RepeatHead(level, k, rest);
    assert Repeat(level, 0) + rest == rest;
    if k == 2 {
      RepeatHead(level, 1, rest);
    }
  }

  lemma {:induction false} Rc5PairsOfSeen(bits: seq<bool>, i: nat)
    ensures Rc5Pairs(Seen(LineBits(Five, bits, i))) == Some(bits)
    decreases bits
  {
    if |bits| == 1 {
      assert Rc5Pairs([]) == Some([]);
      assert bits == [bits[0]] + [];
    } else if bits != [] {
      Rc5PairsOfSeen(bits[1..], i + 1);
      Rc5BitThen(bits[0], Seen(LineBits(Five, bits[1..], i + 1)), bits[1..]);
      assert bits == [bits[0]] + bits[1..];
    }
  }

  lemma {:induction false} Rc5BitThen(bit: bool, rest: seq<Option<Level>>, more: seq<bool>)
    requires Rc5Pairs(rest) == Some(more)
    ensures Rc5Pairs(BitCells(Bit(Five.First(bit), 1)) + rest) == Some([bit] + more)
  {
    var a := Five.First(bit);
    SeqAssoc(Repeat(a, 1), Repeat(Flip(a), 1), rest);
    HalfBitOf(a, 1, Repeat(Flip(a), 1) + rest);
    HalfBitOf(Flip(a), 1, rest);
  }

  lemma {:induction false} Rc6PairsOfSeen(bits: seq<bool>, i: nat)
    ensures Rc6Pairs(Seen(LineBits(Six, bits, i)), i) == Some(bits)
    decreases bits
  {
    if |bits| == 1 {
      Rc6LastBit(bits, i);
    } else if bits != [] {
      Rc6PairsOfSeen(bits[1..], i + 1);
      Rc6BitThen(bits[0], i, Seen(LineBits(Six, bits[1..], i + 1)), bits[1..]);
      assert bits == [bits[0]] + bits[1..];
    }
  }

  lemma {:induction false} Rc6BitThen(bit: bool, i: nat, rest: seq<Option<Level>>, more: seq<bool>)
    requires Rc6Pairs(rest, i + 1) == Some(more)
    ensures Rc6Pairs(BitCells(Bit(Six.First(bit), Six.Width(i))) + rest, i) == Some([bit] + more)
  {
    var a, k := Six.First(bit), Six.Width(i);
    SeqAssoc(Repeat(a, k), Repeat(Flip(a), k), rest);
    HalfBitOf(a, k, Repeat(Flip(a), k) + rest);
    HalfBitOf(Flip(a), k, rest);
  }

  /** The last bit may have lost its trailing space; reading past the end supplies it. */
  lemma {:induction false} Rc6LastBit(bits: seq<bool>, i: nat)
    requires |bits| == 1
    ensures Rc6Pairs(Seen(LineBits(Six, bits, i)), i) == Some(bits)
  {
    var a, k := Six.First(bits[0]), Six.Width(i);
    assert Rc6Pairs([], i + 1) == Some([]);
    assert bits == [bits[0]] + [];
    if a == Mark {
      HalfBitOf(Mark, k, []);
      assert HalfBit([], k == 2) == (Some(Space), []);
    } else {
      HalfBitOf(Space, k, Repeat(Mark, k));
      HalfBitOf(Mark, k, []);
      assert Repeat(Mark, k) + [] == Repeat(Mark, k);
    }
  }
}
