/** The four senders, logging instead of switching a pin, and the channel that turns
    the log into a receive buffer, merging neighbouring pulses of the same level. */
module IrSend {
  import opened IrTiming
  import opened IrReceive

  const SENDLOG_LEN := 128

  // ------------------------------------------------------------------- frames

  /** A pulse in the log: positive for a mark, negative for a space. */
  function Pulse(level: Level, us: int): int {
    if level == Mark then us else -us
  }

  function NecBitLog(bit: bool): seq<int> {
    [NEC_BIT_MARK, -(if bit then NEC_ONE_SPACE else NEC_ZERO_SPACE)]
  }

  function NecBitsLog(bits: seq<bool>): seq<int> {
    if bits == [] then [] else NecBitLog(bits[0]) + NecBitsLog(bits[1..])
  }

  function NecFrame(bits: seq<bool>): seq<int> {
    [NEC_HDR_MARK, -NEC_HDR_SPACE] + NecBitsLog(bits) + [NEC_BIT_MARK, 0]
  }

  function SonyBitLog(bit: bool): seq<int> {
    [if bit then SONY_ONE_MARK else SONY_ZERO_MARK, -SONY_HDR_SPACE]
  }

  function SonyBitsLog(bits: seq<bool>): seq<int> {
    if bits == [] then [] else SonyBitLog(bits[0]) + SonyBitsLog(bits[1..])
  }

  function SonyFrame(bits: seq<bool>): seq<int> {
    [SONY_HDR_MARK, -SONY_HDR_SPACE] + SonyBitsLog(bits)
  }

  /** The two biphase protocols differ in the half-bit time, in which half of a 1 is the
      mark, and in the double-wide bit 3 of RC6. */
  datatype Rc = Five | Six {
    function T1(): nat { if Five? then RC5_T1 else RC6_T1 }
    function First(bit: bool): Level { if bit == Six? then Mark else Space }
    function Width(i: nat): nat { if Six? && i == 3 then 2 else 1 }
  }

  function RcBitLog(rc: Rc, bit: bool, i: nat): seq<int> {
    [Pulse(rc.First(bit), rc.Width(i) * rc.T1()), Pulse(Flip(rc.First(bit)), rc.Width(i) * rc.T1())]
  }

  function RcBitsLog(rc: Rc, bits: seq<bool>, i: nat): seq<int>
    decreases bits
  {
    if bits == [] then [] else RcBitLog(rc, bits[0], i) + RcBitsLog(rc, bits[1..], i + 1)
  }

  function Rc5Frame(bits: seq<bool>): seq<int> {
    [RC5_T1, -RC5_T1, RC5_T1] + RcBitsLog(Five, bits, 0) + [0]
  }

  function Rc6Frame(bits: seq<bool>): seq<int> {
    [RC6_HDR_MARK, -RC6_HDR_SPACE, RC6_T1, -RC6_T1] + RcBitsLog(Six, bits, 0) + [0]
  }

  /** What the senders put on the line, in microseconds, spaces negative: NEC and Sony tell a 1 by a longer space or mark, RC5 and
      RC6 by which half of the bit is the mark, bit 3 of RC6 being twice as long. */
  lemma SentPulses(bits: seq<bool>, bit: bool, i: nat)
    ensures NecBitLog(bit) == [560, if bit then -1600 else -560]
    ensures SonyBitLog(bit) == [if bit then 1200 else 600, -600]
    ensures RcBitLog(Five, bit, i) == if bit then [-889, 889] else [889, -889]
    ensures RcBitLog(Six, bit, i) == if i == 3 then (if bit then [888, -888] else [-888, 888]) else if bit then [444, -444] else [-444, 444]
    ensures NecFrame(bits) == [9000, -4500] + NecBitsLog(bits) + [560, 0]
    ensures SonyFrame(bits) == [2400, -600] + SonyBitsLog(bits)
    ensures Rc5Frame(bits) == [889, -889, 889] + RcBitsLog(Five, bits, 0) + [0]
    ensures Rc6Frame(bits) == [2666, -889, 444, -444] + RcBitsLog(Six, bits, 0) + [0]
  {
  }

  lemma Assoc(x: seq<int>, y: seq<int>, z: seq<int>)
    ensures x + y + z == x + (y + z)
  {
  }

  lemma Framed(log: seq<int>, head: seq<int>, body: seq<int>, tail: seq<int>)
    ensures log + head + body + tail == log + (head + body + tail)
  {
  }

  // ------------------------------------------------------------------ channel

  /** C division: truncation towards zero. */
  function TruncDiv(a: int, b: int): int
    requires b > 0
  {
    if a >= 0 then a / b else -((-a) / b)
  }

  /** A tick count stored into an unsigned 16-bit cell. */
  function Cell(ticks: int): nat {
    ticks % TIMER_WRAP
  }

  /** One log entry arriving at a buffer whose last entry is a mark exactly when its length is even. */
  function Merge1(buf: seq<nat>, e: int): (buf': seq<nat>)
    requires buf != []
    ensures |buf| <= |buf'|
  {
    var last := if |buf| % 2 == 0 then Mark else Space;
    if e < 0 then
      if last == Mark then buf + [Cell(TruncDiv(-e - MARK_EXCESS, USEC_PER_TICK))]
      else buf[|buf| - 1 := Cell(buf[|buf| - 1] + -e / USEC_PER_TICK)]
    else if e > 0 then
      if last == Space then buf + [Cell((e + MARK_EXCESS) / USEC_PER_TICK)]
      else buf[|buf| - 1 := Cell(buf[|buf| - 1] + e / USEC_PER_TICK)]
    else buf
  }

  function Merge(buf: seq<nat>, log: seq<int>): (buf': seq<nat>)
    requires buf != []
    ensures |buf| <= |buf'|
    decreases log
  {
    if log == [] then buf else Merge(Merge1(buf, log[0]), log[1..])
  }

  /** A trailing space is not recorded. */
  function Trim(buf: seq<nat>): seq<nat> {
    if |buf| % 2 == 1 then buf[..|buf| - 1] else buf
  }

  function Channel(gap: nat, log: seq<int>): seq<nat> {
    Trim(Merge([gap], log))
  }

  /** Microseconds of several pulses in ticks, each rounded down. */
  function TotalTicks(us: seq<nat>): nat {
    if us == [] then 0 else TotalTicks(us[..|us| - 1]) + us[|us| - 1] / 50
  }

  function Negated(us: seq<nat>): (r: seq<int>)
    ensures |r| == |us|
  {
    seq(|us|, i requires 0 <= i < |us| => -(us[i] as int))
  }

  lemma {:induction false} MergeSnoc(buf: seq<nat>, log: seq<int>, e: int)
    requires buf != []
    ensures Merge(buf, log + [e]) == Merge1(Merge(buf, log), e)
    decreases log
  {
    if log == [] {
      assert [] + [e] == [e] && [e][1..] == [];
    } else {
      assert (log + [e])[1..] == log[1..] + [e];
      MergeSnoc(Merge1(buf, log[0]), log[1..], e);
    }
  }

  /** A RUN OF MARKS is received as one, 100 microseconds too long, in ticks modulo the 16 bits of an entry. */
  lemma {:induction false} MarksMerge(gap: nat, first: nat, more: seq<nat>)
    requires first > 0 && forall i | 0 <= i < |more| :: more[i] > 0
    ensures Merge([gap], [first as int] + more) == [gap, ((first + 100) / 50 + TotalTicks(more)) % 0x1_0000]
    decreases more
  {
    if more == [] {
      assert [first as int] + more == [] + [first];
      MergeSnoc([gap], [], first);
    } else {
      var front, last := more[..|more| - 1], more[|more| - 1];
      MarksMerge(gap, first, front);
      assert [first as int] + more == ([first as int] + front) + [last];
      MergeSnoc([gap], [first as int] + front, last);
      CellAdds((first + 100) / 50 + TotalTicks(front), last / 50);
    }
  }

  lemma CellAdds(x: int, y: int)
    ensures (x % 0x1_0000 + y) % 0x1_0000 == (x + y) % 0x1_0000
  {
  }

  /** A RUN OF SPACES is received as one, 100 microseconds too short. */
  lemma {:induction false} SpacesMerge(gap: nat, mark: nat, first: nat, more: seq<nat>)
    requires first > 0 && forall i | 0 <= i < |more| :: more[i] > 0
    ensures Merge([gap, mark], [-(first as int)] + Negated(more)) == [gap, mark, (TruncDiv(first - 100, 50) + TotalTicks(more)) % 0x1_0000]
    decreases more
  {
    if more == [] {
      assert [-(first as int)] + Negated(more) == [] + [-(first as int)];
      MergeSnoc([gap, mark], [], -(first as int));
    } else {
      var front, last := more[..|more| - 1], more[|more| - 1];
      SpacesMerge(gap, mark, first, front);
      assert [-(first as int)] + Negated(more) == ([-(first as int)] + Negated(front)) + [-(last as int)];
      MergeSnoc([gap, mark], [-(first as int)] + Negated(front), -(last as int));
      CellAdds(TruncDiv(first - 100, 50) + TotalTicks(front), last / 50);
    }
  }

  class IRsendDummy {
    const sendlog: array<int>
    var sendlogcnt: nat

    ghost predicate Valid()
      reads this
    {
      sendlog.Length == SENDLOG_LEN && sendlogcnt <= SENDLOG_LEN
    }

    ghost function Log(): seq<int>
      requires Valid()
      reads this, sendlog
    {
      sendlog[..sendlogcnt]
    }

    constructor ()
      ensures Valid() && fresh(sendlog) && Log() == []
    {
      sendlog := new int[SENDLOG_LEN](_ => 0);
      sendlogcnt := 0;
    }

    method Reset()
      requires Valid()
      modifies this
      ensures Valid() && Log() == []
    {
      sendlogcnt := 0;
    }

    method SendMark(time: int)
      requires time >= 0 && Valid() && sendlogcnt < SENDLOG_LEN
      modifies this, sendlog
      ensures Valid() && Log() == old(Log()) + [time]
    {
      sendlog[sendlogcnt] := time;
      if sendlogcnt < SENDLOG_LEN {
        sendlogcnt := sendlogcnt + 1;
      }
    }

    method SendSpace(time: int)
      requires time >= 0 && Valid() && sendlogcnt < SENDLOG_LEN
      modifies this, sendlog
      ensures Valid() && Log() == old(Log()) + [-time]
    {
      sendlog[sendlogcnt] := -time;
      if sendlogcnt < SENDLOG_LEN {
        sendlogcnt := sendlogcnt + 1;
      }
    }

    /** One turn of the NEC loop: two pulses for the top bit of data. */
    method SendNecBit(data: Word)
      requires Valid() && sendlogcnt + 2 <= SENDLOG_LEN
      modifies this, sendlog
      ensures Valid() && sendlogcnt == old(sendlogcnt) + 2
      ensures Log() == old(Log()) + NecBitLog(data >= TOPBIT)
    {
      if data >= TOPBIT {
        SendMark(NEC_BIT_MARK);
        SendSpace(NEC_ONE_SPACE);
      } else {
        SendMark(NEC_BIT_MARK);
        SendSpace(NEC_ZERO_SPACE);
      }
    }

    /** The bit loop: nbits bits from the top of data0. */
    method SendNecBits(data0: Word, nbits: nat)
      requires Valid() && sendlogcnt + 2 * nbits <= SENDLOG_LEN
      modifies this, sendlog
      ensures Valid() && sendlogcnt == old(sendlogcnt) + 2 * nbits
      ensures Log() == old(Log()) + NecBitsLog(TopBits(data0, nbits))
    {
      var data: Word := data0;
      ghost var all := old(Log()) + NecBitsLog(TopBits(data0, nbits));
      for i := 0 to nbits
        invariant Valid() && sendlogcnt == old(sendlogcnt) + 2 * i
        invariant Log() + NecBitsLog(TopBits(data, nbits - i)) == all
      {
        Assoc(Log(), NecBitLog(data >= TOPBIT), NecBitsLog(TopBits(Shl1(data), nbits - i - 1)));
        SendNecBit(data);
        data := Shl1(data);
      }
    }

    /** A mark and the space after it. */
    method SendPair(mark: int, space: int)
      requires mark >= 0 && space >= 0 && Valid() && sendlogcnt + 2 <= SENDLOG_LEN
      modifies this, sendlog
      ensures Valid() && sendlogcnt == old(sendlogcnt) + 2
      ensures Log() == old(Log()) + [mark, -space]
    {
      SendMark(mark);
      SendSpace(space);
    }

    /** NEC sends the top nbits of data as it stands. */
    method SendNEC(data0: Word, nbits: nat)
      requires Valid() && sendlogcnt + 2 * nbits + 4 <= SENDLOG_LEN
      modifies this, sendlog
      ensures Valid() && Log() == old(Log()) + NecFrame(TopBits(data0, nbits))
    {
      SendPair(NEC_HDR_MARK, NEC_HDR_SPACE);
      SendNecBits(data0, nbits);
      SendPair(NEC_BIT_MARK, 0);
      Framed(old(Log()), [NEC_HDR_MARK, -NEC_HDR_SPACE], NecBitsLog(TopBits(data0, nbits)), [NEC_BIT_MARK, 0]);
    }

    /** One turn of the Sony loop: two pulses for the top bit of data. */
    method SendSonyBit(data: Word)
      requires Valid() && sendlogcnt + 2 <= SENDLOG_LEN
      modifies this, sendlog
      ensures Valid() && sendlogcnt == old(sendlogcnt) + 2
      ensures Log() == old(Log()) + SonyBitLog(data >= TOPBIT)
    {
      if data >= TOPBIT {
        SendMark(SONY_ONE_MARK);
        SendSpace(SONY_HDR_SPACE);
      } else {
        SendMark(SONY_ZERO_MARK);
        SendSpace(SONY_HDR_SPACE);
      }
    }

    /** The bit loop: nbits bits from the top of data0. */
    method SendSonyBits(data0: Word, nbits: nat)
      requires Valid() && sendlogcnt + 2 * nbits <= SENDLOG_LEN
      modifies this, sendlog
      ensures Valid() && sendlogcnt == old(sendlogcnt) + 2 * nbits
      ensures Log() == old(Log()) + SonyBitsLog(TopBits(data0, nbits))
    {
      var data: Word := data0;
      ghost var all := old(Log()) + SonyBitsLog(TopBits(data0, nbits));
      for i := 0 to nbits
        invariant Valid() && sendlogcnt == old(sendlogcnt) + 2 * i
        invariant Log() + SonyBitsLog(TopBits(data, nbits - i)) == all
      {
        Assoc(Log(), SonyBitLog(data >= TOPBIT), SonyBitsLog(TopBits(Shl1(data), nbits - i - 1)));
        SendSonyBit(data);
        data := Shl1(data);
      }
    }

    method SendSony(data0: Word, nbits: nat)
      requires Valid() && 1 <= nbits <= 32 && sendlogcnt + 2 * nbits + 2 <= SENDLOG_LEN
      modifies this, sendlog
      ensures Valid() && Log() == old(Log()) + SonyFrame(TopBits(Shl(data0, 32 - nbits), nbits))
    {
      SendMark(SONY_HDR_MARK);
      SendSpace(SONY_HDR_SPACE);
      SendSonyBits(Shl(data0, 32 - nbits), nbits);
      ghost var all := SonyBitsLog(TopBits(Shl(data0, 32 - nbits), nbits));
      assert Log() == old(Log()) + ([SONY_HDR_MARK, -SONY_HDR_SPACE] + all);
    }

    /** One turn of the RC5 loop: two pulses for the top bit of data. */
    method SendRc5Bit(data: Word, i: nat)
      requires Valid() && sendlogcnt + 2 <= SENDLOG_LEN
      modifies this, sendlog
      ensures Valid() && sendlogcnt == old(sendlogcnt) + 2
      ensures Log() == old(Log()) + RcBitLog(Five, data >= TOPBIT, i)
    {
      if data >= TOPBIT {
        SendSpace(RC5_T1);
        SendMark(RC5_T1);
      } else {
        SendMark(RC5_T1);
        SendSpace(RC5_T1);
      }
    }

    /** The bit loop: nbits bits from the top of data0. */
    method SendRc5Bits(data0: Word, nbits: nat)
      requires Valid() && sendlogcnt + 2 * nbits <= SENDLOG_LEN
      modifies this, sendlog
      ensures Valid() && sendlogcnt == old(sendlogcnt) + 2 * nbits
      ensures Log() == old(Log()) + RcBitsLog(Five, TopBits(data0, nbits), 0)
    {
      var data: Word := data0;
      ghost var all := old(Log()) + RcBitsLog(Five, TopBits(data0, nbits), 0);
      for i := 0 to nbits
        invariant Valid() && sendlogcnt == old(sendlogcnt) + 2 * i
        invariant Log() + RcBitsLog(Five, TopBits(data, nbits - i), i) == all
      {
        Assoc(Log(), RcBitLog(Five, data >= TOPBIT, i), RcBitsLog(Five, TopBits(Shl1(data), nbits - i - 1), i + 1));
        SendRc5Bit(data, i);
        data := Shl1(data);
      }
    }

    /** Two start bits, of which only one half shows. */
    method SendRc5Start()
      requires Valid() && sendlogcnt + 3 <= SENDLOG_LEN
      modifies this, sendlog
      ensures Valid() && sendlogcnt == old(sendlogcnt) + 3 && Log() == old(Log()) + [RC5_T1, -RC5_T1, RC5_T1]
    {
      SendPair(RC5_T1, RC5_T1);
      SendMark(RC5_T1);
      Assoc(old(Log()), [RC5_T1, -RC5_T1], [RC5_T1]);
      assert [RC5_T1, -RC5_T1] + [RC5_T1] == [RC5_T1, -RC5_T1, RC5_T1];
    }

    method SendRC5(data0: Word, nbits: nat)
      requires Valid() && 1 <= nbits <= 32 && sendlogcnt + 2 * nbits + 4 <= SENDLOG_LEN
      modifies this, sendlog
      ensures Valid() && Log() == old(Log()) + Rc5Frame(TopBits(Shl(data0, 32 - nbits), nbits))
    {
      SendRc5Start();
      SendRc5Bits(Shl(data0, 32 - nbits), nbits);
      SendSpace(0);
      Framed(old(Log()), [RC5_T1, -RC5_T1, RC5_T1], RcBitsLog(Five, TopBits(Shl(data0, 32 - nbits), nbits), 0), [0]);
    }

    /** One turn of the RC6 loop: two pulses for the top bit of data. */
    method SendRc6Bit(data: Word, i: nat)
      requires Valid() && sendlogcnt + 2 <= SENDLOG_LEN
      modifies this, sendlog
      ensures Valid() && sendlogcnt == old(sendlogcnt) + 2
      ensures Log() == old(Log()) + RcBitLog(Six, data >= TOPBIT, i)
    {
      var t;
      if i == 3 {
        t := 2 * RC6_T1;
      } else {
        t := RC6_T1;
      }
      if data >= TOPBIT {
        SendMark(t);
        SendSpace(t);
      } else {
        SendSpace(t);
        SendMark(t);
      }
    }

    /** The bit loop: nbits bits from the top of data0. */
    method SendRc6Bits(data0: Word, nbits: nat)
      requires Valid() && sendlogcnt + 2 * nbits <= SENDLOG_LEN
      modifies this, sendlog
      ensures Valid() && sendlogcnt == old(sendlogcnt) + 2 * nbits
      ensures Log() == old(Log()) + RcBitsLog(Six, TopBits(data0, nbits), 0)
    {
      var data: Word := data0;
      ghost var all := old(Log()) + RcBitsLog(Six, TopBits(data0, nbits), 0);
      for i := 0 to nbits
        invariant Valid() && sendlogcnt == old(sendlogcnt) + 2 * i
        invariant Log() + RcBitsLog(Six, TopBits(data, nbits - i), i) == all
      {
        Assoc(Log(), RcBitLog(Six, data >= TOPBIT, i), RcBitsLog(Six, TopBits(Shl1(data), nbits - i - 1), i + 1));
        SendRc6Bit(data, i);
        data := Shl1(data);
      }
    }

    /** The header and the start bit. */
    method SendRc6Start()
      requires Valid() && sendlogcnt + 4 <= SENDLOG_LEN
      modifies this, sendlog
      ensures Valid() && sendlogcnt == old(sendlogcnt) + 4
      ensures Log() == old(Log()) + [RC6_HDR_MARK, -RC6_HDR_SPACE, RC6_T1, -RC6_T1]
    {
      SendPair(RC6_HDR_MARK, RC6_HDR_SPACE);
      SendPair(RC6_T1, RC6_T1);
      Assoc(old(Log()), [RC6_HDR_MARK, -RC6_HDR_SPACE], [RC6_T1, -RC6_T1]);
      assert [RC6_HDR_MARK, -RC6_HDR_SPACE] + [RC6_T1, -RC6_T1] == [RC6_HDR_MARK, -RC6_HDR_SPACE, RC6_T1, -RC6_T1];
    }

    method SendRC6(data0: Word, nbits: nat)
      requires Valid() && 1 <= nbits <= 32 && sendlogcnt + 2 * nbits + 5 <= SENDLOG_LEN
      modifies this, sendlog
      ensures Valid() && Log() == old(Log()) + Rc6Frame(TopBits(Shl(data0, 32 - nbits), nbits))
    {
      SendRc6Start();
      SendRc6Bits(Shl(data0, 32 - nbits), nbits);
      SendSpace(0);
      Framed(old(Log()), [RC6_HDR_MARK, -RC6_HDR_SPACE, RC6_T1, -RC6_T1],
             RcBitsLog(Six, TopBits(Shl(data0, 32 - nbits), nbits), 0), [0]);
    }

    /** One log entry: a new run, or more of the run in progress. */
    static method MergeEntry(irparams: IrParams, last0: Level, e: int) returns (last: Level)
      requires irparams.Valid() && irparams.rawlen > 0
      requires last0 == if irparams.rawlen % 2 == 0 then Mark else Space
      requires |Merge1(irparams.View().raw, e)| <= RAWBUF
      modifies irparams`rawlen, irparams.rawbuf
      ensures irparams.Valid() && irparams.rawlen > 0
      ensures last == if irparams.rawlen % 2 == 0 then Mark else Space
      ensures irparams.View().raw == Merge1(old(irparams.View().raw), e)
    {
      var rawbuf := irparams.rawbuf;
      last := last0;
      if e < 0 {
        if last == Mark {
          rawbuf[irparams.rawlen] := Cell(TruncDiv(-e - MARK_EXCESS, USEC_PER_TICK));
          irparams.rawlen := irparams.rawlen + 1;
          last := Space;
        } else {
          rawbuf[irparams.rawlen - 1] := Cell(rawbuf[irparams.rawlen - 1] + -e / USEC_PER_TICK);
        }
      } else if e > 0 {
        if last == Space {
          rawbuf[irparams.rawlen] := Cell((e + MARK_EXCESS) / USEC_PER_TICK);
          irparams.rawlen := irparams.rawlen + 1;
          last := Mark;
        } else {
          rawbuf[irparams.rawlen - 1] := Cell(rawbuf[irparams.rawlen - 1] + e / USEC_PER_TICK);
        }
      }
    }

    /** Copies the log into the receive buffer as if the interrupt had just recorded it. */
    method UseDummyBuf(irparams: IrParams)
      requires Valid() && irparams.Valid()
      requires |Merge([irparams.rawbuf[0]], Log())| <= RAWBUF
      modifies irparams, irparams.rawbuf
      ensures irparams.Valid()
      ensures irparams.rcvstate == StateStop
      ensures irparams.View().raw == Channel(old(irparams.rawbuf[0]), Log())
    {
      var rawbuf := irparams.rawbuf;
      ghost var all := Merge([rawbuf[0]], Log());
      assert sendlog[0..sendlogcnt] == Log();
      var last := Space;
      irparams.rcvstate := StateStop;
      irparams.rawlen := 1;
      assert irparams.View().raw == [rawbuf[0]];
      for i := 0 to sendlogcnt
        invariant Valid() && irparams.Valid() && irparams.rcvstate == StateStop
        invariant irparams.rawlen > 0
        invariant last == if irparams.rawlen % 2 == 0 then Mark else Space
        invariant Merge(irparams.View().raw, sendlog[i..sendlogcnt]) == all
        modifies irparams, rawbuf
      {
        assert sendlog[i..sendlogcnt][1..] == sendlog[i + 1..sendlogcnt];
        last := MergeEntry(irparams, last, sendlog[i]);
      }
      if irparams.rawlen % 2 == 1 {
        irparams.rawlen := irparams.rawlen - 1;
      }
    }
  }
}
