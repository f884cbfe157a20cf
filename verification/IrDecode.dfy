/** The four tolerant decoders and the order in which they are tried. Each method works
    on rawbuf with cursors, as the library does; each specification speaks only of the
    recorded entries, so no stale entry behind rawlen can influence a result. */
module IrDecode {
  import opened Wrappers
  import opened IrTiming
  import opened IrReceive

  datatype Kind = NEC | SONY | RC5 | RC6 | UNKNOWN

  datatype Decoded = Decoded(kind: Kind, value: Word, bits: nat)

  const REPEAT: Word := 0xffff_ffff

  // ----------------------------------------------------------------------- NEC

  /** Bit i of a NEC frame: a bit mark, then a long or a short space. */
  function NecBit(raw: seq<nat>, i: nat): Option<bool>
    requires 2 * i + 4 < |raw|
  {
    if !MatchMark(raw[2 * i + 3], NEC_BIT_MARK) then None
    else if MatchSpace(raw[2 * i + 4], NEC_ONE_SPACE) then Some(true)
    else if MatchSpace(raw[2 * i + 4], NEC_ZERO_SPACE) then Some(false)
    else None
  }

  function NecBits(raw: seq<nat>, n: nat): Option<seq<bool>>
    requires 2 * n + 3 <= |raw|
  {
    if n == 0 then Some([])
    else match NecBits(raw, n - 1)
      case None => None
      case Some(bits) =>
        match NecBit(raw, n - 1)
        case None => None
        case Some(b) => Some(bits + [b])
  }

  function DecodeNecSpec(raw: seq<nat>): Option<Decoded> {
    if |raw| == 4 && MatchMark(raw[1], NEC_HDR_MARK) && MatchSpace(raw[2], NEC_RPT_SPACE) && MatchMark(raw[3], NEC_BIT_MARK) then
      Some(Decoded(NEC, REPEAT, 0))
    else if |raw| < 2 * NEC_BITS + 4 || !MatchMark(raw[1], NEC_HDR_MARK) || !MatchSpace(raw[2], NEC_HDR_SPACE) then None
    else match NecBits(raw, NEC_BITS)
      case None => None
      case Some(bits) => Some(Decoded(NEC, WordValue(bits), NEC_BITS))
  }

  // ---------------------------------------------------------------------- Sony

  /** The space/mark pairs from entry 2 + 2i on, until the buffer or the one-unit spaces end. */
  function SonyBits(raw: seq<nat>, i: nat): Option<seq<bool>>
    decreases |raw| - 2 * i
  {
    if 2 * i + 3 >= |raw| || !MatchSpace(raw[2 * i + 2], SONY_HDR_SPACE) then Some([])
    else if !MatchMark(raw[2 * i + 3], SONY_ONE_MARK) && !MatchMark(raw[2 * i + 3], SONY_ZERO_MARK) then None
    else match SonyBits(raw, i + 1)
      case None => None
      case Some(bits) => Some([MatchMark(raw[2 * i + 3], SONY_ONE_MARK)] + bits)
  }

  function DecodeSonySpec(raw: seq<nat>): Option<Decoded> {
    if |raw| < 2 * SONY_BITS + 2 || !MatchMark(raw[1], SONY_HDR_MARK) then None
    else match SonyBits(raw, 0)
      case None => None
      case Some(bits) => if |bits| < 12 then None else Some(Decoded(SONY, WordValue(bits), |bits|))
  }

  // ------------------------------------------------------------- RC level stream

  function LevelAt(i: nat): Level {
    if i % 2 == 1 then Mark else Space
  }

  /** How many half-bits of t1 microseconds a width stands for; 0 if for none. */
  function Avail(level: Level, width: nat, t1: nat): nat
    requires t1 >= MARK_EXCESS
  {
    var correction := if level == Mark then MARK_EXCESS else -MARK_EXCESS;
    if Match(width, t1 + correction) then 1
    else if Match(width, 2 * t1 + correction) then 2
    else if Match(width, 3 * t1 + correction) then 3
    else 0
  }

  function Repeat(level: Level, n: nat): (s: seq<Option<Level>>)
    ensures |s| == n
  {
    if n == 0 then [] else [Some(level)] + Repeat(level, n - 1)
  }

  /** Avail for one protocol, as a classifier of widths. */
  function Counter(t1: nat): (Level, nat) -> nat
    requires t1 >= MARK_EXCESS
  {
    (level, width) => Avail(level, width, t1)
  }

  /** The half-bit levels still ahead of the two cursors, for any classifier of widths; the stream
      ends at the first width that stands for none. */
  function Stream(raw: seq<nat>, offset: nat, used: nat, avail: (Level, nat) -> nat): seq<Option<Level>>
    decreases |raw| - offset
  {
    if offset >= |raw| then []
    else
      var n := avail(LevelAt(offset), raw[offset]);
      if n == 0 then [None]
      else Repeat(LevelAt(offset), if used < n then n - used else 0) + Stream(raw, offset + 1, 0, avail)
  }

  /** Reading one level: past the end it is a space, a bad width stays put and reads as an error. */
  function Next(s: seq<Option<Level>>): (Option<Level>, seq<Option<Level>>) {
    if s == [] then (Some(Space), []) else if s[0] == None then (None, s) else (s[0], s[1..])
  }

  ghost predicate Cursor(raw: seq<nat>, offset: nat, used: nat, avail: (Level, nat) -> nat) {
    used == 0 || (offset < |raw| && used < avail(LevelAt(offset), raw[offset]))
  }

  /** Pairs of half-bits, space-mark for 1 and mark-space for 0. */
  function Rc5Pairs(s: seq<Option<Level>>): Option<seq<bool>>
    decreases |s|
  {
    if s == [] then Some([])
    else
      var (a, s1) := Next(s);
      var (b, s2) := Next(s1);
      if (a == Some(Space) && b == Some(Mark)) || (a == Some(Mark) && b == Some(Space)) then
        match Rc5Pairs(s2)
        case None => None
        case Some(bits) => Some([b == Some(Mark)] + bits)
      else None
  }

  /** Two start bits, then the data bits. */
  function Rc5FrameBits(s: seq<Option<Level>>): Option<Decoded> {
    var (a, s1) := Next(s);
    var (b, s2) := Next(s1);
    var (c, s3) := Next(s2);
    if a != Some(Mark) || b != Some(Space) || c != Some(Mark) then None
    else match Rc5Pairs(s3)
      case None => None
      case Some(bits) => Some(Decoded(RC5, WordValue(bits), |bits|))
  }

  function DecodeRc5Spec(raw: seq<nat>): Option<Decoded> {
    if |raw| < MIN_RC5_SAMPLES + 2 then None else Rc5FrameBits(Stream(raw, 1, 0, Counter(RC5_T1)))
  }

  /** One half of a bit: a single level, or for the double-wide trailer two equal ones. */
  function HalfBit(s: seq<Option<Level>>, double: bool): (Option<Level>, seq<Option<Level>>) {
    var (a, s1) := Next(s);
    if !double then (a, s1)
    else
      var (a', s2) := Next(s1);
      if a == a' then (a, s2) else (None, s2)
  }

  /** Pairs of half-bits from bit i on, mark-space for 1 and space-mark for 0; bit 3 is double-wide. */
  function Rc6Pairs(s: seq<Option<Level>>, i: nat): Option<seq<bool>>
    decreases |s|
  {
    if s == [] then Some([])
    else
      var (a, s1) := HalfBit(s, i == 3);
      var (b, s2) := HalfBit(s1, i == 3);
      if (a == Some(Mark) && b == Some(Space)) || (a == Some(Space) && b == Some(Mark)) then
        match Rc6Pairs(s2, i + 1)
        case None => None
        case Some(bits) => Some([a == Some(Mark)] + bits)
      else None
  }

  /** After the header: a start bit, then the data bits. */
  function Rc6FrameBits(s: seq<Option<Level>>): Option<Decoded> {
    var (a, s1) := Next(s);
    var (b, s2) := Next(s1);
    if a != Some(Mark) || b != Some(Space) then None
    else match Rc6Pairs(s2, 0)
      case None => None
      case Some(bits) => Some(Decoded(RC6, WordValue(bits), |bits|))
  }

  function DecodeRc6Spec(raw: seq<nat>): Option<Decoded> {
    if |raw| < 3 || !MatchMark(raw[1], RC6_HDR_MARK) || !MatchSpace(raw[2], RC6_HDR_SPACE) then None
    else Rc6FrameBits(Stream(raw, 3, 0, Counter(RC6_T1)))
  }

  /** The decoders in their fixed order; anything else of six entries or more is reported undecoded. */
  function DecodeSpec(raw: seq<nat>): Option<Decoded> {
    if DecodeNecSpec(raw).Some? then DecodeNecSpec(raw)
    else if DecodeSonySpec(raw).Some? then DecodeSonySpec(raw)
    else if DecodeRc5Spec(raw).Some? then DecodeRc5Spec(raw)
    else if DecodeRc6Spec(raw).Some? then DecodeRc6Spec(raw)
    else if |raw| >= 6 then Some(Decoded(UNKNOWN, 0, 0))
    else None
  }

  // -------------------------------------------------------------------- methods

  /** What decode reports, kept from one call to the next. */
  class DecodeResults {
    var kind: Kind
    var value: Word
    var bits: nat

    constructor (d: Decoded)
      ensures View() == d
    {
      kind, value, bits := d.kind, d.value, d.bits;
    }

    function View(): Decoded
      reads this
    {
      Decoded(kind, value, bits)
    }

    method Set(d: Decoded)
      modifies this
      ensures View() == d
    {
      kind, value, bits := d.kind, d.value, d.bits;
    }
  }

  lemma {:induction false} NecBitsFail(raw: seq<nat>, k: nat, n: nat)
    requires k <= n && 2 * n + 3 <= |raw| && NecBits(raw, k) == None
    ensures NecBits(raw, n) == None
    decreases n
  {
    if k < n { NecBitsFail(raw, k, n - 1); }
  }

  method DecodeNEC(irparams: IrParams) returns (r: Option<Decoded>)
    requires irparams.Valid()
    ensures r == DecodeNecSpec(irparams.View().raw)
  {
    ghost var raw := irparams.View().raw;
    var rawbuf, rawlen := irparams.rawbuf, irparams.rawlen;
    var data: Word := 0;
    var offset := 1;
    if !MatchMark(rawbuf[offset], NEC_HDR_MARK) {
      return None;
    }
    offset := offset + 1;
    if rawlen == 4 && MatchSpace(rawbuf[offset], NEC_RPT_SPACE) && MatchMark(rawbuf[offset + 1], NEC_BIT_MARK) {
      return Some(Decoded(NEC, REPEAT, 0));
    }
    if rawlen < 2 * NEC_BITS + 4 {
      return None;
    }
    if !MatchSpace(rawbuf[offset], NEC_HDR_SPACE) {
      return None;
    }
    offset := offset + 1;
    ghost var bits := [];
    for i := 0 to NEC_BITS
      invariant offset == 2 * i + 3
      invariant NecBits(raw, i) == Some(bits) && data == WordValue(bits)
    {
      assert NecBits(raw, i + 1) == match NecBit(raw, i) case None => None case Some(b) => Some(bits + [b]);
      if NecBit(raw, i) == None { NecBitsFail(raw, i + 1, NEC_BITS); }
      WordValueSnoc(bits, true);
      WordValueSnoc(bits, false);
      if !MatchMark(rawbuf[offset], NEC_BIT_MARK) {
        return None;
      }
      offset := offset + 1;
      if MatchSpace(rawbuf[offset], NEC_ONE_SPACE) {
        data := Shl1(data) + 1;
        bits := bits + [true];
      } else if MatchSpace(rawbuf[offset], NEC_ZERO_SPACE) {
        data := Shl1(data);
        bits := bits + [false];
      } else {
        return None;
      }
      offset := offset + 1;
    }
    r := Some(Decoded(NEC, data, NEC_BITS));
  }

  /** What the rest of the loop makes of the bits already read. */
  function Prefixed(bits: seq<bool>, rest: Option<seq<bool>>): Option<seq<bool>> {
    match rest
    case None => None
    case Some(more) => Some(bits + more)
  }

  lemma {:induction false} PrefixedEmpty(rest: Option<seq<bool>>, bits: seq<bool>)
    ensures Prefixed([], rest) == rest && Prefixed(bits, Some([])) == Some(bits)
  {
    assert bits + [] == bits;
    if rest.Some? { assert [] + rest.value == rest.value; }
  }

  lemma {:induction false} PrefixedStep(bits: seq<bool>, b: bool, rest: Option<seq<bool>>)
    ensures Prefixed(bits, Prefixed([b], rest)) == Prefixed(bits + [b], rest)
  {
    if rest.Some? {
      assert bits + ([b] + rest.value) == bits + [b] + rest.value;
    }
  }

  /** What a Sony attempt that fails leaves in the results: a frame that ends too soon clears the count. */
  function SonyLeaves(raw: seq<nat>, d: Decoded): Decoded {
    if |raw| >= 2 * SONY_BITS + 2 && MatchMark(raw[1], SONY_HDR_MARK) && SonyBits(raw, 0).Some? then d.(bits := 0) else d
  }

  method DecodeSony(irparams: IrParams, results: DecodeResults) returns (decoded: bool)
    requires irparams.Valid()
    modifies results
    ensures decoded <==> DecodeSonySpec(irparams.View().raw).Some?
    ensures decoded ==> results.View() == DecodeSonySpec(irparams.View().raw).value
    ensures !decoded ==> results.View() == SonyLeaves(irparams.View().raw, old(results.View()))
  {
    if irparams.rawlen < 2 * SONY_BITS + 2 {
      return false;
    }
    var offset := 1;
    if !MatchMark(irparams.rawbuf[offset], SONY_HDR_MARK) {
      return false;
    }
    var ok, data, count := ReadSonyBits(irparams, irparams.View().raw);
    if !ok {
      return false;
    }
    results.bits := count;
    if results.bits < 12 {
      results.bits := 0;
      return false;
    }
    results.value, results.kind := data, SONY;
    decoded := true;
  }

  /** The space/mark loop, from the first space after the header on. */
  method ReadSonyBits(irparams: IrParams, ghost raw: seq<nat>) returns (ok: bool, data: Word, count: nat)
    requires irparams.Valid() && raw == irparams.View().raw
    ensures ok <==> SonyBits(raw, 0).Some?
    ensures ok ==> data == WordValue(SonyBits(raw, 0).value) && count == |SonyBits(raw, 0).value|
  {
    var rawbuf, rawlen := irparams.rawbuf, irparams.rawlen;
    data := 0;
    var offset := 2;
    ghost var bits := [];
    PrefixedEmpty(SonyBits(raw, 0), []);
    while offset + 1 < rawlen
      invariant offset == 2 * |bits| + 2
      invariant data == WordValue(bits)
      invariant SonyBits(raw, 0) == Prefixed(bits, SonyBits(raw, |bits|))
      decreases rawlen - offset
    {
      if !MatchSpace(rawbuf[offset], SONY_HDR_SPACE) {
        break;
      }
      offset := offset + 1;
      SonyBitsStep(raw, bits);
      if MatchMark(rawbuf[offset], SONY_ONE_MARK) {
        WordValueSnoc(bits, true);
        bits := bits + [true];
        data := Shl1(data) + 1;
      } else if MatchMark(rawbuf[offset], SONY_ZERO_MARK) {
        WordValueSnoc(bits, false);
        bits := bits + [false];
        data := Shl1(data);
      } else {
        return false, 0, 0;
      }
      offset := offset + 1;
    }
    PrefixedEmpty(None, bits);
    ok, count := true, (offset - 1) / 2;
  }

  lemma {:induction false} SonyBitsStep(raw: seq<nat>, bits: seq<bool>)
    requires 2 * |bits| + 3 < |raw| && MatchSpace(raw[2 * |bits| + 2], SONY_HDR_SPACE)
    ensures Prefixed(bits, SonyBits(raw, |bits|))
         == if MatchMark(raw[2 * |bits| + 3], SONY_ONE_MARK) then Prefixed(bits + [true], SonyBits(raw, |bits| + 1))
            else if MatchMark(raw[2 * |bits| + 3], SONY_ZERO_MARK) then Prefixed(bits + [false], SonyBits(raw, |bits| + 1))
            else None
  {
    PrefixedStep(bits, true, SonyBits(raw, |bits| + 1));
    PrefixedStep(bits, false, SonyBits(raw, |bits| + 1));
  }

  /** The thresholds of the three widths, tried in turn. */
  method CountHalfBits(width: nat, val: Level, t1: nat) returns (avail: nat)
    requires t1 >= MARK_EXCESS
    ensures avail == Counter(t1)(val, width)
  {
    var correction := if val == Mark then MARK_EXCESS else -MARK_EXCESS;
    if Match(width, t1 + correction) {
      avail := 1;
    } else if Match(width, 2 * t1 + correction) {
      avail := 2;
    } else if Match(width, 3 * t1 + correction) {
      avail := 3;
    } else {
      avail := 0;
    }
  }

  /** One undecoded level; the cursors move on by exactly one half-bit. */
  method GetRClevel(irparams: IrParams, offset: nat, used: nat, t1: nat)
    returns (level: Option<Level>, offset': nat, used': nat)
    requires irparams.Valid() && t1 >= MARK_EXCESS && Cursor(irparams.View().raw, offset, used, Counter(t1))
    ensures Cursor(irparams.View().raw, offset', used', Counter(t1))
    ensures (level, Stream(irparams.View().raw, offset', used', Counter(t1))) == Next(Stream(irparams.View().raw, offset, used, Counter(t1)))
  {
    offset', used' := offset, used;
    if offset >= irparams.rawlen {
      return Some(Space), offset, used;
    }
    var width := irparams.rawbuf[offset];
    var val := if offset % 2 == 1 then Mark else Space;
    var avail := CountHalfBits(width, val, t1);
    if avail == 0 {
      return None, offset, used;
    }
    StreamStep(irparams.View().raw, offset, used, Counter(t1));
    used' := used' + 1;
    if used' >= avail {
      used' := 0;
      offset' := offset' + 1;
    }
    level := Some(val);
  }

  lemma {:induction false} StreamStep(raw: seq<nat>, offset: nat, used: nat, avail: (Level, nat) -> nat)
    requires offset < |raw| && used < avail(LevelAt(offset), raw[offset])
    ensures Next(Stream(raw, offset, used, avail))
         == (Some(LevelAt(offset)), if used + 1 < avail(LevelAt(offset), raw[offset]) then Stream(raw, offset, used + 1, avail)
                                    else Stream(raw, offset + 1, 0, avail))
  {
    var n := avail(LevelAt(offset), raw[offset]);
    RepeatHead(LevelAt(offset), n - used, Stream(raw, offset + 1, 0, avail));
    assert [] + Stream(raw, offset + 1, 0, avail) == Stream(raw, offset + 1, 0, avail);
  }

  lemma {:induction false} RepeatHead(level: Level, n: nat, rest: seq<Option<Level>>)
    requires n > 0
    ensures Next(Repeat(level, n) + rest) == (Some(level), Repeat(level, n - 1) + rest)
  {
    assert (Repeat(level, n) + rest)[1..] == Repeat(level, n - 1) + rest;
  }

  /** Levels remain exactly while the first cursor is inside the buffer. */
  lemma StreamEmpty(raw: seq<nat>, offset: nat, used: nat, avail: (Level, nat) -> nat)
    requires Cursor(raw, offset, used, avail)
    ensures Stream(raw, offset, used, avail) == [] <==> offset >= |raw|
  {
  }

  /** One turn of the RC5 loop. */
  method ReadRc5Bit(irparams: IrParams, offset: nat, used: nat) returns (ok: bool, bit: bool, offset': nat, used': nat)
    requires irparams.Valid() && Cursor(irparams.View().raw, offset, used, Counter(RC5_T1)) && offset < irparams.rawlen
    ensures Cursor(irparams.View().raw, offset', used', Counter(RC5_T1))
    ensures var s := Stream(irparams.View().raw, offset, used, Counter(RC5_T1));
            var s' := Stream(irparams.View().raw, offset', used', Counter(RC5_T1));
            Rc5Pairs(s) == (if ok then Prefixed([bit], Rc5Pairs(s')) else None) && (ok ==> |s'| < |s|)
  {
    StreamEmpty(irparams.View().raw, offset, used, Counter(RC5_T1));
    var levelA, levelB;
    levelA, offset', used' := GetRClevel(irparams, offset, used, RC5_T1);
    levelB, offset', used' := GetRClevel(irparams, offset', used', RC5_T1);
    Rc5PairsStep(Stream(irparams.View().raw, offset, used, Counter(RC5_T1)));
    ok, bit := true, true;
    if levelA == Some(Space) && levelB == Some(Mark) {
      bit := true;
    } else if levelA == Some(Mark) && levelB == Some(Space) {
      bit := false;
    } else {
      ok := false;
    }
  }

  lemma Rc5PairsStep(s: seq<Option<Level>>)
    requires s != []
    ensures var (a, s1) := Next(s);
            var (b, s2) := Next(s1);
            var ok := (a == Some(Space) && b == Some(Mark)) || (a == Some(Mark) && b == Some(Space));
            Rc5Pairs(s) == (if ok then Prefixed([b == Some(Mark)], Rc5Pairs(s2)) else None) && (ok ==> |s2| < |s|)
  {
  }

  method DecodeRC5(irparams: IrParams) returns (r: Option<Decoded>)
    requires irparams.Valid()
    ensures r == DecodeRc5Spec(irparams.View().raw)
  {
    ghost var raw := irparams.View().raw;
    if irparams.rawlen < MIN_RC5_SAMPLES + 2 {
      return None;
    }
    var offset: nat, used: nat := 1, 0;
    var level;
    level, offset, used := GetRClevel(irparams, offset, used, RC5_T1);
    if level != Some(Mark) { return None; }
    level, offset, used := GetRClevel(irparams, offset, used, RC5_T1);
    if level != Some(Space) { return None; }
    level, offset, used := GetRClevel(irparams, offset, used, RC5_T1);
    if level != Some(Mark) { return None; }
    r := ReadRc5Bits(irparams, offset, used);
  }

  method ReadRc5Bits(irparams: IrParams, offset0: nat, used0: nat) returns (r: Option<Decoded>)
    requires irparams.Valid() && Cursor(irparams.View().raw, offset0, used0, Counter(RC5_T1))
    ensures r == match Rc5Pairs(Stream(irparams.View().raw, offset0, used0, Counter(RC5_T1)))
                 case None => None
                 case Some(bits) => Some(Decoded(RC5, WordValue(bits), |bits|))
  {
    ghost var raw := irparams.View().raw;
    var offset: nat, used: nat := offset0, used0;
    ghost var bits := [];
    var data: Word := 0;
    var nbits := 0;
    PrefixedEmpty(Rc5Pairs(Stream(raw, offset, used, Counter(RC5_T1))), []);
    while offset < irparams.rawlen
      invariant Cursor(raw, offset, used, Counter(RC5_T1))
      invariant nbits == |bits| && data == WordValue(bits)
      invariant Rc5Pairs(Stream(raw, offset0, used0, Counter(RC5_T1))) == Prefixed(bits, Rc5Pairs(Stream(raw, offset, used, Counter(RC5_T1))))
      decreases |Stream(raw, offset, used, Counter(RC5_T1))|
    {
      var ok, bit;
      ok, bit, offset, used := ReadRc5Bit(irparams, offset, used);
      if !ok { return None; }
      PrefixedStep(bits, bit, Rc5Pairs(Stream(raw, offset, used, Counter(RC5_T1))));
      WordValueSnoc(bits, bit);
      data := Shl1(data) + (if bit then 1 else 0);
      bits := bits + [bit];
      nbits := nbits + 1;
    }
    StreamEmpty(raw, offset, used, Counter(RC5_T1));
    PrefixedEmpty(None, bits);
    r := Some(Decoded(RC5, data, nbits));
  }

  /** One half of bit nbits, with the early exit for a trailer whose two halves differ. */
  method GetHalfBit(irparams: IrParams, offset: nat, used: nat, double: bool)
    returns (level: Option<Level>, offset': nat, used': nat, mismatch: bool)
    requires irparams.Valid() && Cursor(irparams.View().raw, offset, used, Counter(RC6_T1))
    ensures Cursor(irparams.View().raw, offset', used', Counter(RC6_T1))
    ensures (if mismatch then None else level, Stream(irparams.View().raw, offset', used', Counter(RC6_T1)))
         == HalfBit(Stream(irparams.View().raw, offset, used, Counter(RC6_T1)), double)
  {
    mismatch := false;
    level, offset', used' := GetRClevel(irparams, offset, used, RC6_T1);
    if double {
      var second;
      second, offset', used' := GetRClevel(irparams, offset', used', RC6_T1);
      mismatch := level != second;
    }
  }

  /** One turn of the RC6 loop. */
  method ReadRc6Bit(irparams: IrParams, offset: nat, used: nat, nbits: nat) returns (ok: bool, bit: bool, offset': nat, used': nat)
    requires irparams.Valid() && Cursor(irparams.View().raw, offset, used, Counter(RC6_T1)) && offset < irparams.rawlen
    ensures Cursor(irparams.View().raw, offset', used', Counter(RC6_T1))
    ensures var s := Stream(irparams.View().raw, offset, used, Counter(RC6_T1));
            var s' := Stream(irparams.View().raw, offset', used', Counter(RC6_T1));
            Rc6Pairs(s, nbits) == (if ok then Prefixed([bit], Rc6Pairs(s', nbits + 1)) else None) && (ok ==> |s'| < |s|)
  {
    StreamEmpty(irparams.View().raw, offset, used, Counter(RC6_T1));
    Rc6PairsStep(Stream(irparams.View().raw, offset, used, Counter(RC6_T1)), nbits);
    ok, bit := false, false;
    var levelA, levelB, mismatch;
    levelA, offset', used', mismatch := GetHalfBit(irparams, offset, used, nbits == 3);
    if mismatch { return; }
    levelB, offset', used', mismatch := GetHalfBit(irparams, offset', used', nbits == 3);
    if mismatch { return; }
    if levelA == Some(Mark) && levelB == Some(Space) {
      ok, bit := true, true;
    } else if levelA == Some(Space) && levelB == Some(Mark) {
      ok, bit := true, false;
    }
  }

  lemma Rc6PairsStep(s: seq<Option<Level>>, i: nat)
    requires s != []
    ensures var (a, s1) := HalfBit(s, i == 3);
            var (b, s2) := HalfBit(s1, i == 3);
            var ok := (a == Some(Mark) && b == Some(Space)) || (a == Some(Space) && b == Some(Mark));
            Rc6Pairs(s, i) == (if ok then Prefixed([a == Some(Mark)], Rc6Pairs(s2, i + 1)) else None) && (ok ==> |s2| < |s|)
  {
  }

  method DecodeRC6(irparams: IrParams) returns (r: Option<Decoded>)
    requires irparams.Valid()
    ensures r == DecodeRc6Spec(irparams.View().raw)
  {
    ghost var raw := irparams.View().raw;
    if irparams.rawlen < MIN_RC6_SAMPLES {
      return None;
    }
    var offset: nat := 1;
    if !MatchMark(irparams.rawbuf[offset], RC6_HDR_MARK) {
      return None;
    }
    offset := offset + 1;
    if !MatchSpace(irparams.rawbuf[offset], RC6_HDR_SPACE) {
      return None;
    }
    offset := offset + 1;
    r := ReadRc6Frame(irparams, offset);
  }

  /** The start bit and the data bits. */
  method ReadRc6Frame(irparams: IrParams, offset0: nat) returns (r: Option<Decoded>)
    requires irparams.Valid()
    ensures r == Rc6FrameBits(Stream(irparams.View().raw, offset0, 0, Counter(RC6_T1)))
  {
    var offset, used: nat := offset0, 0;
    var level;
    level, offset, used := GetRClevel(irparams, offset, used, RC6_T1);
    if level != Some(Mark) { return None; }
    level, offset, used := GetRClevel(irparams, offset, used, RC6_T1);
    if level != Some(Space) { return None; }
    r := ReadRc6Bits(irparams, offset, used);
  }

  method ReadRc6Bits(irparams: IrParams, offset0: nat, used0: nat) returns (r: Option<Decoded>)
    requires irparams.Valid() && Cursor(irparams.View().raw, offset0, used0, Counter(RC6_T1))
    ensures r == match Rc6Pairs(Stream(irparams.View().raw, offset0, used0, Counter(RC6_T1)), 0)
                 case None => None
                 case Some(bits) => Some(Decoded(RC6, WordValue(bits), |bits|))
  {
    ghost var raw := irparams.View().raw;
    var offset: nat, used: nat := offset0, used0;
    ghost var bits := [];
    var data: Word := 0;
    var nbits := 0;
    PrefixedEmpty(Rc6Pairs(Stream(raw, offset, used, Counter(RC6_T1)), 0), []);
    while offset < irparams.rawlen
      invariant Cursor(raw, offset, used, Counter(RC6_T1))
      invariant nbits == |bits| && data == WordValue(bits)
      invariant Rc6Pairs(Stream(raw, offset0, used0, Counter(RC6_T1)), 0) == Prefixed(bits, Rc6Pairs(Stream(raw, offset, used, Counter(RC6_T1)), nbits))
      decreases |Stream(raw, offset, used, Counter(RC6_T1))|
    {
      var ok, bit;
      ok, bit, offset, used := ReadRc6Bit(irparams, offset, used, nbits);
      if !ok { return None; }
      PrefixedStep(bits, bit, Rc6Pairs(Stream(raw, offset, used, Counter(RC6_T1)), nbits + 1));
      WordValueSnoc(bits, bit);
      data := Shl1(data) + (if bit then 1 else 0);
      bits := bits + [bit];
      nbits := nbits + 1;
    }
    StreamEmpty(raw, offset, used, Counter(RC6_T1));
    PrefixedEmpty(None, bits);
    r := Some(Decoded(RC6, data, nbits));
  }

  /** A report is written, if there is one. */
  method Report(results: DecodeResults, r: Option<Decoded>) returns (decoded: bool)
    modifies results
    ensures decoded == r.Some? && results.View() == if r.Some? then r.value else old(results.View())
  {
    decoded := r.Some?;
    if decoded {
      results.Set(r.value);
    }
  }

  /** Nothing is decoded before the recorder has stopped; an unusable buffer restarts it. A call that decodes nothing
      leaves the results of the last one. */
  method Decode(irparams: IrParams, results: DecodeResults) returns (decoded: bool)
    requires irparams.Valid()
    modifies irparams, results
    ensures irparams.Valid()
    ensures decoded <==> old(irparams.rcvstate) == StateStop && DecodeSpec(old(irparams.View().raw)).Some?
    ensures results.View() == if decoded then DecodeSpec(old(irparams.View().raw)).value else old(results.View())
    ensures irparams.View() == if old(irparams.rcvstate) == StateStop && !decoded
                               then old(irparams.View()).(state := StateIdle, raw := []) else old(irparams.View())
  {
    if irparams.rcvstate != StateStop {
      return false;
    }
    var r := DecodeNEC(irparams);
    decoded := Report(results, r);
    if decoded { return; }
    decoded := DecodeSony(irparams, results);
    if decoded { return; }
    r := DecodeRC5(irparams);
    decoded := Report(results, r);
    if decoded { return; }
    r := DecodeRC6(irparams);
    decoded := Report(results, r);
    if decoded { return; }
    if irparams.rawlen >= 6 {
      results.Set(Decoded(UNKNOWN, 0, 0));
      return true;
    }
    irparams.Resume();
  }
}
