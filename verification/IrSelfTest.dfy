/** The library's own test sketch: send, copy through the channel, decode, compare. */
module IrSelfTest {
  import opened Wrappers
  import opened IrTiming
  import opened IrReceive
  import opened IrSend
  import opened IrDecode
  import opened IrBiphase
  import opened IrRuns
  import opened IrRoundTrip
  import opened IrPulseDistance
  import opened IrAcceptance

  /** What the results say after a frame has been looked at, if d is what they said before. */
  function After(raw: seq<nat>, d: Decoded): Decoded {
    if DecodeSpec(raw).Some? then DecodeSpec(raw).value else d
  }

  /** The results of the last call that decoded something are compared, whether or not this one did. */
  method Verify(dummy: IRsendDummy, irparams: IrParams, results: DecodeResults, val: Word, bits: nat, kind: Kind) returns (ok: bool)
    requires dummy.Valid() && irparams.Valid()
    requires |Merge([irparams.rawbuf[0]], dummy.Log())| <= RAWBUF
    modifies irparams, irparams.rawbuf, results
    ensures irparams.Valid()
    ensures results.View() == After(Channel(old(irparams.rawbuf[0]), old(dummy.Log())), old(results.View()))
    ensures ok <==> results.View() == Decoded(kind, val, bits)
  {
    dummy.UseDummyBuf(irparams);
    var decoded := Decode(irparams, results);
    ok := results.value == val && results.bits == bits && results.kind == kind;
  }

  /** A frame of fewer than six entries is not decoded, so the test compares what was decoded before. */
  predicate Stale(entries: int, d: Decoded, kind: Kind, val: Word, bits: nat) {
    entries < 6 && d == Decoded(kind, val, bits)
  }

  lemma LongIsDecoded(raw: seq<nat>, d: Decoded)
    requires |raw| >= 6
    ensures Some(After(raw, d)) == DecodeSpec(raw)
  {
  }

  /** Any count whose frame fits the receive buffer. */
  method TestNEC(dummy: IRsendDummy, irparams: IrParams, results: DecodeResults, val: Word, bits: nat) returns (ok: bool)
    requires dummy.Valid() && irparams.Valid() && 2 * bits + 4 <= RAWBUF
    modifies dummy, dummy.sendlog, irparams, irparams.rawbuf, results
    ensures dummy.Valid() && irparams.Valid()
    ensures ok <==> bits == 32 || Stale(2 * bits + 4, old(results.View()), NEC, val, bits)
  {
    ghost var gap := irparams.rawbuf[0];
    ghost var before := results.View();
    dummy.Reset();
    dummy.SendNEC(val, bits);
    ghost var sent := TopBits(val, bits);
    FrameAlone(dummy.Log(), NecFrame(sent));
    NecReceived(gap, sent);
    NecReturns(gap, sent, val, before);
    if bits == 32 { WordBits(val); }
    ok := Verify(dummy, irparams, results, val, bits, NEC);
  }

  /** A frame of any other count comes back with another count or not at all. */
  lemma {:induction false} NecReturns(gap: nat, sent: seq<bool>, val: Word, before: Decoded)
    ensures var d := After(Channel(gap, NecFrame(sent)), before);
            if |sent| == 32 then d == Decoded(NEC, WordValue(sent), |sent|)
            else d == Decoded(NEC, val, |sent|) <==> Stale(2 * |sent| + 4, before, NEC, val, |sent|)
  {
    var raw := Channel(gap, NecFrame(sent));
    NecReceived(gap, sent);
    if |sent| == 32 {
      NecRoundTrip(gap, sent);
    } else {
      assert raw[2] == 88;
      NecCountsBits(raw);
      if |sent| == 0 { NothingIsShort(raw); }
    }
  }

  /** Four entries that are no repeat code are nothing. */
  lemma NothingIsShort(raw: seq<nat>)
    requires |raw| < 6 && !NecRepeatWidths(raw) && (|raw| >= 3 ==> raw[1] == 182)
    ensures DecodeSpec(raw) == None
  {
  }

  /** What is reported as NEC has 32 bits, or is the repeat code with none. */
  lemma NecCountsBits(raw: seq<nat>)
    ensures DecodeSpec(raw).Some? && DecodeSpec(raw).value.kind == NEC ==> DecodeSpec(raw).value.bits == 32 || NecRepeatWidths(raw)
  {
  }

  /** Sending all 32 bits unshifted spells the word itself. */
  lemma {:induction false} WordBits(val: Word)
    ensures WordValue(TopBits(val, 32)) == val
  {
    Pow2Values();
    SentBitsHaveValue(val, 32);
    ShlZero(val);
  }

  lemma ShlZero(val: Word)
    ensures Shl(val, 0) == val
  {
  }

  lemma FrameAlone(log: seq<int>, frame: seq<int>)
    requires log == [] + frame
    ensures log == frame
  {
  }

  method TestSony(dummy: IRsendDummy, irparams: IrParams, results: DecodeResults, val: Word, bits: nat) returns (ok: bool)
    requires dummy.Valid() && irparams.Valid() && 1 <= bits <= 32 && val < Pow2(bits)
    modifies dummy, dummy.sendlog, irparams, irparams.rawbuf, results
    ensures dummy.Valid() && irparams.Valid()
    ensures ok <==> bits >= 12 || Stale(2 * bits + 2, old(results.View()), SONY, val, bits)
  {
    ghost var gap := irparams.rawbuf[0];
    ghost var before := results.View();
    dummy.Reset();
    dummy.SendSony(val, bits);
    ghost var sent := TopBits(Shl(val, 32 - bits), bits);
    FrameAlone(dummy.Log(), SonyFrame(sent));
    SonyReceived(gap, sent);
    SentBitsHaveValue(val, bits);
    SonyReturns(gap, sent, before);
    ok := Verify(dummy, irparams, results, val, bits, SONY);
  }

  lemma {:induction false} SonyReturns(gap: nat, sent: seq<bool>, before: Decoded)
    requires sent != []
    ensures var d := After(Channel(gap, SonyFrame(sent)), before);
            d == Decoded(SONY, WordValue(sent), |sent|) <==> |sent| >= 12 || Stale(2 * |sent| + 2, before, SONY, WordValue(sent), |sent|)
  {
    var raw := Channel(gap, SonyFrame(sent));
    SonyRoundTrip(gap, sent);
    SonyReceived(gap, sent);
    if |raw| >= 6 { LongIsDecoded(raw, before); } else { ShortSonyIsNothing(raw); }
  }

  lemma ShortSonyIsNothing(raw: seq<nat>)
    requires |raw| == 4 && raw[1] == 50 && raw[2] == 10
    ensures DecodeSpec(raw) == None
  {
  }

  method TestRC5(dummy: IRsendDummy, irparams: IrParams, results: DecodeResults, val: Word, bits: nat) returns (ok: bool)
    requires dummy.Valid() && irparams.Valid() && 1 <= bits <= 32 && val < Pow2(bits)
    modifies dummy, dummy.sendlog, irparams, irparams.rawbuf, results
    ensures dummy.Valid() && irparams.Valid()
    ensures var entries := Rc5Entries(TopBits(Shl(val, 32 - bits), bits));
            ok <==> entries >= 13 || Stale(entries, old(results.View()), RC5, val, bits)
    ensures bits >= 10 ==> ok
  {
    ghost var gap := irparams.rawbuf[0];
    ghost var before := results.View();
    dummy.Reset();
    dummy.SendRC5(val, bits);
    ghost var sent := TopBits(Shl(val, 32 - bits), bits);
    FrameAlone(dummy.Log(), Rc5Frame(sent));
    TrimLength(Merge([gap], Rc5Frame(sent)));
    SentBitsHaveValue(val, bits);
    Rc5Returns(gap, sent, before);
    if bits >= 10 { Rc5TenBitsSuffice(sent); }
    ok := Verify(dummy, irparams, results, val, bits, RC5);
  }

  lemma {:induction false} Rc5Returns(gap: nat, sent: seq<bool>, before: Decoded)
    requires sent != []
    ensures |Channel(gap, Rc5Frame(sent))| == Rc5Entries(sent)
    ensures var d := After(Channel(gap, Rc5Frame(sent)), before);
            d == Decoded(RC5, WordValue(sent), |sent|)
            <==> Rc5Entries(sent) >= 13 || Stale(Rc5Entries(sent), before, RC5, WordValue(sent), |sent|)
  {
    var raw := Channel(gap, Rc5Frame(sent));
    Rc5RoundTrip(gap, sent);
    Rc5Received(gap, sent);
    if |raw| >= 6 {
      LongIsDecoded(raw, before);
    } else {
      OthersRejectRc5(raw);
    }
  }

  lemma TrimLength(buf: seq<nat>)
    ensures |buf| <= |Trim(buf)| + 1
  {
  }

  method TestRC6(dummy: IRsendDummy, irparams: IrParams, results: DecodeResults, val: Word, bits: nat) returns (ok: bool)
    requires dummy.Valid() && irparams.Valid() && 1 <= bits <= 32 && val < Pow2(bits)
    modifies dummy, dummy.sendlog, irparams, irparams.rawbuf, results
    ensures dummy.Valid() && irparams.Valid()
    ensures ok
  {
    ghost var gap := irparams.rawbuf[0];
    dummy.Reset();
    dummy.SendRC6(val, bits);
    ghost var sent := TopBits(Shl(val, 32 - bits), bits);
    FrameAlone(dummy.Log(), Rc6Frame(sent));
    TrimLength(Merge([gap], Rc6Frame(sent)));
    Rc6Length(gap, sent);
    Rc6RoundTrip(gap, sent);
    SentBitsHaveValue(val, bits);
    ok := Verify(dummy, irparams, results, val, bits, RC6);
  }

  lemma {:induction false} Rc6Length(gap: nat, bits: seq<bool>)
    requires bits != []
    ensures |Channel(gap, Rc6Frame(bits))| <= 5 + 2 * |bits|
  {
    Rc6Head(gap);
    RcReceivedShape(Six, gap, [RC6_HDR_MARK, -RC6_HDR_SPACE, RC6_T1, -RC6_T1], [gap, 55, 15, 10, 6], bits);
  }
}
