/** Bits of a byte, least significant first, and the one-hot masks that reach them. */
module Bytes {

  function Mask(k: nat): bv8
    requires k < 8
  {
    match k
    case 0 => 1
    case 1 => 2
    case 2 => 4
    case 3 => 8
    case 4 => 16
    case 5 => 32
    case 6 => 64
    case 7 => 128
  }

  predicate Bit(b: bv8, k: nat)
    requires k < 8
  {
    b & Mask(k) != 0
  }

  /** The bit that k shifts to the right leave lowest. */
  predicate ShiftedBit(b: bv8, k: nat)
    requires k < 8
  {
    (b >> k) & 1 == 1
  }

  /** Bit 0 is the least significant one. */
  lemma {:induction false} BitIsShifted(b: bv8, k: nat)
    requires k < 8
    ensures Bit(b, k) <==> ShiftedBit(b, k)
  {
    if k == 0 {} else if k == 1 {} else if k == 2 {} else if k == 3 {}
    else if k == 4 {} else if k == 5 {} else if k == 6 {} else {}
  }

  /** Shifting the one-hot mask moves to the next bit, and falls off after bit 7. */
  lemma MaskShift(k: nat)
    requires k < 8
    ensures Mask(k) << 1 == if k < 7 then Mask(k + 1) else 0
    ensures Mask(k) != 0
  {
  }

  /** Or-ing in a mask sets that bit and moves no other. */
  lemma {:induction false} MaskSet(b: bv8, k: nat, j: nat)
    requires k < 8 && j < 8
    ensures Bit(b | Mask(k), j) == (j == k || Bit(b, j))
  {
    if k == 0 {} else if k == 1 {} else if k == 2 {} else if k == 3 {}
    else if k == 4 {} else if k == 5 {} else if k == 6 {} else {}
  }

  /** And-ing with the complement of a mask clears that bit and moves no other. */
  lemma {:induction false} MaskClear(b: bv8, k: nat, j: nat)
    requires k < 8 && j < 8
    ensures Bit(b & !Mask(k), j) == (j != k && Bit(b, j))
  {
    if k == 0 {} else if k == 1 {} else if k == 2 {} else if k == 3 {}
    else if k == 4 {} else if k == 5 {} else if k == 6 {} else {}
  }

  function SetTo(b: bv8, k: nat, v: bool): bv8
    requires k < 8
  {
    if v then b | Mask(k) else b & !Mask(k)
  }

  lemma {:induction false} SetToBit(b: bv8, k: nat, v: bool, j: nat)
    requires k < 8 && j < 8
    ensures Bit(SetTo(b, k, v), j) == if j == k then v else Bit(b, j)
  {
    if v { MaskSet(b, k, j); } else { MaskClear(b, k, j); }
  }

  /** The eight bits in the order the wire carries them. */
  function ByteBits(v: bv8): (bits: seq<bool>) {
    seq(8, k requires 0 <= k < 8 => Bit(v, k))
  }

  lemma {:induction false} ByteBitsInjective(v: bv8, w: bv8)
    ensures ByteBits(v) == ByteBits(w) ==> v == w
  {
    if ByteBits(v) == ByteBits(w) {
      assert forall k | 0 <= k < 8 :: Bit(v, k) == ByteBits(v)[k] == ByteBits(w)[k] == Bit(w, k);
      assert Bit(v, 0) == Bit(w, 0) && Bit(v, 1) == Bit(w, 1) && Bit(v, 2) == Bit(w, 2) && Bit(v, 3) == Bit(w, 3);
      assert Bit(v, 4) == Bit(w, 4) && Bit(v, 5) == Bit(w, 5) && Bit(v, 6) == Bit(w, 6) && Bit(v, 7) == Bit(w, 7);
    }
  }

  lemma ZeroBits()
    ensures ByteBits(0) == [false, false, false, false, false, false, false, false]
  {
  }

  /** The byte with these eight bits. */
  function ByteOf(bits: seq<bool>): bv8
    requires |bits| == 8
  {
    (if bits[0] then 1 else 0) | (if bits[1] then 2 else 0) | (if bits[2] then 4 else 0) | (if bits[3] then 8 else 0)
    | (if bits[4] then 16 else 0) | (if bits[5] then 32 else 0) | (if bits[6] then 64 else 0) | (if bits[7] then 128 else 0)
  }

  lemma {:induction false} ByteOfBits(bits: seq<bool>)
    requires |bits| == 8
    ensures ByteBits(ByteOf(bits)) == bits
  {
    forall k | 0 <= k < 8
      ensures Bit(ByteOf(bits), k) == bits[k]
    {
      ByteOfBit(bits, k);
    }
  }

  lemma {:induction false} ByteOfBit(bits: seq<bool>, k: nat)
    requires |bits| == 8 && k < 8
    ensures Bit(ByteOf(bits), k) == bits[k]
  {
    if k == 0 {} else if k == 1 {} else if k == 2 {} else if k == 3 {}
    else if k == 4 {} else if k == 5 {} else if k == 6 {} else {}
  }
}
