/** The 1-Wire wire itself: ROM numbers, the byte/bit layout the master uses for
    them, and the wired-AND bus every slave sits on. */
module OneWireBus {
  import opened Bytes

  /** A 64-bit ROM number, least significant bit of byte 0 first: the order in
      which the search walks it. */
  type Rom = r: seq<bool> | |r| == 64 witness seq(64, _ => false)

  function RomBits(bytes: seq<bv8>): (r: Rom)
    requires |bytes| == 8
  {
    seq(64, i requires 0 <= i < 64 => Bit(bytes[i / 8], i % 8))
  }

  lemma {:induction false} RomBitUpdate(bytes: seq<bv8>, p: nat, k: nat, v: bool, j: nat)
    requires |bytes| == 8 && p < 8 && k < 8 && j < 64
    ensures RomBits(bytes[p := SetTo(bytes[p], k, v)])[j] == if j == 8 * p + k then v else RomBits(bytes)[j]
  {
    if j / 8 == p {
      SetToBit(bytes[p], k, v, j % 8);
    }
  }

  /** The whole ROM number after one bit of byte p is set or cleared in place. */
  lemma {:induction false} RomBitsUpdate(bytes: seq<bv8>, p: nat, k: nat, v: bool)
    requires |bytes| == 8 && p < 8 && k < 8
    ensures RomBits(bytes[p := SetTo(bytes[p], k, v)]) == RomBits(bytes)[8 * p + k := v]
  {
    var r, r' := RomBits(bytes), RomBits(bytes[p := SetTo(bytes[p], k, v)]);
    forall j | 0 <= j < 64
      ensures r'[j] == r[8 * p + k := v][j]
    {
      RomBitUpdate(bytes, p, k, v, j);
    }
  }

  /** A zero first byte is eight clear bits at the front of the ROM. */
  lemma {:induction false} FirstByteZero(bytes: seq<bv8>)
    requires |bytes| == 8
    ensures bytes[0] == 0 <==> RomBits(bytes)[..8] == [false, false, false, false, false, false, false, false]
  {
    assert RomBits(bytes)[..8] == ByteBits(bytes[0]);
    ByteBitsInjective(bytes[0], 0);
    ZeroBits();
  }

  // ------------------------------------------------------------------ the bus

  const SEARCH_ROM: bv8 := 0xF0

  /** What the slaves are waiting for. In a search every selected slave answers
      two read slots per bit (its bit, then the complement) and then listens for
      the direction the master picks. */
  datatype Mode =
    | Idle
    | Command(received: seq<bool>)
    | Searching(pos: nat, slot: nat, selected: set<Rom>)

  /** A slot reads 1 exactly when no selected slave pulls the line low. */
  predicate WiredAnd(selected: set<Rom>, pos: nat, complement: bool)
    requires pos < 64
  {
    forall d | d in selected :: d[pos] != complement
  }

  function Agreeing(selected: set<Rom>, pos: nat, v: bool): set<Rom>
    requires pos < 64
  {
    set d | d in selected && d[pos] == v
  }

  /** What the master's writing one bit does to the slaves. */
  function AfterBit(devices: set<Rom>, mode: Mode, v: bool): Mode {
    match mode
    case Idle => Idle
    case Command(received) =>
      if |received| < 7 then Command(received + [v])
      else if received + [v] == ByteBits(SEARCH_ROM) then Searching(0, 0, devices)
      else Idle
    case Searching(pos, slot, selected) =>
      if pos < 64 && slot == 2 then Searching(pos + 1, 0, Agreeing(selected, pos, v)) else Idle
  }

  function AfterBits(devices: set<Rom>, mode: Mode, bits: seq<bool>): Mode
    decreases bits
  {
    if bits == [] then mode else AfterBit(devices, AfterBits(devices, mode, bits[..|bits| - 1]), bits[|bits| - 1])
  }

  lemma MaskedBit(v: bv8, k: nat)
    requires k < 8
    ensures ByteBits(v)[k] == (v & Mask(k) != 0)
  {
  }

  lemma {:induction false} AfterNext(devices: set<Rom>, mode: Mode, bits: seq<bool>, k: nat)
    requires k < |bits|
    ensures AfterBits(devices, mode, bits[..k + 1]) == AfterBit(devices, AfterBits(devices, mode, bits[..k]), bits[k])
  {
    assert bits[..k + 1][..k] == bits[..k];
  }

  /** After a reset a byte is a command, and of all commands only one starts a search. */
  lemma {:induction false} AfterCommand(devices: set<Rom>, v: bv8)
    ensures AfterBits(devices, Command([]), ByteBits(v)) == if v == 0xF0 then Searching(0, 0, devices) else Idle
  {
    var bits := ByteBits(v);
    PartOfCommand(devices, bits[..7]);
    assert bits[..|bits| - 1] == bits[..7] && bits[..7] + [bits[7]] == bits;
    ByteBitsInjective(v, SEARCH_ROM);
  }

  lemma {:induction false} PartOfCommand(devices: set<Rom>, bits: seq<bool>)
    requires |bits| <= 7
    ensures AfterBits(devices, Command([]), bits) == Command(bits)
    decreases bits
  {
    if bits != [] {
      PartOfCommand(devices, bits[..|bits| - 1]);
      assert bits[..|bits| - 1] + [bits[|bits| - 1]] == bits;
    }
  }

  class Bus {
    const devices: set<Rom>
    const shorted: bool
    var mode: Mode

    constructor (devices: set<Rom>, shorted: bool)
      ensures this.devices == devices && this.shorted == shorted && mode == Idle
    {
      this.devices := devices;
      this.shorted := shorted;
      mode := Idle;
    }

    /** Reset pulse: answered by a presence pulse unless the wire never came high or nobody is there. */
    method Reset() returns (presence: bool)
      modifies this
      ensures presence == (!shorted && devices != {})
      ensures mode == if presence then Command([]) else Idle
    {
      presence := !shorted && devices != {};
      mode := if presence then Command([]) else Idle;
    }

    method ReadBit() returns (v: bool)
      modifies this
      ensures old(mode.Searching? && mode.pos < 64 && mode.slot < 2) ==>
                && v == WiredAnd(old(mode.selected), old(mode.pos), old(mode.slot) == 1)
                && mode == old(mode).(slot := old(mode.slot) + 1)
    {
      v := true;
      if mode.Searching? && mode.pos < 64 && mode.slot < 2 {
        v := WiredAnd(mode.selected, mode.pos, mode.slot == 1);
        mode := mode.(slot := mode.slot + 1);
      }
    }

    method WriteBit(v: bool)
      modifies this
      ensures mode == AfterBit(devices, old(mode), v)
      ensures old(mode.Searching? && mode.pos < 64 && mode.slot == 2) ==>
                mode == Searching(old(mode.pos) + 1, 0, Agreeing(old(mode.selected), old(mode.pos), v))
      ensures old(mode.Command? && |mode.received| < 7) ==>
                mode == Command(old(mode.received) + [v])
      ensures old(mode.Command? && |mode.received| == 7) ==>
                mode == if old(mode.received) + [v] == ByteBits(SEARCH_ROM) then Searching(0, 0, devices) else Idle
    {
      match mode {
        case Idle =>
        case Command(received) =>
          if |received| < 7 {
            mode := Command(received + [v]);
          } else if received + [v] == ByteBits(SEARCH_ROM) {
            mode := Searching(0, 0, devices);
          } else {
            mode := Idle;
          }
        case Searching(pos, slot, selected) =>
          if pos < 64 && slot == 2 {
            mode := Searching(pos + 1, 0, Agreeing(selected, pos, v));
          } else {
            mode := Idle;
          }
      }
    }

    /** A byte goes out least significant bit first, whatever the slaves are waiting for. */
    method WriteByte(v: bv8)
      modifies this
      ensures mode == AfterBits(devices, old(mode), ByteBits(v))
      ensures old(mode) == Command([]) ==> mode == if v == 0xF0 then Searching(0, 0, devices) else Idle
    {
      var bitMask: bv8 := 1;
      ghost var before := mode;
      ghost var k := 0;
      while bitMask != 0
        invariant 0 <= k <= 8
        invariant bitMask == if k < 8 then Mask(k) else 0
        invariant mode == AfterBits(devices, before, ByteBits(v)[..k])
        decreases 8 - k
      {
        MaskShift(k);
        AfterNext(devices, before, ByteBits(v), k);
        MaskedBit(v, k);
        WriteBit(v & bitMask != 0);
        bitMask := bitMask << 1;
        k := k + 1;
      }
      assert ByteBits(v)[..8] == ByteBits(v);
      AfterCommand(devices, v);
    }
  }
}
