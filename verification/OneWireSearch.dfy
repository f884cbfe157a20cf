/** The resumable ROM search: the master's state machine, and the bus walk that drives it. */
module OneWireSearch {
  import opened Wrappers
  import opened Bytes
  import opened OneWireBus
  import opened OneWireTrie

  /** ROM_NO, LastDiscrepancy, LastDeviceFlag and LastFamilyDiscrepancy. */
  datatype SearchState = SearchState(rom: Rom, discrepancy: nat, lastDevice: bool, family: nat)

  ghost predicate ZeroFamily(r: Rom) {
    r[..8] == [false, false, false, false, false, false, false, false]
  }

  ghost function Forgotten(s: SearchState): SearchState {
    s.(discrepancy := 0, lastDevice := false, family := 0)
  }

  /** The state after a walk that ended on r. */
  ghost function AfterWalk(devices: set<Rom>, s: SearchState, r: Rom): SearchState {
    var z := LastZero(devices, r, 64);
    var f := LastZero(devices, r, 8);
    SearchState(r, z, z == 0, if f != 0 then f else s.family)
  }

  /** One call of search: from s to s', answering found. */
  ghost predicate SearchCall(devices: set<Rom>, shorted: bool, s: SearchState, s': SearchState, found: Option<Rom>) {
    if s.lastDevice || shorted || devices == {} then
      s' == Forgotten(s) && found == None
    else
      && WalkedTo(devices, s.rom, s.discrepancy, s'.rom, 64)
      && if ZeroFamily(s'.rom) then s' == Forgotten(s).(rom := s'.rom) && found == None
         else s' == AfterWalk(devices, s, s'.rom) && found == Some(s'.rom)
  }

  /** The slaves still listening after the master chose the first n bits of r. */
  ghost function Selected(devices: set<Rom>, r: Rom, n: nat): set<Rom>
    requires n <= 64
  {
    set d | d in devices && d[..n] == r[..n]
  }

  /** Writing bit n keeps exactly the slaves that match one bit more. */
  lemma {:induction false} SelectedStep(devices: set<Rom>, r: Rom, n: nat)
    requires n < 64
    ensures Agreeing(Selected(devices, r, n), n, r[n]) == Selected(devices, r, n + 1)
  {
    forall d | d in devices
      ensures d[..n + 1] == r[..n + 1] <==> d[..n] == r[..n] && d[n] == r[n]
    {
      if d[..n] == r[..n] && d[n] == r[n] {
        PrefixUp(d, r, n);
      }
      if d[..n + 1] == r[..n + 1] {
        PrefixDown(d, r, n, n + 1);
        assert d[n] == d[..n + 1][n] == r[n];
      }
    }
  }

  /** The loop invariant: n bits of r are chosen as prescribed, the rest is still the
      previous ROM, and the two counters name the last 0 taken at a branch. */
  ghost predicate Walking(devices: set<Rom>, s: SearchState, r: Rom, n: nat, lastZero: nat, family: nat) {
    && n <= 64
    && WalkedTo(devices, s.rom, s.discrepancy, r, n)
    && r[n..] == s.rom[n..]
    && lastZero == LastZero(devices, r, n)
    && family == FamilyZero(devices, r, n, s.family)
  }

  ghost function FamilyZero(devices: set<Rom>, r: Rom, n: nat, before: nat): nat
    requires n <= 64
  {
    var f := LastZero(devices, r, if n < 8 then n else 8);
    if f != 0 then f else before
  }

  ghost predicate Ones(devices: set<Rom>, r: Rom, n: nat)
    requires n < 64
  {
    WiredAnd(Selected(devices, r, n), n, false)
  }

  ghost predicate Zeros(devices: set<Rom>, r: Rom, n: nat)
    requires n < 64
  {
    WiredAnd(Selected(devices, r, n), n, true)
  }

  /** The two reads never both come back 1. */
  lemma {:induction false} SomeoneSelected(devices: set<Rom>, s: SearchState, r: Rom, n: nat, lastZero: nat, family: nat)
    requires n < 64 && Walking(devices, s, r, n, lastZero, family)
    ensures !(Ones(devices, r, n) && Zeros(devices, r, n))
  {
    var d :| d in devices && d[..n] == r[..n];
    assert d in Selected(devices, r, n);
  }

  /** One turn of the loop: bit n of ROM_NO becomes the direction taken, and the walk is one bit longer. */
  lemma {:induction false} WalkStep(devices: set<Rom>, s: SearchState, r: Rom, n: nat, lastZero: nat, family: nat, v: bool)
    requires n < 64 && Walking(devices, s, r, n, lastZero, family)
    requires if Ones(devices, r, n) then v
             else if Zeros(devices, r, n) then !v
             else v == if n + 1 < s.discrepancy then r[n] else n + 1 == s.discrepancy
    ensures Selected(devices, r[n := v], n + 1) == Agreeing(Selected(devices, r, n), n, v)
    ensures var took := !v && !Ones(devices, r, n) && !Zeros(devices, r, n);
            Walking(devices, s, r[n := v], n + 1, if took then n + 1 else lastZero, if took && n < 8 then n + 1 else family)
  {
    var r' := r[n := v];
    assert r[..n] == r'[..n];
    assert r[n] == r[n..][0] == s.rom[n..][0] == s.rom[n];
    assert r'[n + 1..] == r[n..][1..] == s.rom[n..][1..] == s.rom[n + 1..];
    assert Selected(devices, r, n) == Selected(devices, r', n);
    WalkedOnPrefix(devices, s.rom, s.discrepancy, r, r', n);
    LastZeroOnPrefix(devices, r, r', n);
    if n >= 8 {
      PrefixDown(r, r', 8, n);
      LastZeroOnPrefix(devices, r, r', 8);
    }
    SelectedStep(devices, r', n);
    BothSidesIsBranch(devices, r', n);
    SomeoneSelected(devices, s, r, n, lastZero, family);
    ChosenSideLives(devices, r', n, v);
  }

  lemma {:induction false} ChosenSideLives(devices: set<Rom>, r: Rom, n: nat, v: bool)
    requires n < 64 && r[n] == v
    requires !(if v then Zeros(devices, r, n) else Ones(devices, r, n))
    ensures exists d :: d in devices && d[..n + 1] == r[..n + 1]
  {
    var d :| d in Selected(devices, r, n) && d[n] == v;
    PrefixUp(d, r, n);
  }

  /** Two 0 answers are exactly a branch of the trie. */
  lemma {:induction false} BothSidesIsBranch(devices: set<Rom>, r: Rom, n: nat)
    requires n < 64
    ensures Branch(devices, r, n) <==> !Ones(devices, r, n) && !Zeros(devices, r, n)
  {
    if !Ones(devices, r, n) && !Zeros(devices, r, n) {
      var d :| d in Selected(devices, r, n) && d[n];
      var e :| e in Selected(devices, r, n) && !e[n];
    }
    if Branch(devices, r, n) {
      var d :| d in devices && d[..n] == r[..n] && !d[n];
      var e :| e in devices && e[..n] == r[..n] && e[n];
      assert d in Selected(devices, r, n) && e in Selected(devices, r, n);
    }
  }

  class OneWire {
    const romNo: array<bv8>
    var lastDiscrepancy: nat
    var lastDeviceFlag: bool
    var lastFamilyDiscrepancy: nat

    ghost predicate Valid()
      reads this
    {
      romNo.Length == 8
    }

    ghost function State(): SearchState
      requires Valid()
      reads this, romNo
    {
      SearchState(RomBits(romNo[..]), lastDiscrepancy, lastDeviceFlag, lastFamilyDiscrepancy)
    }

    constructor ()
      ensures Valid() && fresh(romNo)
      ensures State() == SearchState(seq(64, _ => false), 0, false, 0)
    {
      romNo := new bv8[8](_ => 0);
      lastDiscrepancy, lastDeviceFlag, lastFamilyDiscrepancy := 0, false, 0;
      new;
      ResetSearch();
    }

    method ResetSearch()
      requires Valid()
      modifies this, romNo
      ensures State() == SearchState(seq(64, _ => false), 0, false, 0)
    {
      lastDiscrepancy := 0;
      lastDeviceFlag := false;
      lastFamilyDiscrepancy := 0;
      var i := 7;
      while true
        invariant 0 <= i < 8
        invariant forall k | i < k < 8 :: romNo[k] == 0
        invariant lastDiscrepancy == 0 && !lastDeviceFlag && lastFamilyDiscrepancy == 0
        decreases i
      {
        romNo[i] := 0;
        if i == 0 { break; }
        i := i - 1;
      }
      forall k | 0 <= k < 64 ensures !RomBits(romNo[..])[k] {
        assert romNo[..][k / 8] == 0;
      }
    }

    /** Overwrites one bit of ROM_NO in place. */
    method SetRomBit(romByteNumber: nat, romByteMask: bv8, ghost k: nat, v: bool)
      requires Valid() && romByteNumber < 8 && k < 8 && romByteMask == Mask(k)
      modifies romNo
      ensures RomBits(romNo[..]) == RomBits(old(romNo[..]))[8 * romByteNumber + k := v]
    {
      RomBitsUpdate(romNo[..], romByteNumber, k, v);
      if v {
        romNo[romByteNumber] := romNo[romByteNumber] | romByteMask;
      } else {
        romNo[romByteNumber] := romNo[romByteNumber] & !romByteMask;
      }
    }

    /** At a branch: repeat the last ROM before the recorded discrepancy, take 1 there, 0 after it. */
    method PickDirection(idBitNumber: nat, romByteNumber: nat, romByteMask: bv8, ghost n: nat) returns (v: bool)
      requires Valid() && n < 64 && idBitNumber == n + 1 && romByteNumber == n / 8 && romByteMask == Mask(n % 8)
      ensures v == if n + 1 < lastDiscrepancy then State().rom[n] else n + 1 == lastDiscrepancy
    {
      if idBitNumber < lastDiscrepancy {
        v := romNo[romByteNumber] & romByteMask != 0;
      } else {
        v := idBitNumber == lastDiscrepancy;
      }
    }

    /** Shifts the mask to the next bit, on to the next byte when it falls off. */
    static method NextBit(romByteNumber: nat, romByteMask: bv8, ghost n: nat) returns (number: nat, mask: bv8)
      requires romByteNumber == n / 8 && romByteMask == Mask(n % 8)
      ensures number == (n + 1) / 8 && mask == Mask((n + 1) % 8)
    {
      MaskShift(n % 8);
      number, mask := romByteNumber, romByteMask << 1;
      if mask == 0 {
        number := number + 1;
        mask := 1;
      }
    }

    /** A bit and its complement, from the slaves still selected. */
    method ReadPair(bus: Bus, ghost n: nat) returns (idBit: bool, cmpIdBit: bool)
      requires Valid() && n < 64
      requires bus.mode == Searching(n, 0, Selected(bus.devices, State().rom, n))
      modifies bus
      ensures idBit == Ones(bus.devices, State().rom, n)
      ensures cmpIdBit == Zeros(bus.devices, State().rom, n)
      ensures bus.mode == Searching(n, 2, Selected(bus.devices, State().rom, n))
    {
      idBit := bus.ReadBit();
      cmpIdBit := bus.ReadBit();
    }

    /** Bit n of the walk: two read slots, the direction, ROM_NO updated, the direction written back. */
    method WalkBit(bus: Bus, ghost s: SearchState, ghost n: nat,
                   idBitNumber: nat, romByteNumber: nat, romByteMask: bv8, lastZero: nat)
      returns (answered: bool, lastZero': nat)
      requires Valid() && n < 64 && idBitNumber == n + 1 && romByteNumber == n / 8 && romByteMask == Mask(n % 8)
      requires Walking(bus.devices, s, State().rom, n, lastZero, lastFamilyDiscrepancy)
      requires bus.mode == Searching(n, 0, Selected(bus.devices, State().rom, n))
      requires lastDiscrepancy == s.discrepancy
      modifies `lastFamilyDiscrepancy, romNo, bus
      ensures answered
      ensures Walking(bus.devices, s, State().rom, n + 1, lastZero', lastFamilyDiscrepancy)
      ensures bus.mode == Searching(n + 1, 0, Selected(bus.devices, State().rom, n + 1))
    {
      ghost var r, entryFamily := State().rom, lastFamilyDiscrepancy;
      SomeoneSelected(bus.devices, s, r, n, lastZero, lastFamilyDiscrepancy);
      lastZero' := lastZero;
      var idBit, cmpIdBit := ReadPair(bus, n);
      if idBit && cmpIdBit {
        return false, lastZero;
      }
      var searchDirection: bool;
      if idBit != cmpIdBit {
        searchDirection := idBit;
      } else {
        searchDirection := PickDirection(idBitNumber, romByteNumber, romByteMask, n);
        if !searchDirection {
          lastZero' := idBitNumber;
          if lastZero' < 9 {
            lastFamilyDiscrepancy := lastZero';
          }
        }
      }
      SetRomBit(romByteNumber, romByteMask, n % 8, searchDirection);
      WalkStep(bus.devices, s, r, n, lastZero, entryFamily, searchDirection);
      bus.WriteBit(searchDirection);
      answered := true;
    }

    /** The do-while loop of search. */
    method WalkTrie(bus: Bus) returns (idBitNumber: nat, lastZero: nat)
      requires Valid() && !lastDeviceFlag && bus.devices != {}
      requires bus.mode == Searching(0, 0, bus.devices)
      modifies `lastFamilyDiscrepancy, romNo, bus
      ensures idBitNumber == 65
      ensures Walking(bus.devices, old(State()), State().rom, 64, lastZero, lastFamilyDiscrepancy)
    {
      idBitNumber, lastZero := 1, 0;
      var romByteNumber := 0;
      var romByteMask: bv8 := 1;
      ghost var n := 0;
      assert Selected(bus.devices, State().rom, 0) == bus.devices;
      while romByteNumber < 8
        invariant 0 <= n <= 64 && idBitNumber == n + 1
        invariant romByteNumber == n / 8 && romByteMask == Mask(n % 8)
        invariant Walking(bus.devices, old(State()), State().rom, n, lastZero, lastFamilyDiscrepancy)
        invariant bus.mode == Searching(n, 0, Selected(bus.devices, State().rom, n))
        decreases 64 - n
      {
        var answered;
        answered, lastZero := WalkBit(bus, old(State()), n, idBitNumber, romByteNumber, romByteMask, lastZero);
        if !answered {
          break;
        }
        idBitNumber := idBitNumber + 1;
        romByteNumber, romByteMask := NextBit(romByteNumber, romByteMask, n);
        n := n + 1;
      }
    }

    method CopyRom(newAddr: array<bv8>)
      requires Valid() && newAddr.Length >= 8 && newAddr != romNo
      modifies newAddr
      ensures newAddr[..8] == romNo[..]
      ensures newAddr[8..] == old(newAddr[8..])
    {
      var i := 0;
      while i < 8
        invariant 0 <= i <= 8
        invariant newAddr[..i] == romNo[..i]
        invariant newAddr[8..] == old(newAddr[8..])
        modifies newAddr
      {
        newAddr[i] := romNo[i];
        i := i + 1;
      }
    }

    /** The search call. newAddr is left alone only when nobody answers the reset pulse. */
    method Search(bus: Bus, newAddr: array<bv8>) returns (found: bool)
      requires Valid() && newAddr.Length >= 8 && newAddr != romNo
      modifies this, romNo, bus, newAddr
      ensures SearchCall(bus.devices, bus.shorted, old(State()), State(), if found then Some(State().rom) else None)
      ensures old(lastDeviceFlag) || (!bus.shorted && bus.devices != {}) ==> newAddr[..8] == romNo[..]
      ensures !old(lastDeviceFlag) && (bus.shorted || bus.devices == {}) ==> newAddr[..8] == old(newAddr[..8])
      ensures newAddr[8..] == old(newAddr[8..])
    {
      var searchResult := false;
      if !lastDeviceFlag {
        var presence := bus.Reset();
        if !presence {
          lastDiscrepancy := 0;
          lastDeviceFlag := false;
          lastFamilyDiscrepancy := 0;
          return false;
        }
        bus.WriteByte(SEARCH_ROM);
        var idBitNumber, lastZero := WalkTrie(bus);
        if !(idBitNumber < 65) {
          lastDiscrepancy := lastZero;
          if lastDiscrepancy == 0 {
            lastDeviceFlag := true;
          }
          searchResult := true;
        }
      }
      FirstByteZero(romNo[..]);
      if !searchResult || romNo[0] == 0 {
        lastDiscrepancy := 0;
        lastDeviceFlag := false;
        lastFamilyDiscrepancy := 0;
        searchResult := false;
      }
      CopyRom(newAddr);
      found := searchResult;
    }
  }
}
