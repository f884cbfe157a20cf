/** Whole runs of search calls: every slave exactly once, in order, again and again. */
module OneWireRuns {
  import opened Wrappers
  import opened OneWireBus
  import opened OneWireTrie
  import opened OneWireSearch

  /** order lists the slaves, each once, in first-difference order. */
  ghost predicate Listing(devices: set<Rom>, order: seq<Rom>) {
    && (forall i, j | 0 <= i < j < |order| :: Less(order[i], order[j]))
    && (forall d :: d in devices <==> d in order)
  }

  /** Consecutive calls on an undisturbed bus, from the state reset_search leaves. */
  ghost predicate Run(devices: set<Rom>, states: seq<SearchState>, results: seq<Option<Rom>>) {
    && |states| == |results| + 1
    && states[0].discrepancy == 0 && !states[0].lastDevice
    && forall k {:trigger results[k]} | 0 <= k < |results| :: SearchCall(devices, false, states[k], states[k + 1], results[k])
  }

  /** Every finite set of ROMs has such a listing. */
  lemma {:induction false} ListingExists(devices: set<Rom>) returns (order: seq<Rom>)
    ensures Listing(devices, order) && |order| == |devices|
  {
    order := [];
    if devices != {} {
      var m := LeastExists(devices);
      var rest := ListingExists(devices - {m});
      order := [m] + rest;
      forall j | 0 < j < |order| ensures Less(m, order[j]) {
        assert order[j] == rest[j - 1];
      }
      forall i, j | 0 <= i < j < |order| ensures Less(order[i], order[j]) {
        if i > 0 { assert Less(rest[i - 1], rest[j - 1]); }
      }
      forall d ensures d in devices <==> d in order {
        assert d in order <==> d == m || d in rest;
      }
    }
  }

  lemma {:induction false} LeastExists(devices: set<Rom>) returns (m: Rom)
    requires devices != {}
    ensures m in devices && forall d | d in devices && d != m :: Less(m, d)
    decreases |devices|
  {
    m :| m in devices;
    var rest := devices - {m};
    if rest != {} {
      var l := LeastExists(rest);
      LessTotal(m, l);
      if Less(m, l) {
        forall d | d in devices && d != m ensures Less(m, d) {
          if d != l { LessTransitive(m, l, d); }
        }
      } else {
        m := l;
      }
    }
  }

  /** Where the run stands after k calls: k taken modulo one full cycle. */
  ghost predicate At(devices: set<Rom>, order: seq<Rom>, s: SearchState, m: nat) {
    && m <= |order|
    && if m == 0 then s.discrepancy == 0 && !s.lastDevice
       else && s.rom == order[m - 1]
            && s.discrepancy == LastZero(devices, s.rom, 64)
            && s.lastDevice == (m == |order|)
  }

  /** The least ROM comes first. */
  lemma {:induction false} LeastIsFirst(devices: set<Rom>, order: seq<Rom>, r: Rom)
    requires Listing(devices, order) && r in devices
    requires forall d | d in devices :: d == r || Less(r, d)
    ensures order != [] && r == order[0]
  {
    var j :| 0 <= j < |order| && order[j] == r;
    if j > 0 {
      LessAsymmetric(order[0], r);
      assert false;
    }
  }

  lemma {:induction false} Apart(order: seq<Rom>, i: nat, j: nat)
    requires forall i, j | 0 <= i < j < |order| :: Less(order[i], order[j])
    requires i + 1 < |order| && j < |order| && j != i + 1
    ensures !Less(order[i], order[j]) || (Less(order[i], order[i + 1]) && order[i + 1] != order[j] && !Less(order[j], order[i + 1]))
  {
    if j <= i {
      LessIrreflexive(order[i]);
      if j < i { LessAsymmetric(order[j], order[i]); }
    } else {
      LessAsymmetric(order[i + 1], order[j]);
    }
  }

  lemma LessIrreflexive(a: Rom)
    ensures !Less(a, a)
  {
  }

  /** The immediate successor of entry i is entry i + 1. */
  lemma {:induction false} SuccessorIsNext(devices: set<Rom>, order: seq<Rom>, i: nat, r: Rom)
    requires Listing(devices, order) && i < |order| && r in devices
    requires Less(order[i], r) && forall d | d in devices && Less(order[i], d) :: d == r || Less(r, d)
    ensures i + 1 < |order| && r == order[i + 1]
  {
    var j :| 0 <= j < |order| && order[j] == r;
    LessAsymmetric(order[i], r);
    if i + 1 < |order| && j != i + 1 {
      Apart(order, i, j);
      assert false;
    }
  }

  /** The greatest ROM comes last. */
  lemma {:induction false} GreatestIsLast(devices: set<Rom>, order: seq<Rom>, i: nat)
    requires Listing(devices, order) && i < |order|
    ensures LastZero(devices, order[i], 64) == 0 <==> i == |order| - 1
  {
    NoZeroLeftIsGreatest(devices, order[i]);
    if i < |order| - 1 {
      assert Less(order[i], order[i + 1]) && order[i + 1] in devices;
    } else {
      forall d | d in devices ensures !Less(order[i], d) {
        var j :| 0 <= j < |order| && order[j] == d;
        if j == i {
          LessIrreflexive(d);
        } else {
          LessAsymmetric(order[j], order[i]);
        }
      }
    }
  }

  /** The inductive step: one call moves the run one place along the cycle. */
  lemma {:induction false} OneCall(devices: set<Rom>, order: seq<Rom>, s: SearchState, s': SearchState, found: Option<Rom>, m: nat)
    requires Listing(devices, order) && order != []
    requires forall d | d in devices :: !ZeroFamily(d)
    requires At(devices, order, s, m) && SearchCall(devices, false, s, s', found)
    ensures At(devices, order, s', if m == |order| then 0 else m + 1)
    ensures found == if m == |order| then None else Some(order[m])
  {
    assert order[0] in devices;
    if m < |order| {
      WalkEndsOnDevice(devices, s.rom, s.discrepancy, s'.rom);
      if m == 0 {
        forall d | d in devices ensures d == s'.rom || Less(s'.rom, d) {
          FreshWalkFindsLeast(devices, s.rom, s'.rom, d);
        }
        LeastIsFirst(devices, order, s'.rom);
      } else {
        GreatestIsLast(devices, order, m - 1);
        WalkFindsSuccessor(devices, s.rom, s'.rom);
        SuccessorIsNext(devices, order, m - 1, s'.rom);
      }
      GreatestIsLast(devices, order, m);
    }
  }

  /** The place in the cycle of n + 1 calls after k of them. */
  ghost function Phase(k: nat, n: nat): nat {
    if k == 0 || Phase(k - 1, n) == n then 0 else Phase(k - 1, n) + 1
  }

  lemma {:induction false} PhaseIsMod(k: nat, n: nat)
    ensures Phase(k, n) == k % (n + 1)
  {
    if k > 0 {
      PhaseIsMod(k - 1, n);
      ModStep(k - 1, n + 1);
    }
  }

  lemma {:induction false} RunPosition(devices: set<Rom>, order: seq<Rom>, states: seq<SearchState>, results: seq<Option<Rom>>, k: nat)
    requires Listing(devices, order) && order != []
    requires forall d | d in devices :: !ZeroFamily(d)
    requires Run(devices, states, results) && k < |states|
    ensures At(devices, order, states[k], Phase(k, |order|))
  {
    if k > 0 {
      RunPosition(devices, order, states, results, k - 1);
      CallOf(devices, states, results, k - 1);
      OneCall(devices, order, states[k - 1], states[k], results[k - 1], Phase(k - 1, |order|));
    }
  }

  lemma CallOf(devices: set<Rom>, states: seq<SearchState>, results: seq<Option<Rom>>, k: nat)
    requires Run(devices, states, results) && k + 1 < |states|
    ensures k < |results| && SearchCall(devices, false, states[k], states[k + 1], results[k])
  {
  }

  lemma {:induction false} ModStep(k: nat, n: nat)
    requires n > 0
    ensures (k + 1) % n == if k % n == n - 1 then 0 else k % n + 1
  {
    var q, r := k / n, k % n;
    assert k == q * n + r;
    if r == n - 1 {
      assert k + 1 == (q + 1) * n + 0;
      ModUnique(k + 1, n, q + 1, 0);
    } else {
      ModUnique(k + 1, n, q, r + 1);
    }
  }

  lemma {:induction false} ModUnique(k: nat, n: nat, q: nat, r: nat)
    requires n > 0 && k == q * n + r && r < n
    ensures k % n == r
  {
    var d := k / n - q;
    assert (k / n) * n + k % n == k;
    assert d * n == (k / n) * n - q * n;
    assert d >= 1 ==> d * n >= n;
    assert d <= -1 ==> d * n + n <= 0;
  }

  /** THE SEARCH IS AN ENUMERATION. From reset_search on, call number k returns slave
      k mod (n + 1) of the listing, and every (n + 1)-th call says "no more". */
  lemma {:induction false} SearchEnumerates(devices: set<Rom>, order: seq<Rom>, states: seq<SearchState>, results: seq<Option<Rom>>, k: nat)
    requires Listing(devices, order) && order != []
    requires forall d | d in devices :: !ZeroFamily(d)
    requires Run(devices, states, results) && k < |results|
    ensures var m := k % (|order| + 1);
            results[k] == if m == |order| then None else Some(order[m])
  {
    RunPosition(devices, order, states, results, k);
    OneCall(devices, order, states[k], states[k + 1], results[k], Phase(k, |order|));
    PhaseIsMod(k, |order|);
  }

  /** A slave whose first byte is zero hides the whole bus: every call of every run fails. */
  lemma {:induction false} ZeroFamilyBlindsSearch(devices: set<Rom>, z: Rom, states: seq<SearchState>, results: seq<Option<Rom>>, k: nat)
    requires z in devices && ZeroFamily(z)
    requires Run(devices, states, results) && k < |results|
    ensures results[k] == None
    ensures states[k].discrepancy == 0 && !states[k].lastDevice
  {
    if k > 0 {
      ZeroFamilyBlindsSearch(devices, z, states, results, k - 1);
      LeastHasZeroFamily(devices, z, states[k - 1], states[k].rom);
    }
    assert SearchCall(devices, false, states[k], states[k + 1], results[k]);
    LeastHasZeroFamily(devices, z, states[k], states[k + 1].rom);
  }

  lemma {:induction false} LeastHasZeroFamily(devices: set<Rom>, z: Rom, s: SearchState, r: Rom)
    requires z in devices && ZeroFamily(z) && s.discrepancy == 0
    requires WalkedTo(devices, s.rom, s.discrepancy, r, 64)
    ensures ZeroFamily(r)
  {
    FreshWalkFindsLeast(devices, s.rom, r, z);
    if r != z {
      var i: nat :| LessAt(r, z, i);
      forall j | 0 <= j < 8 ensures !r[j] {
        if j < i { assert r[j] == r[..i][j] == z[j]; }
      }
    }
  }

  /** The exact condition: the first n calls of a run return the n slaves if and only if none has a zero first byte. */
  lemma {:induction false} EnumeratesIffNoZeroFamily(devices: set<Rom>, order: seq<Rom>, states: seq<SearchState>, results: seq<Option<Rom>>)
    requires Listing(devices, order) && order != []
    requires Run(devices, states, results) && |results| >= |order|
    ensures (forall k | 0 <= k < |order| :: results[k] == Some(order[k])) <==> (forall d | d in devices :: !ZeroFamily(d))
  {
    if forall d | d in devices :: !ZeroFamily(d) {
      forall k | 0 <= k < |order| ensures results[k] == Some(order[k]) {
        SearchEnumerates(devices, order, states, results, k);
        ModUnique(k, |order| + 1, 0, k);
      }
    } else {
      var z :| z in devices && ZeroFamily(z);
      ZeroFamilyBlindsSearch(devices, z, states, results, 0);
    }
  }

  // ---------------------------------------------------------- disturbed runs

  /** What is on the wire during one call. */
  datatype Wire = Wire(devices: set<Rom>, shorted: bool)

  /** Nobody can answer the reset pulse: the wire is held low, or nobody is there. */
  ghost predicate Dead(w: Wire) {
    w.shorted || w.devices == {}
  }

  /** Consecutive calls from any state, the wire changing from call to call. */
  ghost predicate Calls(wires: seq<Wire>, states: seq<SearchState>, results: seq<Option<Rom>>) {
    && |wires| == |results| && |states| == |results| + 1
    && forall k {:trigger results[k]} | 0 <= k < |results| ::
         SearchCall(wires[k].devices, wires[k].shorted, states[k], states[k + 1], results[k])
  }

  /** A call on a dead wire fails and keeps the last ROM. */
  lemma DeadWireFails(wires: seq<Wire>, states: seq<SearchState>, results: seq<Option<Rom>>, k: nat)
    requires Calls(wires, states, results) && k < |results| && Dead(wires[k])
    ensures results[k] == None && states[k + 1].rom == states[k].rom
  {
    assert SearchCall(wires[k].devices, wires[k].shorted, states[k], states[k + 1], results[k]);
  }

  /** A call that fails, for whatever reason, forgets where the search was. */
  lemma {:induction false} FailureForgets(wires: seq<Wire>, states: seq<SearchState>, results: seq<Option<Rom>>, k: nat)
    requires Calls(wires, states, results) && k < |results| && results[k] == None
    ensures states[k + 1].discrepancy == 0 && !states[k + 1].lastDevice && states[k + 1].family == 0
  {
    assert SearchCall(wires[k].devices, wires[k].shorted, states[k], states[k + 1], results[k]);
  }

  /** THE SEARCH STARTS AFRESH AFTER EVERY FAILURE, a dead wire, an exhausted list or a zero first byte, from any earlier
      state: the calls that follow on a good wire list its slaves from the first one on. */
  lemma {:induction false} RestartsAfterFailure(wires: seq<Wire>, states: seq<SearchState>, results: seq<Option<Rom>>, k: nat,
                                                devices: set<Rom>, order: seq<Rom>, j: nat)
    requires Calls(wires, states, results) && k < |results| && results[k] == None
    requires forall i | k < i < |results| :: wires[i] == Wire(devices, false)
    requires Listing(devices, order) && order != [] && forall d | d in devices :: !ZeroFamily(d)
    requires k + 1 + j < |results|
    ensures var m := j % (|order| + 1);
            results[k + 1 + j] == if m == |order| then None else Some(order[m])
  {
    var after, found := states[k + 1..], results[k + 1..];
    FailureForgets(wires, states, results, k);
    forall i | 0 <= i < |found| ensures SearchCall(devices, false, after[i], after[i + 1], found[i]) {
      assert results[k + 1 + i] == found[i];
      assert SearchCall(wires[k + 1 + i].devices, wires[k + 1 + i].shorted, states[k + 1 + i], states[k + 2 + i], results[k + 1 + i]);
    }
    SearchEnumerates(devices, order, after, found, j);
  }

  /** So it does after a call in which the wire was shorted or empty: the first call on a good wire finds the first slave. */
  lemma {:induction false} DeadWireRestarts(wires: seq<Wire>, states: seq<SearchState>, results: seq<Option<Rom>>, k: nat,
                                            devices: set<Rom>, order: seq<Rom>)
    requires Calls(wires, states, results) && k + 1 < |results| && Dead(wires[k])
    requires forall i | k < i < |results| :: wires[i] == Wire(devices, false)
    requires Listing(devices, order) && order != [] && forall d | d in devices :: !ZeroFamily(d)
    ensures results[k] == None && results[k + 1] == Some(order[0])
  {
    DeadWireFails(wires, states, results, k);
    RestartsAfterFailure(wires, states, results, k, devices, order, 0);
  }

  /** 0 was taken at bit i although there was a slave with a 1. */
  ghost predicate TookZero(devices: set<Rom>, r: Rom, i: nat)
    requires i < 64
  {
    Branch(devices, r, i) && !r[i]
  }

  /** LastFamilyDiscrepancy: one past the last branch in the first byte at which 0 was taken; without one it stays. */
  lemma {:induction false} FamilyIsLastInFirstByte(devices: set<Rom>, s: SearchState, s': SearchState, found: Option<Rom>)
    requires SearchCall(devices, false, s, s', found) && found.Some?
    ensures if exists i :: 0 <= i < 8 && TookZero(devices, s'.rom, i)
            then 1 <= s'.family <= 8 && TookZero(devices, s'.rom, s'.family - 1)
                 && forall i | s'.family <= i < 8 :: !TookZero(devices, s'.rom, i)
            else s'.family == s.family
  {
    LastZeroIsLast(devices, s'.rom, 8);
    var z := LastZero(devices, s'.rom, 8);
    if z > 0 { assert TookZero(devices, s'.rom, z - 1); }
  }
}
