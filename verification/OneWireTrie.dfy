/** What one search call must return, stated on the set of ROMs as a binary trie,
    with no reference to how the search walks it. */
module OneWireTrie {
  import opened OneWireBus

  /** First-difference order on ROMs, bit 0 first. */
  ghost predicate Less(a: Rom, b: Rom) {
    exists i: nat :: LessAt(a, b, i)
  }

  ghost predicate LessAt(a: Rom, b: Rom, i: nat) {
    i < 64 && a[..i] == b[..i] && !a[i] && b[i]
  }

  /** Some slave below the first i bits of r has a 0 at i and another a 1. */
  ghost predicate Branch(devices: set<Rom>, r: Rom, i: nat)
    requires i < 64
  {
    && (exists d :: d in devices && d[..i] == r[..i] && !d[i])
    && (exists d :: d in devices && d[..i] == r[..i] && d[i])
  }

  /** One past the last branch below bit n at which r takes the 0 side; 0 if there is none. */
  ghost function LastZero(devices: set<Rom>, r: Rom, n: nat): nat
    requires n <= 64
  {
    if n == 0 then 0
    else if !r[n - 1] && Branch(devices, r, n - 1) then n
    else LastZero(devices, r, n - 1)
  }

  /** The direction the master takes at a branch, given the previous ROM and its recorded discrepancy. */
  ghost predicate Direction(previous: Rom, discrepancy: nat, i: nat)
    requires i < 64
  {
    if i + 1 < discrepancy then previous[i] else i + 1 == discrepancy
  }

  /** r agrees with some slave on its first n bits, and at every branch on the way
      takes the prescribed side. */
  ghost predicate WalkedTo(devices: set<Rom>, previous: Rom, discrepancy: nat, r: Rom, n: nat)
    requires n <= 64
  {
    && (exists d :: d in devices && d[..n] == r[..n])
    && forall i {:trigger Branch(devices, r, i)} | 0 <= i < n :: Branch(devices, r, i) ==> r[i] == Direction(previous, discrepancy, i)
  }

  // -------------------------------------------------------- prefix reasoning

  lemma {:induction false} PrefixDown(a: Rom, b: Rom, i: nat, n: nat)
    requires i <= n <= 64 && a[..n] == b[..n]
    ensures a[..i] == b[..i]
  {
    assert a[..i] == a[..n][..i] && b[..i] == b[..n][..i];
  }

  lemma {:induction false} PrefixUp(a: Rom, b: Rom, i: nat)
    requires i < 64 && a[..i] == b[..i] && a[i] == b[i]
    ensures a[..i + 1] == b[..i + 1]
  {
    assert a[..i + 1] == a[..i] + [a[i]];
    assert b[..i + 1] == b[..i] + [b[i]];
  }

  lemma BranchOnPrefix(devices: set<Rom>, r: Rom, r': Rom, i: nat)
    requires i < 64 && r[..i] == r'[..i]
    ensures Branch(devices, r, i) == Branch(devices, r', i)
  {
  }

  /** LastZero looks only at the first n bits. */
  lemma {:induction false} LastZeroOnPrefix(devices: set<Rom>, r: Rom, r': Rom, n: nat)
    requires n <= 64 && r[..n] == r'[..n]
    ensures LastZero(devices, r, n) == LastZero(devices, r', n)
  {
    if n > 0 {
      PrefixDown(r, r', n - 1, n);
      assert r[n - 1] == r[..n][n - 1] == r'[n - 1];
      LastZeroOnPrefix(devices, r, r', n - 1);
    }
  }

  lemma {:induction false} WalkedOnPrefix(devices: set<Rom>, previous: Rom, discrepancy: nat, r: Rom, r': Rom, n: nat)
    requires n <= 64 && r[..n] == r'[..n]
    requires WalkedTo(devices, previous, discrepancy, r, n)
    ensures WalkedTo(devices, previous, discrepancy, r', n)
  {
    forall i | 0 <= i < n && Branch(devices, r', i)
      ensures r'[i] == Direction(previous, discrepancy, i)
    {
      PrefixDown(r, r', i, n);
      assert r[i] == r[..n][i] == r'[i];
      assert Branch(devices, r, i);
    }
  }

  /** What LastZero means: it names a taken-0 branch, and no later bit is one. */
  lemma {:induction false} LastZeroIsLast(devices: set<Rom>, r: Rom, n: nat)
    requires n <= 64
    ensures var z := LastZero(devices, r, n);
            && z <= n
            && (z > 0 ==> !r[z - 1] && Branch(devices, r, z - 1))
            && forall i | z <= i < n :: !(Branch(devices, r, i) && !r[i])
  {
    if n > 0 {
      LastZeroIsLast(devices, r, n - 1);
    }
  }

  // ------------------------------------------------------------- the order

  lemma {:induction false} FirstDifference(a: Rom, b: Rom, n: nat) returns (i: nat)
    requires n <= 64 && a[..n] == b[..n] && a != b
    ensures n <= i < 64 && a[..i] == b[..i] && a[i] != b[i]
    decreases 64 - n
  {
    assert a[..64] == a && b[..64] == b;
    i := n;
    if n < 64 && a[n] == b[n] {
      PrefixUp(a, b, n);
      i := FirstDifference(a, b, n + 1);
    }
  }

  /** Less is a strict total order: irreflexive, asymmetric, transitive and total. */
  lemma {:induction false} LessTotal(a: Rom, b: Rom)
    ensures a == b || Less(a, b) || Less(b, a)
  {
    if a != b {
      var i := FirstDifference(a, b, 0);
      assert LessAt(a, b, i) || LessAt(b, a, i);
    }
  }

  lemma {:induction false} LessTransitive(a: Rom, b: Rom, c: Rom)
    requires Less(a, b) && Less(b, c)
    ensures Less(a, c)
  {
    var i: nat :| LessAt(a, b, i);
    var j: nat :| LessAt(b, c, j);
    var k := if i < j then i else j;
    PrefixDown(a, b, k, i);
    PrefixDown(b, c, k, j);
    assert i < j ==> b[i] == b[..j][i] == c[i];
    assert j < i ==> a[j] == a[..i][j] == b[j];
    assert LessAt(a, c, k);
  }

  lemma {:induction false} LessAsymmetric(a: Rom, b: Rom)
    requires Less(a, b)
    ensures !Less(b, a) && a != b
  {
    var i: nat :| LessAt(a, b, i);
    forall j: nat
      ensures !LessAt(b, a, j)
    {
      if i < j < 64 {
        assert a[i] == a[..j][i] && b[i] == b[..j][i];
      } else if j < i {
        assert a[j] == a[..i][j] && b[j] == b[..i][j];
      }
    }
  }

  // ---------------------------------------------------- what a full walk finds

  /** A completed walk ends on a slave, whatever state it started from. */
  lemma {:induction false} WalkEndsOnDevice(devices: set<Rom>, previous: Rom, discrepancy: nat, r: Rom)
    requires WalkedTo(devices, previous, discrepancy, r, 64)
    ensures r in devices
  {
    var d :| d in devices && d[..64] == r[..64];
    assert d == d[..64] && r == r[..64];
  }

  /** With no recorded discrepancy the walk takes every 0 side: it finds the least ROM. */
  lemma {:induction false} FreshWalkFindsLeast(devices: set<Rom>, previous: Rom, r: Rom, d: Rom)
    requires WalkedTo(devices, previous, 0, r, 64) && d in devices
    ensures d == r || Less(r, d)
  {
    if d != r {
      AboveWalk(devices, previous, 0, r, d, 0);
    }
  }

  /** Past its recorded discrepancy a walk ends below every other ROM with the same first n bits. */
  lemma {:induction false} AboveWalk(devices: set<Rom>, previous: Rom, discrepancy: nat, r: Rom, d: Rom, n: nat)
    requires WalkedTo(devices, previous, discrepancy, r, 64)
    requires d in devices && d != r
    requires discrepancy <= n <= 64 && r[..n] == d[..n]
    ensures Less(r, d)
  {
    WalkEndsOnDevice(devices, previous, discrepancy, r);
    var i := FirstDifference(r, d, n);
    assert Branch(devices, r, i);
    assert LessAt(r, d, i);
  }

  /** LastZero is 0 exactly on the greatest ROM. */
  lemma {:induction false} NoZeroLeftIsGreatest(devices: set<Rom>, r: Rom)
    requires r in devices
    ensures LastZero(devices, r, 64) == 0 <==> forall d | d in devices :: !Less(r, d)
  {
    LastZeroIsLast(devices, r, 64);
    var z := LastZero(devices, r, 64);
    if z == 0 {
      forall d | d in devices
        ensures !Less(r, d)
      {
        if Less(r, d) {
          var i: nat :| LessAt(r, d, i);
          assert Branch(devices, r, i);
        }
      }
    } else {
      var d :| d in devices && d[..z - 1] == r[..z - 1] && d[z - 1];
      assert LessAt(r, d, z - 1);
    }
  }

  /** The heart of the search: if the recorded discrepancy is r's last 0-branch, the
      next walk finds the immediate successor of r. */
  lemma {:induction false} WalkFindsSuccessor(devices: set<Rom>, r: Rom, r': Rom)
    requires r in devices
    requires LastZero(devices, r, 64) != 0
    requires WalkedTo(devices, r, LastZero(devices, r, 64), r', 64)
    ensures Less(r, r')
    ensures forall d | d in devices && Less(r, d) :: d == r' || Less(r', d)
  {
    StepsUpAtLastZero(devices, r, r');
    forall d | d in devices && Less(r, d)
      ensures d == r' || Less(r', d)
    {
      if d != r' { SuccessorIsBelow(devices, r, r', d); }
    }
  }

  lemma {:induction false} StepsUpAtLastZero(devices: set<Rom>, r: Rom, r': Rom)
    requires r in devices
    requires LastZero(devices, r, 64) != 0
    requires WalkedTo(devices, r, LastZero(devices, r, 64), r', 64)
    ensures LastZero(devices, r, 64) <= 64 && LessAt(r, r', LastZero(devices, r, 64) - 1)
  {
    LastZeroIsLast(devices, r, 64);
    StepsUpAt(devices, r, r', LastZero(devices, r, 64));
  }

  /** A walk repeats r below the recorded branch and takes the 1 side there. */
  lemma {:induction false} StepsUpAt(devices: set<Rom>, r: Rom, r': Rom, z: nat)
    requires r in devices && 0 < z <= 64 && !r[z - 1] && Branch(devices, r, z - 1)
    requires WalkedTo(devices, r, z, r', 64)
    ensures LessAt(r, r', z - 1)
  {
    WalkEndsOnDevice(devices, r, z, r');
    SharedPrefix(devices, r, r', z, z - 1);
    BranchOnPrefix(devices, r, r', z - 1);
    TurnsAt(devices, r, r', z);
  }

  lemma TurnsAt(devices: set<Rom>, r: Rom, r': Rom, z: nat)
    requires 0 < z <= 64 && Branch(devices, r', z - 1)
    requires WalkedTo(devices, r, z, r', 64)
    ensures r'[z - 1]
  {
  }

  lemma {:induction false} SuccessorIsBelow(devices: set<Rom>, r: Rom, r': Rom, d: Rom)
    requires r in devices && d in devices && d != r' && Less(r, d)
    requires LastZero(devices, r, 64) != 0
    requires WalkedTo(devices, r, LastZero(devices, r, 64), r', 64)
    ensures Less(r', d)
  {
    StepsUpAtLastZero(devices, r, r');
    LastZeroIsLast(devices, r, 64);
    var i: nat :| LessAt(r, d, i);
    assert Branch(devices, r, i);
    AboveSuccessor(devices, r, r', d, i, LastZero(devices, r, 64));
  }

  lemma BothSides(devices: set<Rom>, r: Rom, r': Rom, i: nat)
    requires r in devices && r' in devices && i < 64
    requires r[..i] == r'[..i] && r[i] != r'[i]
    ensures Branch(devices, r', i)
  {
  }

  /** Up to the recorded discrepancy the new walk repeats the old ROM. */
  lemma {:induction false} SharedPrefix(devices: set<Rom>, r: Rom, r': Rom, z: nat, n: nat)
    requires r in devices && r' in devices && n < z <= 64
    requires WalkedTo(devices, r, z, r', 64)
    ensures r[..n] == r'[..n]
  {
    if n > 0 {
      SharedPrefix(devices, r, r', z, n - 1);
      if r[n - 1] != r'[n - 1] {
        BothSides(devices, r, r', n - 1);
      }
      PrefixUp(r, r', n - 1);
    }
  }

  /** Anything above r that leaves it at or before bit z - 1 is also above the new walk's ROM. */
  lemma {:induction false} AboveSuccessor(devices: set<Rom>, r: Rom, r': Rom, d: Rom, i: nat, z: nat)
    requires d in devices && d != r' && 0 < z <= 64 && i < z
    requires WalkedTo(devices, r, z, r', 64)
    requires LessAt(r, d, i)
    requires LessAt(r, r', z - 1)
    ensures Less(r', d)
  {
    if i < z - 1 {
      PrefixDown(r, r', i, z - 1);
      assert r[i] == r[..z - 1][i] == r'[i];
      assert LessAt(r', d, i);
    } else {
      PrefixUp(r', d, z - 1);
      AboveWalk(devices, r, z, r', d, z);
    }
  }
}
