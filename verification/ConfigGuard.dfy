/** The readers/writer guard of the presence tracker's configuration. Every section run under the lock is
    one atomic step, so a thread is always between two of them. */
module ConfigGuard {

  /** Where a thread is. Asleep: in wait(). Notified: woken, but it has not had the lock since. */
  datatype Place = Outside | ReaderAsleep | ReaderNotified | Reading | WriterAsleep | WriterNotified | Writing

  type Thread = nat

  datatype Action =
    | GuardReading(t: Thread)
    | UnguardReading(t: Thread)
    | GuardWriting(t: Thread)
    | UnguardWriting(t: Thread)
    | Wake(t: Thread)

  datatype Guard = Guard(reading: int, writing: bool, at: seq<Place>)

  predicate InWriter(p: Place) {
    p == WriterAsleep || p == WriterNotified || p == Writing
  }

  predicate Notified(p: Place) {
    p == ReaderNotified || p == WriterNotified
  }

  predicate Asleep(p: Place) {
    p == ReaderAsleep || p == WriterAsleep
  }

  /** notifyAll: everyone waiting at one place is moved to the other. */
  function Notify(at: seq<Place>, from: Place, to: Place): (r: seq<Place>)
    ensures |r| == |at|
    ensures forall i | 0 <= i < |at| :: r[i] == if at[i] == from then to else at[i]
  {
    seq(|at|, i requires 0 <= i < |at| => if at[i] == from then to else at[i])
  }

  /** The test at the head of guardReading's loop, and what follows it. */
  function ReaderTest(g: Guard, t: Thread): Guard
    requires t < |g.at|
  {
    if g.writing then g.(at := g.at[t := ReaderAsleep])
    else g.(reading := g.reading + 1, at := g.at[t := Reading])
  }

  /** The test at the head of guardWriting's loop. */
  function WriterTest(g: Guard, t: Thread): Guard
    requires t < |g.at|
  {
    g.(at := g.at[t := if g.reading > 0 then WriterAsleep else Writing])
  }

  /** A thread can take its next step only from the right place; a sleeper takes none. */
  predicate Enabled(g: Guard, a: Action) {
    && a.t < |g.at|
    && match a
       case GuardReading(t) => g.at[t] == Outside
       case UnguardReading(t) => g.at[t] == Reading
       case GuardWriting(t) => g.at[t] == Outside
       case UnguardWriting(t) => g.at[t] == Writing
       case Wake(t) => Notified(g.at[t])
  }

  function Step(g: Guard, a: Action): Guard {
    if !Enabled(g, a) then g else
      match a
      case GuardReading(t) => ReaderTest(g, t)
      case UnguardReading(t) =>
        g.(reading := g.reading - 1, at := Notify(g.at[t := Outside], WriterAsleep, WriterNotified))
      case GuardWriting(t) => WriterTest(g.(writing := true), t)
      case UnguardWriting(t) =>
        g.(writing := false, at := Notify(g.at[t := Outside], ReaderAsleep, ReaderNotified))
      case Wake(t) => if g.at[t] == ReaderNotified then ReaderTest(g, t) else WriterTest(g, t)
  }

  /** The class as it is, one method per locked section; at records where each thread stands. */
  class UWSConfig {
    var currentlyReading: int
    var currentlyWriting: bool
    const at: array<Place>

    constructor (threads: nat)
      ensures State() == Start(threads)
      ensures fresh(at)
    {
      currentlyReading := 0;
      currentlyWriting := false;
      at := new Place[threads](_ => Outside);
    }

    function State(): Guard
      reads this, at
    {
      Guard(currentlyReading, currentlyWriting, at[..])
    }

    method NotifyAll(from: Place, to: Place)
      requires from != to
      modifies at
      ensures at[..] == Notify(old(at[..]), from, to)
    {
      for i := 0 to at.Length
        invariant forall k | 0 <= k < i :: at[k] == if old(at[k]) == from then to else old(at[k])
        invariant forall k | i <= k < at.Length :: at[k] == old(at[k])
      {
        if at[i] == from {
          at[i] := to;
        }
      }
    }

    /** From the start of guardReading, or from its wait, to its next wait or to its end. */
    method GuardReading(t: Thread)
      requires t < at.Length && (at[t] == Outside || at[t] == ReaderNotified)
      modifies this, at
      ensures State() == Step(old(State()), if old(at[t]) == Outside then Action.GuardReading(t) else Wake(t))
    {
      if currentlyWriting {
        at[t] := ReaderAsleep;
      } else {
        currentlyReading := currentlyReading + 1;
        at[t] := Reading;
      }
    }

    method UnguardReading(t: Thread)
      requires t < at.Length && at[t] == Reading
      modifies this, at
      ensures State() == Step(old(State()), Action.UnguardReading(t))
    {
      currentlyReading := currentlyReading - 1;
      at[t] := Outside;
      assert at[..] == old(at[..])[t := Outside];
      NotifyAll(WriterAsleep, WriterNotified);
    }

    /** From the start of guardWriting to its first wait or its end. */
    method GuardWriting(t: Thread)
      requires t < at.Length && at[t] == Outside
      modifies this, at
      ensures State() == Step(old(State()), Action.GuardWriting(t))
    {
      currentlyWriting := true;
      TestReaders(t);
    }

    /** The loop head of guardWriting, reached first or again from the wait. */
    method TestReaders(t: Thread)
      requires t < at.Length
      modifies this, at
      ensures State() == WriterTest(old(State()), t)
    {
      if currentlyReading > 0 {
        at[t] := WriterAsleep;
      } else {
        at[t] := Writing;
      }
      assert at[..] == old(at[..])[t := at[t]];
    }

    method ResumeWriting(t: Thread)
      requires t < at.Length && at[t] == WriterNotified
      modifies this, at
      ensures State() == Step(old(State()), Wake(t))
    {
      TestReaders(t);
    }

    method UnguardWriting(t: Thread)
      requires t < at.Length && at[t] == Writing
      modifies this, at
      ensures State() == Step(old(State()), Action.UnguardWriting(t))
    {
      currentlyWriting := false;
      at[t] := Outside;
      assert at[..] == old(at[..])[t := Outside];
      NotifyAll(ReaderAsleep, ReaderNotified);
    }
  }

  // ---------------------------------------------------------------- counting

  function Count(at: seq<Place>, p: Place -> bool): nat
    decreases at
  {
    if at == [] then 0 else (if p(at[0]) then 1 else 0) + Count(at[1..], p)
  }

  lemma {:induction false} CountUpdate(at: seq<Place>, t: nat, x: Place, p: Place -> bool)
    requires t < |at|
    ensures Count(at[t := x], p) == Count(at, p) - (if p(at[t]) then 1 else 0) + (if p(x) then 1 else 0)
    ensures p(at[t]) ==> Count(at, p) > 0
    decreases at
  {
    if t > 0 {
      assert at[t := x][1..] == at[1..][t - 1 := x];
      CountUpdate(at[1..], t - 1, x, p);
    } else {
      assert at[t := x][1..] == at[1..];
    }
  }

  /** Moving everyone from one place to another changes no count that tells neither apart. */
  lemma {:induction false} CountNotify(at: seq<Place>, from: Place, to: Place, p: Place -> bool)
    ensures p(from) == p(to) ==> Count(Notify(at, from, to), p) == Count(at, p)
    ensures !p(from) && p(to) ==> Count(Notify(at, from, to), p) == Count(at, p) + Count(at, x => x == from)
    decreases at
  {
    if at != [] {
      assert Notify(at, from, to)[1..] == Notify(at[1..], from, to);
      CountNotify(at[1..], from, to, p);
    }
  }

  lemma {:induction false} CountPositive(at: seq<Place>, p: Place -> bool)
    ensures Count(at, p) > 0 <==> exists t :: 0 <= t < |at| && p(at[t])
    decreases at
  {
    if at != [] {
      CountPositive(at[1..], p);
      if t :| 0 <= t < |at| && p(at[t]) {
        if t > 0 { assert p(at[1..][t - 1]); }
      }
      if Count(at[1..], p) > 0 {
        var t :| 0 <= t < |at[1..]| && p(at[1..][t]);
        assert p(at[t + 1]);
      }
    }
  }

  // --------------------------------------------------------- no wake-up is lost

  predicate IsReading(p: Place) {
    p == Reading
  }

  ghost predicate Someone(g: Guard, p: Place -> bool) {
    exists t :: 0 <= t < |g.at| && p(g.at[t])
  }

  /** Kept by every step of any number of threads. */
  ghost predicate Sound(g: Guard) {
    && g.reading == Count(g.at, IsReading)
    && (forall t | 0 <= t < |g.at| :: g.at[t] == ReaderAsleep ==> g.writing)
    && (forall t | 0 <= t < |g.at| :: g.at[t] == WriterAsleep ==> g.reading > 0)
    && (g.writing ==> Someone(g, InWriter))
  }

  function Start(threads: nat): Guard {
    Guard(0, false, seq(threads, _ => Outside))
  }

  lemma StillInWriter(g: Guard, a: Action, w: Thread)
    requires w < |g.at| && InWriter(g.at[w]) && a != UnguardWriting(w)
    ensures w < |Step(g, a).at| && InWriter(Step(g, a).at[w])
  {
  }

  lemma {:induction false} ReadingCounted(g: Guard, a: Action)
    requires g.reading == Count(g.at, IsReading)
    ensures Step(g, a).reading == Count(Step(g, a).at, IsReading)
  {
    if Enabled(g, a) {
      CountUpdate(g.at, a.t, Step(g, a).at[a.t], IsReading);
      CountNotify(g.at[a.t := Outside], WriterAsleep, WriterNotified, IsReading);
      CountNotify(g.at[a.t := Outside], ReaderAsleep, ReaderNotified, IsReading);
    }
  }

  lemma {:induction false} WritingHasWriter(g: Guard, a: Action)
    requires g.writing ==> Someone(g, InWriter)
    ensures Step(g, a).writing ==> Someone(Step(g, a), InWriter)
  {
    var g' := Step(g, a);
    if g'.writing {
      if g.writing {
        var w :| 0 <= w < |g.at| && InWriter(g.at[w]);
        if Enabled(g, a) { StillInWriter(g, a, w); }
      } else {
        assert InWriter(g'.at[a.t]);
      }
    }
  }

  lemma {:induction false} StepSound(g: Guard, a: Action)
    requires Sound(g)
    ensures Sound(Step(g, a))
  {
    ReadingCounted(g, a);
    WritingHasWriter(g, a);
    if Enabled(g, a) {
      CountUpdate(g.at, a.t, Outside, IsReading);
    }
  }

  /** WHO GETS IN AT ONCE: a reader, arriving or woken, if and only if no announcement stands; a writer if and only if no reader
      is inside, whoever else is writing; and an arriving writer's announcement stands from then on. */
  lemma {:induction false} GetsInIff(g: Guard, a: Action)
    requires Sound(g) && Enabled(g, a)
    ensures a.GuardReading? || (a.Wake? && g.at[a.t] == ReaderNotified) ==> (Step(g, a).at[a.t] == Reading <==> !g.writing)
    ensures a.GuardWriting? || (a.Wake? && g.at[a.t] == WriterNotified) ==> (Step(g, a).at[a.t] == Writing <==> !Someone(g, IsReading))
    ensures a.GuardWriting? ==> Step(g, a).writing
  {
    CountPositive(g.at, IsReading);
  }

  /** Whoever has called and not yet returned, not all of them can be asleep. */
  lemma {:induction false} NoDeadlock(g: Guard)
    requires Sound(g) && Someone(g, p => p != Outside)
    ensures Someone(g, p => p != Outside && !Asleep(p))
  {
    if Someone(g, Asleep) {
      if g.reading > 0 {
        CountPositive(g.at, IsReading);
      } else {
        assert g.writing;
        var w :| 0 <= w < |g.at| && InWriter(g.at[w]);
        assert g.at[w] != WriterAsleep;
      }
    }
  }
}
