/** Whole runs of the configuration guard: they end, and when they keep readers and writers apart. */
module GuardRuns {
  import opened ConfigGuard

  function Run(g: Guard, actions: seq<Action>): Guard
    decreases actions
  {
    if actions == [] then g else Run(Step(g, actions[0]), actions[1..])
  }

  lemma {:induction false} RunThen(g: Guard, first: seq<Action>, second: seq<Action>)
    ensures Run(g, first + second) == Run(Run(g, first), second)
    decreases first
  {
    if first == [] {
      assert first + second == second;
    } else {
      assert (first + second)[1..] == first[1..] + second;
      RunThen(Step(g, first[0]), first[1..], second);
    }
  }

  lemma {:induction false} RunSound(g: Guard, actions: seq<Action>)
    requires Sound(g)
    ensures Sound(Run(g, actions)) && |Run(g, actions).at| == |g.at|
    decreases actions
  {
    if actions != [] {
      StepSound(g, actions[0]);
      RunSound(Step(g, actions[0]), actions[1..]);
    }
  }

  // --------------------------------------------------------------- every call returns

  predicate Busy(p: Place) {
    p != Outside
  }

  /** A step of a thread already inside one of the four calls or between a guard and its unguard. */
  predicate Inner(a: Action) {
    !a.GuardReading? && !a.GuardWriting?
  }

  predicate InnerRun(g: Guard, actions: seq<Action>)
    decreases actions
  {
    actions == [] || (Inner(actions[0]) && Enabled(g, actions[0]) && InnerRun(Step(g, actions[0]), actions[1..]))
  }

  /** How many inner steps can still come. */
  function Potential(g: Guard): nat {
    Weight(Count(g.at, Busy), Count(g.at, Notified))
  }

  function Weight(busy: nat, notified: nat): nat {
    busy * busy + notified
  }

  lemma {:induction false} LeavingWeighsMore(busy: nat, notified: nat, woken: nat)
    requires busy > 0 && woken <= busy - 1
    ensures Weight(busy - 1, woken) < Weight(busy, notified)
  {
    assert (busy - 1) * (busy - 1) == busy * busy - 2 * busy + 1;
  }

  lemma {:induction false} WakingDescends(g: Guard, t: Thread)
    requires Enabled(g, Wake(t))
    ensures Potential(Step(g, Wake(t))) < Potential(g)
  {
    var x := Step(g, Wake(t)).at[t];
    CountUpdate(g.at, t, x, Busy);
    CountUpdate(g.at, t, x, Notified);
    assert Step(g, Wake(t)).at == g.at[t := x];
  }

  lemma {:induction false} SleepersAreBusy(at: seq<Place>, p: Place)
    requires p == ReaderAsleep || p == WriterAsleep
    ensures Count(at, x => x == p) + Count(at, Notified) <= Count(at, Busy)
    decreases at
  {
    if at != [] { SleepersAreBusy(at[1..], p); }
  }

  lemma {:induction false} LeavingWakes(at: seq<Place>, t: Thread, from: Place, to: Place)
    requires t < |at| && Busy(at[t]) && !Notified(at[t])
    requires (from == ReaderAsleep && to == ReaderNotified) || (from == WriterAsleep && to == WriterNotified)
    ensures var after := Notify(at[t := Outside], from, to);
            Count(after, Busy) == Count(at, Busy) - 1 && Count(after, Notified) <= Count(at, Busy) - 1
  {
    var left := at[t := Outside];
    CountUpdate(at, t, Outside, Busy);
    CountUpdate(at, t, Outside, Notified);
    CountNotify(left, from, to, Busy);
    CountNotify(left, from, to, Notified);
    SleepersAreBusy(left, from);
  }

  lemma {:induction false} InnerStepDescends(g: Guard, a: Action)
    requires Enabled(g, a) && Inner(a)
    ensures Potential(Step(g, a)) < Potential(g)
  {
    if a.Wake? {
      WakingDescends(g, a.t);
    } else if a.UnguardReading? {
      LeavingWakes(g.at, a.t, WriterAsleep, WriterNotified);
      LeavingWeighsMore(Count(g.at, Busy), Count(g.at, Notified), Count(Step(g, a).at, Notified));
    } else {
      LeavingWakes(g.at, a.t, ReaderAsleep, ReaderNotified);
      LeavingWeighsMore(Count(g.at, Busy), Count(g.at, Notified), Count(Step(g, a).at, Notified));
    }
  }

  /** Once calls stop coming in, no run is longer than the potential, and a run that can go no further
      has let everybody out: no schedule leaves a thread waiting for ever. */
  lemma {:induction false} EveryCallReturns(g: Guard, actions: seq<Action>)
    requires Sound(g) && InnerRun(g, actions)
    ensures |actions| + Potential(Run(g, actions)) <= Potential(g)
    ensures (forall a | Inner(a) :: !Enabled(Run(g, actions), a)) ==> !Someone(Run(g, actions), Busy)
    decreases actions
  {
    if actions == [] {
      if Someone(g, Busy) { SomeoneCanMove(g); }
    } else {
      StepSound(g, actions[0]);
      InnerStepDescends(g, actions[0]);
      EveryCallReturns(Step(g, actions[0]), actions[1..]);
    }
  }

  lemma {:induction false} SomeoneCanMove(g: Guard)
    requires Sound(g) && Someone(g, Busy)
    ensures exists a :: Inner(a) && Enabled(g, a)
  {
    var b :| 0 <= b < |g.at| && Busy(g.at[b]);
    assert g.at[b] != Outside;
    assert Someone(g, p => p != Outside);
    NoDeadlock(g);
    var t: Thread :| 0 <= t < |g.at| && g.at[t] != Outside && !Asleep(g.at[t]);
    var a := if g.at[t] == Reading then UnguardReading(t)
             else if g.at[t] == Writing then UnguardWriting(t) else Wake(t);
    assert Inner(a) && Enabled(g, a);
  }

  // -------------------------------------------------------------- keeping apart

  /** A reader and a writer hold the configuration at once. */
  ghost predicate Clash(g: Guard) {
    (exists r :: 0 <= r < |g.at| && g.at[r] == Reading) && (exists w :: 0 <= w < |g.at| && g.at[w] == Writing)
  }

  ghost predicate WriterPresent(g: Guard) {
    exists w :: 0 <= w < |g.at| && InWriter(g.at[w])
  }

  /** At most one writer between announcement and exit, its announcement standing, and no clash. */
  ghost predicate Apart(g: Guard) {
    && (forall u, w | 0 <= u < w < |g.at| :: !InWriter(g.at[u]) || !InWriter(g.at[w]))
    && (WriterPresent(g) ==> g.writing)
    && !Clash(g)
  }

  /** While a writer has announced itself the number of readers inside never grows, however many writers there are. */
  lemma AnnouncedReadersOnlyLeave(g: Guard, a: Action)
    requires g.writing
    ensures Step(g, a).reading <= g.reading
  {
  }

  lemma {:induction false} NobodyReads(g: Guard)
    requires Sound(g)
    ensures g.reading > 0 <==> exists r :: 0 <= r < |g.at| && g.at[r] == Reading
  {
    CountPositive(g.at, IsReading);
    if r :| 0 <= r < |g.at| && g.at[r] == Reading { assert IsReading(g.at[r]); }
    if r :| 0 <= r < |g.at| && IsReading(g.at[r]) { assert g.at[r] == Reading; }
  }

  lemma {:induction false} StepApart(g: Guard, a: Action)
    requires Sound(g) && Apart(g)
    requires a.GuardWriting? ==> !WriterPresent(g)
    ensures Apart(Step(g, a))
  {
    NobodyReads(g);
    StepSound(g, a);
    NobodyReads(Step(g, a));
    if Enabled(g, a) {
      if a.UnguardWriting? {
        assert InWriter(g.at[a.t]);
      }
      OnlyOneWriter(g, a);
      NoClashAfter(g, a);
    }
  }

  lemma {:induction false} OnlyOneWriter(g: Guard, a: Action)
    requires Sound(g) && Apart(g) && Enabled(g, a)
    requires a.GuardWriting? ==> !WriterPresent(g)
    ensures var g' := Step(g, a);
            && (forall u, w | 0 <= u < w < |g'.at| :: !InWriter(g'.at[u]) || !InWriter(g'.at[w]))
            && (WriterPresent(g') ==> g'.writing)
  {
    var g' := Step(g, a);
    forall w | 0 <= w < |g.at| && w != a.t ensures InWriter(g'.at[w]) <==> InWriter(g.at[w]) {}
    if !a.GuardWriting? { assert InWriter(g'.at[a.t]) ==> InWriter(g.at[a.t]); }
    if a.UnguardWriting? {
      assert InWriter(g.at[a.t]);
    } else if w :| 0 <= w < |g'.at| && InWriter(g'.at[w]) {
      if !a.GuardWriting? { assert InWriter(g.at[w]); }
    }
  }

  lemma {:induction false} NoClashAfter(g: Guard, a: Action)
    requires Sound(g) && Apart(g) && Enabled(g, a)
    requires a.GuardWriting? ==> !WriterPresent(g)
    ensures !Clash(Step(g, a))
  {
    var g' := Step(g, a);
    NobodyReads(g);
    StepSound(g, a);
    NobodyReads(g');
    if w :| 0 <= w < |g'.at| && g'.at[w] == Writing {
      if w == a.t {
        assert g'.reading <= 0;
      } else {
        assert g.at[w] == Writing && InWriter(g.at[w]);
        assert g.writing && g.reading <= 0;
        AnnouncedReadersOnlyLeave(g, a);
      }
    }
  }

  /** No thread joins the writers. */
  predicate NoNewWriters(actions: seq<Action>) {
    forall i | 0 <= i < |actions| :: !actions[i].GuardWriting?
  }

  /** However the threads go on, short of a new writer, no reader and writer meet. */
  ghost predicate SafeForever(g: Guard) {
    forall actions | NoNewWriters(actions) :: !Clash(Run(g, actions))
  }

  lemma {:induction false} ApartRun(g: Guard, actions: seq<Action>)
    requires Sound(g) && Apart(g) && NoNewWriters(actions)
    ensures !Clash(Run(g, actions))
    decreases actions
  {
    if actions != [] {
      StepApart(g, actions[0]);
      StepSound(g, actions[0]);
      ApartRun(Step(g, actions[0]), actions[1..]);
    }
  }

  // ----------------------------------------------- what goes wrong otherwise

  /** Every reader inside leaves; nobody else moves, but sleeping writers are woken. */
  lemma {:induction false} LetReadersOut(g: Guard) returns (actions: seq<Action>)
    requires Sound(g)
    ensures NoNewWriters(actions)
    ensures var g' := Run(g, actions);
            && Sound(g') && |g'.at| == |g.at| && g'.reading == 0 && g'.writing == g.writing
            && (forall t | 0 <= t < |g.at| :: g'.at[t] == (if g.at[t] == Reading then Outside
                                                           else if g.at[t] == WriterAsleep then WriterNotified else g.at[t]))
    decreases g.reading
  {
    NobodyReads(g);
    if g.reading <= 0 {
      actions := [];
    } else {
      var r: Thread :| 0 <= r < |g.at| && g.at[r] == Reading;
      StepSound(g, UnguardReading(r));
      var rest := LetReadersOut(Step(g, UnguardReading(r)));
      actions := [UnguardReading(r)] + rest;
      assert actions[1..] == rest;
    }
  }

  /** With no reader inside, a writer gets in at its next step. */
  lemma {:induction false} WriterGetsIn(g: Guard, w: Thread) returns (actions: seq<Action>)
    requires Sound(g) && g.reading == 0 && w < |g.at| && InWriter(g.at[w])
    ensures NoNewWriters(actions) && Run(g, actions) == g.(at := g.at[w := Writing])
    ensures Sound(Run(g, actions))
  {
    if g.at[w] == Writing {
      assert g.at[w := Writing] == g.at;
      actions := [];
    } else {
      actions := [Wake(w)];
      assert Run(Step(g, Wake(w)), actions[1..]) == Step(g, Wake(w));
      StepSound(g, Wake(w));
    }
  }

  /** First everyone out, then the writer in. */
  lemma {:induction false} WriterAlone(g: Guard, w: Thread) returns (actions: seq<Action>)
    requires Sound(g) && w < |g.at| && InWriter(g.at[w])
    ensures NoNewWriters(actions)
    ensures var g' := Run(g, actions);
            && Sound(g') && |g'.at| == |g.at| && g'.at[w] == Writing && g'.reading == 0 && g'.writing == g.writing
            && (forall t | 0 <= t < |g.at| && InWriter(g.at[t]) :: InWriter(g'.at[t]))
            && (forall t | 0 <= t < |g.at| && !InWriter(g.at[t]) :: g'.at[t] == if g.at[t] == Reading then Outside else g.at[t])
  {
    var first := LetReadersOut(g);
    var second := WriterGetsIn(Run(g, first), w);
    RunThen(g, first, second);
    actions := first + second;
  }

  /** A writer whose announcement is gone meets the next reader. */
  lemma {:induction false} UnannouncedWriterClashes(g: Guard, w: Thread, t: Thread) returns (actions: seq<Action>)
    requires Sound(g) && w < |g.at| && t < |g.at|
    requires InWriter(g.at[w]) && !InWriter(g.at[t]) && !g.writing
    ensures NoNewWriters(actions) && Clash(Run(g, actions))
  {
    var first := WriterAlone(g, w);
    var g1 := Run(g, first);
    var step := if g1.at[t] == Outside then GuardReading(t) else Wake(t);
    assert Enabled(g1, step);
    var g2 := Step(g1, step);
    assert g2.at[t] == Reading && g2.at[w] == Writing;
    RunThen(g, first, [step]);
    assert Run(g2, [step][1..]) == g2;
    actions := first + [step];
  }

  /** Two writers: the first to leave takes the other's announcement with it. */
  lemma {:induction false} TwoWritersClash(g: Guard, u: Thread, w: Thread) returns (actions: seq<Action>)
    requires Sound(g) && u < |g.at| && w < |g.at| && u != w && InWriter(g.at[u]) && InWriter(g.at[w])
    ensures NoNewWriters(actions) && Clash(Run(g, actions))
  {
    var first := WriterAlone(g, u);
    var g1 := Run(g, first);
    StepSound(g1, UnguardWriting(u));
    var g2 := Step(g1, UnguardWriting(u));
    var rest := UnannouncedWriterClashes(g2, w, u);
    var second := [UnguardWriting(u)] + rest;
    assert second[1..] == rest;
    RunThen(g, first, second);
    actions := first + second;
  }

  lemma {:induction false} NotApartClashes(g: Guard) returns (actions: seq<Action>)
    requires Sound(g) && |g.at| >= 2 && !Apart(g)
    ensures NoNewWriters(actions) && Clash(Run(g, actions))
  {
    if Clash(g) {
      actions := [];
    } else if u: Thread, w: Thread :| 0 <= u < w < |g.at| && InWriter(g.at[u]) && InWriter(g.at[w]) {
      actions := TwoWritersClash(g, u, w);
    } else {
      var w: Thread :| 0 <= w < |g.at| && InWriter(g.at[w]);
      var t: Thread := if w == 0 then 1 else 0;
      actions := UnannouncedWriterClashes(g, w, t);
    }
  }

  /** EXACTLY WHEN READERS AND WRITERS STAY APART: with two threads or more, no continuation without a new
      writer clashes if and only if there is at most one writer and its announcement stands. */
  lemma {:induction false} SafeForeverIffApart(g: Guard)
    requires Sound(g) && |g.at| >= 2
    ensures SafeForever(g) <==> Apart(g)
  {
    if Apart(g) {
      forall actions | NoNewWriters(actions) ensures !Clash(Run(g, actions)) { ApartRun(g, actions); }
    } else {
      var actions := NotApartClashes(g);
      assert NoNewWriters(actions) && Clash(Run(g, actions));
    }
  }

  /** A new writer keeps the guard safe if and only if the announcement is not already made: guardWriting does not check. */
  lemma {:induction false} NewWriterSafeIffAlone(g: Guard, t: Thread)
    requires Sound(g) && |g.at| >= 2 && SafeForever(g) && Enabled(g, GuardWriting(t))
    ensures SafeForever(Step(g, GuardWriting(t))) <==> !g.writing
  {
    SafeForeverIffApart(g);
    StepSound(g, GuardWriting(t));
    SafeForeverIffApart(Step(g, GuardWriting(t)));
    if WriterPresent(g) {
      var w :| 0 <= w < |g.at| && InWriter(g.at[w]);
      StillInWriter(g, GuardWriting(t), w);
      assert InWriter(Step(g, GuardWriting(t)).at[t]) && w != t;
    } else {
      StepApart(g, GuardWriting(t));
    }
  }

  // ------------------------------------------------------ writers one at a time

  /** Writers come one at a time: each announces itself when no other is present. */
  ghost predicate OneWriterAtATime(g: Guard, actions: seq<Action>)
    decreases actions
  {
    actions != [] ==>
      && (actions[0].GuardWriting? ==> !WriterPresent(g))
      && OneWriterAtATime(Step(g, actions[0]), actions[1..])
  }

  /** Then every run from a state that keeps readers and writers apart keeps them apart. */
  lemma {:induction false} ExclusionHolds(g: Guard, actions: seq<Action>)
    requires Sound(g) && Apart(g) && OneWriterAtATime(g, actions)
    ensures Sound(Run(g, actions)) && Apart(Run(g, actions))
    decreases actions
  {
    if actions != [] {
      StepApart(g, actions[0]);
      StepSound(g, actions[0]);
      ExclusionHolds(Step(g, actions[0]), actions[1..]);
    }
  }

  /** With any number of threads, from the start: while writers come one at a time there is no clash. */
  lemma {:induction false} ExclusionFromStart(threads: nat, actions: seq<Action>)
    requires OneWriterAtATime(Start(threads), actions)
    ensures Sound(Run(Start(threads), actions)) && Apart(Run(Start(threads), actions)) && !Clash(Run(Start(threads), actions))
  {
    CountPositive(Start(threads).at, IsReading);
    ExclusionHolds(Start(threads), actions);
  }

  /** And from a writer's announcement to its exit the count of readers never grows. */
  lemma {:induction false} ReadersOnlyLeave(g: Guard, w: Thread, actions: seq<Action>)
    requires Sound(g) && Apart(g) && OneWriterAtATime(g, actions)
    requires w < |g.at| && InWriter(g.at[w]) && UnguardWriting(w) !in actions
    ensures Run(g, actions).reading <= g.reading
    ensures w < |Run(g, actions).at| && InWriter(Run(g, actions).at[w])
    decreases actions
  {
    if actions != [] {
      assert UnguardWriting(w) !in actions[1..];
      AnnouncedReadersOnlyLeave(g, actions[0]);
      StillInWriter(g, actions[0], w);
      StepApart(g, actions[0]);
      StepSound(g, actions[0]);
      ReadersOnlyLeave(Step(g, actions[0]), w, actions[1..]);
    }
  }
}
