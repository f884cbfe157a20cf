/** The panic button's debouncer in the firmware's main loop: one call per iteration, one sample per call. */
module PanicButton {

  const PB_TRESHOLD := 1000

  /** The button's globals; all start cleared. */
  datatype Button = Button(time: nat, lastState: bool, postThreshold: bool)

  const RESET := Button(0, false, false)

  /** One iteration of loop on one sample of the pin; the result's second part says whether it is reported. */
  function Step(b: Button, pressed: bool): (Button, bool) {
    var time := if b.time < PB_TRESHOLD then b.time + 1 else b.time;
    if pressed == b.lastState && time >= PB_TRESHOLD then
      if pressed && !b.postThreshold then (Button(time, b.lastState, true), true)
      else if !pressed then (Button(time, b.lastState, false), false)
      else (Button(time, b.lastState, b.postThreshold), false)
    else if pressed != b.lastState then (Button(0, pressed, b.postThreshold), false)
    else (Button(time, b.lastState, b.postThreshold), false)
  }

  function Run(samples: seq<bool>): Button
    decreases samples
  {
    if samples == [] then RESET
    else Step(Run(samples[..|samples| - 1]), samples[|samples| - 1]).0
  }

  /** Sample i makes loop print "PanicButton". */
  predicate Reports(samples: seq<bool>, i: nat)
    requires i < |samples|
  {
    Step(Run(samples[..i]), samples[i]).1
  }

  class Loop {
    var pbTime: nat
    var pbLastState: bool
    var pbPostThresholdState: bool

    constructor ()
      ensures State() == RESET
    {
      pbTime, pbLastState, pbPostThresholdState := 0, false, false;
    }

    function State(): Button
      reads this
    {
      Button(pbTime, pbLastState, pbPostThresholdState)
    }

    method Iterate(pbState: bool) returns (report: bool)
      modifies this
      ensures (State(), report) == Step(old(State()), pbState)
    {
      report := false;
      if pbTime < PB_TRESHOLD {
        pbTime := pbTime + 1;
      }
      if pbState == pbLastState && pbTime >= PB_TRESHOLD {
        if pbState && !pbPostThresholdState {
          pbPostThresholdState := true;
          report := true;
        } else if !pbState {
          pbPostThresholdState := false;
        }
      } else if pbState != pbLastState {
        pbTime := 0;
        pbLastState := pbState;
      }
    }
  }

  // ------------------------------------------------------------ what it computes

  /** The last 1001 of these samples are all v. */
  predicate Held(samples: seq<bool>, v: bool) {
    |samples| > 1000 && forall i | |samples| - 1001 <= i < |samples| :: samples[i] == v
  }

  /** The debounced level: the value last held, and released before anything was held. */
  predicate Debounced(samples: seq<bool>)
    decreases samples
  {
    if Held(samples, true) then true
    else if Held(samples, false) || samples == [] then false
    else Debounced(samples[..|samples| - 1])
  }

  /** How many samples at the end equal the one before them. */
  function Trail(samples: seq<bool>): nat
    requires samples != []
    decreases samples
  {
    var n := |samples|;
    if n > 1 && samples[n - 1] == samples[n - 2] then Trail(samples[..n - 1]) + 1 else 0
  }

  lemma {:induction false} TrailBounds(samples: seq<bool>)
    requires samples != []
    ensures Trail(samples) < |samples|
    ensures forall i | |samples| - 1 - Trail(samples) <= i < |samples| :: samples[i] == samples[|samples| - 1]
    ensures Trail(samples) + 1 < |samples| ==> samples[|samples| - 2 - Trail(samples)] != samples[|samples| - 1]
    decreases samples
  {
    var n := |samples|;
    if n > 1 && samples[n - 1] == samples[n - 2] {
      TrailBounds(samples[..n - 1]);
    }
  }

  lemma {:induction false} HeldIsTrail(samples: seq<bool>, v: bool)
    requires samples != []
    ensures Held(samples, v) <==> Trail(samples) >= 1000 && samples[|samples| - 1] == v
  {
    TrailBounds(samples);
  }

  /** The pin counts as released before the first sample. */
  function Padded(samples: seq<bool>): (p: seq<bool>)
    ensures p != []
  {
    [false] + samples
  }

  lemma {:induction false} RunMeans(samples: seq<bool>)
    ensures var b, p := Run(samples), Padded(samples);
            && b.lastState == p[|p| - 1]
            && b.time == (if Trail(p) < 1000 then Trail(p) else 1000)
            && b.postThreshold == Debounced(p)
    decreases samples
  {
    var p := Padded(samples);
    HeldIsTrail(p, true);
    HeldIsTrail(p, false);
    if samples == [] {
      assert Debounced(p[..0]) == false;
    } else {
      var before := samples[..|samples| - 1];
      RunMeans(before);
      assert p[..|p| - 1] == Padded(before);
    }
  }

  /** The debounced level after the first n samples. */
  predicate Level(samples: seq<bool>, n: nat)
    requires n <= |samples|
  {
    Debounced(Padded(samples[..n]))
  }

  /** The 1001 samples up to m are all v. */
  predicate Steady(samples: seq<bool>, m: int, v: bool) {
    1000 <= m < |samples| && forall k | m - 1000 <= k <= m :: samples[k] == v
  }

  lemma {:induction false} LevelStep(samples: seq<bool>, n: nat)
    requires n < |samples|
    ensures var p := Padded(samples[..n + 1]);
            Level(samples, n + 1) == if Held(p, true) then true else if Held(p, false) then false else Level(samples, n)
  {
    var p := Padded(samples[..n + 1]);
    assert p[..|p| - 1] == Padded(samples[..n]);
  }

  /** A report is made exactly when the debounced level rises. */
  lemma {:induction false} ReportsRisingEdges(samples: seq<bool>, i: nat)
    requires i < |samples|
    ensures Reports(samples, i) <==> !Level(samples, i) && Level(samples, i + 1)
  {
    RunMeans(samples[..i]);
    var p := Padded(samples[..i + 1]);
    HeldIsTrail(p, true);
    HeldIsTrail(p, false);
    assert p[..|p| - 1] == Padded(samples[..i]);
  }

  lemma {:induction false} HeldIsSteady(samples: seq<bool>, m: nat, v: bool)
    requires m < |samples| && Held(Padded(samples[..m + 1]), v)
    requires v || (exists i :: 0 <= i <= m && samples[i])
    ensures Steady(samples, m, v)
  {
    var p := Padded(samples[..m + 1]);
    assert !p[0];
    if !v {
      var i :| 0 <= i <= m && samples[i];
      assert p[i + 1];
    }
    forall k | m - 1000 <= k <= m ensures k >= 0 && samples[k] == v { assert p[k + 1] == samples[k]; }
  }

  lemma {:induction false} FallIsSteady(samples: seq<bool>, i: nat, j: nat)
    requires i < j <= |samples| && samples[i]
    requires Level(samples, i + 1) && !Level(samples, j)
    ensures exists m :: i < m < j && Steady(samples, m, false)
    decreases j
  {
    LevelStep(samples, j - 1);
    if Level(samples, j - 1) {
      HeldIsSteady(samples, j - 1, false);
      assert samples[i];
    } else {
      FallIsSteady(samples, i, j - 1);
    }
  }

  lemma {:induction false} ReportIsSteady(samples: seq<bool>, j: nat)
    requires j < |samples| && Reports(samples, j)
    ensures Steady(samples, j, true) && !Level(samples, j) && Level(samples, j + 1)
  {
    ReportsRisingEdges(samples, j);
    LevelStep(samples, j);
    HeldIsSteady(samples, j, true);
  }

  lemma {:induction false} SteadyApart(samples: seq<bool>, i: nat, j: nat, v: bool)
    requires i < j && Steady(samples, i, v) && Steady(samples, j, !v)
    ensures i < j - 1000
  {
    assert samples[i] == v;
  }

  /** Between two reports lie 1001 released samples and then 1001 pressed ones,
      so reports are at least 2002 iterations apart. */
  lemma {:induction false} ReportsFarApart(samples: seq<bool>, i: nat, j: nat)
    requires i < j < |samples|
    requires Reports(samples, i) && Reports(samples, j)
    ensures exists m :: i + 1000 < m < j - 1000 && Steady(samples, m, false)
    ensures Steady(samples, j, true)
    ensures j - i >= 2002
  {
    ReportIsSteady(samples, i);
    ReportIsSteady(samples, j);
    FallIsSteady(samples, i, j);
    var m :| i < m < j && Steady(samples, m, false);
    SteadyApart(samples, i, m, true);
    SteadyApart(samples, m, j, false);
  }

  /** No press is missed: 1001 pressed samples while the level is low are reported. */
  lemma {:induction false} HeldPressIsReported(samples: seq<bool>, i: nat)
    requires i + 1000 < |samples|
    requires !Level(samples, i)
    requires forall k | i <= k <= i + 1000 :: samples[k]
    ensures exists j :: i <= j <= i + 1000 && Reports(samples, j)
  {
    var n := i + 1001;
    assert Held(Padded(samples[..n]), true);
    RiseExists(samples, i, n);
  }

  lemma {:induction false} RiseExists(samples: seq<bool>, i: nat, n: nat)
    requires i <= n <= |samples|
    requires !Level(samples, i) && Level(samples, n)
    ensures exists j :: i <= j < n && Reports(samples, j)
    decreases n
  {
    if i < n {
      if Level(samples, n - 1) {
        RiseExists(samples, i, n - 1);
      } else {
        ReportsRisingEdges(samples, n - 1);
      }
    }
  }
}
