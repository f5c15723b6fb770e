/** Safe operating windows: score every forecast step, then merge like-classified neighbours in place. */
module SafeWindow {
  import opened Numbers
  import opened Readings
  import opened Risk
  import opened Sequences
  import opened Wrappers

  // ---------------------------------------------------------------- data model

  datatype Kind = Favourable | Marginal | HighRisk

  datatype Warning = Warning(from: real, until: real)

  /** The value of a window: its closed span and the worst of what it covers. */
  datatype Window = Window(start: real, end: real, kind: Kind, score: real, wave: Reading, wind: Reading, warned: bool)

  datatype Forecast = Forecast(times: seq<real>, waves: seq<Reading>, winds: seq<Reading>,
                               warnings: seq<Warning>, thresholds: Thresholds, interval: real)

  predicate Aligned(f: Forecast) { |f.waves| == |f.times| == |f.winds| }

  function ClassifyScore(score: real): Kind {
    if score <= 25.0 then Favourable else if score <= 50.0 then Marginal else HighRisk
  }

  /** The larger of the present values; a NaN on the left is kept and one on the right is passed over. */
  function MaxOpt(a: Reading, b: Reading): Reading {
    if a.Absent? then b
    else if b.Absent? then a
    else if a.Number? && b.Number? && b.value > a.value then b
    else a
  }

  /** Closed-interval test between a span and a warning. */
  predicate Touches(start: real, end: real, w: Warning) { start <= w.until && end >= w.from }

  ghost predicate Overlaps(start: real, end: real, ws: seq<Warning>) {
    exists w :: w in ws && Touches(start, end, w)
  }

  // ---------------------------------------------------------------- specification

  function StepEnd(f: Forecast, i: nat): real
    requires i < |f.times|
  {
    var end := f.times[i] + f.interval;
    if i + 1 < |f.times| && f.times[i + 1] > f.times[i] then MinReal(end, f.times[i + 1]) else end
  }

  ghost function StepAt(f: Forecast, i: nat): Window
    requires Aligned(f) && i < |f.times|
  {
    var start, end := f.times[i], StepEnd(f, i);
    var warned := Overlaps(start, end, f.warnings);
    var base := Score(NO_CONDITIONS.(wave := f.waves[i], wind := f.winds[i]), f.thresholds);
    var score := if warned then MaxReal(base, 75.0) else base;
    Window(start, end, ClassifyScore(score), score, f.waves[i], f.winds[i], warned)
  }

  ghost function Steps(f: Forecast): (s: seq<Window>)
    requires Aligned(f)
    ensures |s| == |f.times|
  {
    seq(|f.times|, i requires 0 <= i < |f.times| => StepAt(f, i))
  }

  predicate Joins(p: Window, s: Window) { p.kind == s.kind && p.end >= s.start }

  function Absorb(p: Window, s: Window): Window {
    Window(p.start, s.end, p.kind, MaxReal(p.score, s.score), MaxOpt(p.wave, s.wave), MaxOpt(p.wind, s.wind),
           p.warned || s.warned)
  }

  /** The last window absorbs the next step, or a new window is opened. */
  function MergeNext(front: seq<Window>, s: Window): seq<Window> {
    if front != [] && Joins(front[|front| - 1], s)
    then front[|front| - 1 := Absorb(front[|front| - 1], s)]
    else front + [s]
  }

  /** Left-to-right merge of the first `n` steps. */
  function Merge(steps: seq<Window>, n: nat): seq<Window>
    requires n <= |steps|
  {
    if n == 0 then [] else MergeNext(Merge(steps, n - 1), steps[n - 1])
  }

  /** The windows of a whole series. */
  ghost function Windows(f: Forecast): seq<Window>
    requires Aligned(f)
  {
    Merge(Steps(f), |f.times|)
  }

  // ---------------------------------------------------------------- the engine

  class TimeWindow {
    var start: real
    var end: real
    var kind: Kind
    var score: real
    var wave: Reading
    var wind: Reading
    var warned: bool

    function Value(): Window
      reads this
    {
      Window(start, end, kind, score, wave, wind, warned)
    }

    constructor (w: Window)
      ensures Value() == w
    {
      start, end, kind, score := w.start, w.end, w.kind, w.score;
      wave, wind, warned := w.wave, w.wind, w.warned;
    }

    /** Extends this window over the next step. */
    method Extend(s: TimeWindow)
      requires s != this
      modifies this
      ensures Value() == Absorb(old(Value()), old(s.Value()))
    {
      end := s.end;
      score := MaxReal(score, s.score);
      wave := MaxOpt(wave, s.wave);
      wind := MaxOpt(wind, s.wind);
      warned := warned || s.warned;
    }
  }

  method WarningOverlaps(start: real, end: real, ws: seq<Warning>) returns (b: bool)
    ensures b == Overlaps(start, end, ws)
  {
    for i := 0 to |ws|
      invariant forall k :: 0 <= k < i ==> !Touches(start, end, ws[k])
    {
      if Touches(start, end, ws[i]) {
        assert ws[i] in ws;
        return true;
      }
    }
    return false;
  }

  method ScoreStep(f: Forecast, i: nat) returns (w: Window)
    requires Aligned(f) && i < |f.times|
    ensures w == StepAt(f, i)
  {
    var start, end := f.times[i], StepEnd(f, i);
    var assessment := AssessMarineRisk(NO_CONDITIONS.(wave := f.waves[i], wind := f.winds[i]), f.thresholds);
    var score := assessment.score;
    var overlapping := WarningOverlaps(start, end, f.warnings);
    if overlapping {
      score := MaxReal(score, 75.0);
    }
    w := Window(start, end, ClassifyScore(score), score, f.waves[i], f.winds[i], overlapping);
  }

  method ScoreSteps(f: Forecast) returns (steps: seq<TimeWindow>)
    requires Aligned(f)
    ensures HaveValues(steps, Steps(f)) && NoDuplicates(steps)
    ensures forall k :: 0 <= k < |steps| ==> fresh(steps[k])
  {
    hide StepAt;
    steps := [];
    for i := 0 to |f.times|
      invariant |steps| == i
      invariant forall k :: 0 <= k < i ==> fresh(steps[k]) && steps[k].Value() == StepAt(f, k)
      invariant forall j, k :: 0 <= j < k < i ==> steps[j] != steps[k]
    {
      var value := ScoreStep(f, i);
      var w := new TimeWindow(value);
      steps := steps + [w];
    }
  }

  ghost predicate HaveValues(ws: seq<TimeWindow>, values: seq<Window>)
    reads ws
  {
    |ws| == |values| && forall k :: 0 <= k < |ws| ==> ws[k].Value() == values[k]
  }

  /** Takes in one step, by stretching the last window object or by keeping the step object itself. */
  method MergeOne(merged: seq<TimeWindow>, s: TimeWindow, ghost front: seq<Window>) returns (next: seq<TimeWindow>)
    requires HaveValues(merged, front) && NoDuplicates(merged) && s !in merged
    modifies if merged != [] then {merged[|merged| - 1]} else {}
    ensures HaveValues(next, MergeNext(front, old(s.Value())))
    ensures next == merged || next == merged + [s]
    ensures NoDuplicates(next)
  {
    if merged != [] && merged[|merged| - 1].kind == s.kind && merged[|merged| - 1].end >= s.start {
      var prev := merged[|merged| - 1];
      assert prev.Value() == front[|front| - 1];
      prev.Extend(s);
      next := merged;
    } else {
      assert merged != [] ==> merged[|merged| - 1].Value() == front[|front| - 1];
      next := merged + [s];
    }
  }

  /** Merges in place: each result is one of the step objects, stretched over its run. */
  method MergeSteps(steps: seq<TimeWindow>, ghost values: seq<Window>) returns (merged: seq<TimeWindow>)
    requires HaveValues(steps, values) && NoDuplicates(steps)
    modifies steps
    ensures HaveValues(merged, Merge(values, |values|)) && NoDuplicates(merged)
    ensures forall w :: w in merged ==> w in steps
  {
    merged := [];
    for i := 0 to |steps|
      invariant HaveValues(merged, Merge(values, i)) && NoDuplicates(merged)
      invariant forall w :: w in merged ==> w in steps[..i]
      invariant forall k :: i <= k < |steps| ==> steps[k].Value() == values[k]
    {
      var s := steps[i];
      assert forall k :: i <= k < |steps| ==> steps[k] !in steps[..i];
      assert steps[..i + 1] == steps[..i] + [s];
      if merged != [] {
        assert merged[|merged| - 1] in merged;
        assert merged[|merged| - 1] in steps[..i];
      }
      merged := MergeOne(merged, s, Merge(values, i));
    }
  }

  /** Scores each step on its own, then merges; disagreeing series lengths are refused. */
  method ComputeSafeWindows(f: Forecast) returns (r: Result<seq<TimeWindow>, string>)
    ensures r.Ok? <==> Aligned(f)
    ensures r.Ok? ==> HaveValues(r.value, Windows(f)) && NoDuplicates(r.value)
    ensures r.Ok? ==> forall k :: 0 <= k < |r.value| ==> fresh(r.value[k])
  {
    if !Aligned(f) {
      return Err("forecast_times, wave_heights, wind_speeds must be equal length");
    }
    var steps := ScoreSteps(f);
    var merged := MergeSteps(steps, Steps(f));
    assert forall k :: 0 <= k < |merged| ==> merged[k] in steps;
    r := Ok(merged);
  }

  // ---------------------------------------------------------------- runs

  /** Steps `lo` up to but not including `hi`. */
  datatype Run = Run(lo: nat, hi: nat)

  /** The runs behind the windows of the first `n` steps. */
  function Runs(steps: seq<Window>, n: nat): (rs: seq<Run>)
    requires n <= |steps|
    ensures n > 0 ==> rs != [] && rs[|rs| - 1].hi == n
  {
    if n == 0 then []
    else
      var front := Runs(steps, n - 1);
      if n > 1 && Joins(steps[n - 2], steps[n - 1])
      then front[|front| - 1 := Run(front[|front| - 1].lo, n)]
      else front + [Run(n - 1, n)]
  }

  /** One window speaking for a whole run. */
  function Summary(steps: seq<Window>, lo: nat, hi: nat): Window
    requires lo < hi <= |steps|
    decreases hi
  {
    if hi == lo + 1 then steps[lo] else Absorb(Summary(steps, lo, hi - 1), steps[hi - 1])
  }

  ghost predicate IsRun(steps: seq<Window>, r: Run) {
    r.lo < r.hi <= |steps| && forall i :: r.lo < i < r.hi ==> Joins(steps[i - 1], steps[i])
  }

  /** The runs cover the first `n` steps in order, and neighbouring runs do not join. */
  ghost predicate Partition(steps: seq<Window>, rs: seq<Run>, n: nat) {
    && (forall k :: 0 <= k < |rs| ==> IsRun(steps, rs[k]))
    && (n == 0 <==> rs == [])
    && (rs != [] ==> rs[0].lo == 0 && rs[|rs| - 1].hi == n)
    && (forall k :: 0 < k < |rs| ==> rs[k - 1].hi == rs[k].lo && !Joins(steps[rs[k].lo - 1], steps[rs[k].lo]))
  }

  lemma {:induction false} SummaryEnds(steps: seq<Window>, lo: nat, hi: nat)
    requires lo < hi <= |steps|
    ensures Summary(steps, lo, hi).start == steps[lo].start
    ensures Summary(steps, lo, hi).kind == steps[lo].kind
    ensures Summary(steps, lo, hi).end == steps[hi - 1].end
    decreases hi
  {
    if hi > lo + 1 { SummaryEnds(steps, lo, hi - 1); }
  }

  lemma {:induction false} RunKeepsKind(steps: seq<Window>, lo: nat, hi: nat, i: nat)
    requires IsRun(steps, Run(lo, hi)) && lo <= i < hi
    ensures steps[i].kind == steps[lo].kind
    decreases i
  {
    if lo < i { RunKeepsKind(steps, lo, hi, i - 1); }
  }

  lemma PartitionGrows(steps: seq<Window>, rs: seq<Run>, n: nat)
    requires 0 < n < |steps| && Partition(steps, rs, n) && Joins(steps[n - 1], steps[n])
    ensures Partition(steps, rs[|rs| - 1 := Run(rs[|rs| - 1].lo, n + 1)], n + 1)
  {
    hide Joins;
    assert IsRun(steps, rs[|rs| - 1]);
  }

  lemma PartitionOpens(steps: seq<Window>, rs: seq<Run>, n: nat)
    requires 0 < n < |steps| && Partition(steps, rs, n) && !Joins(steps[n - 1], steps[n])
    ensures Partition(steps, rs + [Run(n, n + 1)], n + 1)
  {
    hide Joins;
    assert IsRun(steps, rs[|rs| - 1]);
  }

  lemma PartitionNext(steps: seq<Window>, rs: seq<Run>, n: nat)
    requires 0 < n < |steps| && Partition(steps, rs, n)
    ensures var last := rs[|rs| - 1];
            if Joins(steps[n - 1], steps[n]) then Partition(steps, rs[|rs| - 1 := Run(last.lo, n + 1)], n + 1)
            else Partition(steps, rs + [Run(n, n + 1)], n + 1)
  {
    hide Partition, IsRun, Joins;
    if Joins(steps[n - 1], steps[n]) {
      PartitionGrows(steps, rs, n);
    } else {
      PartitionOpens(steps, rs, n);
    }
  }

  /** The runs cover the steps in order, are never empty, and are as long as they can be. */
  lemma {:induction false} RunsPartition(steps: seq<Window>, n: nat)
    requires n <= |steps|
    ensures Partition(steps, Runs(steps, n), n)
  {
    if n == 1 {
      assert IsRun(steps, Run(0, 1));
    } else if n > 1 {
      RunsPartition(steps, n - 1);
      PartitionNext(steps, Runs(steps, n - 1), n - 1);
    }
  }

  ghost predicate Summarise(steps: seq<Window>, rs: seq<Run>, ws: seq<Window>) {
    && |ws| == |rs|
    && forall k :: 0 <= k < |rs| ==> rs[k].lo < rs[k].hi <= |steps| && ws[k] == Summary(steps, rs[k].lo, rs[k].hi)
  }

  lemma SummariseNext(steps: seq<Window>, rs: seq<Run>, ws: seq<Window>, n: nat)
    requires 0 < n < |steps| && rs != [] && rs[|rs| - 1].hi == n && Summarise(steps, rs, ws)
    ensures var last := rs[|rs| - 1];
            Summarise(steps, rs[|rs| - 1 := Run(last.lo, n + 1)], ws[|ws| - 1 := Absorb(ws[|ws| - 1], steps[n])])
    ensures Summarise(steps, rs + [Run(n, n + 1)], ws + [steps[n]])
  {
    assert Summary(steps, n, n + 1) == steps[n];
  }

  /** Joining the last window is joining the last step. */
  lemma LastWindowJoins(steps: seq<Window>, r: Run, s: Window)
    requires IsRun(steps, r)
    ensures Joins(Summary(steps, r.lo, r.hi), s) <==> Joins(steps[r.hi - 1], s)
  {
    RunKeepsKind(steps, r.lo, r.hi, r.hi - 1);
    SummaryEnds(steps, r.lo, r.hi);
  }

  lemma MergeNextSummarises(steps: seq<Window>, rs: seq<Run>, ws: seq<Window>, n: nat)
    requires 0 < n < |steps| && rs != [] && Partition(steps, rs, n) && Summarise(steps, rs, ws)
    ensures Summarise(steps, if Joins(steps[n - 1], steps[n]) then rs[|rs| - 1 := Run(rs[|rs| - 1].lo, n + 1)]
                             else rs + [Run(n, n + 1)], MergeNext(ws, steps[n]))
  {
    hide Joins, Absorb, Summary;
    var r := rs[|rs| - 1];
    assert ws[|ws| - 1] == Summary(steps, r.lo, r.hi) && IsRun(steps, r);
    LastWindowJoins(steps, r, steps[n]);
    SummariseNext(steps, rs, ws, n);
  }

  lemma FirstStepStandsAlone(steps: seq<Window>, n: nat)
    requires n == 1 <= |steps|
    ensures Summarise(steps, Runs(steps, n), Merge(steps, n))
  {
    hide Joins, Absorb;
    assert Merge(steps, n - 1) == [] && Runs(steps, n) == [Run(n - 1, n)];
  }

  /** The windows are exactly the summaries of those maximal runs, in order. */
  lemma {:induction false} MergeIsRunDecomposition(steps: seq<Window>, n: nat)
    requires n <= |steps|
    ensures Partition(steps, Runs(steps, n), n)
    ensures Summarise(steps, Runs(steps, n), Merge(steps, n))
  {
    hide Partition, Joins;
    RunsPartition(steps, n);
    if n == 1 {
      FirstStepStandsAlone(steps, n);
    } else if n > 1 {
      hide Summarise, Summary, MergeNext;
      MergeIsRunDecomposition(steps, n - 1);
      MergeNextSummarises(steps, Runs(steps, n - 1), Merge(steps, n - 1), n - 1);
    }
  }

  // ---------------------------------------------------------------- what a window says

  /** A window's score is the worst of its steps, its warning flag their disjunction. */
  lemma {:induction false} SummaryIsWorst(steps: seq<Window>, lo: nat, hi: nat)
    requires lo < hi <= |steps|
    ensures forall i :: lo <= i < hi ==> steps[i].score <= Summary(steps, lo, hi).score
    ensures exists i :: lo <= i < hi && steps[i].score == Summary(steps, lo, hi).score
    ensures Summary(steps, lo, hi).warned <==> exists i :: lo <= i < hi && steps[i].warned
    decreases hi
  {
    if hi == lo + 1 {
      assert steps[lo].score == Summary(steps, lo, hi).score;
    } else {
      SummaryIsWorst(steps, lo, hi - 1);
      var w, last := Summary(steps, lo, hi - 1), steps[hi - 1];
      var i :| lo <= i < hi - 1 && steps[i].score == w.score;
      assert Summary(steps, lo, hi).score == (if last.score > w.score then steps[hi - 1].score else steps[i].score);
    }
  }

  function FoldMax(xs: seq<Reading>, lo: nat, hi: nat): Reading
    requires lo < hi <= |xs|
    decreases hi
  {
    if hi == lo + 1 then xs[lo] else MaxOpt(FoldMax(xs, lo, hi - 1), xs[hi - 1])
  }

  lemma {:induction false} SummaryFoldsReadings(f: Forecast, lo: nat, hi: nat)
    requires Aligned(f) && lo < hi <= |f.times|
    ensures Summary(Steps(f), lo, hi).wave == FoldMax(f.waves, lo, hi)
    ensures Summary(Steps(f), lo, hi).wind == FoldMax(f.winds, lo, hi)
    decreases hi
  {
    if hi > lo + 1 { SummaryFoldsReadings(f, lo, hi - 1); }
  }

  /** The reported maximum is that of the present numbers exactly unless the first present value is a NaN. */
  lemma {:induction false} FoldMaxIsWorst(xs: seq<Reading>, lo: nat, hi: nat)
    requires lo < hi <= |xs|
    ensures var m := FoldMax(xs, lo, hi);
      && (m.Absent? <==> forall i :: lo <= i < hi ==> xs[i].Absent?)
      && (m.NaN? <==> exists i :: lo <= i < hi && xs[i].NaN? && forall j :: lo <= j < i ==> xs[j].Absent?)
      && (m.Number? ==> exists i :: lo <= i < hi && xs[i] == m)
      && (m.Number? ==> forall i :: lo <= i < hi && xs[i].Number? ==> xs[i].value <= m.value)
    decreases hi
  {
    if hi > lo + 1 {
      FoldMaxIsWorst(xs, lo, hi - 1);
      var p, m := FoldMax(xs, lo, hi - 1), FoldMax(xs, lo, hi);
      assert m == p || m == xs[hi - 1];
      if p.NaN? {
        var i :| lo <= i < hi - 1 && xs[i].NaN? && forall j :: lo <= j < i ==> xs[j].Absent?;
        assert lo <= i < hi && xs[i].NaN?;
      }
      if p.Number? {
        var i :| lo <= i < hi - 1 && xs[i] == p;
        assert lo <= i < hi && !xs[i].Absent?;
      }
    }
  }

  /** A NaN that comes first hides the waves behind it; one that comes later is passed over. */
  lemma LeadingNaNHidesTheWaves()
    ensures FoldMax([NaN, Number(6.0)], 0, 2) == NaN && FoldMax([Number(6.0), NaN], 0, 2) == Number(6.0)
  {
  }

  // ---------------------------------------------------------------- entire windows

  predicate WellFormed(w: Warning) { w.from <= w.until }

  /** Strictly increasing times and a positive interval. */
  ghost predicate Chronological(f: Forecast) {
    && Aligned(f)
    && f.interval > 0.0
    && forall i, j :: 0 <= i < j < |f.times| ==> f.times[i] < f.times[j]
  }

  /** Nonempty spans, each over before the next begins. */
  ghost predicate Spaced(steps: seq<Window>) {
    && (forall i :: 0 <= i < |steps| ==> steps[i].start < steps[i].end)
    && (forall i, j :: 0 <= i < j < |steps| ==> steps[i].end <= steps[j].start)
  }

  /** Every step is classified by its score, and flagged exactly when a warning touches it. */
  ghost predicate Assessed(steps: seq<Window>, ws: seq<Warning>) {
    && (forall i :: 0 <= i < |steps| ==> steps[i].kind == ClassifyScore(steps[i].score))
    && (forall i :: 0 <= i < |steps| ==> (steps[i].warned <==> Overlaps(steps[i].start, steps[i].end, ws)))
    && (forall i :: 0 <= i < |steps| ==> steps[i].warned ==> steps[i].kind == HighRisk)
  }

  lemma StepsAreSpaced(f: Forecast)
    requires Chronological(f)
    ensures Spaced(Steps(f))
  {
    var steps := Steps(f);
    forall i | 0 <= i < |steps|
      ensures steps[i].start == f.times[i] < steps[i].end
      ensures i + 1 < |steps| ==> steps[i].end <= f.times[i + 1]
    {
      assert steps[i] == StepAt(f, i);
    }
  }

  lemma StepsAreAssessed(f: Forecast)
    requires Aligned(f)
    ensures Assessed(Steps(f), f.warnings)
  {
    forall i | 0 <= i < |f.times| ensures Steps(f)[i] == StepAt(f, i) { }
  }

  /** The run behind a window. */
  lemma RunOfWindow(f: Forecast, k: nat) returns (r: Run)
    requires Aligned(f) && k < |Windows(f)|
    ensures k < |Runs(Steps(f), |f.times|)| && r == Runs(Steps(f), |f.times|)[k]
    ensures IsRun(Steps(f), r) && Windows(f)[k] == Summary(Steps(f), r.lo, r.hi)
  {
    MergeIsRunDecomposition(Steps(f), |f.times|);
    r := Runs(Steps(f), |f.times|)[k];
  }

  /** Steps that share each boundary are touched as a whole exactly when one of them is. */
  lemma {:induction false} SpanTouchesExactlyWithAStep(steps: seq<Window>, lo: nat, hi: nat, w: Warning)
    requires Spaced(steps) && IsRun(steps, Run(lo, hi)) && WellFormed(w)
    ensures Touches(steps[lo].start, steps[hi - 1].end, w)
            <==> exists i :: lo <= i < hi && Touches(steps[i].start, steps[i].end, w)
    decreases hi
  {
    if hi > lo + 1 {
      assert Joins(steps[hi - 2], steps[hi - 1]);
      SpanTouchesExactlyWithAStep(steps, lo, hi - 1, w);
      if Touches(steps[lo].start, steps[hi - 1].end, w) {
        if Touches(steps[lo].start, steps[hi - 2].end, w) {
          var i :| lo <= i < hi - 1 && Touches(steps[i].start, steps[i].end, w);
          assert lo <= i < hi;
        } else {
          assert Touches(steps[hi - 1].start, steps[hi - 1].end, w);
        }
      }
    }
  }

  lemma SummaryFlagSpeaksForTheSpan(steps: seq<Window>, lo: nat, hi: nat, ws: seq<Warning>)
    requires Spaced(steps) && Assessed(steps, ws) && IsRun(steps, Run(lo, hi))
    requires forall w :: w in ws ==> WellFormed(w)
    ensures Summary(steps, lo, hi).warned <==> Overlaps(steps[lo].start, steps[hi - 1].end, ws)
  {
    SummaryIsWorst(steps, lo, hi);
    if Summary(steps, lo, hi).warned {
      var i :| lo <= i < hi && steps[i].warned;
      var w :| w in ws && Touches(steps[i].start, steps[i].end, w);
      SpanTouchesExactlyWithAStep(steps, lo, hi, w);
    }
    if Overlaps(steps[lo].start, steps[hi - 1].end, ws) {
      var w :| w in ws && Touches(steps[lo].start, steps[hi - 1].end, w);
      SpanTouchesExactlyWithAStep(steps, lo, hi, w);
      var i :| lo <= i < hi && Touches(steps[i].start, steps[i].end, w);
      assert steps[i].warned;
    }
  }

  /** The flag of a window is the overlap test on the whole window, as long as every warning is well formed. */
  lemma WarningFlagSpeaksForTheWindow(f: Forecast, k: nat)
    requires Chronological(f) && k < |Windows(f)|
    requires forall w :: w in f.warnings ==> WellFormed(w)
    ensures Windows(f)[k].warned <==> Overlaps(Windows(f)[k].start, Windows(f)[k].end, f.warnings)
  {
    hide Summary, Overlaps, Spaced, Assessed, IsRun, Steps;
    StepsAreSpaced(f);
    StepsAreAssessed(f);
    var r := RunOfWindow(f, k);
    SummaryEnds(Steps(f), r.lo, r.hi);
    SummaryFlagSpeaksForTheSpan(Steps(f), r.lo, r.hi, f.warnings);
  }

  lemma SafeRunIsUntouched(steps: seq<Window>, r: Run, ws: seq<Warning>, w: Warning)
    requires Spaced(steps) && Assessed(steps, ws) && IsRun(steps, r) && w in ws && WellFormed(w)
    requires Summary(steps, r.lo, r.hi).kind != HighRisk
    ensures !Touches(steps[r.lo].start, steps[r.hi - 1].end, w)
  {
    SummaryEnds(steps, r.lo, r.hi);
    SpanTouchesExactlyWithAStep(steps, r.lo, r.hi, w);
    forall i | r.lo <= i < r.hi ensures !Touches(steps[i].start, steps[i].end, w) {
      RunKeepsKind(steps, r.lo, r.hi, i);
      assert !steps[i].warned;
    }
  }

  /** No warning is in force at any instant of a favourable or marginal window: not only at its opening. */
  lemma SafeWindowsAreSafeThroughout(f: Forecast, k: nat, w: Warning, instant: real)
    requires Chronological(f) && k < |Windows(f)| && w in f.warnings
    requires Windows(f)[k].kind != HighRisk
    requires Windows(f)[k].start <= instant <= Windows(f)[k].end
    ensures !(w.from <= instant <= w.until)
  {
    StepsAreSpaced(f);
    StepsAreAssessed(f);
    var r := RunOfWindow(f, k);
    SummaryEnds(Steps(f), r.lo, r.hi);
    if WellFormed(w) {
      SafeRunIsUntouched(Steps(f), r, f.warnings, w);
    }
  }

  /** Reading the class back off a merged score gives the class of the window. */
  lemma ReclassifyingGivesTheClass(f: Forecast, k: nat)
    requires Aligned(f) && k < |Windows(f)|
    ensures ClassifyScore(Windows(f)[k].score) == Windows(f)[k].kind
  {
    StepsAreAssessed(f);
    var steps := Steps(f);
    var r := RunOfWindow(f, k);
    SummaryEnds(steps, r.lo, r.hi);
    SummaryIsWorst(steps, r.lo, r.hi);
    var i :| r.lo <= i < r.hi && steps[i].score == Windows(f)[k].score;
    RunKeepsKind(steps, r.lo, r.hi, i);
  }

  lemma {:induction false} RunsAreSeparate(steps: seq<Window>, rs: seq<Run>, k: nat)
    requires Spaced(steps) && Partition(steps, rs, |steps|) && k + 1 < |rs|
    requires IsRun(steps, rs[k]) && IsRun(steps, rs[k + 1])
    ensures var w, v := Summary(steps, rs[k].lo, rs[k].hi), Summary(steps, rs[k + 1].lo, rs[k + 1].hi);
            w.start < w.end <= v.start && (w.kind != v.kind || w.end < v.start)
  {
    var r, q := rs[k], rs[k + 1];
    assert rs[(k + 1) - 1].hi == q.lo && !Joins(steps[q.lo - 1], steps[q.lo]);
    SummaryEnds(steps, r.lo, r.hi);
    SummaryEnds(steps, q.lo, q.hi);
    RunKeepsKind(steps, r.lo, r.hi, r.hi - 1);
    if r.lo < r.hi - 1 { assert steps[r.lo].end <= steps[r.hi - 1].start; }
  }

  /** Neighbouring windows never overlap beyond an endpoint, and differ in class or leave a gap. */
  lemma NeighboursAreSeparate(f: Forecast, k: nat)
    requires Chronological(f) && k + 1 < |Windows(f)|
    ensures Windows(f)[k].start < Windows(f)[k].end <= Windows(f)[k + 1].start
    ensures Windows(f)[k].kind != Windows(f)[k + 1].kind || Windows(f)[k].end < Windows(f)[k + 1].start
  {
    StepsAreSpaced(f);
    var r := RunOfWindow(f, k);
    var q := RunOfWindow(f, k + 1);
    RunsPartition(Steps(f), |f.times|);
    RunsAreSeparate(Steps(f), Runs(Steps(f), |f.times|), k);
  }

  // ---------------------------------------------------------------- what the windows cover

  /** What one step says, in terms of the forecast. */
  lemma StepInPlainTerms(f: Forecast, i: nat)
    requires Aligned(f) && i < |f.times|
    ensures var s, base := Steps(f)[i], Score(NO_CONDITIONS.(wave := f.waves[i], wind := f.winds[i]), f.thresholds);
      && s.start == f.times[i] && s.wave == f.waves[i] && s.wind == f.winds[i]
      && (s.warned <==> exists w :: w in f.warnings && s.start <= w.until && w.from <= s.end)
      && s.score == (if s.warned && base < 75.0 then 75.0 else base)
      && (s.kind == Favourable <==> s.score <= 25.0)
      && (s.kind == Marginal <==> 25.0 < s.score <= 50.0)
      && (s.kind == HighRisk <==> s.score > 50.0)
  {
    hide Score;
    assert Steps(f)[i] == StepAt(f, i);
    var s := Steps(f)[i];
    assert s.warned == Overlaps(s.start, s.end, f.warnings);
    if w :| w in f.warnings && s.start <= w.until && w.from <= s.end { assert Touches(s.start, s.end, w); }
  }

  /** The interval ends a step, unless the next time comes first. */
  lemma StepSpan(f: Forecast, i: nat)
    requires Chronological(f) && i < |f.times|
    ensures var s := Steps(f)[i];
      && s.start == f.times[i] && s.end <= f.times[i] + f.interval
      && (i + 1 < |f.times| ==> s.end <= f.times[i + 1])
      && (s.end == f.times[i] + f.interval || (i + 1 < |f.times| && s.end == f.times[i + 1]))
  {
    hide Score, Overlaps;
    assert Steps(f)[i] == StepAt(f, i);
  }

  /** The latest time not after an instant. */
  lemma LatestTime(f: Forecast, i: nat, t: real) returns (j: nat)
    requires i < |f.times| && f.times[i] <= t
    ensures i <= j < |f.times| && f.times[j] <= t && (j + 1 < |f.times| ==> t < f.times[j + 1])
  {
    j := i;
    while j + 1 < |f.times| && f.times[j + 1] <= t
      invariant i <= j < |f.times| && f.times[j] <= t
    {
      j := j + 1;
    }
  }

  /** An instant is covered by some step exactly when it is at most one interval after some time. */
  lemma StepsCoverExactly(f: Forecast, t: real)
    requires Chronological(f)
    ensures (exists i :: 0 <= i < |Steps(f)| && Steps(f)[i].start <= t <= Steps(f)[i].end)
            <==> exists i :: 0 <= i < |f.times| && f.times[i] <= t <= f.times[i] + f.interval
  {
    if i :| 0 <= i < |Steps(f)| && Steps(f)[i].start <= t <= Steps(f)[i].end {
      StepSpan(f, i);
      assert f.times[i] <= t <= f.times[i] + f.interval;
    }
    if i :| 0 <= i < |f.times| && f.times[i] <= t <= f.times[i] + f.interval {
      var j := LatestTime(f, i, t);
      StepSpan(f, j);
      assert i < j ==> f.times[i] < f.times[j];
      assert Steps(f)[j].start <= t <= Steps(f)[j].end;
    }
  }

  /** The span of a run has no holes. */
  lemma {:induction false} RunHasNoHoles(steps: seq<Window>, lo: nat, hi: nat, t: real)
    requires Spaced(steps) && IsRun(steps, Run(lo, hi))
    ensures steps[lo].start <= t <= steps[hi - 1].end <==> exists i :: lo <= i < hi && steps[i].start <= t <= steps[i].end
    decreases hi
  {
    if hi == lo + 1 {
      assert steps[lo].start <= t <= steps[lo].end ==> steps[lo].start <= t;
    } else {
      assert Joins(steps[hi - 2], steps[hi - 1]);
      assert steps[lo].end <= steps[hi - 1].start;
      RunHasNoHoles(steps, lo, hi - 1, t);
      if steps[lo].start <= t <= steps[hi - 1].end && t > steps[hi - 2].end {
        assert steps[hi - 1].start <= t <= steps[hi - 1].end;
      }
    }
  }

  /** Every step lies in some run. */
  lemma RunOfStep(steps: seq<Window>, rs: seq<Run>, n: nat, i: nat) returns (k: nat)
    requires Partition(steps, rs, n) && i < n <= |steps|
    ensures k < |rs| && rs[k].lo <= i < rs[k].hi
  {
    k := |rs| - 1;
    while i < rs[k].lo
      invariant 0 <= k < |rs| && i < rs[k].hi
    {
      k := k - 1;
    }
  }

  /** An instant lies in some window exactly when it is at most one interval after some forecast time. */
  lemma WindowsCoverExactly(f: Forecast, t: real)
    requires Chronological(f)
    ensures (exists k :: 0 <= k < |Windows(f)| && Windows(f)[k].start <= t <= Windows(f)[k].end)
            <==> exists i :: 0 <= i < |f.times| && f.times[i] <= t <= f.times[i] + f.interval
  {
    hide Summary, Steps, Spaced, IsRun, Runs, Windows, Partition;
    StepsAreSpaced(f);
    StepsCoverExactly(f, t);
    if k :| 0 <= k < |Windows(f)| && Windows(f)[k].start <= t <= Windows(f)[k].end {
      var r := RunOfWindow(f, k);
      RunBounds(Steps(f), r);
      SummaryEnds(Steps(f), r.lo, r.hi);
      RunHasNoHoles(Steps(f), r.lo, r.hi, t);
    }
    if i :| 0 <= i < |Steps(f)| && Steps(f)[i].start <= t <= Steps(f)[i].end {
      var k, r := WindowOfStep(f, i);
      RunBounds(Steps(f), r);
      SummaryEnds(Steps(f), r.lo, r.hi);
      RunHasNoHoles(Steps(f), r.lo, r.hi, t);
    }
  }

  lemma RunBounds(steps: seq<Window>, r: Run)
    requires IsRun(steps, r)
    ensures r == Run(r.lo, r.hi) && r.lo < r.hi <= |steps|
  {
  }

  /** The window a step goes into, and its run. */
  lemma WindowOfStep(f: Forecast, i: nat) returns (k: nat, r: Run)
    requires Aligned(f) && i < |f.times|
    ensures k < |Windows(f)| && IsRun(Steps(f), r) && r.lo <= i < r.hi
    ensures k < |Runs(Steps(f), |f.times|)| && r == Runs(Steps(f), |f.times|)[k]
    ensures Windows(f)[k] == Summary(Steps(f), r.lo, r.hi)
  {
    hide Steps, Partition, IsRun, Summary;
    MergeIsRunDecomposition(Steps(f), |f.times|);
    k := RunOfStep(Steps(f), Runs(Steps(f), |f.times|), |f.times|, i);
    r := RunOfWindow(f, k);
  }

  /** Two consecutive times stand in one window exactly when they are at most one interval apart and agree in class. */
  lemma ConsecutiveTimesShareAWindowExactly(f: Forecast, i: nat)
    requires Chronological(f) && i + 1 < |f.times|
    ensures (exists k :: 0 <= k < |Windows(f)| && Windows(f)[k].start <= f.times[i] && f.times[i + 1] < Windows(f)[k].end)
            <==> f.times[i + 1] - f.times[i] <= f.interval && Steps(f)[i].kind == Steps(f)[i + 1].kind
  {
    hide Summary, Steps, Spaced, Runs, Windows;
    StepsAreSpaced(f);
    StepSpan(f, i);
    StepSpan(f, i + 1);
    var steps := Steps(f);
    if k :| 0 <= k < |Windows(f)| && Windows(f)[k].start <= f.times[i] && f.times[i + 1] < Windows(f)[k].end {
      var r := RunOfWindow(f, k);
      SummaryEnds(steps, r.lo, r.hi);
      StepsInsideRun(steps, r, i);
      assert Joins(steps[i], steps[i + 1]);
    }
    if f.times[i + 1] - f.times[i] <= f.interval && steps[i].kind == steps[i + 1].kind {
      var k, r := WindowOfStep(f, i);
      SummaryEnds(steps, r.lo, r.hi);
      RunsPartition(steps, |f.times|);
      assert Joins(steps[i], steps[i + 1]);
      JoiningStepsShareARun(steps, Runs(steps, |f.times|), k, i);
      SpanHoldsItsSteps(steps, r, i);
    }
  }

  /** A step that starts inside the span of a run, and ends before the span does, is followed by another of the run. */
  lemma StepsInsideRun(steps: seq<Window>, r: Run, i: nat)
    requires Spaced(steps) && IsRun(steps, r) && i + 1 < |steps|
    requires steps[r.lo].start <= steps[i].start && steps[i + 1].start < steps[r.hi - 1].end
    ensures r.lo <= i && i + 1 < r.hi
  {
  }

  lemma SpanHoldsItsSteps(steps: seq<Window>, r: Run, i: nat)
    requires Spaced(steps) && IsRun(steps, r) && r.lo <= i && i + 1 < r.hi
    ensures steps[r.lo].start <= steps[i].start && steps[i + 1].start < steps[r.hi - 1].end
  {
  }

  lemma JoiningStepsShareARun(steps: seq<Window>, rs: seq<Run>, k: nat, i: nat)
    requires Partition(steps, rs, |steps|) && k < |rs| && rs[k].lo <= i < rs[k].hi
    requires i + 1 < |steps| && Joins(steps[i], steps[i + 1])
    ensures i + 1 < rs[k].hi
  {
    hide Joins;
    assert k + 1 < |rs| ==> rs[(k + 1) - 1].hi == rs[k + 1].lo;
  }

  /** A window's class is read off its score at 25 and 50. */
  lemma ClassInPlainTerms(f: Forecast, k: nat)
    requires Aligned(f) && k < |Windows(f)|
    ensures var w := Windows(f)[k];
      && (w.kind == Favourable <==> w.score <= 25.0)
      && (w.kind == Marginal <==> 25.0 < w.score <= 50.0)
      && (w.kind == HighRisk <==> w.score > 50.0)
      && (w.warned ==> w.score >= 75.0)
  {
    hide Windows, Summary, Steps;
    ReclassifyingGivesTheClass(f, k);
    var r := RunOfWindow(f, k);
    RunBounds(Steps(f), r);
    SummaryIsWorst(Steps(f), r.lo, r.hi);
    if Windows(f)[k].warned {
      var i :| r.lo <= i < r.hi && Steps(f)[i].warned;
      StepInPlainTerms(f, i);
    }
  }

  predicate InForce(w: Warning, t: real) { w.from <= t <= w.until }

  /** A window is flagged exactly when some warning is in force at some instant of it. */
  lemma WarnedExactlyWhenInForce(f: Forecast, k: nat)
    requires Chronological(f) && k < |Windows(f)|
    requires forall w :: w in f.warnings ==> w.from <= w.until
    ensures Windows(f)[k].warned <==>
            exists w, t :: w in f.warnings && InForce(w, t) && Windows(f)[k].start <= t <= Windows(f)[k].end
  {
    hide Windows;
    WarningFlagSpeaksForTheWindow(f, k);
    WindowIsNonempty(f, k);
    var v := Windows(f)[k];
    if Overlaps(v.start, v.end, f.warnings) {
      var w :| w in f.warnings && Touches(v.start, v.end, w);
      assert InForce(w, MaxReal(w.from, v.start));
    }
    if w, t :| w in f.warnings && InForce(w, t) && v.start <= t <= v.end {
      assert Touches(v.start, v.end, w);
    }
  }

  lemma WindowIsNonempty(f: Forecast, k: nat)
    requires Chronological(f) && k < |Windows(f)|
    ensures Windows(f)[k].start < Windows(f)[k].end
  {
    hide Windows, Steps, Summary;
    StepsAreSpaced(f);
    var r := RunOfWindow(f, k);
    RunBounds(Steps(f), r);
    SummaryEnds(Steps(f), r.lo, r.hi);
    assert r.lo < r.hi - 1 ==> Steps(f)[r.lo].end <= Steps(f)[r.hi - 1].start;
  }

  // ---------------------------------------------------------------- exactly the well-formed warnings

  /** A warning meets the closed span of every run exactly when it meets a step of it. */
  ghost predicate SpeaksForRuns(w: Warning) {
    forall steps: seq<Window>, lo: nat, hi: nat | Spaced(steps) && IsRun(steps, Run(lo, hi)) ::
      Touches(steps[lo].start, steps[hi - 1].end, w) <==> exists i :: lo <= i < hi && Touches(steps[i].start, steps[i].end, w)
  }

  /** Every window's flag is the overlap test on that window. */
  ghost predicate FlagsSpeak(f: Forecast)
    requires Aligned(f)
  {
    forall k :: 0 <= k < |Windows(f)| ==>
      (Windows(f)[k].warned <==> Overlaps(Windows(f)[k].start, Windows(f)[k].end, f.warnings))
  }

  /** Two calm steps that meet halfway between the end of a reversed warning and its start. */
  function AroundReversed(w: Warning): Forecast {
    var half := w.from - w.until;
    var middle := (w.from + w.until) / 2.0;
    Forecast([middle - half, middle], [Absent, Absent], [Absent, Absent], [w], DEFAULT_THRESHOLDS, half)
  }

  lemma NoInputsScoreNothing(t: Thresholds)
    ensures Score(NO_CONDITIONS, t) == 0.0
  {
    assert Factors(NO_CONDITIONS, t) == [];
  }

  /** The two steps of that forecast join, and the warning meets neither of them. */
  lemma StepsAroundReversed(w: Warning)
    requires !WellFormed(w)
    ensures var f := AroundReversed(w);
      && Chronological(f) && |Steps(f)| == 2 && Joins(Steps(f)[0], Steps(f)[1])
      && (forall i :: 0 <= i < 2 ==> !Steps(f)[i].warned && !Touches(Steps(f)[i].start, Steps(f)[i].end, w))
      && Touches(Steps(f)[0].start, Steps(f)[1].end, w)
  {
    var f := AroundReversed(w);
    hide Score;
    NoInputsScoreNothing(f.thresholds);
    assert Steps(f)[0] == StepAt(f, 0) && Steps(f)[1] == StepAt(f, 1);
  }

  lemma TwoJoiningSteps(steps: seq<Window>)
    requires |steps| == 2 && Joins(steps[0], steps[1])
    ensures Merge(steps, |steps|) == [Absorb(steps[0], steps[1])]
  {
    hide Joins, Absorb;
    var n := |steps|;
    assert Merge(steps, n - 2) == [];
    assert Merge(steps, n - 1) == [steps[0]];
  }

  /** Every warning that ends before it starts: a forecast whose only window it meets, without raising its flag. */
  lemma ReversedWarningMissesEveryStep(w: Warning)
    requires !WellFormed(w)
    ensures var f := AroundReversed(w);
      && Chronological(f) && f.warnings == [w] && |Windows(f)| == 1 && Windows(f)[0].kind == Favourable
      && !Windows(f)[0].warned && Overlaps(Windows(f)[0].start, Windows(f)[0].end, [w])
  {
    var f := AroundReversed(w);
    StepsAroundReversed(w);
    TwoJoiningSteps(Steps(f));
    hide Windows, Steps, Touches;
    ReclassifyingGivesTheClass(f, 0);
    assert w in [w];
  }

  /** A warning speaks for all runs of steps exactly when it is well formed. */
  lemma WellFormedExactlySpeaksForRuns(w: Warning)
    ensures WellFormed(w) <==> SpeaksForRuns(w)
  {
    if WellFormed(w) {
      forall steps: seq<Window>, lo: nat, hi: nat | Spaced(steps) && IsRun(steps, Run(lo, hi))
        ensures Touches(steps[lo].start, steps[hi - 1].end, w)
                <==> exists i :: lo <= i < hi && Touches(steps[i].start, steps[i].end, w)
      {
        SpanTouchesExactlyWithAStep(steps, lo, hi, w);
      }
    } else {
      StepsAroundReversed(w);
      var f := AroundReversed(w);
      StepsAreSpaced(f);
      assert IsRun(Steps(f), Run(0, 2));
    }
  }

  /** The flags speak for the windows, whatever the forecast, exactly when the warning is well formed. */
  lemma FlagsSpeakExactlyForWellFormed(w: Warning)
    ensures WellFormed(w) <==> forall f | Chronological(f) && f.warnings == [w] :: FlagsSpeak(f)
  {
    if WellFormed(w) {
      forall f | Chronological(f) && f.warnings == [w] ensures FlagsSpeak(f) {
        forall k | 0 <= k < |Windows(f)|
          ensures Windows(f)[k].warned <==> Overlaps(Windows(f)[k].start, Windows(f)[k].end, f.warnings)
        {
          WarningFlagSpeaksForTheWindow(f, k);
        }
      }
    } else {
      ReversedWarningMissesEveryStep(w);
      assert !FlagsSpeak(AroundReversed(w));
    }
  }
}
