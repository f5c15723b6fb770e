/** Turns wave-model grid samples into forecasts: per time the nearest wet node and the roughest one. */
module WaveWatch {
  import Ingestion
  import opened Sequences

  // ---------------------------------------------------------------- data model

  datatype Variable = HS | T01 | T02 | PHS00 | PHS01 | MWD | UWND | VWND

  /** The verified source variables, in the order in which they are emitted. */
  const VARIABLES := [HS, T01, T02, PHS00, PHS01, MWD, UWND, VWND]

  /** One grid node at one time; a land-masked variable is missing from the values. */
  datatype Sample = Sample(time: real, lat: real, lon: real, values: map<Variable, real>)

  predicate Wet(s: Sample) { HS in s.values }

  function Height(s: Sample): real
    requires Wet(s)
  {
    s.values[HS]
  }

  datatype Parameter = Plain(variable: Variable) | WindSpeed | WindDirection | SwellHeight

  datatype Selection = NearestAndRoughest | Nearest | Roughest

  datatype Forecast = Forecast(parameter: Parameter, value: real, lat: real, lon: real, validFrom: real,
                               selection: Selection)

  /** Distance of a node from the requested point, and speed and bearing of wind components. */
  datatype Geometry = Geometry(near: (real, real) -> real, speed: (real, real) -> real, bearing: (real, real) -> real)

  function Distance(g: Geometry, s: Sample): real { g.near(s.lat, s.lon) }

  predicate SameNode(s: Sample, t: Sample) { s.lat == t.lat && s.lon == t.lon }

  // ---------------------------------------------------------------- specification

  /** The wet samples of one time, in the order given. */
  function Candidates(samples: seq<Sample>, time: real): (cs: seq<Sample>)
    ensures forall s :: s in cs <==> s in samples && Wet(s) && s.time == time
  {
    if samples == [] then []
    else
      var last := samples[|samples| - 1];
      Candidates(samples[..|samples| - 1], time) + if Wet(last) && last.time == time then [last] else []
  }

  ghost predicate Ascending(times: seq<real>) { forall i, j :: 0 <= i < j < |times| ==> times[i] < times[j] }

  function Place(t: real, times: seq<real>): seq<real> {
    if times == [] then [t]
    else
      var n := |times| - 1;
      if t < times[n] then Place(t, times[..n]) + [times[n]] else if t == times[n] then times else times + [t]
  }

  /** The times of the wet samples, ascending, each once. */
  function Times(samples: seq<Sample>): seq<real> {
    if samples == [] then []
    else
      var last := samples[|samples| - 1];
      var front := Times(samples[..|samples| - 1]);
      if Wet(last) then Place(last.time, front) else front
  }

  /** First of the samples at the smallest distance. */
  function NearestOf(g: Geometry, cs: seq<Sample>): (s: Sample)
    requires cs != []
    ensures s in cs && forall c :: c in cs ==> Distance(g, s) <= Distance(g, c)
  {
    var n := |cs| - 1;
    if n == 0 then cs[0]
    else
      var best := NearestOf(g, cs[..n]);
      if Distance(g, cs[n]) < Distance(g, best) then cs[n] else best
  }

  /** First of the samples with the largest wave height. */
  function RoughestOf(cs: seq<Sample>): (s: Sample)
    requires cs != [] && forall c :: c in cs ==> Wet(c)
    ensures s in cs && forall c :: c in cs ==> Height(c) <= Height(s)
  {
    var n := |cs| - 1;
    if n == 0 then cs[0]
    else
      var best := RoughestOf(cs[..n]);
      if Height(cs[n]) > Height(best) then cs[n] else best
  }

  function At(node: Sample, time: real, sel: Selection, parameter: Parameter, value: real): Forecast {
    Forecast(parameter, value, node.lat, node.lon, time, sel)
  }

  function PlainRecords(node: Sample, time: real, sel: Selection, variables: seq<Variable>): seq<Forecast> {
    if variables == [] then []
    else
      var v := variables[|variables| - 1];
      PlainRecords(node, time, sel, variables[..|variables| - 1])
      + if v in node.values then [At(node, time, sel, Plain(v), node.values[v])] else []
  }

  function WindRecords(g: Geometry, node: Sample, time: real, sel: Selection): seq<Forecast> {
    if UWND in node.values && VWND in node.values then
      var u, v := node.values[UWND], node.values[VWND];
      [At(node, time, sel, WindSpeed, g.speed(u, v)), At(node, time, sel, WindDirection, g.bearing(u, v))]
    else []
  }

  /** The larger of the swell partitions that are present. */
  function SwellRecords(node: Sample, time: real, sel: Selection): seq<Forecast> {
    if PHS00 in node.values && PHS01 in node.values then
      [At(node, time, sel, SwellHeight,
          if node.values[PHS01] > node.values[PHS00] then node.values[PHS01] else node.values[PHS00])]
    else if PHS00 in node.values then [At(node, time, sel, SwellHeight, node.values[PHS00])]
    else if PHS01 in node.values then [At(node, time, sel, SwellHeight, node.values[PHS01])]
    else []
  }

  function NodeRecords(g: Geometry, node: Sample, time: real, sel: Selection): seq<Forecast> {
    PlainRecords(node, time, sel, VARIABLES) + WindRecords(g, node, time, sel) + SwellRecords(node, time, sel)
  }

  /** One time step: the nearest wet node, and the roughest one unless it stands at the same place. */
  function StepRecords(g: Geometry, cs: seq<Sample>, time: real): seq<Forecast>
    requires forall c :: c in cs ==> Wet(c)
  {
    if cs == [] then []
    else
      var nearest, roughest := NearestOf(g, cs), RoughestOf(cs);
      if SameNode(nearest, roughest) then NodeRecords(g, nearest, time, NearestAndRoughest)
      else NodeRecords(g, nearest, time, Nearest) + NodeRecords(g, roughest, time, Roughest)
  }

  function RecordsAt(g: Geometry, samples: seq<Sample>, times: seq<real>): seq<Forecast> {
    if times == [] then []
    else
      var n := |times| - 1;
      RecordsAt(g, samples, times[..n]) + StepRecords(g, Candidates(samples, times[n]), times[n])
  }

  function Records(g: Geometry, samples: seq<Sample>): seq<Forecast> { RecordsAt(g, samples, Times(samples)) }

  // ---------------------------------------------------------------- times

  lemma {:induction false} PlaceKeepsMembers(t: real, times: seq<real>)
    ensures forall u :: u in Place(t, times) <==> u in times || u == t
  {
    if times != [] {
      var n := |times| - 1;
      PlaceKeepsMembers(t, times[..n]);
      assert forall u :: u in times <==> u in times[..n] || u == times[n];
    }
  }

  lemma {:induction false} PlaceKeepsOrder(t: real, times: seq<real>)
    requires Ascending(times)
    ensures Ascending(Place(t, times))
  {
    if times != [] {
      var n := |times| - 1;
      if t < times[n] {
        var front := Place(t, times[..n]);
        PlaceKeepsOrder(t, times[..n]);
        PlaceKeepsMembers(t, times[..n]);
        forall i | 0 <= i < |front| ensures front[i] < times[n] {
          assert front[i] in front;
          assert front[i] == t || front[i] in times[..n];
        }
      }
    }
  }

  /** The times ascend strictly, and are exactly those at which some sample is wet. */
  lemma {:induction false} TimesAreOrdered(samples: seq<Sample>)
    ensures Ascending(Times(samples))
    ensures forall t :: t in Times(samples) <==> Candidates(samples, t) != []
  {
    if samples != [] {
      var n := |samples| - 1;
      TimesAreOrdered(samples[..n]);
      if Wet(samples[n]) {
        PlaceKeepsOrder(samples[n].time, Times(samples[..n]));
        PlaceKeepsMembers(samples[n].time, Times(samples[..n]));
      }
    }
  }

  /** An ascending list is determined by its members. */
  lemma {:induction false} AscendingIsUnique(xs: seq<real>, ys: seq<real>)
    requires Ascending(xs) && Ascending(ys) && forall t :: t in xs <==> t in ys
    ensures xs == ys
  {
    assert ys == [] || ys[0] in ys;
    if xs != [] {
      var m, n := |xs| - 1, |ys| - 1;
      assert xs[m] in xs;
      assert ys[n] in ys;
      forall t ensures t in xs[..m] <==> t in ys[..n] {
        if t in xs[..m] {
          var i :| 0 <= i < m && xs[i] == t;
          assert xs[i] < xs[m] && t in xs;
        }
        if t in ys[..n] {
          var i :| 0 <= i < n && ys[i] == t;
          assert ys[i] < ys[n] && t in ys;
        }
      }
      AscendingIsUnique(xs[..m], ys[..n]);
    }
  }

  // ---------------------------------------------------------------- what one step emits

  datatype Key = Key(parameter: Parameter, lat: real, lon: real, validFrom: real)

  /** The part of a forecast's idempotency key that varies within one model. */
  function KeyOf(r: Forecast): Key { Key(r.parameter, r.lat, r.lon, r.validFrom) }

  ghost predicate DistinctKeys(rs: seq<Forecast>) {
    forall i, j :: 0 <= i < j < |rs| ==> KeyOf(rs[i]) != KeyOf(rs[j])
  }

  lemma DistinctConcat(rs: seq<Forecast>, qs: seq<Forecast>)
    requires DistinctKeys(rs) && DistinctKeys(qs)
    requires forall r, q :: r in rs && q in qs ==> KeyOf(r) != KeyOf(q)
    ensures DistinctKeys(rs + qs)
  {
  }

  lemma {:induction false} PlainRecordsFacts(node: Sample, time: real, sel: Selection, variables: seq<Variable>)
    requires forall i, j :: 0 <= i < j < |variables| ==> variables[i] != variables[j]
    ensures var rs := PlainRecords(node, time, sel, variables);
      && (forall r :: r in rs <==> exists v :: v in variables && v in node.values
                                              && r == At(node, time, sel, Plain(v), node.values[v]))
      && DistinctKeys(rs)
  {
    if variables != [] {
      var n := |variables| - 1;
      PlainRecordsFacts(node, time, sel, variables[..n]);
      var v := variables[n];
      assert v !in variables[..n];
      assert forall u :: u in variables <==> u in variables[..n] || u == v;
      if v in node.values {
        DistinctConcat(PlainRecords(node, time, sel, variables[..n]), [At(node, time, sel, Plain(v), node.values[v])]);
      }
    }
  }

  lemma DerivedRecordsFacts(g: Geometry, node: Sample, time: real, sel: Selection)
    ensures DistinctKeys(WindRecords(g, node, time, sel)) && DistinctKeys(SwellRecords(node, time, sel))
    ensures forall r :: r in WindRecords(g, node, time, sel) ==>
              (r.parameter == WindSpeed || r.parameter == WindDirection) && r == At(node, time, sel, r.parameter, r.value)
    ensures forall r :: r in SwellRecords(node, time, sel) ==>
              r.parameter == SwellHeight && r == At(node, time, sel, r.parameter, r.value)
  {
  }

  /** One node: its records stand at it, hold its wave height when it is wet, and never share a key. */
  lemma NodeRecordsFacts(g: Geometry, node: Sample, time: real, sel: Selection)
    ensures var rs := NodeRecords(g, node, time, sel);
      && (forall r :: r in rs ==> r.lat == node.lat && r.lon == node.lon && r.validFrom == time && r.selection == sel)
      && (forall r :: r in rs && r.parameter.Plain? ==>
            r.parameter.variable in node.values && r.value == node.values[r.parameter.variable])
      && (Wet(node) ==> At(node, time, sel, Plain(HS), Height(node)) in rs)
      && DistinctKeys(rs)
  {
    var plain, wind, swell :=
      PlainRecords(node, time, sel, VARIABLES), WindRecords(g, node, time, sel), SwellRecords(node, time, sel);
    PlainRecordsFacts(node, time, sel, VARIABLES);
    assert HS == VARIABLES[0];
    hide PlainRecords;
    DerivedRecordsFacts(g, node, time, sel);
    hide WindRecords, SwellRecords, DistinctKeys;
    DistinctConcat(plain, wind);
    DistinctConcat(plain + wind, swell);
  }

  /** Exactly the records of one node, each with its value. */
  lemma NodeRecordsInPlainTerms(g: Geometry, node: Sample, time: real, sel: Selection)
    ensures forall r :: r in NodeRecords(g, node, time, sel) <==>
      && r.lat == node.lat && r.lon == node.lon && r.validFrom == time && r.selection == sel
      && match r.parameter
         case Plain(v) => v in node.values && r.value == node.values[v]
         case WindSpeed =>
           UWND in node.values && VWND in node.values && r.value == g.speed(node.values[UWND], node.values[VWND])
         case WindDirection =>
           UWND in node.values && VWND in node.values && r.value == g.bearing(node.values[UWND], node.values[VWND])
         case SwellHeight =>
           && ((PHS00 in node.values && r.value == node.values[PHS00])
               || (PHS01 in node.values && r.value == node.values[PHS01]))
           && (PHS00 in node.values ==> r.value >= node.values[PHS00])
           && (PHS01 in node.values ==> r.value >= node.values[PHS01])
  {
    PlainRecordsFacts(node, time, sel, VARIABLES);
    EveryVariableIsEmitted();
    WindRecordsInPlainTerms(g, node, time, sel);
    SwellRecordsInPlainTerms(node, time, sel);
    hide PlainRecords, WindRecords, SwellRecords, DistinctKeys;
  }

  lemma WindRecordsInPlainTerms(g: Geometry, node: Sample, time: real, sel: Selection)
    ensures forall r :: r in WindRecords(g, node, time, sel) <==>
      && r.lat == node.lat && r.lon == node.lon && r.validFrom == time && r.selection == sel
      && UWND in node.values && VWND in node.values
      && ((r.parameter == WindSpeed && r.value == g.speed(node.values[UWND], node.values[VWND]))
          || (r.parameter == WindDirection && r.value == g.bearing(node.values[UWND], node.values[VWND])))
  {
    var rs := WindRecords(g, node, time, sel);
    if rs != [] { assert rs[0].parameter == WindSpeed && rs[1].parameter == WindDirection; }
  }

  lemma SwellRecordsInPlainTerms(node: Sample, time: real, sel: Selection)
    ensures forall r :: r in SwellRecords(node, time, sel) <==>
      && r.lat == node.lat && r.lon == node.lon && r.validFrom == time && r.selection == sel && r.parameter == SwellHeight
      && ((PHS00 in node.values && r.value == node.values[PHS00])
          || (PHS01 in node.values && r.value == node.values[PHS01]))
      && (PHS00 in node.values ==> r.value >= node.values[PHS00])
      && (PHS01 in node.values ==> r.value >= node.values[PHS01])
  {
    var rs := SwellRecords(node, time, sel);
    if rs != [] { assert rs[0].parameter == SwellHeight; }
  }

  lemma EveryVariableIsEmitted()
    ensures forall v: Variable :: v in VARIABLES
  {
    forall v: Variable ensures v in VARIABLES { assert VARIABLES[Turn(Plain(v))] == v; }
  }

  /** The order in which a node's records are emitted. */
  const EMISSION: seq<Parameter> := [Plain(HS), Plain(T01), Plain(T02), Plain(PHS00), Plain(PHS01), Plain(MWD),
                                     Plain(UWND), Plain(VWND), WindSpeed, WindDirection, SwellHeight]

  function Turn(p: Parameter): (k: nat)
    ensures k < 11 && EMISSION[k] == p
  {
    match p
    case Plain(v) => (match v case HS => 0 case T01 => 1 case T02 => 2 case PHS00 => 3 case PHS01 => 4 case MWD => 5
                              case UWND => 6 case VWND => 7)
    case WindSpeed => 8
    case WindDirection => 9
    case SwellHeight => 10
  }

  lemma VariablesTakeTurns(k: nat)
    requires k < 8
    ensures Turn(Plain(VARIABLES[k])) == k
  {
    assert EMISSION[k] == Plain(VARIABLES[k]);
    TurnIsPlace(k);
  }

  lemma TurnIsPlace(k: nat)
    requires k < 11
    ensures Turn(EMISSION[k]) == k
  {
  }

  /** The records take their turns from `lo` to below `hi`, one after the other. */
  ghost predicate InTurn(rs: seq<Forecast>, lo: nat, hi: nat) {
    && (forall i :: 0 <= i < |rs| ==> lo <= Turn(rs[i].parameter) < hi)
    && (forall i, j :: 0 <= i < j < |rs| ==> Turn(rs[i].parameter) < Turn(rs[j].parameter))
  }

  lemma InTurnConcat(rs: seq<Forecast>, qs: seq<Forecast>, lo: nat, mid: nat, hi: nat)
    requires InTurn(rs, lo, mid) && InTurn(qs, mid, hi) && lo <= mid <= hi
    ensures InTurn(rs + qs, lo, hi)
  {
    hide Turn;
  }

  lemma {:induction false} PlainRecordsInTurn(node: Sample, time: real, sel: Selection, n: nat)
    requires n <= 8
    ensures InTurn(PlainRecords(node, time, sel, VARIABLES[..n]), 0, n)
  {
    if n > 0 {
      var v, front := VARIABLES[n - 1], VARIABLES[..n][..n - 1];
      var last := if v in node.values then [At(node, time, sel, Plain(v), node.values[v])] else [];
      VariablesTakeTurns(n - 1);
      assert InTurn(last, n - 1, n);
      hide Turn, InTurn;
      PlainRecordsInTurn(node, time, sel, n - 1);
      assert front == VARIABLES[..n - 1];
      InTurnConcat(PlainRecords(node, time, sel, front), last, 0, n - 1, n);
      assert VARIABLES[..n][n - 1] == v;
    }
  }

  lemma NodeRecordsInTurn(g: Geometry, node: Sample, time: real, sel: Selection)
    ensures InTurn(NodeRecords(g, node, time, sel), 0, 11)
  {
    PlainRecordsInTurn(node, time, sel, 8);
    assert VARIABLES[..8] == VARIABLES;
    var plain, wind, swell :=
      PlainRecords(node, time, sel, VARIABLES), WindRecords(g, node, time, sel), SwellRecords(node, time, sel);
    assert InTurn(wind, 8, 10) && InTurn(swell, 10, 11);
    hide PlainRecords, WindRecords, SwellRecords, Turn, InTurn;
    InTurnConcat(plain, wind, 0, 8, 10);
    InTurnConcat(plain + wind, swell, 0, 10, 11);
  }

  /** The records of a node come in that order. */
  lemma NodeRecordsInOrder(g: Geometry, node: Sample, time: real, sel: Selection, i: nat, j: nat, p: nat, q: nat)
    requires i < j < |NodeRecords(g, node, time, sel)| && p < 11 && q < 11
    requires NodeRecords(g, node, time, sel)[i].parameter == EMISSION[p]
    requires NodeRecords(g, node, time, sel)[j].parameter == EMISSION[q]
    ensures p < q
  {
    hide NodeRecords;
    NodeRecordsInTurn(g, node, time, sel);
    TurnIsPlace(p);
    TurnIsPlace(q);
  }

  /** Among equally close samples the first is taken, ... */
  lemma {:induction false} NearestIsFirst(g: Geometry, cs: seq<Sample>) returns (i: nat)
    requires cs != []
    ensures i < |cs| && cs[i] == NearestOf(g, cs) && forall j :: 0 <= j < i ==> Distance(g, cs[j]) > Distance(g, cs[i])
  {
    var n := |cs| - 1;
    i := 0;
    if n > 0 {
      hide Distance;
      var front := cs[..n];
      i := NearestIsFirst(g, front);
      var best := NearestOf(g, front);
      forall j | 0 <= j < n ensures Distance(g, best) <= Distance(g, cs[j]) {
        assert front[j] in front;
      }
      assert NearestOf(g, cs) == if Distance(g, cs[n]) < Distance(g, best) then cs[n] else best;
      hide NearestOf;
      if Distance(g, cs[n]) < Distance(g, cs[i]) {
        i := n;
      }
    }
  }

  /** ... and among equally rough ones as well. */
  lemma {:induction false} RoughestIsFirst(cs: seq<Sample>) returns (i: nat)
    requires cs != [] && forall c :: c in cs ==> Wet(c)
    ensures i < |cs| && cs[i] == RoughestOf(cs) && forall j :: 0 <= j < i ==> Height(cs[j]) < Height(cs[i])
  {
    var n := |cs| - 1;
    i := 0;
    if n > 0 {
      hide Wet, Height;
      var front := cs[..n];
      forall c | c in front ensures Wet(c) {
        assert c in cs;
      }
      i := RoughestIsFirst(front);
      assert forall j :: 0 <= j < n ==> front[j] == cs[j];
      var best := RoughestOf(front);
      forall j | 0 <= j < n ensures Height(cs[j]) <= Height(best) {
        assert front[j] in front;
      }
      assert RoughestOf(cs) == if Height(cs[n]) > Height(best) then cs[n] else best;
      hide RoughestOf;
      if Height(cs[n]) > Height(cs[i]) {
        i := n;
      }
    }
  }

  /** All of a step's records belong to its time and come from one of its candidates; none share a key. */
  lemma StepRecordsFacts(g: Geometry, cs: seq<Sample>, time: real)
    requires forall c :: c in cs ==> Wet(c)
    ensures var rs := StepRecords(g, cs, time);
      && (forall r :: r in rs ==> r.validFrom == time)
      && (forall r :: r in rs && r.parameter.Plain? ==> exists c :: c in cs && Source(r, c))
      && DistinctKeys(rs)
  {
    if cs != [] {
      var nearest, roughest := NearestOf(g, cs), RoughestOf(cs);
      NodeRecordsFacts(g, nearest, time, NearestAndRoughest);
      NodeRecordsFacts(g, nearest, time, Nearest);
      NodeRecordsFacts(g, roughest, time, Roughest);
      if !SameNode(nearest, roughest) {
        DistinctConcat(NodeRecords(g, nearest, time, Nearest), NodeRecords(g, roughest, time, Roughest));
      }
    }
  }

  /** The forecast repeats a value the sample holds, at the sample's node. */
  ghost predicate Source(r: Forecast, c: Sample) {
    r.parameter.Plain? && r.lat == c.lat && r.lon == c.lon
    && r.parameter.variable in c.values && r.value == c.values[r.parameter.variable]
  }

  // ---------------------------------------------------------------- the whole report

  /** What the records at some times are: exactly those of the steps, in order, and distinct. */
  ghost predicate RecordsOf(g: Geometry, samples: seq<Sample>, times: seq<real>, rs: seq<Forecast>) {
    && (forall r :: r in rs <==> r.validFrom in times && r in StepRecords(g, Candidates(samples, r.validFrom), r.validFrom))
    && (forall i, j :: 0 <= i < j < |rs| ==> rs[i].validFrom <= rs[j].validFrom)
    && DistinctKeys(rs)
  }

  /** A later step goes to the end. */
  lemma StepGoesLast(g: Geometry, samples: seq<Sample>, times: seq<real>, t: real, rs: seq<Forecast>)
    requires RecordsOf(g, samples, times, rs) && forall u :: u in times ==> u < t
    ensures RecordsOf(g, samples, times + [t], rs + StepRecords(g, Candidates(samples, t), t))
  {
    hide StepRecords, Candidates, DistinctKeys;
    var step := StepRecords(g, Candidates(samples, t), t);
    StepRecordsFacts(g, Candidates(samples, t), t);
    forall i | 0 <= i < |rs| ensures rs[i].validFrom < t { assert rs[i] in rs; }
    forall i | 0 <= i < |step| ensures step[i].validFrom == t { assert step[i] in step; }
    DistinctConcat(rs, step);
  }

  lemma {:induction false} RecordsAtFacts(g: Geometry, samples: seq<Sample>, times: seq<real>)
    requires Ascending(times)
    ensures RecordsOf(g, samples, times, RecordsAt(g, samples, times))
  {
    if times == [] {
      assert RecordsAt(g, samples, times) == [];
    } else {
      var n := |times| - 1;
      hide StepRecords, Candidates, RecordsOf;
      RecordsAtFacts(g, samples, times[..n]);
      forall t | t in times[..n] ensures t < times[n] {
        var i :| 0 <= i < n && times[i] == t;
      }
      StepGoesLast(g, samples, times[..n], times[n], RecordsAt(g, samples, times[..n]));
      assert times == times[..n] + [times[n]];
    }
  }

  /** Forecasts come in ascending time, and no two share parameter, node and valid time. */
  lemma ReportIsOrderedAndDistinct(g: Geometry, samples: seq<Sample>)
    ensures var rs := Records(g, samples);
      && (forall i, j :: 0 <= i < j < |rs| ==> rs[i].validFrom <= rs[j].validFrom)
      && DistinctKeys(rs)
      && (forall r :: r in rs ==> exists s :: s in samples && Wet(s) && s.time == r.validFrom)
  {
    TimesAreOrdered(samples);
    RecordsAtFacts(g, samples, Times(samples));
    forall r | r in Records(g, samples) ensures exists s :: s in samples && Wet(s) && s.time == r.validFrom {
      assert Candidates(samples, r.validFrom)[0] in Candidates(samples, r.validFrom);
    }
  }

  /** The forecast states this wave height for this time. */
  predicate WaveHeight(r: Forecast, time: real) { r.parameter == Plain(HS) && r.validFrom == time }

  /** The report's largest wave height for the time is the largest any wet sample gives. */
  ghost predicate Conservative(g: Geometry, samples: seq<Sample>, time: real) {
    && (forall r :: r in Records(g, samples) && WaveHeight(r, time) ==>
          exists s :: s in Candidates(samples, time) && Height(s) == r.value)
    && forall s :: s in Candidates(samples, time) ==>
         exists r :: r in Records(g, samples) && WaveHeight(r, time) && r.value >= Height(s)
  }

  /** The nearest node gives two different heights for the time, and the lower one comes first. */
  predicate Contradicted(g: Geometry, cs: seq<Sample>)
    requires cs != [] && forall c :: c in cs ==> Wet(c)
  {
    var nearest, roughest := NearestOf(g, cs), RoughestOf(cs);
    SameNode(nearest, roughest) && Height(nearest) < Height(roughest)
  }

  lemma StepMembership(g: Geometry, samples: seq<Sample>, time: real, r: Forecast)
    requires r.validFrom == time
    ensures r in Records(g, samples) <==> r in StepRecords(g, Candidates(samples, time), time)
  {
    TimesAreOrdered(samples);
    RecordsAtFacts(g, samples, Times(samples));
  }

  /** What is reported for a time: the nearest and the roughest sample, or the nearest as both when they share a place. */
  lemma SelectionsInPlainTerms(g: Geometry, samples: seq<Sample>, time: real, r: Forecast)
    requires Candidates(samples, time) != [] && r.validFrom == time
    ensures var cs := Candidates(samples, time);
            var nearest, roughest := NearestOf(g, cs), RoughestOf(cs);
      r in Records(g, samples) <==>
        if nearest.lat == roughest.lat && nearest.lon == roughest.lon
        then r in NodeRecords(g, nearest, time, NearestAndRoughest)
        else r in NodeRecords(g, nearest, time, Nearest) || r in NodeRecords(g, roughest, time, Roughest)
  {
    hide Records, Candidates, NodeRecords;
    StepMembership(g, samples, time, r);
  }

  /** The closest wet node of every time is in the report, with the height its first sample gives. */
  lemma NearestIsReported(g: Geometry, samples: seq<Sample>, time: real)
    requires Candidates(samples, time) != []
    ensures exists r :: r in Records(g, samples) && WaveHeight(r, time) && r.selection != Roughest
              && exists c :: c in Candidates(samples, time) && Source(r, c)
                   && forall s :: s in Candidates(samples, time) ==> Distance(g, c) <= Distance(g, s)
  {
    var cs := Candidates(samples, time);
    var nearest := NearestOf(g, cs);
    var sel := if SameNode(nearest, RoughestOf(cs)) then NearestAndRoughest else Nearest;
    NodeRecordsFacts(g, nearest, time, sel);
    var r := At(nearest, time, sel, Plain(HS), Height(nearest));
    StepMembership(g, samples, time, r);
    assert Source(r, nearest);
  }

  /** The report is conservative at a time exactly unless the nearest node contradicts itself there. */
  lemma ConservativeExactly(g: Geometry, samples: seq<Sample>, time: real)
    requires Candidates(samples, time) != []
    ensures Conservative(g, samples, time) <==> !Contradicted(g, Candidates(samples, time))
  {
    var cs := Candidates(samples, time);
    var nearest, roughest := NearestOf(g, cs), RoughestOf(cs);
    forall r | r in Records(g, samples) && WaveHeight(r, time)
      ensures exists s :: s in cs && Height(s) == r.value
    {
      StepMembership(g, samples, time, r);
      StepRecordsFacts(g, cs, time);
      var c :| c in cs && Source(r, c);
    }
    if SameNode(nearest, roughest) {
      NodeRecordsFacts(g, nearest, time, NearestAndRoughest);
      forall r | r in Records(g, samples) && WaveHeight(r, time) ensures r.value == Height(nearest) {
        StepMembership(g, samples, time, r);
      }
      StepMembership(g, samples, time, At(nearest, time, NearestAndRoughest, Plain(HS), Height(nearest)));
    } else {
      NodeRecordsFacts(g, roughest, time, Roughest);
      var r := At(roughest, time, Roughest, Plain(HS), Height(roughest));
      StepMembership(g, samples, time, r);
    }
  }

  /** In particular when samples of one node and time agree. */
  lemma AgreeingSamplesGiveConservativeReports(g: Geometry, samples: seq<Sample>, time: real)
    requires Candidates(samples, time) != []
    requires forall s, t :: s in Candidates(samples, time) && t in Candidates(samples, time) && SameNode(s, t) ==>
               Height(s) == Height(t)
    ensures Conservative(g, samples, time)
  {
    ConservativeExactly(g, samples, time);
  }

  /** One node given twice for a time, calm first: the report never mentions the rough sea. */
  lemma RepeatedNodeCanHideTheRoughSea(g: Geometry)
    ensures var calm, rough := Sample(0.0, 15.0, 73.0, map[HS := 0.5]), Sample(0.0, 15.0, 73.0, map[HS := 6.0]);
            !Conservative(g, [calm, rough], 0.0)
  {
    var calm, rough := Sample(0.0, 15.0, 73.0, map[HS := 0.5]), Sample(0.0, 15.0, 73.0, map[HS := 6.0]);
    hide Conservative;
    assert [calm][..0] == [] && Candidates([calm], 0.0) == [] + [calm];
    assert [calm, rough][..1] == [calm] && Candidates([calm, rough], 0.0) == [calm] + [rough];
    assert NearestOf(g, [calm, rough][..1]) == calm && RoughestOf([calm, rough][..1]) == calm;
    ConservativeExactly(g, [calm, rough], 0.0);
  }

  // ---------------------------------------------------------------- into the store

  /** The records ingestion sees; `hash` stands for the idempotency hash of a forecast's parts. */
  function ForIngestion(rs: seq<Forecast>, hash: Key -> string, quality: Forecast -> Ingestion.Quality): seq<Ingestion.Record> {
    seq(|rs|, i requires 0 <= i < |rs| =>
      Ingestion.Record(Ingestion.Forecasts, hash(KeyOf(rs[i])), "", quality(rs[i]), Ingestion.OtherEvent,
                       Ingestion.LesserSeverity, false))
  }

  /** The hash gives different keys of the report different values. */
  ghost predicate KeepsApart(hash: Key -> string, rs: seq<Forecast>) {
    forall r, q :: r in rs && q in rs && hash(KeyOf(r)) == hash(KeyOf(q)) ==> KeyOf(r) == KeyOf(q)
  }

  lemma IdemsOfReport(rs: seq<Forecast>, hash: Key -> string, quality: Forecast -> Ingestion.Quality)
    requires DistinctKeys(rs)
    ensures var keys := Ingestion.Idems(ForIngestion(rs, hash, quality));
      && (NoDuplicates(keys) <==> KeepsApart(hash, rs))
      && (forall key :: key in keys <==> exists r :: r in rs && hash(KeyOf(r)) == key)
  {
    var keys := Ingestion.Idems(ForIngestion(rs, hash, quality));
    assert |keys| == |rs| && forall i :: 0 <= i < |rs| ==> keys[i] == hash(KeyOf(rs[i]));
    hide KeyOf, ForIngestion;
    forall i, j | 0 <= i < j < |rs| && KeepsApart(hash, rs) ensures keys[i] != keys[j] {
      assert rs[i] in rs && rs[j] in rs;
    }
    forall r, q | NoDuplicates(keys) && r in rs && q in rs && hash(KeyOf(r)) == hash(KeyOf(q)) ensures KeyOf(r) == KeyOf(q) {
      var i :| 0 <= i < |rs| && rs[i] == r;
      var j :| 0 <= j < |rs| && rs[j] == q;
      assert keys[i] == keys[j];
    }
    forall key ensures key in keys <==> exists r :: r in rs && hash(KeyOf(r)) == key {
      if key in keys {
        var i :| 0 <= i < |keys| && keys[i] == key;
        assert rs[i] in rs;
      }
      if r :| r in rs && hash(KeyOf(r)) == key {
        var i :| 0 <= i < |rs| && rs[i] == r;
        assert keys[i] == key;
      }
    }
  }

  /** A report is ingested without a single duplicate exactly when the hash keeps its keys apart and none is stored. */
  lemma ReportIsIngestedWhole(g: Geometry, samples: seq<Sample>, hash: Key -> string,
                              quality: Forecast -> Ingestion.Quality, b: Ingestion.Books)
    requires Ingestion.HasTables(b)
    ensures var rs := Records(g, samples);
            var p := Ingestion.IngestAll(Ingestion.Progress(b, Ingestion.NO_TALLY, false), ForIngestion(rs, hash, quality));
      && !p.failed
      && (p.tally.skipped == 0
          <==> KeepsApart(hash, rs) && forall r :: r in rs ==> hash(KeyOf(r)) !in b.rows[Ingestion.Forecasts])
  {
    hide Records, Ingestion.IngestAll, KeepsApart, Ingestion.Idems;
    var rs := Records(g, samples);
    var qs := ForIngestion(rs, hash, quality);
    ReportIsOrderedAndDistinct(g, samples);
    Ingestion.NothingIsSkippedExactly(Ingestion.Progress(b, Ingestion.NO_TALLY, false), qs, Ingestion.Forecasts);
    IdemsOfReport(rs, hash, quality);
  }

  // ---------------------------------------------------------------- the loops

  lemma CandidatesNext(samples: seq<Sample>, i: nat)
    requires i < |samples|
    ensures forall t :: !Wet(samples[i]) || t != samples[i].time ==>
              Candidates(samples[..i + 1], t) == Candidates(samples[..i], t)
    ensures Wet(samples[i]) ==>
              Candidates(samples[..i + 1], samples[i].time) == Candidates(samples[..i], samples[i].time) + [samples[i]]
  {
    assert samples[..i + 1][..i] == samples[..i];
  }

  /** The grouping holds exactly the times that have candidates, each with all of them. */
  ghost predicate Grouped(samples: seq<Sample>, byTime: map<real, seq<Sample>>) {
    forall t :: if t in byTime then byTime[t] == Candidates(samples, t) && byTime[t] != [] else Candidates(samples, t) == []
  }

  function GroupOf(byTime: map<real, seq<Sample>>, t: real): seq<Sample> { if t in byTime then byTime[t] else [] }

  lemma NothingIsGrouped(samples: seq<Sample>)
    ensures Grouped(samples[..0], map[]) && NoDuplicates<real>([])
  {
    assert samples[..0] == [];
  }

  lemma GroupedNext(samples: seq<Sample>, i: nat, byTime: map<real, seq<Sample>>)
    requires i < |samples| && Grouped(samples[..i], byTime)
    ensures var s := samples[i];
            Grouped(samples[..i + 1], if Wet(s) then byTime[s.time := GroupOf(byTime, s.time) + [s]] else byTime)
  {
    hide Candidates;
    CandidatesNext(samples, i);
  }

  lemma AppendKeepsDifferent(times: seq<real>, t: real)
    requires NoDuplicates(times) && t !in times
    ensures NoDuplicates(times + [t]) && forall u :: u in times + [t] <==> u in times || u == t
  {
  }

  /** Wet samples by their time, each group in the order given; and the times, in the order met. */
  method GroupByTime(samples: seq<Sample>) returns (byTime: map<real, seq<Sample>>, met: seq<real>)
    ensures Grouped(samples, byTime)
    ensures NoDuplicates(met) && forall t :: t in met <==> t in byTime
  {
    hide Grouped, NoDuplicates;
    byTime, met := map[], [];
    NothingIsGrouped(samples);
    for i := 0 to |samples|
      invariant Grouped(samples[..i], byTime)
      invariant NoDuplicates(met) && forall t :: t in met <==> t in byTime
    {
      GroupedNext(samples, i, byTime);
      var s := samples[i];
      if Wet(s) {
        ghost var was := byTime;
        if s.time !in byTime {
          AppendKeepsDifferent(met, s.time);
          byTime := byTime[s.time := []];
          met := met + [s.time];
        }
        byTime := byTime[s.time := byTime[s.time] + [s]];
        assert byTime == was[s.time := GroupOf(was, s.time) + [s]];
      }
    }
    assert samples[..|samples|] == samples;
  }

  /** Puts a time into its place in an ascending list. */
  method PlaceTime(t: real, times: seq<real>) returns (placed: seq<real>)
    requires Ascending(times) && t !in times
    ensures Ascending(placed) && forall u :: u in placed <==> u in times || u == t
  {
    var i := 0;
    while i < |times| && times[i] < t
      invariant i <= |times| && forall j :: 0 <= j < i ==> times[j] < t
    {
      i := i + 1;
    }
    placed := times[..i] + [t] + times[i..];
    assert forall u :: u in times <==> u in times[..i] || u in times[i..];
  }

  method SortTimes(met: seq<real>) returns (times: seq<real>)
    requires NoDuplicates(met)
    ensures Ascending(times) && forall t :: t in times <==> t in met
  {
    times := [];
    for i := 0 to |met|
      invariant Ascending(times) && forall t :: t in times <==> t in met[..i]
    {
      times := PlaceTime(met[i], times);
      assert met[..i + 1] == met[..i] + [met[i]];
    }
    assert met[..|met|] == met;
  }

  method PickNearest(g: Geometry, cs: seq<Sample>) returns (s: Sample)
    requires cs != []
    ensures s == NearestOf(g, cs)
  {
    s := cs[0];
    for i := 1 to |cs|
      invariant s == NearestOf(g, cs[..i])
    {
      assert cs[..i + 1][..i] == cs[..i];
      if Distance(g, cs[i]) < Distance(g, s) {
        s := cs[i];
      }
    }
    assert cs[..|cs|] == cs;
  }

  method PickRoughest(cs: seq<Sample>) returns (s: Sample)
    requires cs != [] && forall c :: c in cs ==> Wet(c)
    ensures s == RoughestOf(cs)
  {
    s := cs[0];
    for i := 1 to |cs|
      invariant forall c :: c in cs[..i] ==> Wet(c)
      invariant s == RoughestOf(cs[..i])
    {
      assert cs[..i + 1][..i] == cs[..i];
      assert forall c :: c in cs[..i + 1] ==> c in cs;
      assert cs[..i + 1][i] == cs[i];
      hide Height;
      if Height(cs[i]) > Height(s) {
        s := cs[i];
      }
    }
    assert cs[..|cs|] == cs;
  }

  /** Every verified and derived record of one node at one time. */
  method CollectNodeRecords(g: Geometry, node: Sample, time: real, sel: Selection) returns (records: seq<Forecast>)
    ensures records == NodeRecords(g, node, time, sel)
  {
    records := [];
    for i := 0 to |VARIABLES|
      invariant records == PlainRecords(node, time, sel, VARIABLES[..i])
    {
      assert VARIABLES[..i + 1][..i] == VARIABLES[..i];
      if VARIABLES[i] in node.values {
        records := records + [At(node, time, sel, Plain(VARIABLES[i]), node.values[VARIABLES[i]])];
      }
    }
    assert VARIABLES[..|VARIABLES|] == VARIABLES;
    if UWND in node.values && VWND in node.values {
      var u, v := node.values[UWND], node.values[VWND];
      var speed, bearing := g.speed(u, v), g.bearing(u, v);
      records := records + [At(node, time, sel, WindSpeed, speed), At(node, time, sel, WindDirection, bearing)];
    }
    if PHS00 in node.values || PHS01 in node.values {
      var largest := if PHS00 in node.values then node.values[PHS00] else node.values[PHS01];
      if PHS01 in node.values && node.values[PHS01] > largest {
        largest := node.values[PHS01];
      }
      records := records + [At(node, time, sel, SwellHeight, largest)];
    }
  }

  /** The records of one time step. */
  method CollectStepRecords(g: Geometry, cs: seq<Sample>, time: real) returns (records: seq<Forecast>)
    requires cs != [] && forall c :: c in cs ==> Wet(c)
    ensures records == StepRecords(g, cs, time)
  {
    var nearest := PickNearest(g, cs);
    var roughest := PickRoughest(cs);
    if nearest.lat == roughest.lat && nearest.lon == roughest.lon {
      records := CollectNodeRecords(g, nearest, time, NearestAndRoughest);
    } else {
      records := CollectNodeRecords(g, nearest, time, Nearest);
      var more := CollectNodeRecords(g, roughest, time, Roughest);
      records := records + more;
    }
  }

  lemma RecordsAtNext(g: Geometry, samples: seq<Sample>, times: seq<real>, i: nat)
    requires i < |times|
    ensures RecordsAt(g, samples, times[..i + 1])
            == RecordsAt(g, samples, times[..i]) + StepRecords(g, Candidates(samples, times[i]), times[i])
  {
    hide StepRecords, Candidates;
    assert times[..i + 1][..i] == times[..i];
  }

  /** The whole report. */
  method RecordsFromSamples(g: Geometry, samples: seq<Sample>) returns (records: seq<Forecast>)
    ensures records == Records(g, samples)
  {
    var byTime, met := GroupByTime(samples);
    var times := SortTimes(met);
    TimesAreOrdered(samples);
    AscendingIsUnique(times, Times(samples));
    records := [];
    assert times[..0] == [];
    hide StepRecords, Candidates, Times;
    for i := 0 to |times|
      invariant records == RecordsAt(g, samples, times[..i])
    {
      RecordsAtNext(g, samples, times, i);
      assert times[i] in times;
      var step := CollectStepRecords(g, byTime[times[i]], times[i]);
      records := records + step;
    }
    assert times[..|times|] == times;
  }
}
