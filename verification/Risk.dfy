/** The marine risk engine: a weighted mean of band fractions plus flat hazard penalties. */
module Risk {
  import opened Numbers
  import opened Readings
  import Sequences

  // ---------------------------------------------------------------- data model

  datatype Level = Low | Moderate | High | Extreme

  datatype Severity = SevExtreme | SevSevere | SevModerate | SevMinor | SevUnknown

  /** Thresholds that take part in scoring (the `*_high` fields never do). */
  datatype Thresholds = Thresholds(
    waveModerate: real, waveExtreme: real,
    windModerate: real, windExtreme: real,
    gustModerate: real, gustExtreme: real,
    swellModerate: real, swellExtreme: real,
    periodComfortable: real, periodDangerous: real,
    rainModerate: real, rainExtreme: real,
    dropModerate: real, dropExtreme: real,
    weightWave: real, weightWind: real, weightGust: real, weightSwell: real,
    weightPeriod: real, weightRain: real, weightPressure: real)

  const DEFAULT_THRESHOLDS := Thresholds(
    2.0, 6.0, 10.0, 25.0, 13.0, 30.0, 1.5, 5.0, 6.0, 3.0, 15.0, 100.0, 2.0, 8.0,
    1.4, 1.2, 0.8, 1.0, 0.6, 0.5, 0.7)

  datatype Conditions = Conditions(
    wave: Reading, period: Reading, swell: Reading, wind: Reading, gust: Reading,
    rain: Reading, pressureTrend: Reading, cyclone: Reading, warnings: seq<Severity>)

  const NO_CONDITIONS := Conditions(Absent, Absent, Absent, Absent, Absent, Absent, Absent, Absent, [])

  datatype FactorName = WaveHeight | WindSpeed | WindGust | SwellHeight | WavePeriod | Rainfall | PressureTrend

  datatype Factor = Factor(name: FactorName, value: real, weight: real, contribution: real)

  datatype Assessment = Assessment(score: real, level: Level, factors: seq<Factor>)

  predicate NonNegativeWeights(t: Thresholds) {
    && t.weightWave >= 0.0 && t.weightWind >= 0.0 && t.weightGust >= 0.0 && t.weightSwell >= 0.0
    && t.weightPeriod >= 0.0 && t.weightRain >= 0.0 && t.weightPressure >= 0.0
  }

  // ---------------------------------------------------------------- pure pieces

  function Classify(score: real): Level {
    if score >= 75.0 then Extreme
    else if score >= 50.0 then High
    else if score >= 25.0 then Moderate
    else Low
  }

  function Rank(l: Level): nat {
    match l case Low => 0 case Moderate => 1 case High => 2 case Extreme => 3
  }

  function BandFraction(value: real, low: real, high: real): (f: real)
    ensures 0.0 <= f <= 1.0
    ensures low < high ==> (f == 0.0 <==> value <= low) && (f == 1.0 <==> value >= high)
    ensures f == 1.0 <==> value >= high
  {
    if high <= low then (if value >= high then 1.0 else 0.0)
    else if value <= low then 0.0
    else if value >= high then 1.0
    else
      FractionBounds(value - low, high - low);
      (value - low) / (high - low)
  }

  function InverseBandFraction(value: real, comfortable: real, dangerous: real): (f: real)
    ensures 0.0 <= f <= 1.0
    ensures f == 1.0 <==> value <= dangerous
  {
    if comfortable <= dangerous then (if value <= dangerous then 1.0 else 0.0)
    else if value >= comfortable then 0.0
    else if value <= dangerous then 1.0
    else
      FractionBounds(comfortable - value, comfortable - dangerous);
      (comfortable - value) / (comfortable - dangerous)
  }

  function Penalty(s: Severity): real {
    match s
    case SevExtreme => 45.0
    case SevSevere => 30.0
    case SevModerate => 15.0
    case SevMinor => 7.0
    case SevUnknown => 15.0
  }

  const CYCLONE_BANDS: seq<(real, real)> := [(100.0, 60.0), (300.0, 40.0), (500.0, 20.0), (800.0, 8.0)]

  /** Flat penalty for the nearest band the cyclone falls in. */
  function CyclonePenalty(distance: Reading): real {
    if !distance.Number? || distance.value > 800.0 then 0.0
    else if distance.value > 500.0 then 8.0
    else if distance.value > 300.0 then 20.0
    else if distance.value > 100.0 then 40.0
    else 60.0
  }

  function Clamp(x: real): real {
    if x > 100.0 then 100.0 else if x < 0.0 then 0.0 else x
  }

  // ---------------------------------------------------------------- specification

  function Scored(name: FactorName, value: real, fraction: real, weight: real): Factor {
    Factor(name, value, weight, fraction * 100.0 * weight)
  }

  function RisingFactor(name: FactorName, r: Reading, low: real, high: real, weight: real): seq<Factor> {
    if r.Number? then [Scored(name, r.value, BandFraction(r.value, low, high), weight)] else []
  }

  function FallingFactor(name: FactorName, r: Reading, comfortable: real, danger: real, weight: real): seq<Factor> {
    if r.Number? then [Scored(name, r.value, InverseBandFraction(r.value, comfortable, danger), weight)] else []
  }

  /** Only a falling trend is a factor; a steady or rising one is not. */
  predicate Falling(trend: Reading) { trend.Number? && trend.value < 0.0 }

  function PressureFactor(trend: Reading, t: Thresholds): seq<Factor> {
    if Falling(trend)
    then [Scored(PressureTrend, trend.value, BandFraction(-trend.value, t.dropModerate, t.dropExtreme), t.weightPressure)]
    else []
  }

  function SeaFactors(c: Conditions, t: Thresholds): seq<Factor> {
    RisingFactor(WaveHeight, c.wave, t.waveModerate, t.waveExtreme, t.weightWave)
    + RisingFactor(WindSpeed, c.wind, t.windModerate, t.windExtreme, t.weightWind)
    + RisingFactor(WindGust, c.gust, t.gustModerate, t.gustExtreme, t.weightGust)
  }

  /** The factors in the order in which the engine considers them; pressure comes last. */
  function Factors(c: Conditions, t: Thresholds): seq<Factor> {
    SeaFactors(c, t)
    + RisingFactor(SwellHeight, c.swell, t.swellModerate, t.swellExtreme, t.weightSwell)
    + FallingFactor(WavePeriod, c.period, t.periodComfortable, t.periodDangerous, t.weightPeriod)
    + RisingFactor(Rainfall, c.rain, t.rainModerate, t.rainExtreme, t.weightRain)
    + PressureFactor(c.pressureTrend, t)
  }

  function TotalWeight(fs: seq<Factor>): real {
    if fs == [] then 0.0 else TotalWeight(fs[..|fs| - 1]) + fs[|fs| - 1].weight
  }

  function TotalContribution(fs: seq<Factor>): real {
    if fs == [] then 0.0 else TotalContribution(fs[..|fs| - 1]) + fs[|fs| - 1].contribution
  }

  /** Weighted mean of the factors; zero when there is no weight to divide by. */
  function Mean(fs: seq<Factor>): real {
    var w := TotalWeight(fs);
    if w == 0.0 then 0.0 else TotalContribution(fs) / w
  }

  function WarningPenalty(ws: seq<Severity>): real {
    if ws == [] then 0.0 else WarningPenalty(ws[..|ws| - 1]) + Penalty(ws[|ws| - 1])
  }

  function Base(c: Conditions, t: Thresholds): real { Mean(Factors(c, t)) }

  function Score(c: Conditions, t: Thresholds): real {
    Clamp(Base(c, t) + WarningPenalty(c.warnings) + CyclonePenalty(c.cyclone))
  }

  // ---------------------------------------------------------------- the engine

  /** Collects the factors whose input is present, in a fixed order. */
  method CollectFactors(c: Conditions, t: Thresholds) returns (factors: seq<Factor>)
    ensures factors == Factors(c, t)
  {
    factors := RisingFactor(WaveHeight, c.wave, t.waveModerate, t.waveExtreme, t.weightWave);
    factors := factors + RisingFactor(WindSpeed, c.wind, t.windModerate, t.windExtreme, t.weightWind);
    factors := factors + RisingFactor(WindGust, c.gust, t.gustModerate, t.gustExtreme, t.weightGust);
    factors := factors + RisingFactor(SwellHeight, c.swell, t.swellModerate, t.swellExtreme, t.weightSwell);
    factors := factors + FallingFactor(WavePeriod, c.period, t.periodComfortable, t.periodDangerous, t.weightPeriod);
    factors := factors + RisingFactor(Rainfall, c.rain, t.rainModerate, t.rainExtreme, t.weightRain);
    if Falling(c.pressureTrend) {
      var drop := -c.pressureTrend.value;
      var fraction := BandFraction(drop, t.dropModerate, t.dropExtreme);
      factors := factors + [Scored(PressureTrend, c.pressureTrend.value, fraction, t.weightPressure)];
    }
  }

  /** Sums weights and contributions and divides; zero when nothing carries weight. */
  method WeightedMean(factors: seq<Factor>) returns (base: real)
    ensures base == Mean(factors)
  {
    base := 0.0;
    if factors != [] {
      var weight, contribution := 0.0, 0.0;
      for i := 0 to |factors|
        invariant weight == TotalWeight(factors[..i])
        invariant contribution == TotalContribution(factors[..i])
      {
        assert factors[..i + 1][..i] == factors[..i];
        weight := weight + factors[i].weight;
        contribution := contribution + factors[i].contribution;
      }
      assert factors[..|factors|] == factors;
      base := if weight != 0.0 then contribution / weight else 0.0;
    }
  }

  /** Adds one penalty for each active warning. */
  method AddWarnings(base: real, ws: seq<Severity>) returns (score: real)
    ensures score == base + WarningPenalty(ws)
  {
    score := base;
    for i := 0 to |ws|
      invariant score == base + WarningPenalty(ws[..i])
    {
      assert ws[..i + 1][..i] == ws[..i];
      score := score + Penalty(ws[i]);
    }
    assert ws[..|ws|] == ws;
  }

  /** Adds the penalty of the first band the cyclone falls in, searching outwards. */
  method AddCyclone(base: real, cyclone: Reading) returns (score: real)
    ensures score == base + CyclonePenalty(cyclone)
  {
    score := base;
    if cyclone.Number? {
      var i := 0;
      while i < |CYCLONE_BANDS| && cyclone.value > CYCLONE_BANDS[i].0
        invariant 0 <= i <= |CYCLONE_BANDS|
        invariant forall k :: 0 <= k < i ==> cyclone.value > CYCLONE_BANDS[k].0
      {
        i := i + 1;
      }
      ghost var bands := CYCLONE_BANDS;
      assert bands[0].0 == 100.0 && bands[1].0 == 300.0 && bands[2].0 == 500.0 && bands[3].0 == 800.0;
      if i < |CYCLONE_BANDS| {
        score := score + CYCLONE_BANDS[i].1;
      }
    }
  }

  /** Scores one set of conditions. */
  method AssessMarineRisk(c: Conditions, t: Thresholds) returns (a: Assessment)
    ensures a.score == Score(c, t)
    ensures a.level == Classify(a.score)
    ensures a.factors == Factors(c, t)
  {
    var factors := CollectFactors(c, t);
    var score := WeightedMean(factors);
    score := AddWarnings(score, c.warnings);
    score := AddCyclone(score, c.cyclone);
    score := Clamp(score);
    a := Assessment(score, Classify(score), factors);
  }

  // ---------------------------------------------------------------- arithmetic

  lemma FractionBounds(x: real, y: real)
    requires 0.0 < x < y
    ensures 0.0 < x / y < 1.0
  {
    var q := x / y;
    assert q * y == x;
    ProductSign(q, y);
    assert (1.0 - q) * y == y - x;
    ProductSign(1.0 - q, y);
  }

  lemma QuotientMonotone(x: real, y: real, w: real)
    requires x <= y && w > 0.0
    ensures x / w <= y / w
  {
    var d := y / w - x / w;
    assert d * w == y - x;
    ProductSign(d, w);
  }

  lemma BandFractionMonotone(x: real, y: real, low: real, high: real)
    requires x <= y
    ensures BandFraction(x, low, high) <= BandFraction(y, low, high)
  {
    if low < x && y < high { QuotientMonotone(x - low, y - low, high - low); }
  }

  lemma InverseBandFractionMonotone(x: real, y: real, comfortable: real, dangerous: real)
    requires x <= y
    ensures InverseBandFraction(y, comfortable, dangerous) <= InverseBandFraction(x, comfortable, dangerous)
  {
    if dangerous < x && y < comfortable {
      QuotientMonotone(comfortable - y, comfortable - x, comfortable - dangerous);
    }
  }

  /** Between its bounds a band is linear; where the bounds do not make a band, its upper one is a step. */
  lemma BandInPlainTerms(v: real, low: real, high: real)
    ensures low < high && low <= v <= high ==> BandFraction(v, low, high) * (high - low) == v - low
    ensures low < high && v <= low ==> BandFraction(v, low, high) == 0.0
    ensures low < high && v >= high ==> BandFraction(v, low, high) == 1.0
    ensures high <= low ==> BandFraction(v, low, high) == if v >= high then 1.0 else 0.0
  {
  }

  /** Likewise for inputs that are worse the lower they are. */
  lemma InverseBandInPlainTerms(v: real, comfortable: real, dangerous: real)
    ensures dangerous < comfortable && dangerous <= v <= comfortable ==>
              InverseBandFraction(v, comfortable, dangerous) * (comfortable - dangerous) == comfortable - v
    ensures dangerous < comfortable && v >= comfortable ==> InverseBandFraction(v, comfortable, dangerous) == 0.0
    ensures dangerous < comfortable && v <= dangerous ==> InverseBandFraction(v, comfortable, dangerous) == 1.0
    ensures comfortable <= dangerous ==> InverseBandFraction(v, comfortable, dangerous) == if v <= dangerous then 1.0 else 0.0
  {
  }

  /** The four levels meet at 25, 50 and 75. */
  lemma LevelsInPlainTerms(score: real)
    ensures Classify(score) == Low <==> score < 25.0
    ensures Classify(score) == Moderate <==> 25.0 <= score < 50.0
    ensures Classify(score) == High <==> 50.0 <= score < 75.0
    ensures Classify(score) == Extreme <==> score >= 75.0
  {
  }

  /** A cyclone costs 60, 40, 20 or 8 points within 100, 300, 500 and 800 km, and nothing beyond or when unknown. */
  lemma CyclonePenaltyInPlainTerms(r: Reading)
    ensures CyclonePenalty(r) == 60.0 <==> r.Number? && r.value <= 100.0
    ensures CyclonePenalty(r) == 40.0 <==> r.Number? && 100.0 < r.value <= 300.0
    ensures CyclonePenalty(r) == 20.0 <==> r.Number? && 300.0 < r.value <= 500.0
    ensures CyclonePenalty(r) == 8.0 <==> r.Number? && 500.0 < r.value <= 800.0
    ensures CyclonePenalty(r) == 0.0 <==> !r.Number? || r.value > 800.0
  {
  }

  /** Warnings cost 45, 30, 15 or 7 points each by severity, and 15 when the severity is unknown. */
  lemma {:induction false} WarningPenaltyInPlainTerms(ws: seq<Severity>)
    ensures WarningPenalty(ws) == 45.0 * multiset(ws)[SevExtreme] as real + 30.0 * multiset(ws)[SevSevere] as real
                                  + 15.0 * multiset(ws)[SevModerate] as real + 7.0 * multiset(ws)[SevMinor] as real
                                  + 15.0 * multiset(ws)[SevUnknown] as real
  {
    if ws != [] {
      WarningPenaltyInPlainTerms(ws[..|ws| - 1]);
      Sequences.MultisetOfFront(ws);
    }
  }

  /** The default bands: where each input starts to count, and where it counts in full; and the default weights. */
  lemma DefaultsInPlainTerms(v: real)
    ensures var t := DEFAULT_THRESHOLDS;
      && (BandFraction(v, t.waveModerate, t.waveExtreme) == 0.0 <==> v <= 2.0)
      && (BandFraction(v, t.waveModerate, t.waveExtreme) == 1.0 <==> v >= 6.0)
      && (BandFraction(v, t.windModerate, t.windExtreme) == 0.0 <==> v <= 10.0)
      && (BandFraction(v, t.windModerate, t.windExtreme) == 1.0 <==> v >= 25.0)
      && (BandFraction(v, t.gustModerate, t.gustExtreme) == 0.0 <==> v <= 13.0)
      && (BandFraction(v, t.gustModerate, t.gustExtreme) == 1.0 <==> v >= 30.0)
      && (BandFraction(v, t.swellModerate, t.swellExtreme) == 0.0 <==> v <= 1.5)
      && (BandFraction(v, t.swellModerate, t.swellExtreme) == 1.0 <==> v >= 5.0)
      && (InverseBandFraction(v, t.periodComfortable, t.periodDangerous) == 1.0 <==> v <= 3.0)
      && (InverseBandFraction(v, t.periodComfortable, t.periodDangerous) == 0.0 <==> v >= 6.0)
      && (BandFraction(v, t.rainModerate, t.rainExtreme) == 0.0 <==> v <= 15.0)
      && (BandFraction(v, t.rainModerate, t.rainExtreme) == 1.0 <==> v >= 100.0)
      && (BandFraction(v, t.dropModerate, t.dropExtreme) == 0.0 <==> v <= 2.0)
      && (BandFraction(v, t.dropModerate, t.dropExtreme) == 1.0 <==> v >= 8.0)
      && [t.weightWave, t.weightWind, t.weightGust, t.weightSwell, t.weightPeriod, t.weightRain, t.weightPressure]
         == [1.4, 1.2, 0.8, 1.0, 0.6, 0.5, 0.7]
  {
    if 3.0 < v < 6.0 { FractionBounds(6.0 - v, 3.0); }
  }

  // ---------------------------------------------------------------- lists of factors

  /** Same factors with the same weights; every contribution of `gs` is at least that of `fs`. */
  predicate Dominated(fs: seq<Factor>, gs: seq<Factor>) {
    && |fs| == |gs|
    && forall i :: 0 <= i < |fs| ==> fs[i].weight == gs[i].weight && fs[i].contribution <= gs[i].contribution
  }

  /** Every factor has a nonnegative weight and a fraction between 0 and 1. */
  predicate Fractional(fs: seq<Factor>) {
    forall i :: 0 <= i < |fs| ==> 0.0 <= fs[i].contribution <= 100.0 * fs[i].weight
  }

  lemma TotalsOfAppend(fs: seq<Factor>, f: Factor)
    ensures TotalWeight(fs + [f]) == TotalWeight(fs) + f.weight
    ensures TotalContribution(fs + [f]) == TotalContribution(fs) + f.contribution
  {
    assert (fs + [f])[..|fs|] == fs;
  }

  lemma {:induction false} TotalsOfConcat(fs: seq<Factor>, gs: seq<Factor>)
    ensures TotalWeight(fs + gs) == TotalWeight(fs) + TotalWeight(gs)
    ensures TotalContribution(fs + gs) == TotalContribution(fs) + TotalContribution(gs)
  {
    if gs == [] {
      assert fs + gs == fs;
    } else {
      var n := |gs| - 1;
      TotalsOfConcat(fs, gs[..n]);
      assert fs + gs == (fs + gs[..n]) + [gs[n]];
      TotalsOfAppend(fs + gs[..n], gs[n]);
    }
  }

  lemma {:induction false} DominatedSums(fs: seq<Factor>, gs: seq<Factor>)
    requires Dominated(fs, gs)
    ensures TotalWeight(fs) == TotalWeight(gs)
    ensures TotalContribution(fs) <= TotalContribution(gs)
  {
    if fs != [] { DominatedSums(fs[..|fs| - 1], gs[..|gs| - 1]); }
  }

  lemma {:induction false} FractionalSums(fs: seq<Factor>)
    requires Fractional(fs)
    ensures 0.0 <= TotalContribution(fs) <= 100.0 * TotalWeight(fs)
  {
    if fs != [] { FractionalSums(fs[..|fs| - 1]); }
  }

  lemma MeanBounds(fs: seq<Factor>)
    requires Fractional(fs)
    ensures 0.0 <= Mean(fs) <= 100.0
  {
    FractionalSums(fs);
    var w := TotalWeight(fs);
    if w != 0.0 {
      QuotientMonotone(0.0, TotalContribution(fs), w);
      QuotientMonotone(TotalContribution(fs), 100.0 * w, w);
      assert 100.0 * w / w == 100.0;
    }
  }

  lemma MeanMonotone(fs: seq<Factor>, gs: seq<Factor>)
    requires Dominated(fs, gs) && Fractional(fs)
    ensures Mean(fs) <= Mean(gs)
  {
    DominatedSums(fs, gs);
    FractionalSums(fs);
    if TotalWeight(fs) != 0.0 {
      QuotientMonotone(TotalContribution(fs), TotalContribution(gs), TotalWeight(fs));
    }
  }

  lemma ScoredMonotone(name: FactorName, x: real, y: real, p: real, q: real, weight: real)
    requires 0.0 <= p <= q <= 1.0 && weight >= 0.0
    ensures Dominated([Scored(name, x, p, weight)], [Scored(name, y, q, weight)])
    ensures Fractional([Scored(name, x, p, weight)])
  {
    assert (q - p) * 100.0 * weight >= 0.0;
    assert (1.0 - p) * 100.0 * weight >= 0.0;
    assert p * 100.0 * weight >= 0.0;
  }

  // ---------------------------------------------------------------- closed form

  /** Weight and points of one rising input: nothing at all when it is missing. */
  function WeightOf(present: bool, weight: real): real { if present then weight else 0.0 }

  function RisingPoints(r: Reading, low: real, high: real, weight: real): real {
    if r.Number? then BandFraction(r.value, low, high) * 100.0 * weight else 0.0
  }

  function FallingPoints(r: Reading, comfortable: real, danger: real, weight: real): real {
    if r.Number? then InverseBandFraction(r.value, comfortable, danger) * 100.0 * weight else 0.0
  }

  function PressurePoints(r: Reading, t: Thresholds): real {
    if Falling(r) then BandFraction(-r.value, t.dropModerate, t.dropExtreme) * 100.0 * t.weightPressure else 0.0
  }

  function ClosedWeight(c: Conditions, t: Thresholds): real {
    WeightOf(c.wave.Number?, t.weightWave) + WeightOf(c.wind.Number?, t.weightWind)
    + WeightOf(c.gust.Number?, t.weightGust) + WeightOf(c.swell.Number?, t.weightSwell)
    + WeightOf(c.period.Number?, t.weightPeriod) + WeightOf(c.rain.Number?, t.weightRain)
    + WeightOf(Falling(c.pressureTrend), t.weightPressure)
  }

  function ClosedPoints(c: Conditions, t: Thresholds): real {
    RisingPoints(c.wave, t.waveModerate, t.waveExtreme, t.weightWave)
    + RisingPoints(c.wind, t.windModerate, t.windExtreme, t.weightWind)
    + RisingPoints(c.gust, t.gustModerate, t.gustExtreme, t.weightGust)
    + RisingPoints(c.swell, t.swellModerate, t.swellExtreme, t.weightSwell)
    + FallingPoints(c.period, t.periodComfortable, t.periodDangerous, t.weightPeriod)
    + RisingPoints(c.rain, t.rainModerate, t.rainExtreme, t.weightRain)
    + PressurePoints(c.pressureTrend, t)
  }

  lemma TotalsOfOne(f: Factor)
    ensures TotalWeight([f]) == f.weight && TotalContribution([f]) == f.contribution
  {
    assert [f][..0] == [];
  }

  lemma TotalsOfRising(name: FactorName, r: Reading, low: real, high: real, weight: real)
    ensures TotalWeight(RisingFactor(name, r, low, high, weight)) == WeightOf(r.Number?, weight)
    ensures TotalContribution(RisingFactor(name, r, low, high, weight)) == RisingPoints(r, low, high, weight)
  {
    if r.Number? { TotalsOfOne(Scored(name, r.value, BandFraction(r.value, low, high), weight)); }
  }

  lemma TotalsOfFalling(name: FactorName, r: Reading, comfortable: real, danger: real, weight: real)
    ensures TotalWeight(FallingFactor(name, r, comfortable, danger, weight)) == WeightOf(r.Number?, weight)
    ensures TotalContribution(FallingFactor(name, r, comfortable, danger, weight))
            == FallingPoints(r, comfortable, danger, weight)
  {
    if r.Number? { TotalsOfOne(Scored(name, r.value, InverseBandFraction(r.value, comfortable, danger), weight)); }
  }

  lemma TotalsOfPressure(r: Reading, t: Thresholds)
    ensures TotalWeight(PressureFactor(r, t)) == WeightOf(Falling(r), t.weightPressure)
    ensures TotalContribution(PressureFactor(r, t)) == PressurePoints(r, t)
  {
    if Falling(r) {
      TotalsOfOne(Scored(PressureTrend, r.value, BandFraction(-r.value, t.dropModerate, t.dropExtreme), t.weightPressure));
    }
  }

  lemma TotalsOfSea(c: Conditions, t: Thresholds)
    ensures TotalWeight(SeaFactors(c, t)) == WeightOf(c.wave.Number?, t.weightWave)
              + WeightOf(c.wind.Number?, t.weightWind) + WeightOf(c.gust.Number?, t.weightGust)
    ensures TotalContribution(SeaFactors(c, t)) == RisingPoints(c.wave, t.waveModerate, t.waveExtreme, t.weightWave)
              + RisingPoints(c.wind, t.windModerate, t.windExtreme, t.weightWind)
              + RisingPoints(c.gust, t.gustModerate, t.gustExtreme, t.weightGust)
  {
    var f0 := RisingFactor(WaveHeight, c.wave, t.waveModerate, t.waveExtreme, t.weightWave);
    var f1 := RisingFactor(WindSpeed, c.wind, t.windModerate, t.windExtreme, t.weightWind);
    var f2 := RisingFactor(WindGust, c.gust, t.gustModerate, t.gustExtreme, t.weightGust);
    TotalsOfRising(WaveHeight, c.wave, t.waveModerate, t.waveExtreme, t.weightWave);
    TotalsOfRising(WindSpeed, c.wind, t.windModerate, t.windExtreme, t.weightWind);
    TotalsOfRising(WindGust, c.gust, t.gustModerate, t.gustExtreme, t.weightGust);
    TotalsOfConcat(f0, f1);
    TotalsOfConcat(f0 + f1, f2);
  }

  /** The list-driven mean is the quotient of two plain sums over the inputs that are present. */
  lemma BaseInClosedForm(c: Conditions, t: Thresholds)
    ensures TotalWeight(Factors(c, t)) == ClosedWeight(c, t)
    ensures TotalContribution(Factors(c, t)) == ClosedPoints(c, t)
    ensures Base(c, t) == if ClosedWeight(c, t) == 0.0 then 0.0 else ClosedPoints(c, t) / ClosedWeight(c, t)
  {
    TotalsOfSea(c, t);
    var s := SeaFactors(c, t);
    var f3 := RisingFactor(SwellHeight, c.swell, t.swellModerate, t.swellExtreme, t.weightSwell);
    var f4 := FallingFactor(WavePeriod, c.period, t.periodComfortable, t.periodDangerous, t.weightPeriod);
    var f5 := RisingFactor(Rainfall, c.rain, t.rainModerate, t.rainExtreme, t.weightRain);
    var f6 := PressureFactor(c.pressureTrend, t);
    TotalsOfRising(SwellHeight, c.swell, t.swellModerate, t.swellExtreme, t.weightSwell);
    TotalsOfFalling(WavePeriod, c.period, t.periodComfortable, t.periodDangerous, t.weightPeriod);
    TotalsOfRising(Rainfall, c.rain, t.rainModerate, t.rainExtreme, t.weightRain);
    TotalsOfPressure(c.pressureTrend, t);
    TotalsOfConcat(s, f3);
    TotalsOfConcat(s + f3, f4);
    TotalsOfConcat(s + f3 + f4, f5);
    TotalsOfConcat(s + f3 + f4 + f5, f6);
  }

  /** What one input earns, spelled out. */
  lemma PointsInPlainTerms(r: Reading, low: real, high: real, weight: real, t: Thresholds)
    ensures RisingPoints(r, low, high, weight) == if r.Number? then BandFraction(r.value, low, high) * 100.0 * weight else 0.0
    ensures FallingPoints(r, low, high, weight)
            == if r.Number? then InverseBandFraction(r.value, low, high) * 100.0 * weight else 0.0
    ensures PressurePoints(r, t)
            == if r.Number? && r.value < 0.0
               then BandFraction(-r.value, t.dropModerate, t.dropExtreme) * 100.0 * t.weightPressure else 0.0
  {
    hide BandFraction, InverseBandFraction;
  }

  /** The base, spelled out: the points of the present inputs, each in its own band, over the sum of their weights. */
  lemma BaseInPlainTerms(c: Conditions, t: Thresholds)
    ensures var weight := (if c.wave.Number? then t.weightWave else 0.0) + (if c.wind.Number? then t.weightWind else 0.0)
              + (if c.gust.Number? then t.weightGust else 0.0) + (if c.swell.Number? then t.weightSwell else 0.0)
              + (if c.period.Number? then t.weightPeriod else 0.0) + (if c.rain.Number? then t.weightRain else 0.0)
              + (if c.pressureTrend.Number? && c.pressureTrend.value < 0.0 then t.weightPressure else 0.0);
            var points := RisingPoints(c.wave, t.waveModerate, t.waveExtreme, t.weightWave)
              + RisingPoints(c.wind, t.windModerate, t.windExtreme, t.weightWind)
              + RisingPoints(c.gust, t.gustModerate, t.gustExtreme, t.weightGust)
              + RisingPoints(c.swell, t.swellModerate, t.swellExtreme, t.weightSwell)
              + FallingPoints(c.period, t.periodComfortable, t.periodDangerous, t.weightPeriod)
              + RisingPoints(c.rain, t.rainModerate, t.rainExtreme, t.weightRain)
              + PressurePoints(c.pressureTrend, t);
            Base(c, t) == if weight == 0.0 then 0.0 else points / weight
  {
    hide RisingPoints, FallingPoints, PressurePoints, Base;
    BaseInClosedForm(c, t);
  }

  // ---------------------------------------------------------------- hazard order

  /** `d` is at least as hazardous as `c`, with the same inputs present. */
  predicate NoLessHazardous(c: Conditions, d: Conditions) {
    && Raised(c.wave, d.wave) && Raised(c.wind, d.wind) && Raised(c.gust, d.gust)
    && Raised(c.swell, d.swell) && Raised(c.rain, d.rain)
    && Lowered(c.period, d.period)
    && Falling(c.pressureTrend) == Falling(d.pressureTrend)
    && (Falling(c.pressureTrend) ==> d.pressureTrend.value <= c.pressureTrend.value)
    && (c.cyclone.Number? ==> d.cyclone.Number? && d.cyclone.value <= c.cyclone.value)
    && multiset(c.warnings) <= multiset(d.warnings)
  }

  lemma RisingDominated(name: FactorName, r: Reading, s: Reading, low: real, high: real, weight: real)
    requires Raised(r, s) && weight >= 0.0
    ensures Dominated(RisingFactor(name, r, low, high, weight), RisingFactor(name, s, low, high, weight))
    ensures Fractional(RisingFactor(name, r, low, high, weight))
  {
    if r.Number? {
      BandFractionMonotone(r.value, s.value, low, high);
      ScoredMonotone(name, r.value, s.value, BandFraction(r.value, low, high), BandFraction(s.value, low, high), weight);
    }
  }

  lemma FallingDominated(name: FactorName, r: Reading, s: Reading, comfortable: real, danger: real, weight: real)
    requires Lowered(r, s) && weight >= 0.0
    ensures Dominated(FallingFactor(name, r, comfortable, danger, weight), FallingFactor(name, s, comfortable, danger, weight))
    ensures Fractional(FallingFactor(name, r, comfortable, danger, weight))
  {
    if r.Number? {
      InverseBandFractionMonotone(s.value, r.value, comfortable, danger);
      ScoredMonotone(name, r.value, s.value, InverseBandFraction(r.value, comfortable, danger),
                     InverseBandFraction(s.value, comfortable, danger), weight);
    }
  }

  lemma PressureDominated(r: Reading, s: Reading, t: Thresholds)
    requires Falling(r) == Falling(s) && (Falling(r) ==> s.value <= r.value) && t.weightPressure >= 0.0
    ensures Dominated(PressureFactor(r, t), PressureFactor(s, t)) && Fractional(PressureFactor(r, t))
  {
    if Falling(r) {
      BandFractionMonotone(-r.value, -s.value, t.dropModerate, t.dropExtreme);
      ScoredMonotone(PressureTrend, r.value, s.value, BandFraction(-r.value, t.dropModerate, t.dropExtreme),
                     BandFraction(-s.value, t.dropModerate, t.dropExtreme), t.weightPressure);
    }
  }

  lemma ConcatDominated(fs: seq<Factor>, gs: seq<Factor>, fs': seq<Factor>, gs': seq<Factor>)
    requires Dominated(fs, gs) && Dominated(fs', gs') && Fractional(fs) && Fractional(fs')
    ensures Dominated(fs + fs', gs + gs') && Fractional(fs + fs')
  {
  }

  lemma ConcatThreeDominated(f0: seq<Factor>, g0: seq<Factor>, f1: seq<Factor>, g1: seq<Factor>,
                             f2: seq<Factor>, g2: seq<Factor>)
    requires Dominated(f0, g0) && Dominated(f1, g1) && Dominated(f2, g2)
    requires Fractional(f0) && Fractional(f1) && Fractional(f2)
    ensures Dominated(f0 + f1 + f2, g0 + g1 + g2) && Fractional(f0 + f1 + f2)
  {
    ConcatDominated(f0, g0, f1, g1);
    ConcatDominated(f0 + f1, g0 + g1, f2, g2);
  }

  /** Factor by factor, `d` contributes at least as much as `c`. */
  predicate ComponentsDominated(c: Conditions, d: Conditions, t: Thresholds) {
    && Dominated(RisingFactor(WaveHeight, c.wave, t.waveModerate, t.waveExtreme, t.weightWave),
                 RisingFactor(WaveHeight, d.wave, t.waveModerate, t.waveExtreme, t.weightWave))
    && Fractional(RisingFactor(WaveHeight, c.wave, t.waveModerate, t.waveExtreme, t.weightWave))
    && Dominated(RisingFactor(WindSpeed, c.wind, t.windModerate, t.windExtreme, t.weightWind),
                 RisingFactor(WindSpeed, d.wind, t.windModerate, t.windExtreme, t.weightWind))
    && Fractional(RisingFactor(WindSpeed, c.wind, t.windModerate, t.windExtreme, t.weightWind))
    && Dominated(RisingFactor(WindGust, c.gust, t.gustModerate, t.gustExtreme, t.weightGust),
                 RisingFactor(WindGust, d.gust, t.gustModerate, t.gustExtreme, t.weightGust))
    && Fractional(RisingFactor(WindGust, c.gust, t.gustModerate, t.gustExtreme, t.weightGust))
    && Dominated(RisingFactor(SwellHeight, c.swell, t.swellModerate, t.swellExtreme, t.weightSwell),
                 RisingFactor(SwellHeight, d.swell, t.swellModerate, t.swellExtreme, t.weightSwell))
    && Fractional(RisingFactor(SwellHeight, c.swell, t.swellModerate, t.swellExtreme, t.weightSwell))
    && Dominated(FallingFactor(WavePeriod, c.period, t.periodComfortable, t.periodDangerous, t.weightPeriod),
                 FallingFactor(WavePeriod, d.period, t.periodComfortable, t.periodDangerous, t.weightPeriod))
    && Fractional(FallingFactor(WavePeriod, c.period, t.periodComfortable, t.periodDangerous, t.weightPeriod))
    && Dominated(RisingFactor(Rainfall, c.rain, t.rainModerate, t.rainExtreme, t.weightRain),
                 RisingFactor(Rainfall, d.rain, t.rainModerate, t.rainExtreme, t.weightRain))
    && Fractional(RisingFactor(Rainfall, c.rain, t.rainModerate, t.rainExtreme, t.weightRain))
    && Dominated(PressureFactor(c.pressureTrend, t), PressureFactor(d.pressureTrend, t))
    && Fractional(PressureFactor(c.pressureTrend, t))
  }

  lemma HazardOrderIsComponentwise(c: Conditions, d: Conditions, t: Thresholds)
    requires NonNegativeWeights(t) && NoLessHazardous(c, d)
    ensures ComponentsDominated(c, d, t)
  {
    RisingDominated(WaveHeight, c.wave, d.wave, t.waveModerate, t.waveExtreme, t.weightWave);
    RisingDominated(WindSpeed, c.wind, d.wind, t.windModerate, t.windExtreme, t.weightWind);
    RisingDominated(WindGust, c.gust, d.gust, t.gustModerate, t.gustExtreme, t.weightGust);
    RisingDominated(SwellHeight, c.swell, d.swell, t.swellModerate, t.swellExtreme, t.weightSwell);
    FallingDominated(WavePeriod, c.period, d.period, t.periodComfortable, t.periodDangerous, t.weightPeriod);
    RisingDominated(Rainfall, c.rain, d.rain, t.rainModerate, t.rainExtreme, t.weightRain);
    PressureDominated(c.pressureTrend, d.pressureTrend, t);
  }

  lemma FactorsDominated(c: Conditions, d: Conditions, t: Thresholds)
    requires ComponentsDominated(c, d, t)
    ensures Dominated(Factors(c, t), Factors(d, t)) && Fractional(Factors(c, t))
  {
    ConcatThreeDominated(
      RisingFactor(WaveHeight, c.wave, t.waveModerate, t.waveExtreme, t.weightWave),
      RisingFactor(WaveHeight, d.wave, t.waveModerate, t.waveExtreme, t.weightWave),
      RisingFactor(WindSpeed, c.wind, t.windModerate, t.windExtreme, t.weightWind),
      RisingFactor(WindSpeed, d.wind, t.windModerate, t.windExtreme, t.weightWind),
      RisingFactor(WindGust, c.gust, t.gustModerate, t.gustExtreme, t.weightGust),
      RisingFactor(WindGust, d.gust, t.gustModerate, t.gustExtreme, t.weightGust));
    var f1 := RisingFactor(SwellHeight, c.swell, t.swellModerate, t.swellExtreme, t.weightSwell);
    var g1 := RisingFactor(SwellHeight, d.swell, t.swellModerate, t.swellExtreme, t.weightSwell);
    var f2 := FallingFactor(WavePeriod, c.period, t.periodComfortable, t.periodDangerous, t.weightPeriod);
    var g2 := FallingFactor(WavePeriod, d.period, t.periodComfortable, t.periodDangerous, t.weightPeriod);
    ConcatThreeDominated(SeaFactors(c, t), SeaFactors(d, t), f1, g1, f2, g2);
    ConcatThreeDominated(
      SeaFactors(c, t) + f1 + f2, SeaFactors(d, t) + g1 + g2,
      RisingFactor(Rainfall, c.rain, t.rainModerate, t.rainExtreme, t.weightRain),
      RisingFactor(Rainfall, d.rain, t.rainModerate, t.rainExtreme, t.weightRain),
      PressureFactor(c.pressureTrend, t), PressureFactor(d.pressureTrend, t));
  }

  // ---------------------------------------------------------------- hazard penalties

  lemma {:induction false} PenaltyOfRemoval(ws: seq<Severity>, i: nat)
    requires i < |ws|
    ensures WarningPenalty(ws) == WarningPenalty(ws[..i] + ws[i + 1..]) + Penalty(ws[i])
  {
    hide Penalty;
    var n := |ws| - 1;
    var less := ws[..i] + ws[i + 1..];
    if i < n {
      PenaltyOfRemoval(ws[..n], i);
      assert less[..n - 1] == ws[..n][..i] + ws[..n][i + 1..] && less[n - 1] == ws[n];
    } else {
      assert less == ws[..n];
    }
  }

  lemma {:induction false} WarningPenaltyMonotone(ws: seq<Severity>, vs: seq<Severity>)
    requires multiset(ws) <= multiset(vs)
    ensures 0.0 <= WarningPenalty(ws) <= WarningPenalty(vs)
    decreases |ws|, |vs|
  {
    if ws != [] {
      var n := |ws| - 1;
      Sequences.MultisetOfFront(ws);
      assert ws[n] in multiset(vs);
      var i :| 0 <= i < |vs| && vs[i] == ws[n];
      PenaltyOfRemoval(vs, i);
      Sequences.MultisetOfRemoval(vs, i);
      Sequences.CancelOne(multiset(ws[..n]), multiset(vs[..i] + vs[i + 1..]), ws[n]);
      WarningPenaltyMonotone(ws[..n], vs[..i] + vs[i + 1..]);
    } else if vs != [] {
      WarningPenaltyMonotone(ws, vs[..|vs| - 1]);
    }
  }

  // ---------------------------------------------------------------- main results

  /** The environmental base is itself on the 0-100 scale, so clamping only ever cuts penalties. */
  lemma BaseIsBounded(c: Conditions, t: Thresholds)
    requires NonNegativeWeights(t)
    ensures 0.0 <= Base(c, t) <= 100.0
    ensures Base(c, t) <= Score(c, t) <= 100.0
    ensures c.warnings == [] && CyclonePenalty(c.cyclone) == 0.0 ==> Score(c, t) == Base(c, t)
  {
    HazardOrderIsComponentwise(c, c, t);
    FactorsDominated(c, c, t);
    MeanBounds(Factors(c, t));
    WarningPenaltyMonotone([], c.warnings);
  }

  /** The score, spelled out: base and penalties, cut off at 100. */
  lemma ScoreInPlainTerms(c: Conditions, t: Thresholds)
    requires NonNegativeWeights(t)
    ensures var sum := Base(c, t) + WarningPenalty(c.warnings) + CyclonePenalty(c.cyclone);
            Score(c, t) == if sum <= 100.0 then sum else 100.0
  {
    hide Base, WarningPenalty;
    BaseIsBounded(c, t);
    WarningPenaltyMonotone([], c.warnings);
  }

  lemma BaseIsMonotone(c: Conditions, d: Conditions, t: Thresholds)
    requires NonNegativeWeights(t) && NoLessHazardous(c, d)
    ensures Base(c, t) <= Base(d, t)
  {
    hide Factors, NoLessHazardous, Mean;
    HazardOrderIsComponentwise(c, d, t);
    FactorsDominated(c, d, t);
    MeanMonotone(Factors(c, t), Factors(d, t));
  }

  /** Worsening any hazard, with the same inputs present, lowers neither score nor level. */
  lemma RiskIsMonotone(c: Conditions, d: Conditions, t: Thresholds)
    requires NonNegativeWeights(t) && NoLessHazardous(c, d)
    ensures Score(c, t) <= Score(d, t)
    ensures Rank(Classify(Score(c, t))) <= Rank(Classify(Score(d, t)))
  {
    hide Base;
    BaseIsMonotone(c, d, t);
    WarningPenaltyMonotone(c.warnings, d.warnings);
  }

  /** `m'` is the mean `m` of weight `w` after a contribution `c` of weight `v`. */
  lemma MeanAfterMore(m: real, m': real, w: real, v: real, c: real)
    requires w > 0.0 && v > 0.0 && m' * (w + v) == m * w + c
    ensures m' >= m <==> c >= m * v
  {
    assert (m' - m) * (w + v) == m' * (w + v) - (m * w + m * v);
    ProductSign(m' - m, w + v);
  }

  /** Exactly when a further factor does not pull the mean down: its own share is at least the mean. */
  lemma NewFactorKeepsMean(fs: seq<Factor>, f: Factor)
    requires TotalWeight(fs) > 0.0 && f.weight > 0.0
    ensures Mean(fs + [f]) >= Mean(fs) <==> f.contribution >= Mean(fs) * f.weight
  {
    hide TotalContribution, TotalWeight;
    TotalsOfAppend(fs, f);
    MeanAfterMore(Mean(fs), Mean(fs + [f]), TotalWeight(fs), f.weight, f.contribution);
  }

  lemma ShareAgainstMean(fraction: real, w: real, m: real, contribution: real)
    requires w > 0.0 && contribution == fraction * 100.0 * w
    ensures contribution >= m * w <==> 100.0 * fraction >= m
  {
    assert contribution - m * w == (100.0 * fraction - m) * w;
    ProductSign(100.0 * fraction - m, w);
  }

  /** A trend that starts to fall keeps the base from dropping exactly when its fraction is at least the base. */
  lemma FallingTrendKeepsBase(c: Conditions, t: Thresholds, trend: real)
    requires t.weightPressure > 0.0 && TotalWeight(Factors(c, t)) > 0.0
    requires !Falling(c.pressureTrend) && trend < 0.0
    ensures Base(c.(pressureTrend := Number(trend)), t) >= Base(c, t)
            <==> 100.0 * BandFraction(-trend, t.dropModerate, t.dropExtreme) >= Base(c, t)
  {
    var fraction := BandFraction(-trend, t.dropModerate, t.dropExtreme);
    FallingTrendAddsAFactor(c, t, trend);
    hide Factors, Mean, BandFraction, TotalWeight, Scored;
    NewShareKeepsMean(Factors(c, t), PressureTrend, trend, fraction, t.weightPressure);
  }

  lemma NewShareKeepsMean(fs: seq<Factor>, name: FactorName, value: real, fraction: real, weight: real)
    requires TotalWeight(fs) > 0.0 && weight > 0.0
    ensures Mean(fs + [Scored(name, value, fraction, weight)]) >= Mean(fs) <==> 100.0 * fraction >= Mean(fs)
  {
    hide Mean, TotalWeight;
    var f := Scored(name, value, fraction, weight);
    NewFactorKeepsMean(fs, f);
    ShareAgainstMean(fraction, weight, Mean(fs), f.contribution);
  }

  lemma FallingTrendAddsAFactor(c: Conditions, t: Thresholds, trend: real)
    requires !Falling(c.pressureTrend) && trend < 0.0
    ensures Factors(c.(pressureTrend := Number(trend)), t)
            == Factors(c, t)
               + [Scored(PressureTrend, trend, BandFraction(-trend, t.dropModerate, t.dropExtreme), t.weightPressure)]
  {
    hide BandFraction, InverseBandFraction, SeaFactors, RisingFactor, FallingFactor;
    assert SeaFactors(c.(pressureTrend := Number(trend)), t) == SeaFactors(c, t) by { SeaIgnoresTrend(c, t, Number(trend)); }
  }

  lemma SeaIgnoresTrend(c: Conditions, t: Thresholds, r: Reading)
    ensures SeaFactors(c.(pressureTrend := r), t) == SeaFactors(c, t)
  {
    hide RisingFactor;
  }

  // ---------------------------------------------------------------- inputs, one at a time

  function ReadingOf(c: Conditions, name: FactorName): Reading {
    match name
    case WaveHeight => c.wave case WindSpeed => c.wind case WindGust => c.gust case SwellHeight => c.swell
    case WavePeriod => c.period case Rainfall => c.rain case PressureTrend => c.pressureTrend
  }

  /** An input takes part when it is a number; a pressure trend only while it falls. */
  predicate Present(c: Conditions, name: FactorName) {
    if name.PressureTrend? then Falling(c.pressureTrend) else ReadingOf(c, name).Number?
  }

  function WeightFor(name: FactorName, t: Thresholds): real {
    match name
    case WaveHeight => t.weightWave case WindSpeed => t.weightWind case WindGust => t.weightGust
    case SwellHeight => t.weightSwell case WavePeriod => t.weightPeriod case Rainfall => t.weightRain
    case PressureTrend => t.weightPressure
  }

  /** How far into its danger band an input lies. */
  function FractionOf(c: Conditions, name: FactorName, t: Thresholds): real
    requires Present(c, name)
  {
    match name
    case WaveHeight => BandFraction(c.wave.value, t.waveModerate, t.waveExtreme)
    case WindSpeed => BandFraction(c.wind.value, t.windModerate, t.windExtreme)
    case WindGust => BandFraction(c.gust.value, t.gustModerate, t.gustExtreme)
    case SwellHeight => BandFraction(c.swell.value, t.swellModerate, t.swellExtreme)
    case WavePeriod => InverseBandFraction(c.period.value, t.periodComfortable, t.periodDangerous)
    case Rainfall => BandFraction(c.rain.value, t.rainModerate, t.rainExtreme)
    case PressureTrend => BandFraction(-c.pressureTrend.value, t.dropModerate, t.dropExtreme)
  }

  /** The same conditions without one input. */
  function Drop(c: Conditions, name: FactorName): Conditions {
    match name
    case WaveHeight => c.(wave := Absent) case WindSpeed => c.(wind := Absent) case WindGust => c.(gust := Absent)
    case SwellHeight => c.(swell := Absent) case WavePeriod => c.(period := Absent) case Rainfall => c.(rain := Absent)
    case PressureTrend => c.(pressureTrend := Absent)
  }

  function Place(name: FactorName): nat {
    match name
    case WaveHeight => 0 case WindSpeed => 1 case WindGust => 2 case SwellHeight => 3
    case WavePeriod => 4 case Rainfall => 5 case PressureTrend => 6
  }

  /** The factor a present input makes. */
  function Share(c: Conditions, name: FactorName, t: Thresholds): Factor
    requires Present(c, name)
  {
    Scored(name, ReadingOf(c, name).value, FractionOf(c, name, t), WeightFor(name, t))
  }

  function Part(c: Conditions, name: FactorName, t: Thresholds): seq<Factor> {
    if Present(c, name) then [Share(c, name, t)] else []
  }

  /** The factors are those of the present inputs among the first `n`, each once, in their fixed order. */
  ghost predicate Lists(fs: seq<Factor>, n: nat, c: Conditions, t: Thresholds) {
    && (forall name :: Present(c, name) && Place(name) < n ==> Share(c, name, t) in fs)
    && (forall f :: f in fs ==> Present(c, f.name) && Place(f.name) < n && f == Share(c, f.name, t))
    && (forall i, j :: 0 <= i < j < |fs| ==> Place(fs[i].name) < Place(fs[j].name))
  }

  lemma ListsNext(fs: seq<Factor>, name: FactorName, c: Conditions, t: Thresholds)
    requires Lists(fs, Place(name), c, t)
    ensures Lists(fs + Part(c, name, t), Place(name) + 1, c, t)
  {
    hide Present, FractionOf, WeightFor, ReadingOf;
    assert forall other :: Place(other) == Place(name) ==> other == name;
    forall i | 0 <= i < |fs| ensures Place(fs[i].name) < Place(name) { assert fs[i] in fs; }
    if Present(c, name) { assert (fs + Part(c, name, t))[|fs|] == Share(c, name, t); }
  }

  /** The list a single input is collected from. */
  lemma PartOfInput(c: Conditions, name: FactorName, t: Thresholds)
    ensures Part(c, name, t) ==
      match name
      case WaveHeight => RisingFactor(WaveHeight, c.wave, t.waveModerate, t.waveExtreme, t.weightWave)
      case WindSpeed => RisingFactor(WindSpeed, c.wind, t.windModerate, t.windExtreme, t.weightWind)
      case WindGust => RisingFactor(WindGust, c.gust, t.gustModerate, t.gustExtreme, t.weightGust)
      case SwellHeight => RisingFactor(SwellHeight, c.swell, t.swellModerate, t.swellExtreme, t.weightSwell)
      case WavePeriod => FallingFactor(WavePeriod, c.period, t.periodComfortable, t.periodDangerous, t.weightPeriod)
      case Rainfall => RisingFactor(Rainfall, c.rain, t.rainModerate, t.rainExtreme, t.weightRain)
      case PressureTrend => PressureFactor(c.pressureTrend, t)
  {
  }

  lemma FactorsByPart(c: Conditions, t: Thresholds)
    ensures Factors(c, t) == Part(c, WaveHeight, t) + Part(c, WindSpeed, t) + Part(c, WindGust, t)
                             + Part(c, SwellHeight, t) + Part(c, WavePeriod, t) + Part(c, Rainfall, t)
                             + Part(c, PressureTrend, t)
  {
    hide Part, RisingFactor, FallingFactor, PressureFactor;
    forall name { PartOfInput(c, name, t); }
  }

  /** The factors are exactly the present inputs, each once, in their fixed order, each with its own share. */
  lemma FactorsArePresentInputs(c: Conditions, t: Thresholds)
    ensures forall name :: Present(c, name) <==> exists f :: f in Factors(c, t) && f.name == name
    ensures forall f :: f in Factors(c, t) ==>
              && Present(c, f.name) && f.value == ReadingOf(c, f.name).value && f.weight == WeightFor(f.name, t)
              && f.contribution == FractionOf(c, f.name, t) * 100.0 * f.weight
    ensures forall i, j :: 0 <= i < j < |Factors(c, t)| ==>
              Place(Factors(c, t)[i].name) < Place(Factors(c, t)[j].name)
  {
    AllAreListed(c, t);
    hide Factors, Present, FractionOf;
    assert forall name :: Place(name) < 7;
  }

  lemma AllAreListed(c: Conditions, t: Thresholds)
    ensures Lists(Factors(c, t), 7, c, t)
  {
    FactorsByPart(c, t);
    assert Lists([], 0, c, t);
    hide Factors, Lists, Part, Present;
    var fs := Part(c, WaveHeight, t);
    assert [] + fs == fs;
    ListsNext([], WaveHeight, c, t);
    ListsNext(fs, WindSpeed, c, t);
    fs := fs + Part(c, WindSpeed, t);
    ListsNext(fs, WindGust, c, t);
    fs := fs + Part(c, WindGust, t);
    ListsNext(fs, SwellHeight, c, t);
    fs := fs + Part(c, SwellHeight, t);
    ListsNext(fs, WavePeriod, c, t);
    fs := fs + Part(c, WavePeriod, t);
    ListsNext(fs, Rainfall, c, t);
    fs := fs + Part(c, Rainfall, t);
    ListsNext(fs, PressureTrend, c, t);
  }

  function PointsOf(c: Conditions, name: FactorName, t: Thresholds): real {
    if Present(c, name) then FractionOf(c, name, t) * 100.0 * WeightFor(name, t) else 0.0
  }

  lemma PointsByInput(c: Conditions, t: Thresholds)
    ensures RisingPoints(c.wave, t.waveModerate, t.waveExtreme, t.weightWave) == PointsOf(c, WaveHeight, t)
    ensures RisingPoints(c.wind, t.windModerate, t.windExtreme, t.weightWind) == PointsOf(c, WindSpeed, t)
    ensures RisingPoints(c.gust, t.gustModerate, t.gustExtreme, t.weightGust) == PointsOf(c, WindGust, t)
    ensures RisingPoints(c.swell, t.swellModerate, t.swellExtreme, t.weightSwell) == PointsOf(c, SwellHeight, t)
    ensures FallingPoints(c.period, t.periodComfortable, t.periodDangerous, t.weightPeriod) == PointsOf(c, WavePeriod, t)
    ensures RisingPoints(c.rain, t.rainModerate, t.rainExtreme, t.weightRain) == PointsOf(c, Rainfall, t)
    ensures PressurePoints(c.pressureTrend, t) == PointsOf(c, PressureTrend, t)
  {
    hide BandFraction, InverseBandFraction;
  }

  /** The closed points, input by input. */
  lemma PointsSum(c: Conditions, t: Thresholds)
    ensures ClosedPoints(c, t)
            == PointsOf(c, WaveHeight, t) + PointsOf(c, WindSpeed, t) + PointsOf(c, WindGust, t)
               + PointsOf(c, SwellHeight, t) + PointsOf(c, WavePeriod, t) + PointsOf(c, Rainfall, t)
               + PointsOf(c, PressureTrend, t)
  {
    hide RisingPoints, FallingPoints, PressurePoints, PointsOf;
    PointsByInput(c, t);
  }

  lemma DropTouchesOneInput(c: Conditions, name: FactorName, t: Thresholds)
    ensures !Present(Drop(c, name), name) && PointsOf(Drop(c, name), name, t) == 0.0
    ensures forall other :: other != name ==> Present(Drop(c, name), other) == Present(c, other)
    ensures forall other :: other != name ==> PointsOf(Drop(c, name), other, t) == PointsOf(c, other, t)
  {
    hide BandFraction, InverseBandFraction;
  }

  lemma DropTakesItsShare(c: Conditions, name: FactorName, t: Thresholds)
    requires Present(c, name) && NonNegativeWeights(t)
    ensures WeightFor(name, t) >= 0.0 && ClosedWeight(Drop(c, name), t) >= 0.0
    ensures ClosedWeight(c, t) == ClosedWeight(Drop(c, name), t) + WeightFor(name, t)
    ensures ClosedPoints(c, t)
            == ClosedPoints(Drop(c, name), t) + FractionOf(c, name, t) * 100.0 * WeightFor(name, t)
  {
    hide PointsOf, FractionOf, ClosedPoints, Drop;
    WeightAfterDrop(c, name, t);
    PointsAfterDrop(c, name, t);
    assert PointsOf(c, name, t) == FractionOf(c, name, t) * 100.0 * WeightFor(name, t) by { PointsOfPresent(c, name, t); }
  }

  lemma PointsOfPresent(c: Conditions, name: FactorName, t: Thresholds)
    requires Present(c, name)
    ensures PointsOf(c, name, t) == FractionOf(c, name, t) * 100.0 * WeightFor(name, t)
  {
  }

  lemma WeightAfterDrop(c: Conditions, name: FactorName, t: Thresholds)
    requires Present(c, name) && NonNegativeWeights(t)
    ensures WeightFor(name, t) >= 0.0 && ClosedWeight(Drop(c, name), t) >= 0.0
    ensures ClosedWeight(c, t) == ClosedWeight(Drop(c, name), t) + WeightFor(name, t)
  {
  }

  lemma PointsAfterDrop(c: Conditions, name: FactorName, t: Thresholds)
    requires Present(c, name)
    ensures ClosedPoints(c, t) == ClosedPoints(Drop(c, name), t) + PointsOf(c, name, t)
  {
    hide PointsOf, Present, Drop, ClosedPoints;
    PointsSum(c, t);
    PointsSum(Drop(c, name), t);
    DropTouchesOneInput(c, name, t);
  }

  lemma PointsWithinWeight(c: Conditions, t: Thresholds)
    requires NonNegativeWeights(t)
    ensures 0.0 <= ClosedPoints(c, t) <= 100.0 * ClosedWeight(c, t)
  {
    hide Factors;
    HazardOrderIsComponentwise(c, c, t);
    FactorsDominated(c, c, t);
    FractionalSums(Factors(c, t));
    BaseInClosedForm(c, t);
  }

  lemma QuotientTimes(p: real, w: real)
    requires w > 0.0
    ensures p / w * w == p
  {
  }

  /** `m'` is the mean `m` of weight `w` after one more part `x` of weight `v`. */
  lemma MeanAgainstPart(m: real, m': real, w: real, v: real, x: real)
    requires w >= 0.0 && v > 0.0 && m' * (w + v) == m * w + x * v
    ensures m >= m' <==> m >= x
    ensures m > m' <==> m > x
  {
    assert (m - m') * (w + v) == (m - x) * v;
    ProductSign(m - m', w + v);
    ProductSign(m - x, v);
  }

  /**
    * Losing an input does not lower the base exactly when the input carries no weight, or the base of what remains is
    * at least the input's own scaled fraction.
    */
  lemma LosingInputKeepsBaseExactly(c: Conditions, name: FactorName, t: Thresholds)
    requires NonNegativeWeights(t) && Present(c, name)
    ensures Base(Drop(c, name), t) >= Base(c, t)
            <==> WeightFor(name, t) == 0.0 || Base(Drop(c, name), t) >= 100.0 * FractionOf(c, name, t)
    ensures Base(Drop(c, name), t) > Base(c, t)
            <==> WeightFor(name, t) > 0.0 && Base(Drop(c, name), t) > 100.0 * FractionOf(c, name, t)
    ensures WeightFor(name, t) >= 0.0
  {
    hide Base, ClosedPoints, ClosedWeight, FractionOf, Drop, Quotient;
    var d, v, x := Drop(c, name), WeightFor(name, t), FractionOf(c, name, t) * 100.0;
    DropTakesItsShare(c, name, t);
    PointsWithinWeight(d, t);
    BaseIsQuotient(c, t);
    BaseIsQuotient(d, t);
    assert ClosedPoints(c, t) == ClosedPoints(d, t) + x * v && ClosedWeight(c, t) == ClosedWeight(d, t) + v;
    LosingPartKeepsMeanExactly(ClosedPoints(d, t), ClosedWeight(d, t), x, v);
  }

  function Quotient(points: real, weight: real): real { if weight == 0.0 then 0.0 else points / weight }

  lemma BaseIsQuotient(c: Conditions, t: Thresholds)
    ensures Base(c, t) == Quotient(ClosedPoints(c, t), ClosedWeight(c, t))
  {
    hide Base, ClosedPoints, ClosedWeight;
    BaseInClosedForm(c, t);
  }

  lemma LosingPartKeepsMeanExactly(points: real, w: real, x: real, v: real)
    requires w >= 0.0 && v >= 0.0 && 0.0 <= points <= 100.0 * w
    ensures Quotient(points, w) >= Quotient(points + x * v, w + v) <==> v == 0.0 || Quotient(points, w) >= x
    ensures Quotient(points, w) > Quotient(points + x * v, w + v) <==> v > 0.0 && Quotient(points, w) > x
  {
    if v > 0.0 {
      QuotientTimes(points + x * v, w + v);
      if w > 0.0 { QuotientTimes(points, w); }
      MeanAgainstPart(Quotient(points, w), Quotient(points + x * v, w + v), w, v, x);
    }
  }

  function Penalties(c: Conditions): real { WarningPenalty(c.warnings) + CyclonePenalty(c.cyclone) }

  /** The score falls with the base, unless the penalties alone keep it at its ceiling. */
  lemma LosingInputLowersScoreExactly(c: Conditions, name: FactorName, t: Thresholds)
    requires NonNegativeWeights(t) && Present(c, name)
    ensures Score(Drop(c, name), t) < Score(c, t) <==>
            && WeightFor(name, t) > 0.0 && Base(Drop(c, name), t) < 100.0 * FractionOf(c, name, t)
            && Base(Drop(c, name), t) + Penalties(c) < 100.0
  {
    LosingInputKeepsBaseExactly(c, name, t);
    BaseIsBounded(c, t);
    BaseIsBounded(Drop(c, name), t);
    WarningPenaltyMonotone([], c.warnings);
    hide Base, FractionOf, WarningPenalty;
    assert Penalties(Drop(c, name)) == Penalties(c) >= 0.0;
  }

  /** The mean of one part `f` of weight `v` among others of weight `w`. */
  function MeanWith(points: real, w: real, f: real, v: real): real { Quotient(points + f * 100.0 * v, w + v) }

  lemma PartRaisesMeanExactly(points: real, w: real, v: real, f: real, f': real)
    requires w >= 0.0 && v >= 0.0
    ensures MeanWith(points, w, f, v) < MeanWith(points, w, f', v) <==> v > 0.0 && f < f'
  {
    var x, y := f * 100.0 * v, f' * 100.0 * v;
    if v > 0.0 {
      var m, m' := MeanWith(points, w, f, v), MeanWith(points, w, f', v);
      QuotientTimes(points + x, w + v);
      QuotientTimes(points + y, w + v);
      assert (m' - m) * (w + v) == m' * (w + v) - m * (w + v) == y - x;
      ProductSign(m' - m, w + v);
      assert (f' - f) * v == f' * v - f * v;
      ProductSign(f' - f, v);
    } else {
      assert x == 0.0 && y == 0.0;
    }
  }

  lemma WaveShare(c: Conditions, t: Thresholds, x: real)
    requires NonNegativeWeights(t)
    ensures var rest, f := Drop(c, WaveHeight), BandFraction(x, t.waveModerate, t.waveExtreme);
      && ClosedWeight(rest, t) >= 0.0
      && Base(c.(wave := Number(x)), t)
         == MeanWith(ClosedPoints(rest, t), ClosedWeight(rest, t), f, t.weightWave)
  {
    var d := c.(wave := Number(x));
    hide Base, BandFraction, ClosedPoints, ClosedWeight;
    assert Drop(d, WaveHeight) == Drop(c, WaveHeight);
    DropTakesItsShare(d, WaveHeight, t);
    BaseIsQuotient(d, t);
  }

  lemma HigherWaveRaisesBaseExactly(c: Conditions, t: Thresholds, x: real, y: real)
    requires NonNegativeWeights(t)
    ensures Base(c.(wave := Number(x)), t) < Base(c.(wave := Number(y)), t) <==>
            && t.weightWave > 0.0
            && BandFraction(x, t.waveModerate, t.waveExtreme) < BandFraction(y, t.waveModerate, t.waveExtreme)
  {
    hide Base, BandFraction, ClosedPoints, ClosedWeight, MeanWith, Drop;
    WaveShare(c, t, x);
    WaveShare(c, t, y);
    var rest := Drop(c, WaveHeight);
    PartRaisesMeanExactly(ClosedPoints(rest, t), ClosedWeight(rest, t), t.weightWave,
                              BandFraction(x, t.waveModerate, t.waveExtreme), BandFraction(y, t.waveModerate, t.waveExtreme));
  }

  /** A wave of `y` scores higher than one of `x` exactly when waves weigh, `y` lies deeper in the band, and there is room. */
  lemma HigherWaveRaisesScoreExactly(c: Conditions, t: Thresholds, x: real, y: real)
    requires NonNegativeWeights(t)
    ensures Score(c.(wave := Number(x)), t) < Score(c.(wave := Number(y)), t) <==>
            && t.weightWave > 0.0
            && BandFraction(x, t.waveModerate, t.waveExtreme) < BandFraction(y, t.waveModerate, t.waveExtreme)
            && Base(c.(wave := Number(x)), t) + Penalties(c) < 100.0
  {
    HigherWaveRaisesBaseExactly(c, t, x, y);
    BaseIsBounded(c.(wave := Number(x)), t);
    BaseIsBounded(c.(wave := Number(y)), t);
    WarningPenaltyMonotone([], c.warnings);
    hide Base, BandFraction, WarningPenalty;
  }

  /** By how much an input outweighs a mean: its distance above it, times its weight. */
  function Pull(c: Conditions, name: FactorName, t: Thresholds, mean: real): real
    requires Present(c, name)
  {
    WeightFor(name, t) * (100.0 * FractionOf(c, name, t) - mean)
  }

  lemma BaseWithPart(c: Conditions, name: FactorName, t: Thresholds)
    requires NonNegativeWeights(t) && Present(c, name)
    ensures var rest := Drop(c, name);
      && WeightFor(name, t) >= 0.0 && 0.0 <= ClosedPoints(rest, t) <= 100.0 * ClosedWeight(rest, t)
      && ClosedWeight(c, t) == ClosedWeight(rest, t) + WeightFor(name, t)
      && Base(c, t) == MeanWith(ClosedPoints(rest, t), ClosedWeight(rest, t), FractionOf(c, name, t), WeightFor(name, t))
  {
    hide Base, ClosedPoints, ClosedWeight, FractionOf, WeightFor, Drop, Quotient;
    DropTakesItsShare(c, name, t);
    PointsWithinWeight(Drop(c, name), t);
    BaseIsQuotient(c, t);
    var f, v := FractionOf(c, name, t), WeightFor(name, t);
    assert ClosedPoints(c, t) == ClosedPoints(Drop(c, name), t) + f * 100.0 * v;
  }

  /** One part in place of another, among the same rest. */
  lemma ReplacedPartLowersMeanExactly(points: real, w: real, f: real, v: real, f': real, v': real)
    requires 0.0 <= points <= 100.0 * w && v >= 0.0 && v' >= 0.0
    ensures var m := MeanWith(points, w, f, v);
      MeanWith(points, w, f', v') < m
      <==> if w + v' == 0.0 then m > 0.0 else v' * (100.0 * f' - m) < v * (100.0 * f - m)
  {
    var m, m' := MeanWith(points, w, f, v), MeanWith(points, w, f', v');
    var x, x' := f * 100.0 * v, f' * 100.0 * v';
    if w + v == 0.0 {
      assert x == 0.0 && points == 0.0;
    } else {
      QuotientTimes(points + x, w + v);
    }
    assert m * (w + v) == points + x;
    if w + v' != 0.0 {
      QuotientTimes(points + x', w + v');
      assert (m' - m) * (w + v') == m' * (w + v') - m * (w + v');
      ProductSign(m' - m, w + v');
      SameAsPulls(points, w, f, v, f', v', m);
    }
  }

  lemma SameAsPulls(points: real, w: real, f: real, v: real, f': real, v': real, m: real)
    requires m * (w + v) == points + f * 100.0 * v
    ensures points + f' * 100.0 * v' - m * (w + v') == v' * (100.0 * f' - m) - v * (100.0 * f - m)
  {
  }

  /** Replacing an input by another lowers the base exactly when the new one outweighs the old mean by less. */
  lemma ReplacingInputLowersBaseExactly(c: Conditions, n: FactorName, d: Conditions, m: FactorName, t: Thresholds)
    requires NonNegativeWeights(t) && Present(c, n) && Present(d, m) && Drop(c, n) == Drop(d, m)
    ensures Base(d, t) < Base(c, t)
            <==> if ClosedWeight(d, t) == 0.0 then Base(c, t) > 0.0 else Pull(d, m, t, Base(c, t)) < Pull(c, n, t, Base(c, t))
  {
    hide Base, ClosedPoints, ClosedWeight, FractionOf, WeightFor, Drop, MeanWith;
    BaseWithPart(c, n, t);
    BaseWithPart(d, m, t);
    var rest := Drop(c, n);
    ReplacedPartLowersMeanExactly(ClosedPoints(rest, t), ClosedWeight(rest, t), FractionOf(c, n, t), WeightFor(n, t),
                                  FractionOf(d, m, t), WeightFor(m, t));
  }

  /** And the score, when the penalties leave the new base room. */
  lemma ReplacingInputLowersScoreExactly(c: Conditions, n: FactorName, d: Conditions, m: FactorName, t: Thresholds)
    requires NonNegativeWeights(t) && Present(c, n) && Present(d, m) && Drop(c, n) == Drop(d, m)
    ensures Score(d, t) < Score(c, t) <==>
            && (if ClosedWeight(d, t) == 0.0 then Base(c, t) > 0.0 else Pull(d, m, t, Base(c, t)) < Pull(c, n, t, Base(c, t)))
            && Base(d, t) + Penalties(c) < 100.0
  {
    hide Base, ClosedWeight, Pull, WarningPenalty;
    ReplacingInputLowersBaseExactly(c, n, d, m, t);
    BaseIsBounded(c, t);
    BaseIsBounded(d, t);
    WarningPenaltyMonotone([], c.warnings);
    assert Drop(c, n).warnings == c.warnings && Drop(d, m).warnings == d.warnings;
    assert Drop(c, n).cyclone == c.cyclone && Drop(d, m).cyclone == d.cyclone;
  }

  /** The same conditions with one input read. */
  function Gain(c: Conditions, name: FactorName, value: real): Conditions {
    var r := Number(value);
    match name
    case WaveHeight => c.(wave := r) case WindSpeed => c.(wind := r) case WindGust => c.(gust := r)
    case SwellHeight => c.(swell := r) case WavePeriod => c.(period := r) case Rainfall => c.(rain := r)
    case PressureTrend => c.(pressureTrend := r)
  }

  /** An input that takes no part scores like an absent one. */
  lemma UnreadScoresAsAbsent(c: Conditions, name: FactorName, t: Thresholds)
    requires !Present(c, name)
    ensures Base(Drop(c, name), t) == Base(c, t) && Score(Drop(c, name), t) == Score(c, t)
  {
    hide Mean, Clamp, WarningPenalty, CyclonePenalty;
    assert Factors(Drop(c, name), t) == Factors(c, t);
  }

  /**
    * An input that comes to take part lowers the score exactly when it carries weight, lies below the mean of what was
    * there, and the penalties leave the new base room.
    */
  lemma GainingInputLowersScoreExactly(c: Conditions, name: FactorName, value: real, t: Thresholds)
    requires NonNegativeWeights(t) && !Present(c, name) && Present(Gain(c, name, value), name)
    ensures var d := Gain(c, name, value);
      Score(d, t) < Score(c, t) <==>
        && WeightFor(name, t) > 0.0 && 100.0 * FractionOf(d, name, t) < Base(c, t)
        && Base(d, t) + Penalties(c) < 100.0
  {
    var d := Gain(c, name, value);
    assert Drop(d, name) == Drop(c, name);
    UnreadScoresAsAbsent(c, name, t);
    LosingInputKeepsBaseExactly(d, name, t);
    BaseIsBounded(c, t);
    BaseIsBounded(d, t);
    WarningPenaltyMonotone([], c.warnings);
    hide Base, FractionOf, WarningPenalty;
    assert Penalties(d) == Penalties(c) >= 0.0;
  }

  /** Same presence matters: a barometer that begins to fall slightly turns a HIGH sea into a MODERATE one. */
  lemma SlightFallCanLowerRisk()
    ensures var c := NO_CONDITIONS.(wave := Number(4.0));
            var d := c.(pressureTrend := Number(-1.0));
            Classify(Score(c, DEFAULT_THRESHOLDS)) == High && Classify(Score(d, DEFAULT_THRESHOLDS)) == Moderate
  {
    var c := NO_CONDITIONS.(wave := Number(4.0));
    BaseInClosedForm(c, DEFAULT_THRESHOLDS);
    BaseInClosedForm(c.(pressureTrend := Number(-1.0)), DEFAULT_THRESHOLDS);
  }
}
