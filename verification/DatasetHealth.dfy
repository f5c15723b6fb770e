/** Freshness of a dataset, and the status that ingests, errors and sweeps drive it through. */
module DatasetHealth {
  import opened Numbers
  import opened Wrappers

  // ---------------------------------------------------------------- freshness

  datatype Freshness = Freshness(reference: Option<real>, age: Option<real>, stale: bool, score: real,
                                 threshold: Option<real>)

  /** Age at which a dataset with this cadence counts as stale. */
  function Threshold(interval: int, multiplier: real): real { interval as real * multiplier }

  /** Age of the reference time against the expected cadence; no reference is stale, no cadence never is. */
  function ComputeFreshness(reference: Option<real>, now: real, interval: Option<int>, multiplier: real): Freshness {
    match reference
    case None => Freshness(None, None, true, 0.0, None)
    case Some(at) =>
      var age := MaxReal(0.0, now - at);
      if interval.Some? && interval.value > 0 then
        var threshold := Threshold(interval.value, multiplier);
        var score := if threshold > 0.0 then MaxReal(0.0, 1.0 - age / threshold) else 0.0;
        Freshness(reference, Some(age), age > threshold, score, Some(threshold))
      else Freshness(reference, Some(age), false, 1.0, None)
  }

  lemma QuotientFacts(age: real, threshold: real)
    requires age >= 0.0 && threshold > 0.0
    ensures age / threshold >= 0.0
    ensures age / threshold >= 1.0 <==> age >= threshold
  {
    var q := age / threshold;
    assert q * threshold == age;
    ProductSign(q, threshold);
    assert (q - 1.0) * threshold == age - threshold;
    ProductSign(q - 1.0, threshold);
  }

  /** The score lies in [0, 1], is spent exactly at the threshold, and staleness only begins beyond it. */
  lemma ScoreDecaysToTheThreshold(at: real, now: real, interval: int, multiplier: real)
    requires interval > 0 && Threshold(interval, multiplier) > 0.0
    ensures var f := ComputeFreshness(Some(at), now, Some(interval), multiplier);
      && 0.0 <= f.score <= 1.0
      && (f.stale <==> now - at > Threshold(interval, multiplier))
      && (f.score == 0.0 <==> now - at >= Threshold(interval, multiplier))
      && (f.score == 1.0 <==> now <= at)
  {
    var threshold := Threshold(interval, multiplier);
    var age := MaxReal(0.0, now - at);
    QuotientFacts(age, threshold);
    assert age / threshold * threshold == age;
  }

  /** Freshness, spelled out: age, staleness, and a score that falls in proportion to the age. */
  lemma FreshnessInPlainTerms(at: real, now: real, interval: int, multiplier: real)
    requires interval > 0
    ensures var f := ComputeFreshness(Some(at), now, Some(interval), multiplier);
            var limit := interval as real * multiplier;
            var age := if now <= at then 0.0 else now - at;
      && f.reference == Some(at) && f.age == Some(age) && f.threshold == Some(limit)
      && (f.stale <==> age > limit)
      && (limit > 0.0 && age <= limit ==> f.score * limit == limit - age)
      && (limit > 0.0 && age >= limit ==> f.score == 0.0)
      && (limit <= 0.0 ==> f.score == 0.0)
  {
    var limit := interval as real * multiplier;
    var age := MaxReal(0.0, now - at);
    if limit > 0.0 {
      QuotientFacts(age, limit);
      assert age / limit * limit == age;
    }
  }

  /** Without a reference data are stale and worth nothing; without a cadence they never age. */
  lemma UnknownAgeOrCadence(reference: Option<real>, now: real, interval: Option<int>, multiplier: real)
    requires reference.None? || interval.None? || interval.value <= 0
    ensures var f := ComputeFreshness(reference, now, interval, multiplier);
            f.stale == reference.None? && f.score == (if reference.None? then 0.0 else 1.0) && f.threshold == None
  {
  }

  /** As time passes with nothing else changing, staleness is never undone and the score never rises. */
  lemma FreshnessOnlyFades(reference: Option<real>, now: real, later: real, interval: Option<int>, multiplier: real)
    requires now <= later
    ensures var f, g := ComputeFreshness(reference, now, interval, multiplier),
                        ComputeFreshness(reference, later, interval, multiplier);
            (f.stale ==> g.stale) && g.score <= f.score
  {
    if reference.Some? && interval.Some? && interval.value > 0 {
      var threshold := Threshold(interval.value, multiplier);
      var a, b := MaxReal(0.0, now - reference.value), MaxReal(0.0, later - reference.value);
      if threshold > 0.0 {
        var d := b / threshold - a / threshold;
        assert d * threshold == b - a;
        ProductSign(d, threshold);
      }
    }
  }

  // ---------------------------------------------------------------- the status row

  datatype Status = Healthy | Stale | Degraded | Failed | Disabled

  datatype FetchState = Success | Empty | DegradedFetch

  /** The machine-readable states a source error carries; anything else is an outage. */
  datatype ErrorKind = SourceDisabled | ContractUnavailable | LicenseGated | AuthBlocked | ContractError | Outage

  datatype ResultState = NotRun | Fetched(fetch: FetchState) | ProcessingError | SourceError(kind: ErrorKind)

  datatype Row = Row(status: Status, failures: nat, lastSuccess: Option<real>, lastFailure: Option<real>,
                     lastResult: ResultState, interval: Option<int>, multiplier: Option<real>)

  /** A row as the registry creates it: disabled, never run or known to be blocked, whatever its cadence. */
  predicate Registered(r: Row) {
    r.status == Disabled && r.failures == 0 && r.lastSuccess == None
    && (r.lastResult == NotRun || (r.lastResult.SourceError? && Blocks(r.lastResult.kind)))
  }

  /** A missing or zero multiplier falls back to the configured default. */
  function Multiplier(r: Row, default: real): real {
    if r.multiplier.None? || r.multiplier.value == 0.0 then default else r.multiplier.value
  }

  function FreshnessOf(r: Row, now: real, default: real): Freshness {
    ComputeFreshness(r.lastSuccess, now, r.interval, Multiplier(r, default))
  }

  datatype Event =
    | Ingested(at: real, state: FetchState, retrievedAt: real)
    | IngestFailed(at: real)
    | SourceFailed(at: real, kind: ErrorKind)
    | Swept(at: real)

  predicate Blocks(k: ErrorKind) { k.SourceDisabled? || k.ContractUnavailable? || k.LicenseGated? }

  /** Known blocks and authentication refusals are not failures; everything else counts. */
  predicate CountsAsFailure(e: Event) {
    e.IngestFailed? || (e.SourceFailed? && !Blocks(e.kind) && !e.kind.AuthBlocked?)
  }

  function SweptStatus(r: Row, now: real, default: real): Status {
    if r.status == Healthy && FreshnessOf(r, now, default).stale then Stale
    else if r.status == Stale && !FreshnessOf(r, now, default).stale then Healthy
    else r.status
  }

  /** What the read side reports: a healthy dataset that has gone stale shows as stale. */
  function ShownStatus(r: Row, now: real, default: real): Status {
    if FreshnessOf(r, now, default).stale && r.status == Healthy then Stale else r.status
  }

  function ErrorStatus(k: ErrorKind): Status {
    if Blocks(k) then Disabled else if k.AuthBlocked? || k.ContractError? then Degraded else Failed
  }

  function Step(r: Row, e: Event, default: real): Row {
    match e
    case Ingested(_, state, retrievedAt) =>
      r.(status := if state == DegradedFetch then Degraded else Healthy, failures := 0,
         lastSuccess := Some(retrievedAt), lastResult := Fetched(state))
    case IngestFailed(at) =>
      r.(status := Failed, failures := r.failures + 1, lastFailure := Some(at), lastResult := ProcessingError)
    case SourceFailed(at, kind) =>
      r.(status := ErrorStatus(kind), lastResult := SourceError(kind),
         failures := if CountsAsFailure(e) then r.failures + 1 else r.failures,
         lastFailure := if CountsAsFailure(e) then Some(at) else r.lastFailure)
    case Swept(at) => r.(status := SweptStatus(r, at, default))
  }

  function Run(r: Row, events: seq<Event>, default: real): Row {
    if events == [] then r else Step(Run(r, events[..|events| - 1], default), events[|events| - 1], default)
  }

  /** A row's own multiplier counts unless it is missing or zero. */
  lemma CadenceInPlainTerms(r: Row, now: real, default: real)
    ensures FreshnessOf(r, now, default)
            == ComputeFreshness(r.lastSuccess, now, r.interval,
                                if r.multiplier.Some? && r.multiplier.value != 0.0 then r.multiplier.value else default)
  {
  }

  /** What a source error does to a dataset, by the state it carries. */
  lemma SourceErrorsInPlainTerms(r: Row, at: real, kind: ErrorKind, default: real)
    ensures var s := Step(r, SourceFailed(at, kind), default);
      && s.lastResult == SourceError(kind) && s.lastSuccess == r.lastSuccess
      && s.interval == r.interval && s.multiplier == r.multiplier
      && (kind in {SourceDisabled, ContractUnavailable, LicenseGated} ==> s.status == Disabled)
      && (kind in {AuthBlocked, ContractError} ==> s.status == Degraded)
      && (kind == Outage ==> s.status == Failed)
      && (if kind in {ContractError, Outage} then s.failures == r.failures + 1 && s.lastFailure == Some(at)
          else s.failures == r.failures && s.lastFailure == r.lastFailure)
  {
  }

  /** What an ingest does to a dataset, by the state of what was fetched, or when it fails. */
  lemma IngestsInPlainTerms(r: Row, at: real, state: FetchState, retrievedAt: real, default: real)
    ensures var s := Step(r, Ingested(at, state, retrievedAt), default);
      && (state in {Success, Empty} ==> s.status == Healthy) && (state == DegradedFetch ==> s.status == Degraded)
      && s.failures == 0 && s.lastSuccess == Some(retrievedAt) && s.lastFailure == r.lastFailure
      && s.lastResult == Fetched(state)
    ensures var s := Step(r, IngestFailed(at), default);
      && s.status == Failed && s.failures == r.failures + 1 && s.lastFailure == Some(at)
      && s.lastSuccess == r.lastSuccess && s.lastResult == ProcessingError
  {
  }

  /** The positions of the failures that count and that no successful ingest follows. */
  ghost function OpenFailures(events: seq<Event>): set<nat> {
    set i: nat | i < |events| && CountsAsFailure(events[i]) && forall j :: i < j < |events| ==> !events[j].Ingested?
  }

  lemma OpenFailuresNext(events: seq<Event>, e: Event)
    ensures e.Ingested? ==> OpenFailures(events + [e]) == {}
    ensures !e.Ingested? ==>
              OpenFailures(events + [e]) == OpenFailures(events) + if CountsAsFailure(e) then {|events|} else {}
  {
    hide CountsAsFailure;
    var more := events + [e];
    assert more[|events|] == e;
    if !e.Ingested? {
      forall i: nat ensures i in OpenFailures(more) <==> i in OpenFailures(events) || (CountsAsFailure(e) && i == |events|) {
        if i < |events| { assert more[i] == events[i]; }
        if i in OpenFailures(more) && i < |events| {
          forall j | i < j < |events| ensures !events[j].Ingested? { assert more[j] == events[j]; }
        }
      }
    } else {
      assert !CountsAsFailure(e) by { NoSuccessIsAFailure(e); }
    }
  }

  lemma NoSuccessIsAFailure(e: Event)
    ensures e.Ingested? ==> !CountsAsFailure(e)
  {
  }

  /** In every history of a registered dataset the counter counts exactly the failures since the last success. */
  lemma {:induction false} CounterCountsFailures(r: Row, events: seq<Event>, default: real)
    requires Registered(r)
    ensures Run(r, events, default).failures == |OpenFailures(events)|
  {
    if events != [] {
      var n := |events| - 1;
      CounterCountsFailures(r, events[..n], default);
      assert events == events[..n] + [events[n]];
      OpenFailuresNext(events[..n], events[n]);
    }
  }

  /** A live status vouches for the last ingest: no failures since, a good result, and a success time. */
  predicate Vouched(r: Row) {
    r.status == Healthy || r.status == Stale ==>
      r.failures == 0 && r.lastSuccess.Some? && (r.lastResult == Fetched(Success) || r.lastResult == Fetched(Empty))
  }

  lemma {:induction false} LiveStatusIsVouched(r: Row, events: seq<Event>, default: real)
    requires Registered(r)
    ensures Vouched(Run(r, events, default))
  {
    if events != [] { LiveStatusIsVouched(r, events[..|events| - 1], default); }
  }

  /** A sweep only ever trades healthy against stale, and leaves everything but the status alone. */
  lemma SweepOnlyTradesHealthyAndStale(r: Row, at: real, default: real)
    ensures Step(r, Swept(at), default) == r.(status := Step(r, Swept(at), default).status)
    ensures r.status in {Degraded, Failed, Disabled} <==> Step(r, Swept(at), default).status in {Degraded, Failed, Disabled}
    ensures r.status in {Degraded, Failed, Disabled} ==> Step(r, Swept(at), default) == r
    ensures r.status in {Healthy, Stale} ==>
              (Step(r, Swept(at), default).status == Stale <==> FreshnessOf(r, at, default).stale)
  {
  }

  /** The shown status is what a sweep would store exactly unless a stored stale has become fresh. */
  lemma ShownIsSweptExactly(r: Row, now: real, default: real)
    ensures ShownStatus(r, now, default) == SweptStatus(r, now, default)
            <==> !(r.status == Stale && !FreshnessOf(r, now, default).stale)
  {
  }

  /** The last event is not in the future. */
  predicate Past(events: seq<Event>, now: real) { events == [] || events[|events| - 1].at <= now }

  /** Once stored, stale stays true for as long as the cadence is fixed and the clock does not run backwards. */
  lemma {:induction false} StoredStaleStaysStale(r: Row, events: seq<Event>, now: real, default: real)
    requires Registered(r) && Past(events, now)
    ensures Run(r, events, default).status == Stale ==> FreshnessOf(Run(r, events, default), now, default).stale
  {
    if events != [] {
      var last := events[|events| - 1];
      var before := Run(r, events[..|events| - 1], default);
      var after := Run(r, events, default);
      if last.Swept? && after.status == Stale {
        assert FreshnessOf(after, last.at, default) == FreshnessOf(before, last.at, default);
        FreshnessOnlyFades(after.lastSuccess, last.at, now, after.interval, Multiplier(after, default));
      }
    }
  }

  /** So in every history the status the read side shows equals what a sweep at that instant would store. */
  lemma ShownStatusAgreesWithSweep(r: Row, events: seq<Event>, now: real, default: real)
    requires Registered(r) && Past(events, now)
    ensures ShownStatus(Run(r, events, default), now, default) == SweptStatus(Run(r, events, default), now, default)
  {
    StoredStaleStaysStale(r, events, now, default);
    ShownIsSweptExactly(Run(r, events, default), now, default);
  }

  /** With a cadence relaxed in between, the two disagree: the page says stale, the sweep would say healthy. */
  lemma RelaxedCadenceSplitsTheViews()
    ensures var r := Row(Stale, 0, Some(0.0), None, Fetched(Success), Some(10), Some(1.0));
            var relaxed := r.(interval := Some(100));
            && SweptStatus(r, 20.0, 3.0) == Stale
            && ShownStatus(relaxed, 20.0, 3.0) == Stale && SweptStatus(relaxed, 20.0, 3.0) == Healthy
  {
  }

  // ---------------------------------------------------------------- the stored objects

  class Dataset {
    const key: string
    var status: Status
    var failures: nat
    var lastSuccess: Option<real>
    var lastFailure: Option<real>
    var lastResult: ResultState
    var interval: Option<int>
    var multiplier: Option<real>
    var processedAt: string

    function Value(): Row
      reads this
    {
      Row(status, failures, lastSuccess, lastFailure, lastResult, interval, multiplier)
    }

    constructor (key: string, interval: Option<int>)
      ensures Value() == Row(Disabled, 0, None, None, NotRun, interval, None)
      ensures this.key == key && processedAt == "None"
    {
      this.key := key;
      status, failures, lastSuccess, lastFailure := Disabled, 0, None, None;
      lastResult, multiplier := NotRun, None;
      this.interval := interval;
      processedAt := "None";
    }

    /** The closing updates of a successful ingest; `stamp` is the text of the processing time. */
    method RecordSuccess(at: real, state: FetchState, retrievedAt: real, stamp: string)
      modifies this
      ensures forall default :: Value() == Step(old(Value()), Ingested(at, state, retrievedAt), default)
      ensures processedAt == stamp
    {
      processedAt := stamp;
      lastSuccess := Some(retrievedAt);
      lastResult := Fetched(state);
      failures := 0;
      status := if state == DegradedFetch then Degraded else Healthy;
    }

    /** The updates made before a failed ingest re-raises. */
    method RecordIngestFailure(at: real)
      modifies this
      ensures forall default :: Value() == Step(old(Value()), IngestFailed(at), default)
      ensures processedAt == old(processedAt)
    {
      lastFailure := Some(at);
      lastResult := ProcessingError;
      failures := failures + 1;
      status := Failed;
    }

    /** A fetch that never produced a payload. */
    method RecordSourceError(at: real, kind: ErrorKind)
      modifies this
      ensures forall default :: Value() == Step(old(Value()), SourceFailed(at, kind), default)
      ensures processedAt == old(processedAt)
    {
      lastResult := SourceError(kind);
      if kind.SourceDisabled? || kind.ContractUnavailable? || kind.LicenseGated? {
        status := Disabled;
      } else if kind.AuthBlocked? {
        status := Degraded;
      } else if kind.ContractError? {
        status := Degraded;
        lastFailure := Some(at);
        failures := failures + 1;
      } else {
        status := Failed;
        lastFailure := Some(at);
        failures := failures + 1;
      }
    }
  }

  datatype Report = Report(key: string, status: Status, freshness: Freshness)

  /** Registry keys are unique. */
  ghost predicate DistinctKeys(datasets: seq<Dataset>) {
    forall i, j :: 0 <= i < j < |datasets| ==> datasets[i].key != datasets[j].key
  }

  /** One sweep over every dataset: writes its freshness and flips its status where healthy and stale disagree. */
  method EvaluateDatasetFreshness(datasets: seq<Dataset>, now: real, default: real)
    returns (rows: map<string, Freshness>, results: seq<Report>)
    requires DistinctKeys(datasets)
    modifies datasets
    ensures |results| == |datasets|
    ensures forall i :: 0 <= i < |datasets| ==> datasets[i].Value() == Step(old(datasets[i].Value()), Swept(now), default)
    ensures forall i :: 0 <= i < |datasets| ==>
              results[i] == Report(datasets[i].key, datasets[i].status, FreshnessOf(old(datasets[i].Value()), now, default))
    ensures forall i :: 0 <= i < |datasets| ==> datasets[i].key in rows && rows[datasets[i].key] == results[i].freshness
  {
    rows, results := map[], [];
    for k := 0 to |datasets|
      invariant |results| == k
      invariant forall i :: 0 <= i < k ==> datasets[i].Value() == Step(old(datasets[i].Value()), Swept(now), default)
      invariant forall i :: k <= i < |datasets| ==> datasets[i].Value() == old(datasets[i].Value())
      invariant forall i :: 0 <= i < k ==>
        results[i] == Report(datasets[i].key, datasets[i].status, FreshnessOf(old(datasets[i].Value()), now, default))
      invariant forall i :: 0 <= i < k ==> datasets[i].key in rows && rows[datasets[i].key] == results[i].freshness
    {
      var d := datasets[k];
      var multiplier := if d.multiplier.None? || d.multiplier.value == 0.0 then default else d.multiplier.value;
      var freshness := ComputeFreshness(d.lastSuccess, now, d.interval, multiplier);
      assert freshness == FreshnessOf(old(d.Value()), now, default);
      rows := rows[d.key := freshness];
      if d.status == Healthy && freshness.stale {
        d.status := Stale;
      } else if d.status == Stale && !freshness.stale {
        d.status := Healthy;
      }
      results := results + [Report(d.key, d.status, freshness)];
    }
  }

  /** The read-side view: nothing is written. */
  method DataHealth(datasets: seq<Dataset>, now: real, default: real) returns (out: seq<Report>)
    ensures |out| == |datasets|
    ensures forall i :: 0 <= i < |datasets| ==>
              out[i] == Report(datasets[i].key, ShownStatus(datasets[i].Value(), now, default),
                               FreshnessOf(datasets[i].Value(), now, default))
  {
    out := [];
    for k := 0 to |datasets|
      invariant |out| == k
      invariant forall i :: 0 <= i < k ==>
        out[i] == Report(datasets[i].key, ShownStatus(datasets[i].Value(), now, default),
                         FreshnessOf(datasets[i].Value(), now, default))
    {
      var d := datasets[k];
      var multiplier := if d.multiplier.None? || d.multiplier.value == 0.0 then default else d.multiplier.value;
      var freshness := ComputeFreshness(d.lastSuccess, now, d.interval, multiplier);
      var status := d.status;
      if freshness.stale && status == Healthy {
        status := Stale;
      }
      out := out + [Report(d.key, status, freshness)];
    }
  }
}
