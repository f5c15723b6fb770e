/** The clearance gate: missing evidence is unsafe, hazards block, and a word never clears a trip. */
module SafetyGate {
  import opened Readings
  import opened Risk
  import opened SeaState
  import opened Sequences
  import opened Text
  import opened Wrappers

  // ---------------------------------------------------------------- data model

  datatype Status = Cleared | ClearedWithCaution | NotCleared

  function Severeness(s: Status): nat {
    match s case Cleared => 0 case ClearedWithCaution => 1 case NotCleared => 2
  }

  datatype Reason =
    | CategoryUnrecognised | WaveUnavailable | SeaStateUnknown | SeaStateFromCategory
    | WindUnavailable | TideUnavailable | RouteRiskIncomplete | ZoneStatusUnknown
    | ActiveHazard | RestrictedZoneEntry | HighEnvironmentalRisk

  datatype Evidence = SeaStateEvidence | WindEvidence | TideEvidence

  /** A zone the trip meets; an absent label is the empty string. */
  datatype Zone = Zone(status: string, zoneType: string, kind: string)

  datatype GateInput = GateInput(
    conditions: Conditions, tide: Reading, category: Option<string>, zones: seq<Zone>,
    routeComplete: bool, requireTide: bool, thresholds: Thresholds)

  datatype Decision = Decision(
    status: Status, insufficient: bool, reasons: seq<Reason>, missing: seq<Evidence>,
    risk: Option<Assessment>, seaState: Option<Band>)

  // ---------------------------------------------------------------- specification

  predicate Unresolved(z: Zone) {
    var s := Lower(Strip(z.status));
    s == "" || s == "unknown" || s == "none"
  }

  predicate Blocking(z: Zone) {
    var kind := Lower(Strip(if z.zoneType != "" then z.zoneType else z.kind));
    Lower(Strip(z.status)) == "active"
    && (kind == "restricted" || kind == "prohibited" || kind == "border" || kind == "eez")
  }

  predicate Measured(g: GateInput) { g.conditions.wave.Number? || g.conditions.swell.Number? }

  /** The bulletin band, consulted only when there is no numeric sea state. */
  function Derived(g: GateInput): Option<Band> {
    if Measured(g) || g.category.None? then None else Parse(g.category.value)
  }

  // In what follows `b` is the derived band and `l` the risk level, where there is one.

  predicate SeaKnown(g: GateInput, b: Option<Band>) { Measured(g) || b.Some? }

  predicate TideMissing(g: GateInput) { g.requireTide && !g.tide.Number? }

  predicate ZoneUnresolved(g: GateInput) { exists z :: z in g.zones && Unresolved(z) }

  predicate ZoneBlocked(g: GateInput) { exists z :: z in g.zones && Blocking(z) }

  predicate Insufficient(g: GateInput, b: Option<Band>) {
    !SeaKnown(g, b) || !g.conditions.wind.Number? || TideMissing(g) || !g.routeComplete || ZoneUnresolved(g)
  }

  /** The conditions that are scored: a missing wave height is filled by the top of the derived band. */
  function Assessed(g: GateInput, b: Option<Band>): Conditions {
    if g.conditions.wave.Number? then g.conditions
    else if b.Some? then g.conditions.(wave := Number(b.value.maxHeight))
    else g.conditions.(wave := Absent)
  }

  /** The level of the assessed conditions, once sea state and wind are both known. */
  function AssessedLevel(g: GateInput, b: Option<Band>): Option<Level> {
    if SeaKnown(g, b) && g.conditions.wind.Number? then Some(Classify(Score(Assessed(g, b), g.thresholds))) else None
  }

  predicate TooHigh(l: Option<Level>) { l.Some? && (l.value == High || l.value == Extreme) }

  function Decide(g: GateInput, b: Option<Band>, l: Option<Level>): Status {
    if Insufficient(g, b) || g.conditions.warnings != [] || ZoneBlocked(g) || TooHigh(l) then NotCleared
    else if l == Some(Moderate) || b.Some? then ClearedWithCaution
    else Cleared
  }

  function Verdict(g: GateInput): Status { Decide(g, Derived(g), AssessedLevel(g, Derived(g))) }

  function GateScore(g: GateInput): real { Score(Assessed(g, Derived(g)), g.thresholds) }

  /** The weighted mean behind that score, before penalties. */
  function GateBase(g: GateInput): real { Base(Assessed(g, Derived(g)), g.thresholds) }

  /** When each reason code belongs to a decision. */
  predicate Applies(r: Reason, g: GateInput, b: Option<Band>, l: Option<Level>) {
    match r
    case CategoryUnrecognised => !SeaKnown(g, b) && g.category.Some?
    case WaveUnavailable => !SeaKnown(g, b)
    case SeaStateUnknown => !SeaKnown(g, b)
    case SeaStateFromCategory => b.Some?
    case WindUnavailable => !g.conditions.wind.Number?
    case TideUnavailable => TideMissing(g)
    case RouteRiskIncomplete => !g.routeComplete
    case ZoneStatusUnknown => ZoneUnresolved(g)
    case ActiveHazard => g.conditions.warnings != []
    case RestrictedZoneEntry => ZoneBlocked(g)
    case HighEnvironmentalRisk => TooHigh(l)
  }

  function Reasons(g: GateInput, b: Option<Band>, l: Option<Level>): set<Reason> {
    set r: Reason | Applies(r, g, b, l)
  }

  /** Every reason that belongs to the decision on `g`. */
  function ReasonsFor(g: GateInput): set<Reason> { Reasons(g, Derived(g), AssessedLevel(g, Derived(g))) }

  /** The fixed place of each code in a decision. */
  function Position(r: Reason): (p: nat)
    ensures p < 11
  {
    match r
    case CategoryUnrecognised => 0 case WaveUnavailable => 1 case SeaStateUnknown => 2
    case SeaStateFromCategory => 3 case WindUnavailable => 4 case TideUnavailable => 5
    case RouteRiskIncomplete => 6 case ZoneStatusUnknown => 7 case ActiveHazard => 8
    case RestrictedZoneEntry => 9 case HighEnvironmentalRisk => 10
  }

  /** `rs` lists exactly the codes of `all` among the first `n`, in their fixed order. */
  ghost predicate Exact(rs: seq<Reason>, n: nat, all: set<Reason>) {
    && (forall r :: r in rs <==> Position(r) < n && r in all)
    && (forall i, j :: 0 <= i < j < |rs| ==> Position(rs[i]) < Position(rs[j]))
  }

  /** Appends one reason when its condition holds. */
  method Note(rs: seq<Reason>, r: Reason, holds: bool, ghost all: set<Reason>) returns (next: seq<Reason>)
    requires Exact(rs, Position(r), all) && holds == (r in all)
    ensures Exact(next, Position(r) + 1, all)
  {
    next := if holds then rs + [r] else rs;
    ghost var n := Position(r);
    forall q ensures q in next <==> Position(q) < n + 1 && q in all {
      if q in rs { assert q in next; }
      assert Position(q) == n ==> q == r;
    }
    forall i, j | 0 <= i < j < |next| ensures Position(next[i]) < Position(next[j]) {
      if j < |rs| {
      } else {
        assert next[i] in rs;
      }
    }
  }

  function Only<T>(b: bool, x: T): seq<T> { if b then [x] else [] }

  function MissingEvidence(g: GateInput, b: Option<Band>): seq<Evidence> {
    Only(!SeaKnown(g, b), SeaStateEvidence) + Only(!g.conditions.wind.Number?, WindEvidence)
    + Only(TideMissing(g), TideEvidence)
  }

  // ---------------------------------------------------------------- de-duplication

  function FirstIndex<T(==)>(xs: seq<T>, x: T): (i: nat)
    requires x in xs
    ensures i < |xs| && xs[i] == x && x !in xs[..i]
  {
    if xs[0] == x then 0 else 1 + FirstIndex(xs[1..], x)
  }

  lemma FirstIndexIs<T>(xs: seq<T>, k: nat)
    requires k < |xs| && xs[k] !in xs[..k]
    ensures FirstIndex(xs, xs[k]) == k
  {
    var f := FirstIndex(xs, xs[k]);
    assert forall i :: 0 <= i < k ==> xs[i] == xs[..k][i] && xs[i] in xs[..k];
    assert forall i :: 0 <= i < f ==> xs[i] == xs[..f][i] && xs[i] in xs[..f];
  }

  /** Keeps each element's first occurrence, in order. */
  method Deduplicate<T(==)>(xs: seq<T>) returns (ys: seq<T>)
    ensures NoDuplicates(ys)
    ensures forall x :: x in ys <==> x in xs
    ensures forall i, j :: 0 <= i < j < |ys| ==> ys[i] in xs && ys[j] in xs && FirstIndex(xs, ys[i]) < FirstIndex(xs, ys[j])
    ensures NoDuplicates(xs) ==> ys == xs
  {
    ys := [];
    var seen: set<T> := {};
    for k := 0 to |xs|
      invariant forall x :: x in ys <==> x in xs[..k]
      invariant forall x :: x in seen <==> x in xs[..k]
      invariant NoDuplicates(ys)
      invariant forall i :: 0 <= i < |ys| ==> ys[i] in xs && FirstIndex(xs, ys[i]) < k
      invariant forall i, j :: 0 <= i < j < |ys| ==> FirstIndex(xs, ys[i]) < FirstIndex(xs, ys[j])
      invariant NoDuplicates(xs) ==> ys == xs[..k]
    {
      assert xs[..k + 1] == xs[..k] + [xs[k]];
      if xs[k] !in seen {
        assert FirstIndex(xs, xs[k]) == k by {
          FirstIndexIs(xs, k);
        }
        ys := ys + [xs[k]];
        seen := seen + {xs[k]};
      } else {
        ghost var f :| 0 <= f < k && xs[..k][f] == xs[k];
        assert !NoDuplicates(xs);
      }
    }
    assert xs[..|xs|] == xs;
  }

  // ---------------------------------------------------------------- the gate

  /** Walks the zones once, noting unresolved ones (at most once) and any hard block. */
  method InspectZones(zones: seq<Zone>) returns (unresolved: bool, blocking: bool)
    ensures unresolved <==> exists z :: z in zones && Unresolved(z)
    ensures blocking <==> exists z :: z in zones && Blocking(z)
    ensures unresolved <==> exists z :: z in zones && Lower(Strip(z.status)) in ["", "unknown", "none"]
    ensures blocking <==> exists z :: z in zones && Lower(Strip(z.status)) == "active"
                            && Lower(Strip(if z.zoneType != "" then z.zoneType else z.kind))
                               in ["restricted", "prohibited", "border", "eez"]
  {
    hide Lower, Strip;
    unresolved, blocking := false, false;
    for i := 0 to |zones|
      invariant unresolved <==> exists z :: z in zones[..i] && Unresolved(z)
      invariant blocking <==> exists z :: z in zones[..i] && Blocking(z)
    {
      assert zones[..i + 1] == zones[..i] + [zones[i]];
      if Unresolved(zones[i]) {
        assert zones[i] in zones[..i + 1];
        unresolved := true;
      }
      if Blocking(zones[i]) {
        assert zones[i] in zones[..i + 1];
        blocking := true;
      }
    }
    assert zones[..|zones|] == zones;
  }

  /** The categorical fallback: read the word only when there is no number. */
  method EstablishSeaState(g: GateInput) returns (b: Option<Band>)
    ensures b == Derived(g)
  {
    b := None;
    if !Measured(g) && g.category.Some? {
      b := ParseSeaStateCategory(g.category.value);
    }
  }

  /** Scores the conditions once both sea state and wind are known. */
  method AssessWhenKnown(g: GateInput, b: Option<Band>) returns (risk: Option<Assessment>)
    ensures risk.Some? <==> AssessedLevel(g, b).Some?
    ensures risk.Some? ==> risk.value.score == Score(Assessed(g, b), g.thresholds)
    ensures risk.Some? ==> AssessedLevel(g, b) == Some(risk.value.level)
  {
    risk := None;
    if (Measured(g) || b.Some?) && g.conditions.wind.Number? {
      var wave := if g.conditions.wave.Number? then g.conditions.wave
                  else if b.Some? then Number(b.value.maxHeight) else Absent;
      var assessment := AssessMarineRisk(g.conditions.(wave := wave), g.thresholds);
      risk := Some(assessment);
    }
  }

  /** Names the required inputs that are absent. */
  method ListMissing(g: GateInput, b: Option<Band>) returns (missing: seq<Evidence>)
    ensures missing == MissingEvidence(g, b)
    ensures missing == [] <==> SeaKnown(g, b) && g.conditions.wind.Number? && !TideMissing(g)
  {
    missing := [];
    if !(Measured(g) || b.Some?) {
      missing := missing + [SeaStateEvidence];
    }
    if !g.conditions.wind.Number? {
      missing := missing + [WindEvidence];
    }
    if g.requireTide && !g.tide.Number? {
      missing := missing + [TideEvidence];
    }
  }

  /** Required evidence first: a reason for each input that is absent or unresolved. */
  method CollectEvidenceReasons(g: GateInput, b: Option<Band>, l: Option<Level>)
    returns (reasons: seq<Reason>)
    ensures Exact(reasons, 7, Reasons(g, b, l))
  {
    ghost var all := Reasons(g, b, l);
    var seaKnown := Measured(g) || b.Some?;
    reasons := [];
    reasons := Note(reasons, CategoryUnrecognised, !seaKnown && g.category.Some?, all);
    reasons := Note(reasons, WaveUnavailable, !seaKnown, all);
    reasons := Note(reasons, SeaStateUnknown, !seaKnown, all);
    reasons := Note(reasons, SeaStateFromCategory, b.Some?, all);
    reasons := Note(reasons, WindUnavailable, !g.conditions.wind.Number?, all);
    reasons := Note(reasons, TideUnavailable, g.requireTide && !g.tide.Number?, all);
    reasons := Note(reasons, RouteRiskIncomplete, !g.routeComplete, all);
  }

  /** Then unresolved zones and the hazards that block even with full evidence. */
  method CollectHazardReasons(g: GateInput, b: Option<Band>, l: Option<Level>, evidence: seq<Reason>,
                              unresolved: bool, blocking: bool)
    returns (reasons: seq<Reason>)
    requires Exact(evidence, 7, Reasons(g, b, l))
    requires unresolved == ZoneUnresolved(g) && blocking == ZoneBlocked(g)
    ensures Exact(reasons, 11, Reasons(g, b, l))
  {
    ghost var all := Reasons(g, b, l);
    reasons := Note(evidence, ZoneStatusUnknown, unresolved, all);
    reasons := Note(reasons, ActiveHazard, g.conditions.warnings != [], all);
    reasons := Note(reasons, RestrictedZoneEntry, blocking, all);
    reasons := Note(reasons, HighEnvironmentalRisk, TooHigh(l), all);
  }

  /** Missing evidence wins, then hazards, then caution; only the rest is cleared. */
  method Conclude(g: GateInput, b: Option<Band>, l: Option<Level>, insufficient: bool, blocking: bool)
    returns (status: Status)
    requires insufficient == Insufficient(g, b) && blocking == ZoneBlocked(g)
    ensures status == Decide(g, b, l)
  {
    if insufficient {
      status := NotCleared;
    } else if g.conditions.warnings != [] || blocking || TooHigh(l) {
      status := NotCleared;
    } else if l == Some(Moderate) {
      status := ClearedWithCaution;
    } else if b.Some? {
      status := ClearedWithCaution;
    } else {
      status := Cleared;
    }
  }

  /** Evaluates the gate. */
  method EvaluateSafetyGate(g: GateInput) returns (d: Decision)
    ensures d.status == Verdict(g)
    ensures d.insufficient == Insufficient(g, Derived(g))
    ensures Exact(d.reasons, 11, ReasonsFor(g))
    ensures d.missing == MissingEvidence(g, Derived(g))
    ensures d.seaState == Derived(g)
    ensures d.risk.Some? <==> SeaKnown(g, Derived(g)) && g.conditions.wind.Number?
    ensures d.risk.Some? ==> d.risk.value.score == GateScore(g)
    ensures forall z :: z in g.zones && Lower(Strip(z.status)) == "active"
                        && Lower(Strip(if z.zoneType != "" then z.zoneType else z.kind))
                           in ["restricted", "prohibited", "border", "eez"]
              ==> d.status == NotCleared && RestrictedZoneEntry in d.reasons
    ensures forall z :: z in g.zones && Lower(Strip(z.status)) in ["", "unknown", "none"]
              ==> d.status == NotCleared && d.insufficient && ZoneStatusUnknown in d.reasons
  {
    hide Lower, Strip, Parse, Score, Blocking, Unresolved, Applies;
    var b := EstablishSeaState(g);
    var risk := AssessWhenKnown(g, b);
    var l := if risk.Some? then Some(risk.value.level) else None;
    var missing := ListMissing(g, b);
    var reasons := CollectEvidenceReasons(g, b, l);
    var unresolved, blocking := InspectZones(g.zones);
    reasons := CollectHazardReasons(g, b, l, reasons, unresolved, blocking);
    var insufficient := missing != [] || !g.routeComplete || unresolved;
    var status := Conclude(g, b, l, insufficient, blocking);
    assert NoDuplicates(reasons);
    var ordered := Deduplicate(reasons);
    d := Decision(status, insufficient, ordered, missing, risk, b);
    forall z | z in g.zones && Lower(Strip(z.status)) == "active"
               && Lower(Strip(if z.zoneType != "" then z.zoneType else z.kind))
                  in ["restricted", "prohibited", "border", "eez"]
      ensures status == NotCleared && RestrictedZoneEntry in ReasonsFor(g)
    {
      ActiveZoneRefuses(g, z);
    }
    forall z | z in g.zones && Lower(Strip(z.status)) in ["", "unknown", "none"]
      ensures status == NotCleared && insufficient && ZoneStatusUnknown in ReasonsFor(g)
    {
      UnresolvedZoneRefuses(g, z);
    }
  }

  // ---------------------------------------------------------------- soundness

  /** A full clearance means exactly this much evidence and exactly this little hazard. */
  lemma ClearedExactly(g: GateInput)
    ensures Verdict(g) == Cleared <==>
            && g.conditions.wind.Number?
            && (g.conditions.wave.Number? || g.conditions.swell.Number?)
            && (g.requireTide ==> g.tide.Number?)
            && g.routeComplete
            && g.conditions.warnings == []
            && (forall z :: z in g.zones ==> !Unresolved(z) && !Blocking(z))
            && Classify(Score(g.conditions.(wave := if g.conditions.wave.Number? then g.conditions.wave else Absent),
                              g.thresholds)) == Low
  {
    var b := Derived(g);
    var c := g.conditions.(wave := if g.conditions.wave.Number? then g.conditions.wave else Absent);
    if Measured(g) { assert b.None? && Assessed(g, b) == c; }
    ClearedFromParts(g, b, AssessedLevel(g, b));
  }

  lemma ClearedFromParts(g: GateInput, b: Option<Band>, l: Option<Level>)
    ensures Decide(g, b, l) == Cleared <==>
            && Measured(g) && b.None? && g.conditions.wind.Number? && !TideMissing(g) && g.routeComplete
            && g.conditions.warnings == []
            && (forall z :: z in g.zones ==> !Unresolved(z) && !Blocking(z))
            && (l.None? || l == Some(Low))
  {
  }

  /** A trip is refused exactly when some reason other than the informational category note applies. */
  lemma RefusedExactlyWithReason(g: GateInput)
    ensures Verdict(g) == NotCleared <==> exists r :: r in ReasonsFor(g) && r != SeaStateFromCategory
  {
    var b, l := Derived(g), AssessedLevel(g, Derived(g));
    assert ReasonsFor(g) == Reasons(g, b, l);
    RefusedFromParts(g, b, l);
  }

  lemma RefusedFromParts(g: GateInput, b: Option<Band>, l: Option<Level>)
    ensures Decide(g, b, l) == NotCleared <==> exists r :: r in Reasons(g, b, l) && r != SeaStateFromCategory
  {
    if Decide(g, b, l) == NotCleared {
      var r := if !SeaKnown(g, b) then WaveUnavailable
               else if !g.conditions.wind.Number? then WindUnavailable
               else if TideMissing(g) then TideUnavailable
               else if !g.routeComplete then RouteRiskIncomplete
               else if ZoneUnresolved(g) then ZoneStatusUnknown
               else if g.conditions.warnings != [] then ActiveHazard
               else if ZoneBlocked(g) then RestrictedZoneEntry
               else HighEnvironmentalRisk;
      assert r in Reasons(g, b, l);
    }
  }

  /** Caution is what lies between: nothing obstructs, and the level is moderate, or the sea state is only a word. */
  lemma CautionExactly(g: GateInput)
    ensures Verdict(g) == ClearedWithCaution <==>
            && Verdict(g) != NotCleared
            && (AssessedLevel(g, Derived(g)) == Some(Moderate) || !Measured(g))
  {
  }

  // ---------------------------------------------------------------- reasons and zones, spelled out

  /** When each reason belongs to the decision. */
  lemma ReasonsInPlainTerms(g: GateInput)
    ensures var c, rs := g.conditions, ReasonsFor(g);
            var measured := c.wave.Number? || c.swell.Number?;
            var read := !measured && g.category.Some? && Parse(g.category.value).Some?;
      && (CategoryUnrecognised in rs <==> !measured && g.category.Some? && Parse(g.category.value).None?)
      && (WaveUnavailable in rs <==> !measured && !read)
      && (SeaStateUnknown in rs <==> !measured && !read)
      && (SeaStateFromCategory in rs <==> read)
      && (WindUnavailable in rs <==> !c.wind.Number?)
      && (TideUnavailable in rs <==> g.requireTide && !g.tide.Number?)
      && (RouteRiskIncomplete in rs <==> !g.routeComplete)
      && (ActiveHazard in rs <==> c.warnings != [])
      && (HighEnvironmentalRisk in rs <==> (measured || read) && c.wind.Number? && GateScore(g) >= 50.0)
  {
    hide Parse, Score, Unresolved, Blocking;
  }

  /** What a decision calls insufficient, and which inputs it names as missing, in their order. */
  lemma EvidenceInPlainTerms(g: GateInput)
    ensures var c := g.conditions;
            var sea := c.wave.Number? || c.swell.Number? || (g.category.Some? && Parse(g.category.value).Some?);
            var tide := g.requireTide ==> g.tide.Number?;
      && MissingEvidence(g, Derived(g))
         == (if sea then [] else [SeaStateEvidence]) + (if c.wind.Number? then [] else [WindEvidence])
            + (if tide then [] else [TideEvidence])
      && (Insufficient(g, Derived(g)) <==>
            !sea || !c.wind.Number? || !tide || !g.routeComplete || ZoneStatusUnknown in ReasonsFor(g))
  {
    hide Parse, Score, Unresolved, Blocking;
  }

  /** The order in which a decision lists its reasons. */
  const REASON_ORDER := [CategoryUnrecognised, WaveUnavailable, SeaStateUnknown, SeaStateFromCategory, WindUnavailable,
                         TideUnavailable, RouteRiskIncomplete, ZoneStatusUnknown, ActiveHazard, RestrictedZoneEntry,
                         HighEnvironmentalRisk]

  lemma ReasonsKeepTheirOrder(rs: seq<Reason>, all: set<Reason>, i: nat, j: nat, p: nat, q: nat)
    requires Exact(rs, 11, all) && i < j < |rs| && p < 11 && q < 11
    requires rs[i] == REASON_ORDER[p] && rs[j] == REASON_ORDER[q]
    ensures p < q
  {
    assert Position(rs[i]) < Position(rs[j]);
    assert Position(REASON_ORDER[p]) == p && Position(REASON_ORDER[q]) == q;
  }

  /** An active restricted, prohibited, border or EEZ zone refuses the trip, and the decision says so. */
  lemma ActiveZoneRefuses(g: GateInput, z: Zone)
    requires z in g.zones && Lower(Strip(z.status)) == "active"
    requires var called := Lower(Strip(if z.zoneType != "" then z.zoneType else z.kind));
             called == "restricted" || called == "prohibited" || called == "border" || called == "eez"
    ensures Verdict(g) == NotCleared && RestrictedZoneEntry in ReasonsFor(g)
  {
    hide Parse, Score, Lower, Strip;
    assert Blocking(z);
  }

  /** A zone whose status is missing, unknown or none makes the evidence insufficient, and the decision says so. */
  lemma UnresolvedZoneRefuses(g: GateInput, z: Zone)
    requires z in g.zones
    requires var status := Lower(Strip(z.status)); status == "" || status == "unknown" || status == "none"
    ensures Verdict(g) == NotCleared && Insufficient(g, Derived(g)) && ZoneStatusUnknown in ReasonsFor(g)
  {
    hide Parse, Score, Lower, Strip;
    assert Unresolved(z);
  }

  /** A zone that is neither makes no difference. */
  predicate Harmless(z: Zone) {
    var status, called := Lower(Strip(z.status)), Lower(Strip(if z.zoneType != "" then z.zoneType else z.kind));
    && status != "" && status != "unknown" && status != "none"
    && (status == "active" ==> called != "restricted" && called != "prohibited" && called != "border" && called != "eez")
  }

  lemma HarmlessZonesDoNotMatter(g: GateInput)
    requires forall z :: z in g.zones ==> Harmless(z)
    ensures Verdict(g) == Verdict(g.(zones := []))
    ensures ReasonsFor(g) == ReasonsFor(g.(zones := []))
    ensures RestrictedZoneEntry !in ReasonsFor(g) && ZoneStatusUnknown !in ReasonsFor(g)
  {
    hide Parse, Score, Lower, Strip;
    var h := g.(zones := []);
    assert forall z :: z in g.zones ==> !Unresolved(z) && !Blocking(z);
    assert Derived(h) == Derived(g) && AssessedLevel(h, Derived(h)) == AssessedLevel(g, Derived(g));
    assert forall r :: Applies(r, g, Derived(g), AssessedLevel(g, Derived(g)))
                       <==> Applies(r, h, Derived(h), AssessedLevel(h, Derived(h)));
  }

  // ---------------------------------------------------------------- hazard order

  /** `h` has the same weather inputs present and is no less hazardous, no better evidenced, no freer of zones. */
  ghost predicate GateNoLessHazardous(g: GateInput, h: GateInput) {
    && NoLessHazardous(g.conditions, h.conditions)
    && (h.tide.Number? ==> g.tide.Number?)
    && g.category == h.category && g.thresholds == h.thresholds
    && (forall z :: z in g.zones ==> z in h.zones)
    && (h.routeComplete ==> g.routeComplete)
    && (g.requireTide ==> h.requireTide)
  }

  lemma DecideIsAntitone(g: GateInput, h: GateInput, b: Option<Band>, l: Option<Level>, m: Option<Level>)
    requires GateNoLessHazardous(g, h)
    requires l.Some? == m.Some? && (l.Some? ==> Rank(l.value) <= Rank(m.value))
    ensures Severeness(Decide(g, b, l)) <= Severeness(Decide(h, b, m))
  {
    if g.conditions.warnings != [] {
      assert g.conditions.warnings[0] in multiset(h.conditions.warnings);
    }
  }

  lemma LevelIsMonotone(g: GateInput, h: GateInput, b: Option<Band>)
    requires NonNegativeWeights(g.thresholds) && GateNoLessHazardous(g, h)
    ensures var l, m := AssessedLevel(g, b), AssessedLevel(h, b);
            l.Some? == m.Some? && (l.Some? ==> Rank(l.value) <= Rank(m.value))
    ensures Score(Assessed(g, b), g.thresholds) <= Score(Assessed(h, b), h.thresholds)
  {
    hide Score;
    RiskIsMonotone(Assessed(g, b), Assessed(h, b), g.thresholds);
  }

  /** Worsening hazards, adding zones or losing side evidence never improves the verdict or lowers the score. */
  lemma VerdictIsAntitone(g: GateInput, h: GateInput)
    requires NonNegativeWeights(g.thresholds) && GateNoLessHazardous(g, h)
    ensures Severeness(Verdict(g)) <= Severeness(Verdict(h))
    ensures GateScore(g) <= GateScore(h)
  {
    var b := Derived(g);
    assert b == Derived(h);
    LevelIsMonotone(g, h, b);
    DecideIsAntitone(g, h, b, AssessedLevel(g, b), AssessedLevel(h, b));
  }

  // ---------------------------------------------------------------- inputs lost and gained

  /** Nothing but the sea state and the risk level stands between the trip and a clearance. */
  predicate Unobstructed(g: GateInput) {
    && g.conditions.wind.Number? && (g.requireTide ==> g.tide.Number?) && g.routeComplete && g.conditions.warnings == []
    && forall z :: z in g.zones ==> !Unresolved(z) && !Blocking(z)
  }

  /** The whole decision: obstruction, an unknown sea or a score of 50 refuses; a score of 25 or a mere word cautions. */
  lemma VerdictInFull(g: GateInput)
    ensures Verdict(g) == if !Unobstructed(g) || !SeaKnown(g, Derived(g)) || GateScore(g) >= 50.0 then NotCleared
                          else if GateScore(g) >= 25.0 || !Measured(g) then ClearedWithCaution
                          else Cleared
  {
    hide Score, Unresolved, Blocking, Parse;
  }

  /** The same trip without one weather input. */
  function WithoutInput(g: GateInput, name: FactorName): GateInput { g.(conditions := Drop(g.conditions, name)) }

  /** The same trip with one weather input read. */
  function WithInput(g: GateInput, name: FactorName, value: real): GateInput {
    g.(conditions := Gain(g.conditions, name, value))
  }

  lemma PenaltiesIgnoreReadings(c: Conditions, d: Conditions)
    requires c.warnings == d.warnings && c.cyclone == d.cyclone
    ensures Penalties(c) == Penalties(d)
  {
  }

  /**
    * Losing an input while the sea state stays measured, or stays a word: the score falls exactly when the input
    * carries weight, what remains averages below the input's own share, and the penalties leave room.
    */
  lemma LosingInputLowersGateScoreExactly(g: GateInput, name: FactorName)
    requires NonNegativeWeights(g.thresholds) && Present(g.conditions, name)
    requires Measured(g) == Measured(WithoutInput(g, name))
    ensures var h := WithoutInput(g, name);
      GateScore(h) < GateScore(g) <==>
        && WeightFor(name, g.thresholds) > 0.0
        && GateBase(h) < 100.0 * FractionOf(g.conditions, name, g.thresholds)
        && GateBase(h) + Penalties(g.conditions) < 100.0
  {
    hide Score, Base, Penalties, Parse;
    var h, b := WithoutInput(g, name), Derived(g);
    var c := Assessed(g, b);
    assert Derived(h) == b && Assessed(h, b) == Drop(c, name);
    LosingInputLowersScoreExactly(c, name, g.thresholds);
    PenaltiesIgnoreReadings(g.conditions, c);
    assert FractionOf(c, name, g.thresholds) == FractionOf(g.conditions, name, g.thresholds);
  }

  /** A word in place of the only sea reading, a wave height: the score falls exactly when its top lies lower in the band. */
  lemma WordForWaveLowersGateScoreExactly(g: GateInput)
    requires NonNegativeWeights(g.thresholds) && g.conditions.wave.Number?
    requires Derived(WithoutInput(g, WaveHeight)).Some?
    ensures var h, t := WithoutInput(g, WaveHeight), g.thresholds;
      GateScore(h) < GateScore(g) <==>
        && t.weightWave > 0.0
        && BandFraction(Derived(h).value.maxHeight, t.waveModerate, t.waveExtreme)
           < BandFraction(g.conditions.wave.value, t.waveModerate, t.waveExtreme)
        && GateBase(h) + Penalties(g.conditions) < 100.0
  {
    hide Score, Base, Penalties, Parse, BandFraction;
    var h, c := WithoutInput(g, WaveHeight), g.conditions;
    var top := Derived(h).value.maxHeight;
    assert Assessed(h, Derived(h)) == c.(wave := Number(top)) && Assessed(g, None) == c.(wave := Number(c.wave.value));
    HigherWaveRaisesScoreExactly(c, g.thresholds, top, c.wave.value);
  }

  /**
    * A word in place of the only sea reading, a swell: the score falls exactly when the top of the word, as a wave
    * height, outweighs the mean that was there by less than the swell did, or nothing weighs any more; and there is room.
    */
  lemma WordForSwellLowersGateScoreExactly(g: GateInput)
    requires NonNegativeWeights(g.thresholds) && g.conditions.swell.Number? && !g.conditions.wave.Number?
    requires Derived(WithoutInput(g, SwellHeight)).Some?
    ensures var h, t := WithoutInput(g, SwellHeight), g.thresholds;
      var d := h.conditions.(wave := Number(Derived(h).value.maxHeight));
      GateScore(h) < GateScore(g) <==>
        && (if ClosedWeight(d, t) == 0.0 then GateBase(g) > 0.0
            else Pull(d, WaveHeight, t, GateBase(g)) < Pull(g.conditions, SwellHeight, t, GateBase(g)))
        && GateBase(h) + Penalties(g.conditions) < 100.0
  {
    hide Score, Base, ClosedWeight, FractionOf, Penalties, Parse;
    var h, c, t := WithoutInput(g, SwellHeight), Assessed(g, None), g.thresholds;
    var d := h.conditions.(wave := Number(Derived(h).value.maxHeight));
    assert Assessed(h, Derived(h)) == d;
    assert Derived(g) == None && Drop(c, SwellHeight) == Drop(d, WaveHeight);
    ReplacingInputLowersScoreExactly(c, SwellHeight, d, WaveHeight, t);
    PenaltiesIgnoreReadings(g.conditions, c);
    SameSwellPullsAlike(g.conditions, c, t, GateBase(g));
  }

  lemma SameSwellPullsAlike(c: Conditions, d: Conditions, t: Thresholds, mean: real)
    requires c.swell.Number? && c.swell == d.swell
    ensures Pull(c, SwellHeight, t, mean) == Pull(d, SwellHeight, t, mean)
  {
  }

  /**
    * Losing any input, in any trip: the verdict improves exactly when the input is not the wind, nothing else stands
    * in the way, the sea state is still measured or a word stands in for it, and the score, from what remains or from
    * that word, falls through the boundary of refusal or, with the sea still measured, through that of caution. While
    * the sea stays measured, or stays a word, that score falls only for an input above what remains.
    */
  lemma LosingInputImprovesExactly(g: GateInput, name: FactorName)
    ensures var h := WithoutInput(g, name);
      Severeness(Verdict(h)) < Severeness(Verdict(g)) <==>
        && name != WindSpeed && Unobstructed(g) && SeaKnown(h, Derived(h))
        && (GateScore(h) < 50.0 <= GateScore(g) || (Measured(h) && GateScore(h) < 25.0 <= GateScore(g)))
    ensures var h, t := WithoutInput(g, name), g.thresholds;
      NonNegativeWeights(t) && Present(g.conditions, name) && Measured(g) == Measured(h) ==>
        (GateScore(h) < GateScore(g) <==>
           && WeightFor(name, t) > 0.0 && GateBase(h) < 100.0 * FractionOf(g.conditions, name, t)
           && GateBase(h) + Penalties(g.conditions) < 100.0)
  {
    hide GateScore, GateBase, Verdict, Unresolved, Blocking, Parse, Penalties, FractionOf;
    var h := WithoutInput(g, name);
    VerdictInFull(g);
    VerdictInFull(h);
    assert Unobstructed(h) == (name != WindSpeed && Unobstructed(g));
    if NonNegativeWeights(g.thresholds) && Present(g.conditions, name) && Measured(g) == Measured(h) {
      LosingInputLowersGateScoreExactly(g, name);
    }
  }

  /** Reading a further input while the sea state stays measured, or stays a word. */
  lemma GainingInputLowersGateScoreExactly(g: GateInput, name: FactorName, value: real)
    requires NonNegativeWeights(g.thresholds)
    requires !Present(g.conditions, name) && Present(WithInput(g, name, value).conditions, name)
    requires Measured(g) == Measured(WithInput(g, name, value))
    ensures var h := WithInput(g, name, value);
      GateScore(h) < GateScore(g) <==>
        && WeightFor(name, g.thresholds) > 0.0
        && 100.0 * FractionOf(h.conditions, name, g.thresholds) < GateBase(g)
        && GateBase(h) + Penalties(g.conditions) < 100.0
  {
    hide Score, Base, Penalties, Parse;
    var h, b := WithInput(g, name, value), Derived(g);
    var c := Assessed(g, b);
    var d := Gain(c, name, value);
    assert Derived(h) == b && Assessed(h, b) == d;
    GainingInputLowersScoreExactly(c, name, value, g.thresholds);
    PenaltiesIgnoreReadings(g.conditions, c);
    assert FractionOf(d, name, g.thresholds) == FractionOf(h.conditions, name, g.thresholds);
  }

  /**
    * Reading any input, in any trip: the verdict improves exactly when nothing else stands in the way and either the
    * gate could not score the trip before and scores below 50 now, or the score falls through a boundary, or a sea
    * state that was only a word is now measured and calm.
    */
  lemma GainingInputImprovesExactly(g: GateInput, name: FactorName, value: real)
    ensures var h := WithInput(g, name, value);
      Severeness(Verdict(h)) < Severeness(Verdict(g)) <==>
        && Unobstructed(h) && SeaKnown(h, Derived(h))
        && (if SeaKnown(g, Derived(g)) && g.conditions.wind.Number?
            then || GateScore(h) < 50.0 <= GateScore(g)
                 || (Measured(h) && GateScore(h) < 25.0 && (!Measured(g) || 25.0 <= GateScore(g)))
            else GateScore(h) < 50.0)
  {
    hide GateScore, Verdict, Unresolved, Blocking, Parse;
    var h := WithInput(g, name, value);
    VerdictInFull(g);
    VerdictInFull(h);
    assert Unobstructed(g) == (g.conditions.wind.Number? && Unobstructed(h));
  }

  /** The score of conditions without flat penalties, from their two sums. */
  lemma ScoreFromSums(c: Conditions, t: Thresholds, points: real, weight: real)
    requires c.warnings == [] && c.cyclone == Absent
    requires points == ClosedPoints(c, t) && weight == ClosedWeight(c, t) && weight != 0.0
    ensures Score(c, t) == Clamp(points / weight)
  {
    hide Base;
    BaseInClosedForm(c, t);
  }

  /** An unobstructed trip with default thresholds. */
  function Trip(c: Conditions, category: Option<string>): GateInput {
    GateInput(c, Absent, category, [], true, false, DEFAULT_THRESHOLDS)
  }

  /** Presence matters: losing a rough wave reading while a calm swell reading remains turns refusal into clearance. */
  lemma LosingWaveReadingCanClear() returns (g: GateInput)
    ensures g.conditions.wave.Number? && g.conditions.swell.Number? && g.thresholds == DEFAULT_THRESHOLDS
    ensures Verdict(g) == NotCleared && Verdict(WithoutInput(g, WaveHeight)) == Cleared
  {
    hide Verdict, Score, Parse;
    g := Trip(NO_CONDITIONS.(wave := Number(10.0), swell := Number(0.0), wind := Number(15.25)), None);
    var h := WithoutInput(g, WaveHeight);
    VerdictInFull(g);
    VerdictInFull(h);
    ScoreFromSums(g.conditions, g.thresholds, 182.0, 3.6);
    ScoreFromSums(h.conditions, h.thresholds, 42.0, 2.2);
  }

  lemma SlightBand()
    ensures Parse("slight").Some? && Parse("slight").value.maxHeight == 1.25
  {
    hide Parse;
    assert Lower("slight") == "slight";
    EveryTermIsAccepted("slight");
  }

  /** The score where a word stands in for a wave height. */
  lemma ScoreFromWord(g: GateInput, height: real)
    requires !Measured(g) && Derived(g).Some? && Derived(g).value.maxHeight == height
    ensures GateScore(g) == Score(g.conditions.(wave := Number(height)), g.thresholds)
  {
  }

  /** A calm word in place of a lost reading lifts a refusal: 10 m of swell in a 25 m/s wind, with "slight" as the word. */
  lemma CalmWordForLostSwell() returns (g: GateInput)
    ensures g.conditions.swell == Number(10.0) && g.conditions.wind == Number(25.0) && !g.conditions.wave.Number?
    ensures g.category == Some("slight") && g.thresholds == DEFAULT_THRESHOLDS
    ensures Verdict(g) == NotCleared && Verdict(WithoutInput(g, SwellHeight)) == ClearedWithCaution
  {
    hide Verdict, Score, Parse;
    g := Trip(NO_CONDITIONS.(swell := Number(10.0), wind := Number(25.0)), Some("slight"));
    var h := WithoutInput(g, SwellHeight);
    VerdictInFull(g);
    VerdictInFull(h);
    SlightBand();
    ScoreFromSums(g.conditions, DEFAULT_THRESHOLDS, 220.0, 2.2);
    assert GateScore(g) == 100.0;
    hide GateScore;
    ScoreFromWord(h, 1.25);
    ScoreFromSums(h.conditions.(wave := Number(1.25)), DEFAULT_THRESHOLDS, 120.0, 2.6);
  }

  /** Likewise with a 10 m wave in a light wind, whose score drops to zero. */
  lemma CalmWordForLostWave() returns (g: GateInput)
    ensures g.conditions.wave == Number(10.0) && g.conditions.wind == Number(5.0) && !g.conditions.swell.Number?
    ensures g.category == Some("slight") && g.thresholds == DEFAULT_THRESHOLDS
    ensures Verdict(g) == NotCleared && Verdict(WithoutInput(g, WaveHeight)) == ClearedWithCaution
    ensures GateScore(WithoutInput(g, WaveHeight)) == 0.0
  {
    hide Verdict, Score, Parse;
    g := Trip(NO_CONDITIONS.(wave := Number(10.0), wind := Number(5.0)), Some("slight"));
    var h := WithoutInput(g, WaveHeight);
    VerdictInFull(g);
    VerdictInFull(h);
    SlightBand();
    ScoreFromSums(g.conditions, DEFAULT_THRESHOLDS, 140.0, 2.6);
    assert GateScore(g) >= 50.0;
    hide GateScore;
    ScoreFromWord(h, 1.25);
    ScoreFromSums(h.conditions.(wave := Number(1.25)), DEFAULT_THRESHOLDS, 0.0, 2.6);
  }

  /** A barometer that begins to fall slightly lifts a refusal, too. */
  lemma SlightFallCanClear() returns (g: GateInput)
    ensures g.thresholds == DEFAULT_THRESHOLDS && g.conditions.pressureTrend == Absent
    ensures Verdict(g) == NotCleared && Verdict(WithInput(g, PressureTrend, -1.0)) == ClearedWithCaution
  {
    hide Verdict, Score, Parse;
    g := Trip(NO_CONDITIONS.(wave := Number(4.0), wind := Number(17.5)), None);
    var h := WithInput(g, PressureTrend, -1.0);
    VerdictInFull(g);
    VerdictInFull(h);
    ScoreFromSums(g.conditions, g.thresholds, 130.0, 2.6);
    ScoreFromSums(h.conditions, h.thresholds, 130.0, 3.3);
  }

  // ---------------------------------------------------------------- category pessimism

  /** The same trip with the published word replaced by a measured wave height. */
  function WithHeight(g: GateInput, height: real): GateInput {
    g.(conditions := g.conditions.(wave := Number(height)))
  }

  /** Deciding from a band is at least as severe as deciding from a height whose score it dominates. */
  lemma BandDominatesHeight(g: GateInput, b: Band, height: real)
    requires !Measured(g)
    requires Score(WithHeight(g, height).conditions, g.thresholds)
             <= Score(WithHeight(g, b.maxHeight).conditions, g.thresholds)
    ensures var h := WithHeight(g, height);
            Severeness(Decide(h, None, AssessedLevel(h, None)))
            <= Severeness(Decide(g, Some(b), AssessedLevel(g, Some(b))))
    ensures Decide(g, Some(b), AssessedLevel(g, Some(b))) != Cleared
    ensures Assessed(WithHeight(g, height), None) == WithHeight(g, height).conditions
    ensures Assessed(g, Some(b)) == WithHeight(g, b.maxHeight).conditions
  {
  }

  /**
    * A word is never more optimistic than any height it stands for: for every recognised term and every height in
    * its published band, the verdict from the word is at least as severe and its score at least as high.
    */
  lemma CategoryIsPessimistic(g: GateInput, height: real)
    requires NonNegativeWeights(g.thresholds)
    requires !Measured(g) && Derived(g).Some?
    requires Derived(g).value.minHeight <= height <= Derived(g).value.maxHeight
    ensures Severeness(Verdict(WithHeight(g, height))) <= Severeness(Verdict(g))
    ensures GateScore(WithHeight(g, height)) <= GateScore(g)
    ensures Verdict(g) != Cleared
  {
    var b := Derived(g).value;
    RiskIsMonotone(WithHeight(g, height).conditions, WithHeight(g, b.maxHeight).conditions, g.thresholds);
    BandDominatesHeight(g, b, height);
    assert Derived(WithHeight(g, height)).None?;
  }

  /** The gate scores the trip, from a word that includes the open-ended code. */
  predicate FromOpenEndedWord(g: GateInput) {
    g.conditions.wind.Number? && !Measured(g) && Derived(g).Some? && Derived(g).value.openEnded
  }

  lemma OpenBandEndsAtSentinel(g: GateInput)
    requires Derived(g).Some? && Derived(g).value.openEnded
    ensures Derived(g).value.maxHeight == 14.0
  {
  }

  /**
    * Trip by trip: a sea above the stand-in of 14 m scores higher than the word exactly when waves carry weight, that
    * sea lies deeper in the wave band than 14 m, and the word's own score leaves room.
    */
  lemma OpenEndFallsShortExactly(g: GateInput, height: real)
    requires NonNegativeWeights(g.thresholds) && FromOpenEndedWord(g)
    ensures var t := g.thresholds;
      GateScore(WithHeight(g, height)) > GateScore(g) <==>
        && t.weightWave > 0.0
        && BandFraction(14.0, t.waveModerate, t.waveExtreme) < BandFraction(height, t.waveModerate, t.waveExtreme)
        && GateBase(g) + Penalties(g.conditions) < 100.0
  {
    hide Score, Base, Penalties, Parse, BandFraction;
    OpenBandEndsAtSentinel(g);
    assert Assessed(WithHeight(g, height), None) == g.conditions.(wave := Number(height));
    HigherWaveRaisesScoreExactly(g.conditions, g.thresholds, 14.0, height);
  }

  /** Beyond the stand-in the word still dominates wherever waves weigh nothing or 14 m already fills their band. */
  lemma OpenEndedCategoryIsPessimistic(g: GateInput, height: real)
    requires NonNegativeWeights(g.thresholds) && FromOpenEndedWord(g)
    requires g.thresholds.weightWave == 0.0 || g.thresholds.waveExtreme <= 14.0
    requires height >= 14.0
    ensures Severeness(Verdict(WithHeight(g, height))) <= Severeness(Verdict(g))
    ensures GateScore(WithHeight(g, height)) <= GateScore(g)
  {
    hide Score, Base, Penalties, Parse, BandFraction;
    OpenEndFallsShortExactly(g, height);
    OpenBandEndsAtSentinel(g);
    BandDominatesHeight(g, Derived(g).value, height);
  }

  /** Exactly when the word covers every higher sea, over all trips: waves weigh nothing, or their band is full by then. */
  lemma OpenEndIsCoveredExactly(t: Thresholds)
    requires NonNegativeWeights(t)
    ensures (forall g: GateInput, height: real ::
               g.thresholds == t && FromOpenEndedWord(g) && height >= 14.0
               ==> GateScore(WithHeight(g, height)) <= GateScore(g))
            <==> t.weightWave == 0.0 || t.waveExtreme <= 14.0
  {
    hide GateScore, FromOpenEndedWord;
    if t.weightWave == 0.0 || t.waveExtreme <= 14.0 {
      forall g: GateInput, height: real | g.thresholds == t && FromOpenEndedWord(g) && height >= 14.0
        ensures GateScore(WithHeight(g, height)) <= GateScore(g)
      {
        OpenEndedCategoryIsPessimistic(g, height);
      }
    } else {
      var g := PhenomenalTripFallsShort(t);
      assert GateScore(WithHeight(g, t.waveExtreme)) > GateScore(g);
    }
  }

  /** A trip in a dead calm, with "phenomenal" as the word. */
  lemma PhenomenalTrip(t: Thresholds) returns (g: GateInput)
    ensures g.thresholds == t && FromOpenEndedWord(g) && g.category == Some("phenomenal")
    ensures g.conditions == NO_CONDITIONS.(wind := Number(0.0)) && Unobstructed(g)
  {
    g := Trip(NO_CONDITIONS.(wind := Number(0.0)), Some("phenomenal")).(thresholds := t);
    hide Parse;
    assert Lower("phenomenal") == "phenomenal";
    EveryTermIsAccepted("phenomenal");
  }

  /** No penalty, and a wave short of its band's end: the word's score has room. */
  lemma PhenomenalTripFallsShort(t: Thresholds) returns (g: GateInput)
    requires NonNegativeWeights(t) && t.weightWave > 0.0 && t.waveExtreme > 14.0
    ensures g.thresholds == t && FromOpenEndedWord(g)
    ensures GateScore(WithHeight(g, t.waveExtreme)) > GateScore(g)
  {
    g := PhenomenalTrip(t);
    hide Parse, GateScore, Base;
    OpenEndFallsShortExactly(g, t.waveExtreme);
    OpenBandEndsAtSentinel(g);
    HigherWaveRaisesBaseExactly(g.conditions, t, 14.0, t.waveExtreme);
    BaseIsBounded(g.conditions.(wave := Number(t.waveExtreme)), t);
    assert Penalties(g.conditions) == 0.0;
  }

  /** A fleet whose wave band runs from 14 m to 20 m: the word allows, with caution, a trip that 20 m of sea refuses. */
  lemma OpenEndCanFallShort() returns (g: GateInput)
    ensures g.thresholds == DEFAULT_THRESHOLDS.(waveModerate := 14.0, waveExtreme := 20.0)
    ensures g.category == Some("phenomenal") && FromOpenEndedWord(g)
    ensures Verdict(g) == ClearedWithCaution && Verdict(WithHeight(g, 20.0)) == NotCleared
  {
    hide Verdict, Score, Parse;
    var t := DEFAULT_THRESHOLDS.(waveModerate := 14.0, waveExtreme := 20.0);
    g := PhenomenalTrip(t);
    var h := WithHeight(g, 20.0);
    VerdictInFull(g);
    VerdictInFull(h);
    OpenBandEndsAtSentinel(g);
    ScoreFromSums(h.conditions, t, 140.0, 2.6);
    assert GateScore(h) >= 50.0;
    hide GateScore;
    ScoreFromWord(g, 14.0);
    ScoreFromSums(g.conditions.(wave := Number(14.0)), t, 0.0, 2.6);
  }
}
