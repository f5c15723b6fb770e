/** The order in which grid offsets around a requested point are probed: ring by ring, each ring sorted. */
module ProbeGrid {

  datatype Offset = Offset(lat: int, lon: int)

  function Abs(x: int): nat { if x < 0 then -x else x }

  /** Chebyshev distance from the centre. */
  function Ring(o: Offset): nat { if Abs(o.lat) > Abs(o.lon) then Abs(o.lat) else Abs(o.lon) }

  /** Tuple order: latitude first. */
  predicate Before(a: Offset, b: Offset) { a.lat < b.lat || (a.lat == b.lat && a.lon < b.lon) }

  /** Nearer ring first, then tuple order: the order the probe must follow. */
  predicate Sooner(a: Offset, b: Offset) { Ring(a) < Ring(b) || (Ring(a) == Ring(b) && Before(a, b)) }

  ghost predicate Ordered(offsets: seq<Offset>) {
    forall i, j :: 0 <= i < j < |offsets| ==> Sooner(offsets[i], offsets[j])
  }

  /** Exactly the square of offsets up to `n` rings away. */
  ghost predicate Square(offsets: seq<Offset>, n: int) {
    forall o :: o in offsets <==> Ring(o) <= n
  }

  predicate Within(o: Offset, r: int) { -r <= o.lat <= r && -r <= o.lon <= r }

  /** Square and order, spelled out on coordinates: inner squares first, and within a ring by latitude, then longitude. */
  lemma ProbeInPlainTerms(offsets: seq<Offset>, n: nat)
    requires Square(offsets, n) && Ordered(offsets)
    ensures forall o :: o in offsets <==> Within(o, n)
    ensures forall i, j, r :: 0 <= i < j < |offsets| && Within(offsets[j], r) ==> Within(offsets[i], r)
    ensures forall i, j, r :: 0 <= i < j < |offsets| && Within(offsets[j], r) && !Within(offsets[i], r - 1) ==>
              var a, b := offsets[i], offsets[j]; a.lat < b.lat || (a.lat == b.lat && a.lon < b.lon)
  {
    assert forall o, r: int :: Within(o, r) <==> Ring(o) <= r;
    forall i, j, r | 0 <= i < j < |offsets| && Within(offsets[j], r)
      ensures Within(offsets[i], r)
      ensures !Within(offsets[i], r - 1) ==>
                offsets[i].lat < offsets[j].lat || (offsets[i].lat == offsets[j].lat && offsets[i].lon < offsets[j].lon)
    {
      assert Sooner(offsets[i], offsets[j]);
    }
  }

  // ---------------------------------------------------------------- the enumeration is determined

  lemma {:induction false} OrderedHasNoRepeats(offsets: seq<Offset>)
    requires Ordered(offsets)
    ensures forall i, j :: 0 <= i < j < |offsets| ==> offsets[i] != offsets[j]
  {
    forall i, j | 0 <= i < j < |offsets| ensures offsets[i] != offsets[j] {
      assert Sooner(offsets[i], offsets[j]);
    }
  }

  /** Two enumerations of the same offsets in probing order are the same list. */
  lemma {:induction false} ProbingOrderIsUnique(xs: seq<Offset>, ys: seq<Offset>)
    requires Ordered(xs) && Ordered(ys) && forall o :: o in xs <==> o in ys
    ensures xs == ys
  {
    assert ys == [] || ys[0] in ys;
    if xs != [] {
      var m, n := |xs| - 1, |ys| - 1;
      assert xs[m] in xs;
      assert ys[n] in ys;
      LastIsLatest(xs, ys[n]);
      LastIsLatest(ys, xs[m]);
      assert xs[m] == ys[n];
      OrderedHasNoRepeats(xs);
      OrderedHasNoRepeats(ys);
      forall o ensures o in xs[..m] <==> o in ys[..n] {
        if o in xs[..m] { assert o in xs; assert o != xs[m]; }
        if o in ys[..n] { assert o in ys; assert o != ys[n]; }
      }
      ProbingOrderIsUnique(xs[..m], ys[..n]);
    }
  }

  lemma LastIsLatest(xs: seq<Offset>, o: Offset)
    requires Ordered(xs) && o in xs
    ensures o == xs[|xs| - 1] || Sooner(o, xs[|xs| - 1])
  {
    var i :| 0 <= i < |xs| && xs[i] == o;
  }

  // ---------------------------------------------------------------- counting by rows

  /** The part of a ring that lies on one latitude, up to below longitude `hi`. */
  ghost function Row(ring: nat, lat: int, hi: int): seq<Offset>
    decreases hi + ring
  {
    if hi + ring <= 0 then []
    else Row(ring, lat, hi - 1) + if Ring(Offset(lat, hi - 1)) == ring then [Offset(lat, hi - 1)] else []
  }

  /** The rows of a ring up to below latitude `hi`. */
  ghost function Rows(ring: nat, hi: int): seq<Offset>
    decreases hi + ring
  {
    if hi + ring <= 0 then [] else Rows(ring, hi - 1) + Row(ring, hi - 1, ring + 1)
  }

  ghost function Enumeration(n: nat): seq<Offset> {
    (if n == 0 then [] else Enumeration(n - 1)) + Rows(n, n + 1)
  }

  lemma {:induction false} RowFacts(ring: nat, lat: int, hi: int)
    requires Abs(lat) <= ring && -(ring as int) <= hi <= ring + 1
    ensures var row := Row(ring, lat, hi);
      && (forall o :: o in row <==> o.lat == lat && o.lon < hi && Ring(o) == ring) && Ordered(row)
      && |row| == if hi == -(ring as int) then 0
                  else if Abs(lat) == ring then hi + ring else if hi == ring + 1 then 2 else 1
    decreases hi + ring
  {
    if hi + ring > 0 { RowFacts(ring, lat, hi - 1); }
  }

  lemma {:induction false} RowsAreOrdered(ring: nat, hi: int)
    requires -(ring as int) <= hi <= ring + 1
    ensures forall o :: o in Rows(ring, hi) <==> o.lat < hi && Ring(o) == ring
    ensures Ordered(Rows(ring, hi))
    decreases hi + ring
  {
    if hi + ring > 0 {
      RowsAreOrdered(ring, hi - 1);
      RowFacts(ring, hi - 1, ring + 1);
      OrderedConcat(Rows(ring, hi - 1), Row(ring, hi - 1, ring + 1));
    }
  }

  lemma {:induction false} RowsAreCounted(ring: nat, hi: int)
    requires -(ring as int) <= hi <= ring + 1
    ensures |Rows(ring, hi)| == if hi == -(ring as int) then 0
                                else if hi == ring + 1 && ring > 0 then 8 * ring else 2 * ring + 1 + 2 * (hi - 1 + ring)
    decreases hi + ring
  {
    if hi + ring > 0 {
      RowsAreCounted(ring, hi - 1);
      RowFacts(ring, hi - 1, ring + 1);
    }
  }

  lemma OrderedConcat(xs: seq<Offset>, ys: seq<Offset>)
    requires Ordered(xs) && Ordered(ys) && forall x, y :: x in xs && y in ys ==> Sooner(x, y)
    ensures Ordered(xs + ys)
  {
  }

  lemma RingIsOrdered(ring: nat)
    ensures forall o :: o in Rows(ring, ring + 1) <==> Ring(o) == ring
    ensures Ordered(Rows(ring, ring + 1))
  {
    hide Rows;
    RowsAreOrdered(ring, ring + 1);
  }

  lemma {:induction false} EnumerationIsOrdered(n: nat)
    ensures Square(Enumeration(n), n) && Ordered(Enumeration(n))
  {
    hide Rows, Ring, Before;
    RingIsOrdered(n);
    if n == 0 {
      assert [] + Rows(n, n + 1) == Rows(n, n + 1);
    } else {
      EnumerationIsOrdered(n - 1);
      OrderedConcat(Enumeration(n - 1), Rows(n, n + 1));
    }
  }

  lemma {:induction false} EnumerationIsCounted(n: nat)
    ensures |Enumeration(n)| == (2 * n + 1) * (2 * n + 1)
  {
    hide Rows;
    RowsAreCounted(n, n + 1);
    if n > 0 {
      EnumerationIsCounted(n - 1);
      NextOddSquare(n);
    }
  }

  lemma NextOddSquare(n: nat)
    ensures (2 * n + 1) * (2 * n + 1) == (2 * (n - 1) + 1) * (2 * (n - 1) + 1) + 8 * n
  {
  }

  /** Any list of the square in probing order visits every offset once, starts at the centre and has (2n+1)^2 entries. */
  lemma ProbeIsExact(offsets: seq<Offset>, n: nat)
    requires Square(offsets, n) && Ordered(offsets)
    ensures |offsets| == (2 * n + 1) * (2 * n + 1)
    ensures offsets[0] == Offset(0, 0)
    ensures forall i, j :: 0 <= i < j < |offsets| ==> offsets[i] != offsets[j] && Ring(offsets[i]) <= Ring(offsets[j])
  {
    EnumerationIsOrdered(n);
    EnumerationIsCounted(n);
    ProbingOrderIsUnique(offsets, Enumeration(n));
    OrderedHasNoRepeats(offsets);
    assert Offset(0, 0) in offsets;
    var i :| 0 <= i < |offsets| && offsets[i] == Offset(0, 0);
    assert Ring(offsets[0]) >= 0;
    forall i, j | 0 <= i < j < |offsets| ensures Ring(offsets[i]) <= Ring(offsets[j]) {
      assert Sooner(offsets[i], offsets[j]);
    }
  }

  // ---------------------------------------------------------------- the loops

  /** Puts an offset into its place. */
  method Place(o: Offset, sorted: seq<Offset>) returns (placed: seq<Offset>)
    requires Ordered(sorted) && o !in sorted
    ensures Ordered(placed) && forall p :: p in placed <==> p in sorted || p == o
  {
    var i := 0;
    while i < |sorted| && Sooner(sorted[i], o)
      invariant i <= |sorted| && forall j :: 0 <= j < i ==> Sooner(sorted[j], o)
    {
      i := i + 1;
    }
    placed := sorted[..i] + [o] + sorted[i..];
    assert forall p :: p in sorted <==> p in sorted[..i] || p in sorted[i..];
  }

  /** The offsets of a ring, collected as a set and sorted. */
  method ProbeRing(ring: nat) returns (sorted: seq<Offset>)
    ensures Ordered(sorted) && forall o :: o in sorted <==> Ring(o) == ring
  {
    var low: int := -(ring as int);
    var found: set<Offset> := {};
    for lat := low to ring + 1
      invariant forall o :: o in found <==> Ring(o) == ring && o.lat < lat
    {
      for lon := low to ring + 1
        invariant forall o :: o in found <==> Ring(o) == ring && (o.lat < lat || (o.lat == lat && o.lon < lon))
      {
        if Ring(Offset(lat, lon)) == ring {
          found := found + {Offset(lat, lon)};
        }
      }
    }
    sorted := [];
    var rest := found;
    while rest != {}
      invariant rest <= found && Ordered(sorted)
      invariant forall o :: o in sorted <==> o in found && o !in rest
      decreases |rest|
    {
      var o :| o in rest;
      sorted := Place(o, sorted);
      rest := rest - {o};
    }
  }

  /** Enumerates the offsets to probe: ring after ring outwards, and within a ring by latitude, then longitude. */
  method ProbeOffsets(maxRings: nat) returns (offsets: seq<Offset>)
    ensures Square(offsets, maxRings) && Ordered(offsets)
    ensures |offsets| == (2 * maxRings + 1) * (2 * maxRings + 1) && offsets[0] == Offset(0, 0)
  {
    offsets := [];
    for ring := 0 to maxRings + 1
      invariant Square(offsets, ring - 1) && Ordered(offsets)
    {
      var more := ProbeRing(ring);
      OrderedConcat(offsets, more);
      offsets := offsets + more;
    }
    ProbeIsExact(offsets, maxRings);
  }
}
