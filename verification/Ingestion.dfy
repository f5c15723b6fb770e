/** Ingestion of fetched records: idempotent upserts, conserved counts, lineage, and notices that go out once. */
module Ingestion {
  import opened Sequences
  import opened Wrappers
  import DatasetHealth
  import WorkQueue

  // ---------------------------------------------------------------- data model

  datatype Quality = Accepted | Rejected | Quarantined

  /** Tables whose rows carry an idempotency key, and tables that are upserted by identifier. */
  datatype Table = Alerts | Pfz | Observations | Forecasts | Stations | Zones

  predicate Keyed(t: Table) { !t.Stations? && !t.Zones? }

  datatype EventKind = Cyclone | Tsunami | StormSurge | OtherEvent

  datatype Severity = Extreme | Severe | LesserSeverity

  /**
    * One parsed record: its table, its idempotency key (for stations and zones, the audit key), its row identifier,
    * the disposition quality control gives it, for alerts the event type and severity, and whether evaluating it raises.
    * A tsunami is Extreme exactly when its alert level is "warning" or "watch".
    */
  datatype Record = Record(table: Table, idem: string, uid: string, quality: Quality, kind: EventKind,
                           severity: Severity, raises: bool)

  datatype Fetch = Fetch(checksum: string, uri: string, dataset: string, state: DatasetHealth.FetchState,
                         retrievedAt: real, alerts: seq<Record>, pfz: seq<Record>, stations: seq<Record>,
                         zones: seq<Record>, observations: seq<Record>, forecasts: seq<Record>,
                         cyclones: seq<Record>, tsunamis: seq<Record>)

  function RecordCount(f: Fetch): nat {
    |f.alerts| + |f.pfz| + |f.observations| + |f.cyclones| + |f.tsunamis| + |f.forecasts| + |f.stations| + |f.zones|
  }

  /** A cyclone goes in as an extreme alert. */
  function CycloneAlerts(rs: seq<Record>): (alerts: seq<Record>)
    ensures |alerts| == |rs|
  {
    seq(|rs|, i requires 0 <= i < |rs| => rs[i].(table := Alerts, kind := Cyclone, severity := Extreme))
  }

  /** A tsunami goes in as an alert that is at least severe. */
  function TsunamiAlerts(rs: seq<Record>): (alerts: seq<Record>)
    ensures |alerts| == |rs|
  {
    seq(|rs|, i requires 0 <= i < |rs| =>
      rs[i].(table := Alerts, kind := Tsunami, severity := if rs[i].severity == Extreme then Extreme else Severe))
  }

  /** The records in the order in which ingestion takes them. */
  function InOrder(f: Fetch): seq<Record> {
    f.alerts + f.pfz + f.stations + f.zones + f.observations + f.forecasts
    + CycloneAlerts(f.cyclones) + TsunamiAlerts(f.tsunamis)
  }

  datatype Tally = Tally(accepted: nat, rejected: nat, quarantined: nat, skipped: nat, events: seq<string>)

  const NO_TALLY := Tally(0, 0, 0, 0, [])

  function Total(t: Tally): nat { t.accepted + t.rejected + t.quarantined + t.skipped }

  /** A message offered to the work queue: its idempotency key and its lane. */
  datatype Notice = Notice(key: string, priority: WorkQueue.Priority)

  /** Row keys per table, one audit per evaluated record, and what the work queue has admitted, in order. */
  datatype Books = Books(rows: map<Table, seq<string>>, audits: seq<string>, seen: set<string>, admitted: seq<Notice>)

  ghost predicate HasTables(b: Books) { forall t: Table :: t in b.rows }

  datatype Progress = Progress(books: Books, tally: Tally, failed: bool)

  // ---------------------------------------------------------------- one record

  function Count(t: Tally, q: Quality): Tally {
    match q
    case Accepted => t.(accepted := t.accepted + 1)
    case Rejected => t.(rejected := t.rejected + 1)
    case Quarantined => t.(quarantined := t.quarantined + 1)
  }

  predicate Critical(r: Record) { r.kind != OtherEvent || r.severity == Severe || r.severity == Extreme }

  /** Two parts of a message key, joined by a colon. */
  function Field(part: string, rest: string): string { part + ":" + rest }

  function Lane(r: Record): WorkQueue.Priority {
    if r.table == Alerts && Critical(r) then WorkQueue.CriticalAlerts else WorkQueue.NormalIngestion
  }

  /** The notice of a record that was not rejected; forecasts, stations and zones give none. */
  function NoticeOf(r: Record): Option<Notice> {
    if r.quality == Rejected then None
    else
      match r.table
      case Alerts => Some(Notice(Field("event", r.idem), Lane(r)))
      case Pfz => Some(Notice(Field("event", Field("pfz", r.idem)), Lane(r)))
      case Observations => Some(Notice(Field("event", Field("obs", r.idem)), Lane(r)))
      case _ => None
  }

  /** Offers a notice to the queue, which drops a key it has seen. */
  function Announce(b: Books, n: Notice): Books {
    if n.key in b.seen then b else b.(seen := b.seen + {n.key}, admitted := b.admitted + [n])
  }

  function RowKey(r: Record): string { if Keyed(r.table) then r.idem else r.uid }

  ghost predicate Stored(b: Books, r: Record)
    requires HasTables(b)
  {
    RowKey(r) in b.rows[r.table]
  }

  /** Whether the record adds a row: rejected stations and zones never do. */
  ghost predicate AddsRow(b: Books, r: Record)
    requires HasTables(b)
  {
    !Stored(b, r) && (Keyed(r.table) || r.quality != Rejected)
  }

  ghost function Enter(b: Books, r: Record): (c: Books)
    requires HasTables(b)
    ensures HasTables(c)
  {
    var audited := b.(audits := b.audits + [r.idem]);
    if AddsRow(b, r) then audited.(rows := b.rows[r.table := b.rows[r.table] + [RowKey(r)]]) else audited
  }

  ghost predicate Skips(b: Books, r: Record)
    requires HasTables(b)
  {
    Keyed(r.table) && Stored(b, r)
  }

  /** One record: skipped when its key is stored, otherwise audited, stored, counted and announced. */
  ghost function IngestOne(p: Progress, r: Record): (q: Progress)
    requires HasTables(p.books)
    ensures HasTables(q.books)
  {
    if p.failed then p
    else if Skips(p.books, r) then p.(tally := p.tally.(skipped := p.tally.skipped + 1))
    else if r.raises then p.(failed := true)
    else
      var counted := Count(p.tally, r.quality);
      match NoticeOf(r)
      case None => Progress(Enter(p.books, r), counted, false)
      case Some(n) => Progress(Announce(Enter(p.books, r), n), counted.(events := counted.events + [n.key]), false)
  }

  ghost function IngestAll(p: Progress, rs: seq<Record>): (q: Progress)
    requires HasTables(p.books)
    ensures HasTables(q.books)
  {
    if rs == [] then p else IngestOne(IngestAll(p, rs[..|rs| - 1]), rs[|rs| - 1])
  }

  lemma IngestAllStep(p: Progress, rs: seq<Record>, i: nat)
    requires HasTables(p.books) && i < |rs|
    ensures IngestAll(p, rs[..i + 1]) == IngestOne(IngestAll(p, rs[..i]), rs[i])
  {
    assert rs[..i + 1][..i] == rs[..i];
  }

  lemma {:induction false} IngestAllConcat(p: Progress, rs: seq<Record>, qs: seq<Record>)
    requires HasTables(p.books)
    ensures IngestAll(p, rs + qs) == IngestAll(IngestAll(p, rs), qs)
  {
    hide IngestOne;
    if qs == [] {
      assert rs + qs == rs;
    } else {
      IngestAllConcat(p, rs, qs[..|qs| - 1]);
      assert (rs + qs)[..|rs + qs| - 1] == rs + qs[..|qs| - 1];
    }
  }

  // ---------------------------------------------------------------- conservation and uniqueness

  /** Every record is counted exactly once, unless evaluating one of them raised. */
  lemma {:induction false} RecordsAreConserved(p: Progress, rs: seq<Record>)
    requires HasTables(p.books)
    ensures !IngestAll(p, rs).failed ==> Total(IngestAll(p, rs).tally) == Total(p.tally) + |rs|
    ensures Total(IngestAll(p, rs).tally) <= Total(p.tally) + |rs|
  {
    if rs != [] { RecordsAreConserved(p, rs[..|rs| - 1]); }
  }

  /** No table holds a key twice, and the queue's memory is exactly the keys it admitted, each once. */
  ghost predicate SoundBooks(b: Books) {
    && HasTables(b)
    && (forall t: Table :: NoDuplicates(b.rows[t]))
    && (forall i, j :: 0 <= i < j < |b.admitted| ==> b.admitted[i].key != b.admitted[j].key)
    && (forall key :: key in b.seen <==> exists i :: 0 <= i < |b.admitted| && b.admitted[i].key == key)
  }

  lemma AnnounceKeepsBooksSound(b: Books, n: Notice)
    requires SoundBooks(b)
    ensures SoundBooks(Announce(b, n))
  {
    var c := Announce(b, n);
    if n.key !in b.seen {
      assert c.admitted[|b.admitted|] == n;
      forall key ensures key in c.seen <==> exists i :: 0 <= i < |c.admitted| && c.admitted[i].key == key {
        if key in b.seen {
          var i :| 0 <= i < |b.admitted| && b.admitted[i].key == key;
          assert c.admitted[i].key == key;
        }
      }
    }
  }

  lemma EnterKeepsBooksSound(b: Books, r: Record)
    requires SoundBooks(b)
    ensures SoundBooks(Enter(b, r))
  {
    var c := Enter(b, r);
    forall t: Table ensures NoDuplicates(c.rows[t]) {
      assert c.rows[t] == b.rows[t] || (t == r.table && !Stored(b, r) && c.rows[t] == b.rows[t] + [RowKey(r)]);
    }
  }

  lemma {:induction false} IngestKeepsBooksSound(p: Progress, rs: seq<Record>)
    requires SoundBooks(p.books)
    ensures SoundBooks(IngestAll(p, rs).books)
  {
    if rs != [] {
      var n := |rs| - 1;
      IngestKeepsBooksSound(p, rs[..n]);
      var b := IngestAll(p, rs[..n]).books;
      EnterKeepsBooksSound(b, rs[n]);
      if NoticeOf(rs[n]).Some? { AnnounceKeepsBooksSound(Enter(b, rs[n]), NoticeOf(rs[n]).value); }
    }
  }

  function AddIfMissing<T(==)>(xs: seq<T>, x: T): seq<T> { if x in xs then xs else xs + [x] }

  /** Keys of the records, in order. */
  function Idems(rs: seq<Record>): (keys: seq<string>)
    ensures |keys| == |rs|
    ensures forall i :: 0 <= i < |rs| ==> keys[i] == rs[i].idem
  {
    seq(|rs|, i requires 0 <= i < |rs| => rs[i].idem)
  }

  /** None of the keys is in the list yet, and no key comes twice: exactly then is appending them collision-free. */
  ghost predicate NewKeys(known: seq<string>, keys: seq<string>) {
    NoDuplicates(keys) && forall key :: key in keys ==> key !in known
  }

  lemma NewKeysOfAppend(known: seq<string>, keys: seq<string>, key: string)
    ensures NewKeys(known, keys + [key]) <==> NewKeys(known, keys) && key !in known + keys
  {
    var all := keys + [key];
    assert all[|keys|] == key;
    assert forall k :: k in all <==> k in keys || k == key;
    if NewKeys(known, all) {
      forall i, j | 0 <= i < j < |keys| ensures keys[i] != keys[j] { assert all[i] != all[j]; }
      forall i | 0 <= i < |keys| ensures keys[i] != key { assert all[i] != all[|keys|]; }
    }
  }

  lemma IdemsOfFront(rs: seq<Record>)
    requires rs != []
    ensures Idems(rs) == Idems(rs[..|rs| - 1]) + [rs[|rs| - 1].idem]
  {
  }

  lemma KeyedStep(p: Progress, r: Record)
    requires HasTables(p.books) && !p.failed && Keyed(r.table) && !r.raises
    ensures var q := IngestOne(p, r);
      && !q.failed && q.tally.skipped == p.tally.skipped + (if r.idem in p.books.rows[r.table] then 1 else 0)
      && q.books.rows[r.table] == AddIfMissing(p.books.rows[r.table], r.idem)
  {
  }

  /** Records of one keyed table are never skipped as duplicates exactly when their keys are new and distinct. */
  lemma {:induction false} NothingIsSkippedExactly(p: Progress, rs: seq<Record>, t: Table)
    requires HasTables(p.books) && !p.failed && Keyed(t)
    requires forall r :: r in rs ==> r.table == t && !r.raises
    ensures !IngestAll(p, rs).failed && IngestAll(p, rs).tally.skipped >= p.tally.skipped
    ensures IngestAll(p, rs).tally.skipped == p.tally.skipped <==> NewKeys(p.books.rows[t], Idems(rs))
    ensures IngestAll(p, rs).tally.skipped == p.tally.skipped ==>
              IngestAll(p, rs).books.rows[t] == p.books.rows[t] + Idems(rs)
  {
    if rs == [] {
      assert p.books.rows[t] + Idems(rs) == p.books.rows[t];
    } else {
      hide NewKeys, IngestOne, Skips, Idems;
      var n := |rs| - 1;
      NothingIsSkippedExactly(p, rs[..n], t);
      IdemsOfFront(rs);
      NewKeysOfAppend(p.books.rows[t], Idems(rs[..n]), rs[n].idem);
      assert rs[n] in rs;
      KeyedStep(IngestAll(p, rs[..n]), rs[n]);
      assert p.books.rows[t] + Idems(rs) == p.books.rows[t] + Idems(rs[..n]) + [rs[n].idem];
    }
  }

  // ---------------------------------------------------------------- what ends up stored and announced

  /** The record is one that leaves a row under this key. */
  predicate RowFor(r: Record, t: Table, key: string) {
    r.table == t && RowKey(r) == key && (Keyed(t) || r.quality != Rejected)
  }

  lemma RowsInPlainTerms(r: Record, t: Table, key: string)
    ensures RowFor(r, t, key) <==>
            r.table == t && (if t == Stations || t == Zones then r.uid == key && r.quality != Rejected else r.idem == key)
  {
  }

  /** No earlier record of the list, and no row stored before it, has the record's key. */
  ghost predicate Fresh(b: Books, rs: seq<Record>, i: nat)
    requires HasTables(b) && i < |rs|
  {
    !Stored(b, rs[i]) && forall j :: 0 <= j < i ==> !RowFor(rs[j], rs[i].table, RowKey(rs[i]))
  }

  lemma EnterRows(b: Books, r: Record, t: Table, key: string)
    requires HasTables(b)
    ensures key in Enter(b, r).rows[t] <==> key in b.rows[t] || RowFor(r, t, key)
  {
    assert Enter(b, r).rows[t] == b.rows[t] || Enter(b, r).rows[t] == b.rows[t] + [RowKey(r)];
  }

  lemma RowsAfterOne(p: Progress, r: Record, t: Table, key: string)
    requires HasTables(p.books) && !IngestOne(p, r).failed
    ensures key in IngestOne(p, r).books.rows[t] <==> key in p.books.rows[t] || RowFor(r, t, key)
  {
    EnterRows(p.books, r, t, key);
  }

  /** A table holds exactly the keys it held and the keys of the records given; rejected stations and zones add none. */
  lemma {:induction false} RowsAreExactly(p: Progress, rs: seq<Record>, t: Table, key: string)
    requires HasTables(p.books) && !IngestAll(p, rs).failed
    ensures key in IngestAll(p, rs).books.rows[t]
            <==> key in p.books.rows[t] || exists i :: 0 <= i < |rs| && RowFor(rs[i], t, key)
  {
    if rs != [] {
      hide IngestOne, RowFor;
      var n := |rs| - 1;
      FailureSticks(IngestAll(p, rs[..n]), rs[n]);
      RowsAreExactly(p, rs[..n], t, key);
      RowsAfterOne(IngestAll(p, rs[..n]), rs[n], t, key);
      if i :| 0 <= i < n && RowFor(rs[i], t, key) { assert RowFor(rs[..n][i], t, key); }
    }
  }

  lemma FailureSticks(p: Progress, r: Record)
    requires HasTables(p.books) && !IngestOne(p, r).failed
    ensures !p.failed
  {
  }

  /** Gives this notice key when it is not skipped. */
  predicate Tells(r: Record, key: string) { NoticeOf(r).Some? && NoticeOf(r).value.key == key }

  lemma SeenAfterOne(p: Progress, r: Record, key: string)
    requires HasTables(p.books) && !IngestOne(p, r).failed
    ensures key in IngestOne(p, r).books.seen <==> key in p.books.seen || (!Stored(p.books, r) && Tells(r, key))
  {
  }

  /** A record is fresh exactly when its row is still missing by the time it is taken. */
  lemma FreshIsUnstored(p: Progress, rs: seq<Record>, n: nat)
    requires HasTables(p.books) && n < |rs| && !IngestAll(p, rs[..n]).failed
    ensures Stored(IngestAll(p, rs[..n]).books, rs[n]) <==> !Fresh(p.books, rs, n)
  {
    hide RowFor, IngestAll;
    RowsAreExactly(p, rs[..n], rs[n].table, RowKey(rs[n]));
    assert forall j :: 0 <= j < n ==> rs[..n][j] == rs[j];
  }

  /** Some fresh record among the first `n` gives this notice key. */
  ghost predicate Told(b: Books, rs: seq<Record>, n: nat, key: string)
    requires HasTables(b) && n <= |rs|
  {
    exists i :: 0 <= i < n && Fresh(b, rs, i) && Tells(rs[i], key)
  }

  lemma ToldNext(b: Books, rs: seq<Record>, n: nat, key: string)
    requires HasTables(b) && n < |rs|
    ensures Told(b, rs, n + 1, key) <==> Told(b, rs, n, key) || (Fresh(b, rs, n) && Tells(rs[n], key))
  {
    hide Fresh, Tells;
  }

  lemma {:induction false} NoticesUpTo(p: Progress, rs: seq<Record>, n: nat, key: string)
    requires HasTables(p.books) && n <= |rs| && !IngestAll(p, rs[..n]).failed
    ensures key in IngestAll(p, rs[..n]).books.seen <==> key in p.books.seen || Told(p.books, rs, n, key)
  {
    if n > 0 {
      hide IngestOne, Tells, Fresh, Stored, Told;
      IngestAllStep(p, rs, n - 1);
      FailureSticks(IngestAll(p, rs[..n - 1]), rs[n - 1]);
      NoticesUpTo(p, rs, n - 1, key);
      SeenAfterOne(IngestAll(p, rs[..n - 1]), rs[n - 1], key);
      FreshIsUnstored(p, rs, n - 1);
      ToldNext(p.books, rs, n - 1, key);
    }
  }

  /** The queue learns exactly the notices of fresh records that were not rejected: none is lost, none is made up. */
  lemma NoticesAreExactly(p: Progress, rs: seq<Record>, key: string)
    requires HasTables(p.books) && !IngestAll(p, rs).failed
    ensures key in IngestAll(p, rs).books.seen
            <==> key in p.books.seen || exists i :: 0 <= i < |rs| && Fresh(p.books, rs, i) && Tells(rs[i], key)
  {
    hide IngestAll, Fresh, Tells;
    assert rs[..|rs|] == rs;
    NoticesUpTo(p, rs, |rs|, key);
  }

  /** Each message admitted is the notice of one of the records, in its lane. */
  lemma {:induction false} NoticesKeepTheirLanes(p: Progress, rs: seq<Record>, i: nat)
    requires HasTables(p.books) && |p.books.admitted| <= i < |IngestAll(p, rs).books.admitted|
    ensures exists k :: 0 <= k < |rs| && NoticeOf(rs[k]) == Some(IngestAll(p, rs).books.admitted[i])
  {
    hide NoticeOf;
    var n := |rs| - 1;
    var q := IngestAll(p, rs[..n]);
    AdmittedByOne(q, rs[n]);
    if i < |q.books.admitted| {
      NoticesKeepTheirLanes(p, rs[..n], i);
      var k :| 0 <= k < n && NoticeOf(rs[..n][k]) == Some(q.books.admitted[i]);
      assert NoticeOf(rs[k]) == Some(q.books.admitted[i]);
    }
  }

  lemma AdmittedByOne(p: Progress, r: Record)
    requires HasTables(p.books)
    ensures var a, b := p.books.admitted, IngestOne(p, r).books.admitted;
            b == a || (NoticeOf(r).Some? && b == a + [NoticeOf(r).value])
  {
  }

  // ---------------------------------------------------------------- what each counter counts

  /** Rows are stored under the idempotency key, for stations and zones under the identifier. */
  lemma FreshInPlainTerms(b: Books, rs: seq<Record>, i: nat)
    requires HasTables(b) && i < |rs|
    ensures rs[i].table in {Alerts, Pfz, Observations, Forecasts} ==>
              (Fresh(b, rs, i) <==> rs[i].idem !in b.rows[rs[i].table]
                                    && forall j :: 0 <= j < i ==> rs[j].table != rs[i].table || rs[j].idem != rs[i].idem)
    ensures rs[i].table in {Stations, Zones} ==>
              (Fresh(b, rs, i) <==> rs[i].uid !in b.rows[rs[i].table]
                                    && forall j :: 0 <= j < i ==> rs[j].table != rs[i].table || rs[j].uid != rs[i].uid
                                                                  || rs[j].quality == Rejected)
  {
  }

  /** The records among the first `n` that are evaluated, and get this disposition. */
  ghost function Evaluated(b: Books, rs: seq<Record>, n: nat, q: Quality): set<nat>
    requires HasTables(b) && n <= |rs|
  {
    set i: nat | i < n && rs[i].quality == q && (rs[i].table == Stations || rs[i].table == Zones || Fresh(b, rs, i))
  }

  /** The records among the first `n` that are duplicates. */
  ghost function Duplicates(b: Books, rs: seq<Record>, n: nat): set<nat>
    requires HasTables(b) && n <= |rs|
  {
    set i: nat | i < n && rs[i].table != Stations && rs[i].table != Zones && !Fresh(b, rs, i)
  }

  lemma EvaluatedNext(b: Books, rs: seq<Record>, n: nat, q: Quality)
    requires HasTables(b) && n < |rs|
    ensures |Evaluated(b, rs, n + 1, q)| == |Evaluated(b, rs, n, q)|
              + if rs[n].quality == q && (rs[n].table == Stations || rs[n].table == Zones || Fresh(b, rs, n)) then 1 else 0
  {
    hide Fresh;
    var before, after := Evaluated(b, rs, n, q), Evaluated(b, rs, n + 1, q);
    assert n !in before;
    assert forall i: nat :: i in after && i != n ==> i in before;
    assert forall i: nat :: i in before ==> i in after;
    if rs[n].quality == q && (rs[n].table == Stations || rs[n].table == Zones || Fresh(b, rs, n)) {
      assert after == before + {n};
    } else {
      assert after == before;
    }
  }

  lemma DuplicatesNext(b: Books, rs: seq<Record>, n: nat)
    requires HasTables(b) && n < |rs|
    ensures |Duplicates(b, rs, n + 1)| == |Duplicates(b, rs, n)|
              + if rs[n].table != Stations && rs[n].table != Zones && !Fresh(b, rs, n) then 1 else 0
  {
    hide Fresh;
    var before, after := Duplicates(b, rs, n), Duplicates(b, rs, n + 1);
    assert n !in before;
    assert after == before || after == before + {n};
  }

  /** What one record adds to the tally. */
  lemma TallyAfterOne(p: Progress, r: Record)
    requires HasTables(p.books) && !IngestOne(p, r).failed
    ensures var t, u := p.tally, IngestOne(p, r).tally;
            var skipped := r.table != Stations && r.table != Zones && Stored(p.books, r);
      && u.skipped == t.skipped + (if skipped then 1 else 0)
      && u.accepted == t.accepted + (if !skipped && r.quality == Accepted then 1 else 0)
      && u.rejected == t.rejected + (if !skipped && r.quality == Rejected then 1 else 0)
      && u.quarantined == t.quarantined + (if !skipped && r.quality == Quarantined then 1 else 0)
  {
    hide Stored;
  }

  lemma {:induction false} TallyUpTo(p: Progress, rs: seq<Record>, n: nat)
    requires HasTables(p.books) && n <= |rs| && !IngestAll(p, rs[..n]).failed
    ensures var t, u := p.tally, IngestAll(p, rs[..n]).tally;
      && u.accepted == t.accepted + |Evaluated(p.books, rs, n, Accepted)|
      && u.rejected == t.rejected + |Evaluated(p.books, rs, n, Rejected)|
      && u.quarantined == t.quarantined + |Evaluated(p.books, rs, n, Quarantined)|
      && u.skipped == t.skipped + |Duplicates(p.books, rs, n)|
  {
    if n == 0 {
      assert rs[..n] == [];
      assert Evaluated(p.books, rs, n, Accepted) == {} && Evaluated(p.books, rs, n, Rejected) == {};
      assert Evaluated(p.books, rs, n, Quarantined) == {} && Duplicates(p.books, rs, n) == {};
    } else {
      hide IngestOne, Fresh, Stored, Evaluated, Duplicates;
      IngestAllStep(p, rs, n - 1);
      FailureSticks(IngestAll(p, rs[..n - 1]), rs[n - 1]);
      TallyUpTo(p, rs, n - 1);
      TallyAfterOne(IngestAll(p, rs[..n - 1]), rs[n - 1]);
      FreshIsUnstored(p, rs, n - 1);
      EvaluatedNext(p.books, rs, n - 1, Accepted);
      EvaluatedNext(p.books, rs, n - 1, Rejected);
      EvaluatedNext(p.books, rs, n - 1, Quarantined);
      DuplicatesNext(p.books, rs, n - 1);
    }
  }

  /**
    * Each counter counts what its name says: evaluated are the stations, the zones and the fresh records of the keyed
    * tables, each under the disposition quality control gave it; skipped are the keyed records that are not fresh.
    */
  lemma TallyIsExact(b: Books, rs: seq<Record>)
    requires HasTables(b)
    ensures var p := IngestAll(Progress(b, NO_TALLY, false), rs);
      !p.failed ==>
        && p.tally.accepted == |set i: nat | i < |rs| && rs[i].quality == Accepted
                                             && (rs[i].table == Stations || rs[i].table == Zones || Fresh(b, rs, i))|
        && p.tally.rejected == |set i: nat | i < |rs| && rs[i].quality == Rejected
                                             && (rs[i].table == Stations || rs[i].table == Zones || Fresh(b, rs, i))|
        && p.tally.quarantined == |set i: nat | i < |rs| && rs[i].quality == Quarantined
                                                && (rs[i].table == Stations || rs[i].table == Zones || Fresh(b, rs, i))|
        && p.tally.skipped == |set i: nat | i < |rs| && rs[i].table != Stations && rs[i].table != Zones
                                            && !Fresh(b, rs, i)|
  {
    var p, n := Progress(b, NO_TALLY, false), |rs|;
    assert rs[..n] == rs;
    if !IngestAll(p, rs).failed { TallyUpTo(p, rs, n); }
    hide Fresh, IngestAll;
    assert Evaluated(b, rs, n, Accepted)
           == set i: nat | i < |rs| && rs[i].quality == Accepted
                           && (rs[i].table == Stations || rs[i].table == Zones || Fresh(b, rs, i));
    assert Evaluated(b, rs, n, Rejected)
           == set i: nat | i < |rs| && rs[i].quality == Rejected
                           && (rs[i].table == Stations || rs[i].table == Zones || Fresh(b, rs, i));
    assert Evaluated(b, rs, n, Quarantined)
           == set i: nat | i < |rs| && rs[i].quality == Quarantined
                           && (rs[i].table == Stations || rs[i].table == Zones || Fresh(b, rs, i));
    assert Duplicates(b, rs, n)
           == set i: nat | i < |rs| && rs[i].table != Stations && rs[i].table != Zones && !Fresh(b, rs, i);
  }

  lemma EventsAfterOne(p: Progress, r: Record, key: string)
    requires HasTables(p.books) && !IngestOne(p, r).failed
    ensures key in IngestOne(p, r).tally.events
            <==> key in p.tally.events || (!Stored(p.books, r) && Tells(r, key))
  {
  }

  lemma {:induction false} EventsUpTo(p: Progress, rs: seq<Record>, n: nat, key: string)
    requires HasTables(p.books) && n <= |rs| && !IngestAll(p, rs[..n]).failed
    ensures key in IngestAll(p, rs[..n]).tally.events <==> key in p.tally.events || Told(p.books, rs, n, key)
  {
    if n > 0 {
      hide IngestOne, Tells, Fresh, Stored, Told;
      IngestAllStep(p, rs, n - 1);
      FailureSticks(IngestAll(p, rs[..n - 1]), rs[n - 1]);
      EventsUpTo(p, rs, n - 1, key);
      EventsAfterOne(IngestAll(p, rs[..n - 1]), rs[n - 1], key);
      FreshIsUnstored(p, rs, n - 1);
      ToldNext(p.books, rs, n - 1, key);
    }
  }

  /** The summary lists exactly the events of the fresh records that give one, whether or not the queue had seen them. */
  lemma EventsAreExactly(b: Books, rs: seq<Record>, key: string)
    requires HasTables(b) && !IngestAll(Progress(b, NO_TALLY, false), rs).failed
    ensures key in IngestAll(Progress(b, NO_TALLY, false), rs).tally.events
            <==> exists i :: 0 <= i < |rs| && Fresh(b, rs, i) && Tells(rs[i], key)
  {
    hide IngestAll, Fresh, Tells;
    assert rs[..|rs|] == rs;
    EventsUpTo(Progress(b, NO_TALLY, false), rs, |rs|, key);
  }

  /** Each evaluated record is audited, in turn, and no other: audits and skipped records add up to the records taken. */
  lemma {:induction false} AuditsAreExactly(p: Progress, rs: seq<Record>)
    requires HasTables(p.books) && !IngestAll(p, rs).failed
    ensures var q := IngestAll(p, rs);
      && p.books.audits <= q.books.audits
      && |q.books.audits| + q.tally.skipped == |p.books.audits| + p.tally.skipped + |rs|
      && forall k :: |p.books.audits| <= k < |q.books.audits| ==> exists r :: r in rs && r.idem == q.books.audits[k]
  {
    if rs != [] {
      var n := |rs| - 1;
      FailureSticks(IngestAll(p, rs[..n]), rs[n]);
      AuditsAreExactly(p, rs[..n]);
      AuditAfterOne(IngestAll(p, rs[..n]), rs[n]);
      hide IngestOne;
      assert rs[n] in rs;
      assert forall r :: r in rs[..n] ==> r in rs;
    }
  }

  lemma AuditAfterOne(p: Progress, r: Record)
    requires HasTables(p.books) && !IngestOne(p, r).failed
    ensures var q := IngestOne(p, r);
      || (q.books.audits == p.books.audits && q.tally.skipped == p.tally.skipped + 1)
      || (q.books.audits == p.books.audits + [r.idem] && q.tally.skipped == p.tally.skipped)
  {
  }

  /** Alerts, fishing zones and observations that were not rejected are announced, each under its own name and lane. */
  lemma NoticesInPlainTerms(r: Record)
    ensures NoticeOf(r).Some? <==> r.quality in {Accepted, Quarantined} && r.table in {Alerts, Pfz, Observations}
    ensures NoticeOf(r).Some? ==>
      var n := NoticeOf(r).value;
      && n.key == (match r.table case Pfz => "event:pfz:" + r.idem case Observations => "event:obs:" + r.idem
                                 case _ => "event:" + r.idem)
      && (n.priority == WorkQueue.CriticalAlerts
          <==> r.table == Alerts && (r.kind in {Cyclone, Tsunami, StormSurge} || r.severity in {Severe, Extreme}))
      && (n.priority != WorkQueue.CriticalAlerts ==> n.priority == WorkQueue.NormalIngestion)
  {
    assert "event" + ":" + ("pfz" + ":" + r.idem) == "event:pfz:" + r.idem;
    assert "event" + ":" + ("obs" + ":" + r.idem) == "event:obs:" + r.idem;
    assert "event" + ":" + r.idem == "event:" + r.idem;
  }

  /** Cyclones go in as extreme alerts, tsunamis as extreme ones when they were so and severe ones otherwise. */
  lemma HazardAlertsInPlainTerms(cyclones: seq<Record>, tsunamis: seq<Record>)
    ensures var cs, ts := CycloneAlerts(cyclones), TsunamiAlerts(tsunamis);
      && (forall i :: 0 <= i < |cs| ==> cs[i] == cyclones[i].(table := Alerts, kind := Cyclone, severity := Extreme))
      && (forall i :: 0 <= i < |ts| && tsunamis[i].severity == Extreme ==>
            ts[i] == tsunamis[i].(table := Alerts, kind := Tsunami))
      && (forall i :: 0 <= i < |ts| && tsunamis[i].severity != Extreme ==>
            ts[i] == tsunamis[i].(table := Alerts, kind := Tsunami, severity := Severe))
  {
  }

  lemma TakeApart(rs: seq<Record>, a: seq<Record>, b: seq<Record>)
    requires |a| + |b| <= |rs| && rs[..|a| + |b|] == a + b
    ensures rs[..|a|] == a && rs[|a|..|a| + |b|] == b
  {
    var front := rs[..|a| + |b|];
    assert rs[..|a|] == front[..|a|] && rs[|a|..|a| + |b|] == front[|a|..];
  }

  /** The lists are taken in this order: each stands in its own stretch. */
  lemma OrderInPlainTerms(f: Fetch)
    ensures var rs := InOrder(f);
            var p, s := |f.alerts| + |f.pfz|, |f.alerts| + |f.pfz| + |f.stations|;
            var o, w := s + |f.zones|, s + |f.zones| + |f.observations|;
            var c, t := w + |f.forecasts|, w + |f.forecasts| + |f.cyclones|;
      && |rs| == t + |f.tsunamis|
      && rs[..|f.alerts|] == f.alerts && rs[|f.alerts|..p] == f.pfz && rs[p..s] == f.stations && rs[s..o] == f.zones
      && rs[o..w] == f.observations && rs[w..c] == f.forecasts
      && rs[c..t] == CycloneAlerts(f.cyclones) && rs[t..] == TsunamiAlerts(f.tsunamis)
  {
    var cyclones, tsunamis := CycloneAlerts(f.cyclones), TsunamiAlerts(f.tsunamis);
    hide CycloneAlerts, TsunamiAlerts;
    var rs := InOrder(f);
    var two := f.alerts + f.pfz;
    var four := two + f.stations + f.zones;
    var six := four + f.observations + f.forecasts;
    assert rs == six + cyclones + tsunamis && rs[..|rs|] == rs;
    TakeApart(rs, six + cyclones, tsunamis);
    TakeApart(rs, six, cyclones);
    TakeApart(rs, four + f.observations, f.forecasts);
    TakeApart(rs, four, f.observations);
    TakeApart(rs, two + f.stations, f.zones);
    TakeApart(rs, two, f.stations);
    TakeApart(rs, f.alerts, f.pfz);
  }

  /** Once a record raises nothing after it is looked at. */
  lemma {:induction false} NothingFollowsAFailure(p: Progress, rs: seq<Record>, qs: seq<Record>)
    requires HasTables(p.books) && IngestAll(p, rs).failed
    ensures IngestAll(p, rs + qs) == IngestAll(p, rs)
  {
    if qs == [] {
      assert rs + qs == rs;
    } else {
      var n := |qs| - 1;
      NothingFollowsAFailure(p, rs, qs[..n]);
      assert (rs + qs)[..|rs + qs| - 1] == rs + qs[..n];
    }
  }

  /** Cyclones and tsunamis always travel in the critical lane. */
  lemma HazardsAreCritical(f: Fetch, n: Notice)
    requires exists r :: (r in CycloneAlerts(f.cyclones) || r in TsunamiAlerts(f.tsunamis)) && NoticeOf(r) == Some(n)
    ensures n.priority == WorkQueue.CriticalAlerts
  {
  }

  /** A good copy of a record whose first copy was rejected is skipped: it is neither re-evaluated nor announced. */
  lemma RejectedCopyBlocksTheGoodOne(b: Books, idem: string, uid: string)
    requires HasTables(b) && idem !in b.rows[Alerts] && Field("event", idem) !in b.seen
    ensures var bad := Record(Alerts, idem, uid, Rejected, Cyclone, Extreme, false);
            var q := IngestAll(Progress(b, NO_TALLY, false), [bad, bad.(quality := Accepted)]);
      && q.tally == Tally(0, 1, 0, 1, []) && q.books.seen == b.seen && q.books.rows[Alerts] == b.rows[Alerts] + [idem]
  {
    var bad := Record(Alerts, idem, uid, Rejected, Cyclone, Extreme, false);
    var good := bad.(quality := Accepted);
    var p := Progress(b, NO_TALLY, false);
    assert [bad][..0] == [] && [bad, good][..1] == [bad];
    assert IngestAll(p, [bad]) == IngestOne(p, bad);
  }

  // ---------------------------------------------------------------- idempotence over records

  /** Everything in the one is in the other: rows and queue memory only grow. */
  ghost predicate Grows(b: Books, c: Books) {
    HasTables(b) && HasTables(c) && b.seen <= c.seen && forall t: Table, key :: key in b.rows[t] ==> key in c.rows[t]
  }

  /** Ingesting the record now would leave rows and queue alone, and would not raise. */
  ghost predicate Settled(b: Books, r: Record)
    requires HasTables(b)
  {
    if Keyed(r.table) then Stored(b, r) else !r.raises && (r.quality == Rejected || Stored(b, r))
  }

  lemma SettledPersists(b: Books, c: Books, r: Record)
    requires Grows(b, c) && Settled(b, r)
    ensures Settled(c, r)
  {
  }

  lemma EnterGrows(b: Books, r: Record)
    requires HasTables(b)
    ensures Grows(b, Enter(b, r)) && (AddsRow(b, r) ==> Stored(Enter(b, r), r))
  {
    forall t: Table, key | key in b.rows[t] ensures key in Enter(b, r).rows[t] {
      assert Enter(b, r).rows[t] == b.rows[t] || Enter(b, r).rows[t] == b.rows[t] + [RowKey(r)];
    }
  }

  lemma {:induction false} IngestAllGrows(p: Progress, rs: seq<Record>)
    requires HasTables(p.books)
    ensures Grows(p.books, IngestAll(p, rs).books)
  {
    if rs != [] {
      var n := |rs| - 1;
      IngestAllGrows(p, rs[..n]);
      var q := IngestAll(p, rs[..n]);
      EnterGrows(q.books, rs[n]);
    }
  }

  lemma {:induction false} IngestAllSettles(p: Progress, rs: seq<Record>)
    requires HasTables(p.books) && !IngestAll(p, rs).failed
    ensures forall r :: r in rs ==> Settled(IngestAll(p, rs).books, r)
  {
    if rs != [] {
      var n := |rs| - 1;
      IngestAllSettles(p, rs[..n]);
      var q := IngestAll(p, rs[..n]);
      EnterGrows(q.books, rs[n]);
      forall r | r in rs ensures Settled(IngestAll(p, rs).books, r) {
        if r != rs[n] {
          assert r in rs[..n];
          SettledPersists(q.books, IngestAll(p, rs).books, r);
        }
      }
    }
  }

  /** How many of the records are keyed; the others are upserted, and audited every time. */
  function KeyedCount(rs: seq<Record>): nat {
    if rs == [] then 0 else KeyedCount(rs[..|rs| - 1]) + if Keyed(rs[|rs| - 1].table) then 1 else 0
  }

  /** Settled records add no row and no notice; keyed ones are all skipped. */
  lemma {:induction false} SettledRecordsChangeNothing(p: Progress, rs: seq<Record>)
    requires HasTables(p.books) && !p.failed
    requires forall r :: r in rs ==> Settled(p.books, r)
    ensures var q := IngestAll(p, rs);
      && !q.failed && q.books == p.books.(audits := q.books.audits) && q.tally.events == p.tally.events
      && q.tally.skipped == p.tally.skipped + KeyedCount(rs)
  {
    if rs != [] {
      var n := |rs| - 1;
      SettledRecordsChangeNothing(p, rs[..n]);
      assert Settled(p.books, rs[n]);
    }
  }

  // ---------------------------------------------------------------- the whole store

  /** A dataset's status row, and the text of its last processing time. */
  datatype Held = Held(row: DatasetHealth.Row, processedAt: string)

  /** A dataset as ingestion creates it: disabled, never run, expected every six hours. */
  const NEW_ROW := DatasetHealth.Row(DatasetHealth.Disabled, 0, None, None, DatasetHealth.NotRun, Some(6 * 3600), None)
  const NEW_DATASET := Held(NEW_ROW, "None")

  /**
    * The books, the lineage (ingestion jobs, processing jobs and runs by payload checksum, assets by dataset and
    * location, and each processing job's identifier) and the dataset registry.
    */
  datatype Store = Store(books: Books, jobs: seq<string>, assets: seq<(string, string)>, procs: seq<string>,
                         runs: seq<string>, uids: map<string, string>, datasets: map<string, Held>)

  function EnsureDataset(s: Store, key: string): Store {
    if key in s.datasets then s else s.(datasets := s.datasets[key := NEW_DATASET])
  }

  /** Reuses the lineage of a payload that was ingested before, and creates what is missing. */
  function Open(s: Store, f: Fetch, uid: string): Store {
    var t := EnsureDataset(s, f.dataset);
    t.(jobs := AddIfMissing(s.jobs, f.checksum), assets := AddIfMissing(s.assets, (f.dataset, f.uri)),
       procs := AddIfMissing(s.procs, f.checksum), runs := AddIfMissing(s.runs, f.checksum),
       uids := if f.checksum in s.uids then s.uids else s.uids[f.checksum := uid])
  }

  function StatusText(status: DatasetHealth.Status): string {
    match status
    case Healthy => "healthy" case Stale => "stale" case Degraded => "degraded"
    case Failed => "failed" case Disabled => "disabled"
  }

  function JobNotice(uid: string, failed: bool): Notice {
    Notice(Field("event", Field(uid, if failed then "failed" else "completed")), WorkQueue.NormalIngestion)
  }

  function DatasetKey(key: string, status: DatasetHealth.Status, processedAt: string): string {
    Field("event", Field("dataset", Field(key, Field(StatusText(status), processedAt))))
  }

  function DatasetNotice(key: string, h: Held): Notice {
    Notice(DatasetKey(key, h.row.status, h.processedAt), WorkQueue.NormalIngestion)
  }

  /** The keys of notices about runs and datasets, spelled out. */
  lemma StatusKeysInPlainTerms(key: string, status: DatasetHealth.Status, processedAt: string)
    ensures DatasetKey(key, status, processedAt)
            == "event:dataset:" + key + ":"
               + (match status case Healthy => "healthy" case Stale => "stale" case Degraded => "degraded"
                               case Failed => "failed" case Disabled => "disabled")
               + ":" + processedAt
    ensures forall h: Held :: h.row.status == status && h.processedAt == processedAt ==>
              DatasetNotice(key, h) == Notice(DatasetKey(key, status, processedAt), WorkQueue.NormalIngestion)
  {
    hide Field;
    StatusKeyIsJoined(key, StatusText(status), processedAt);
  }

  lemma JobKeysInPlainTerms(uid: string)
    ensures JobNotice(uid, false) == Notice("event:" + uid + ":completed", WorkQueue.NormalIngestion)
    ensures JobNotice(uid, true) == Notice("event:" + uid + ":failed", WorkQueue.NormalIngestion)
  {
    assert Field("event", Field(uid, "completed")) == "event:" + uid + ":completed";
    assert Field("event", Field(uid, "failed")) == "event:" + uid + ":failed";
  }

  lemma StatusKeyIsJoined(key: string, text: string, processedAt: string)
    ensures Field("event", Field("dataset", Field(key, Field(text, processedAt))))
            == "event:dataset:" + key + ":" + text + ":" + processedAt
  {
  }

  /** The dataset after a run: only a success stamps the processing time. */
  function Closed(h: Held, f: Fetch, failed: bool, at: real, stamp: string): Held {
    if failed then Held(DatasetHealth.Step(h.row, DatasetHealth.IngestFailed(at), 0.0), h.processedAt)
    else Held(DatasetHealth.Step(h.row, DatasetHealth.Ingested(at, f.state, f.retrievedAt), 0.0), stamp)
  }

  /** Announces the outcome of the run, and the dataset's status when it changed. */
  function CloseBooks(b: Books, key: string, uid: string, failed: bool, was: Held, now: Held): Books {
    var told := Announce(b, JobNotice(uid, failed));
    if now.row.status == was.row.status then told else Announce(told, DatasetNotice(key, now))
  }

  function Close(s: Store, b: Books, failed: bool, f: Fetch, at: real, stamp: string): Store
    requires f.dataset in s.datasets && f.checksum in s.uids
  {
    var was := s.datasets[f.dataset];
    var now := Closed(was, f, failed, at, stamp);
    s.(books := CloseBooks(b, f.dataset, s.uids[f.checksum], failed, was, now),
       datasets := s.datasets[f.dataset := now])
  }

  /** All records of a fetch. */
  ghost function Records(b: Books, f: Fetch): Progress
    requires HasTables(b)
  {
    IngestAll(Progress(b, NO_TALLY, false), InOrder(f))
  }

  /** One ingest; `uid` is the identifier a new processing job gets, `stamp` the text of the processing time. */
  ghost function Ingest(s: Store, f: Fetch, uid: string, at: real, stamp: string): (t: Store)
    requires HasTables(s.books)
    ensures HasTables(t.books)
  {
    Close(Open(s, f, uid), Records(s.books, f).books, Records(s.books, f).failed, f, at, stamp)
  }

  /** A successful ingest accounts for every record of the fetch, once. */
  lemma FetchIsConserved(s: Store, f: Fetch)
    requires HasTables(s.books) && !Records(s.books, f).failed
    ensures var t := Records(s.books, f).tally; t.accepted + t.rejected + t.quarantined + t.skipped == RecordCount(f)
  {
    RecordsAreConserved(Progress(s.books, NO_TALLY, false), InOrder(f));
  }

  // ---------------------------------------------------------------- every reachable store

  datatype Action =
    | DoIngest(f: Fetch, uid: string, at: real, stamp: string)
    | DoSourceError(key: string, at: real, kind: DatasetHealth.ErrorKind)
    | DoSweep(at: real)

  /** A dataset record changed by one status event; nothing else moves. */
  function Changed(h: Held, e: DatasetHealth.Event, default: real): Held {
    h.(row := DatasetHealth.Step(h.row, e, default))
  }

  ghost function Act(s: Store, a: Action, default: real): (t: Store)
    requires HasTables(s.books)
    ensures HasTables(t.books)
  {
    match a
    case DoIngest(f, uid, at, stamp) => Ingest(s, f, uid, at, stamp)
    case DoSourceError(key, at, kind) =>
      var t := EnsureDataset(s, key);
      t.(datasets := t.datasets[key := Changed(t.datasets[key], DatasetHealth.SourceFailed(at, kind), default)])
    case DoSweep(at) =>
      s.(datasets := map key | key in s.datasets :: Changed(s.datasets[key], DatasetHealth.Swept(at), default))
  }

  ghost function Run(s: Store, actions: seq<Action>, default: real): (t: Store)
    requires HasTables(s.books)
    ensures HasTables(t.books)
  {
    if actions == [] then s else Act(Run(s, actions[..|actions| - 1], default), actions[|actions| - 1], default)
  }

  const NO_ROWS: map<Table, seq<string>> := map[Alerts := [], Pfz := [], Observations := [], Forecasts := [],
                                                Stations := [], Zones := []]

  lemma NoRowsHasTables()
    ensures forall t: Table :: t in NO_ROWS && NO_ROWS[t] == []
  {
    forall t: Table ensures t in NO_ROWS && NO_ROWS[t] == [] {
      match t
      case Alerts => case Pfz => case Observations => case Forecasts => case Stations => case Zones =>
    }
  }

  /** A store in which nothing was ingested yet, over a registry of datasets. */
  ghost function NewStore(registry: map<string, Held>): (s: Store)
    ensures HasTables(s.books)
  {
    NoRowsHasTables();
    Store(Books(NO_ROWS, [], {}, []), [], [], [], [], map[], registry)
  }

  /** Datasets as the registry seeds them, with any cadence, none of them processed yet. */
  ghost predicate Seeded(registry: map<string, Held>) {
    forall key :: key in registry ==> DatasetHealth.Registered(registry[key].row) && registry[key].processedAt == "None"
  }

  /** A dataset row that some history of the status machine leads to from a registered row. */
  ghost predicate Lived(r: DatasetHealth.Row, default: real) {
    exists origin, history :: DatasetHealth.Registered(origin) && r == DatasetHealth.Run(origin, history, default)
  }

  /** One row per key, one job, processing job and run per payload, one asset per location, lawful datasets. */
  ghost predicate Sound(s: Store, default: real) {
    && SoundBooks(s.books)
    && NoDuplicates(s.jobs) && s.procs == s.jobs && s.runs == s.jobs && NoDuplicates(s.assets)
    && (forall c :: c in s.uids <==> c in s.jobs)
    && (forall key :: key in s.datasets ==> Lived(s.datasets[key].row, default))
  }

  lemma StepLives(r: DatasetHealth.Row, e: DatasetHealth.Event, default: real)
    requires Lived(r, default)
    ensures Lived(DatasetHealth.Step(r, e, default), default)
  {
    var origin, history :| DatasetHealth.Registered(origin) && r == DatasetHealth.Run(origin, history, default);
    assert (history + [e])[..|history|] == history;
    assert DatasetHealth.Run(origin, history + [e], default) == DatasetHealth.Step(r, e, default);
  }

  lemma RegisteredLives(r: DatasetHealth.Row, default: real)
    requires DatasetHealth.Registered(r)
    ensures Lived(r, default)
  {
    assert DatasetHealth.Run(r, [], default) == r;
  }

  lemma AddIfMissingKeepsDistinct<T>(xs: seq<T>, x: T)
    requires NoDuplicates(xs)
    ensures NoDuplicates(AddIfMissing(xs, x))
    ensures forall y :: y in AddIfMissing(xs, x) <==> y in xs || y == x
  {
  }

  lemma CloseBooksKeepsSound(b: Books, key: string, uid: string, failed: bool, was: Held, now: Held)
    requires SoundBooks(b)
    ensures SoundBooks(CloseBooks(b, key, uid, failed, was, now))
  {
    AnnounceKeepsBooksSound(b, JobNotice(uid, failed));
    AnnounceKeepsBooksSound(Announce(b, JobNotice(uid, failed)), DatasetNotice(key, now));
  }

  lemma OpenKeepsSound(s: Store, f: Fetch, uid: string, default: real)
    requires Sound(s, default)
    ensures Sound(Open(s, f, uid), default)
  {
    RegisteredLives(NEW_ROW, default);
    AddIfMissingKeepsDistinct(s.jobs, f.checksum);
    AddIfMissingKeepsDistinct(s.assets, (f.dataset, f.uri));
  }

  lemma ClosedLives(h: Held, f: Fetch, failed: bool, at: real, stamp: string, default: real)
    requires Lived(h.row, default)
    ensures Lived(Closed(h, f, failed, at, stamp).row, default)
  {
    StepLives(h.row, if failed then DatasetHealth.IngestFailed(at)
                     else DatasetHealth.Ingested(at, f.state, f.retrievedAt), default);
  }

  lemma CloseKeepsSound(s: Store, b: Books, failed: bool, f: Fetch, at: real, stamp: string, default: real)
    requires Sound(s, default) && SoundBooks(b) && f.dataset in s.datasets && f.checksum in s.uids
    ensures Sound(Close(s, b, failed, f, at, stamp), default)
  {
    var was := s.datasets[f.dataset];
    CloseBooksKeepsSound(b, f.dataset, s.uids[f.checksum], failed, was, Closed(was, f, failed, at, stamp));
    ClosedLives(was, f, failed, at, stamp, default);
  }

  lemma IngestKeepsSound(s: Store, f: Fetch, uid: string, at: real, stamp: string, default: real)
    requires Sound(s, default)
    ensures Sound(Ingest(s, f, uid, at, stamp), default)
  {
    IngestKeepsBooksSound(Progress(s.books, NO_TALLY, false), InOrder(f));
    OpenKeepsSound(s, f, uid, default);
    CloseKeepsSound(Open(s, f, uid), Records(s.books, f).books, Records(s.books, f).failed, f, at, stamp, default);
  }

  lemma ActKeepsSound(s: Store, a: Action, default: real)
    requires Sound(s, default)
    ensures Sound(Act(s, a, default), default)
  {
    match a
    case DoIngest(f, uid, at, stamp) => IngestKeepsSound(s, f, uid, at, stamp, default);
    case DoSourceError(key, at, kind) =>
      RegisteredLives(NEW_ROW, default);
      StepLives(EnsureDataset(s, key).datasets[key].row, DatasetHealth.SourceFailed(at, kind), default);
    case DoSweep(at) =>
      forall key | key in s.datasets ensures Lived(Act(s, a, default).datasets[key].row, default) {
        StepLives(s.datasets[key].row, DatasetHealth.Swept(at), default);
      }
  }

  lemma NewStoreIsSound(registry: map<string, Held>, default: real)
    requires Seeded(registry)
    ensures Sound(NewStore(registry), default)
  {
    NoRowsHasTables();
    forall key | key in registry ensures Lived(registry[key].row, default) {
      RegisteredLives(registry[key].row, default);
    }
  }

  /** Every store that ingests, source errors and sweeps can produce from a seeded registry is sound. */
  lemma {:induction false} EveryReachableStoreIsSound(registry: map<string, Held>, actions: seq<Action>, default: real)
    requires Seeded(registry)
    ensures Sound(Run(NewStore(registry), actions, default), default)
  {
    NewStoreIsSound(registry, default);
    if actions != [] {
      EveryReachableStoreIsSound(registry, actions[..|actions| - 1], default);
      ActKeepsSound(Run(NewStore(registry), actions[..|actions| - 1], default), actions[|actions| - 1], default);
    }
  }

  /** So the failure counters and live statuses of all datasets obey the status machine. */
  lemma ReachableDatasetsAreVouched(registry: map<string, Held>, actions: seq<Action>, default: real, key: string)
    requires Seeded(registry) && key in Run(NewStore(registry), actions, default).datasets
    ensures DatasetHealth.Vouched(Run(NewStore(registry), actions, default).datasets[key].row)
  {
    EveryReachableStoreIsSound(registry, actions, default);
    var r := Run(NewStore(registry), actions, default).datasets[key].row;
    var origin, history :| DatasetHealth.Registered(origin) && r == DatasetHealth.Run(origin, history, default);
    DatasetHealth.LiveStatusIsVouched(origin, history, default);
  }

  // ---------------------------------------------------------------- idempotence over whole runs

  /** The fetch was ingested with success at some point of the past. */
  ghost predicate Known(s: Store, f: Fetch) {
    && HasTables(s.books) && (forall r :: r in InOrder(f) ==> Settled(s.books, r))
    && f.checksum in s.jobs && f.checksum in s.procs && f.checksum in s.runs && (f.dataset, f.uri) in s.assets
    && f.dataset in s.datasets && f.checksum in s.uids
    && JobNotice(s.uids[f.checksum], false).key in s.books.seen
  }

  lemma CloseBooksGrows(b: Books, key: string, uid: string, failed: bool, was: Held, now: Held)
    requires HasTables(b)
    ensures Grows(b, CloseBooks(b, key, uid, failed, was, now))
    ensures JobNotice(uid, failed).key in CloseBooks(b, key, uid, failed, was, now).seen
    ensures CloseBooks(b, key, uid, failed, was, now).rows == b.rows
  {
  }

  lemma SuccessMakesKnown(s: Store, f: Fetch, uid: string, at: real, stamp: string)
    requires HasTables(s.books) && !Records(s.books, f).failed
    ensures Known(Ingest(s, f, uid, at, stamp), f)
  {
    var p := Records(s.books, f);
    IngestAllSettles(Progress(s.books, NO_TALLY, false), InOrder(f));
    var o := Open(s, f, uid);
    var now := Closed(o.datasets[f.dataset], f, false, at, stamp);
    CloseBooksGrows(p.books, f.dataset, o.uids[f.checksum], false, o.datasets[f.dataset], now);
    forall r | r in InOrder(f) ensures Settled(Ingest(s, f, uid, at, stamp).books, r) {
      SettledPersists(p.books, Ingest(s, f, uid, at, stamp).books, r);
    }
  }

  lemma IngestGrows(s: Store, g: Fetch, uid: string, at: real, stamp: string)
    requires HasTables(s.books)
    ensures Grows(s.books, Ingest(s, g, uid, at, stamp).books)
  {
    IngestAllGrows(Progress(s.books, NO_TALLY, false), InOrder(g));
    var p := Records(s.books, g);
    var o := Open(s, g, uid);
    CloseBooksGrows(p.books, g.dataset, o.uids[g.checksum], p.failed, o.datasets[g.dataset],
                    Closed(o.datasets[g.dataset], g, p.failed, at, stamp));
  }

  /** Nothing that happens later, failed ingests included, makes a known fetch unknown. */
  lemma KnownPersists(s: Store, f: Fetch, a: Action, default: real)
    requires Known(s, f)
    ensures Known(Act(s, a, default), f)
  {
    if a.DoIngest? {
      IngestGrows(s, a.f, a.uid, a.at, a.stamp);
      forall r | r in InOrder(f) ensures Settled(Act(s, a, default).books, r) {
        SettledPersists(s.books, Act(s, a, default).books, r);
      }
    }
  }

  lemma {:induction false} KnownPersistsOverRuns(s: Store, f: Fetch, actions: seq<Action>, default: real)
    requires Known(s, f)
    ensures Known(Run(s, actions, default), f)
  {
    if actions != [] {
      KnownPersistsOverRuns(s, f, actions[..|actions| - 1], default);
      KnownPersists(Run(s, actions[..|actions| - 1], default), f, actions[|actions| - 1], default);
    }
  }

  /**
    * Ingesting a known fetch again succeeds and adds no row, job, run or asset; only audits of stations and zones and
    * the dataset's own row move. The work queue is untouched exactly when the status stays or was announced before.
    */
  lemma ReingestingAddsNothing(s: Store, f: Fetch, uid: string, at: real, stamp: string)
    requires Known(s, f)
    ensures var t, p := Ingest(s, f, uid, at, stamp), Records(s.books, f);
            var now := Closed(s.datasets[f.dataset], f, false, at, stamp);
      && !p.failed && p.tally.events == [] && p.tally.skipped == KeyedCount(InOrder(f))
      && t.books.rows == s.books.rows
      && t == s.(books := t.books, datasets := s.datasets[f.dataset := now])
      && (t.books.admitted == s.books.admitted && t.books.seen == s.books.seen <==>
            now.row.status == s.datasets[f.dataset].row.status || DatasetNotice(f.dataset, now).key in s.books.seen)
  {
    SettledRecordsChangeNothing(Progress(s.books, NO_TALLY, false), InOrder(f));
  }

  /**
    * A successful ingest, then any run at all, then the same fetch again: nothing is added, and while the dataset's
    * status is the one the fetch gives, the work queue is left alone.
    */
  lemma IngestionIsIdempotent(s: Store, f: Fetch, uid: string, at: real, stamp: string, between: seq<Action>,
                              uid': string, at': real, stamp': string, default: real)
    requires HasTables(s.books) && !Records(s.books, f).failed
    ensures var t := Run(Ingest(s, f, uid, at, stamp), between, default);
            var again := Ingest(t, f, uid', at', stamp');
      && f.dataset in t.datasets && !Records(t.books, f).failed
      && again.books.rows == t.books.rows && again.jobs == t.jobs && again.procs == t.procs && again.runs == t.runs
      && again.assets == t.assets && again.uids == t.uids
      && (again.datasets[f.dataset].row.status == t.datasets[f.dataset].row.status ==>
            again.books.seen == t.books.seen && again.books.admitted == t.books.admitted)
  {
    SuccessMakesKnown(s, f, uid, at, stamp);
    KnownPersistsOverRuns(Ingest(s, f, uid, at, stamp), f, between, default);
    ReingestingAddsNothing(Run(Ingest(s, f, uid, at, stamp), between, default), f, uid', at', stamp');
  }

  /**
    * A failure notice is keyed by the last processing time, which failures do not move. A dataset that fails, is then
    * reported blocked by its source, and fails again, announces the second failure under the first one's key: the
    * queue drops it.
    */
  lemma SecondFailureGoesUnannounced(f: Fetch, uid: string)
    requires InOrder(f) == [Record(Alerts, "k", "u", Accepted, OtherEvent, LesserSeverity, true)]
    ensures var failedOnce := Ingest(NewStore(map[]), f, uid, 1.0, "1");
            var blocked := Act(failedOnce, DoSourceError(f.dataset, 2.0, DatasetHealth.AuthBlocked), 3.0);
            var failedTwice := Ingest(blocked, f, uid, 3.0, "3");
      && failedOnce.datasets[f.dataset].row.status == DatasetHealth.Failed
      && blocked.datasets[f.dataset].row.status == DatasetHealth.Degraded
      && failedTwice.datasets[f.dataset].row.status == DatasetHealth.Failed
      && failedTwice.books.admitted == blocked.books.admitted
  {
    NoRowsHasTables();
    var r := Record(Alerts, "k", "u", Accepted, OtherEvent, LesserSeverity, true);
    assert [r][..0] == [];
    FirstRaises(Progress(NewStore(map[]).books, NO_TALLY, false), r);
    var failedOnce := Ingest(NewStore(map[]), f, uid, 1.0, "1");
    FirstRaises(Progress(failedOnce.books, NO_TALLY, false), r);
  }

  lemma FirstRaises(p: Progress, r: Record)
    requires HasTables(p.books) && !p.failed && !Skips(p.books, r) && r.raises
    ensures IngestAll(p, [r]) == p.(failed := true)
  {
    assert [r][..0] == [];
    assert IngestAll(p, []) == p;
  }

  // ---------------------------------------------------------------- exactly which status changes are announced

  /** Hashes, job identifiers and dataset keys never contain a colon. */
  predicate ColonFree(s: string) { ':' !in s }

  lemma FieldInjective(a: string, x: string, b: string, y: string)
    requires ColonFree(a) && ColonFree(b)
    ensures Field(a, x) == Field(b, y) <==> a == b && x == y
  {
    var s, t := Field(a, x), Field(b, y);
    assert s[|a|] == ':' && t[|b|] == ':';
    assert |a| < |b| ==> t[|a|] == b[|a|];
    assert |b| < |a| ==> s[|b|] == a[|b|];
    if s == t {
      assert a == s[..|a|] && b == t[..|b|] && x == s[|a| + 1..] && y == t[|b| + 1..];
    }
  }

  lemma FieldHasColon(a: string, x: string)
    ensures !ColonFree(Field(a, x))
  {
    assert Field(a, x)[|a|] == ':';
  }

  lemma StatusTextInjective(s: DatasetHealth.Status, t: DatasetHealth.Status)
    ensures ColonFree(StatusText(s)) && (StatusText(s) == StatusText(t) <==> s == t)
  {
  }

  /** Dataset keys differ from one another, ... */
  lemma DatasetKeyInjective(k: string, s: DatasetHealth.Status, p: string, l: string, t: DatasetHealth.Status, q: string)
    requires ColonFree(k) && ColonFree(l)
    ensures DatasetKey(k, s, p) == DatasetKey(l, t, q) <==> k == l && s == t && p == q
  {
    hide Field, StatusText, ColonFree;
    NamesAreColonFree();
    StatusTextInjective(s, t);
    StatusTextInjective(t, s);
    var u, v := Field(StatusText(s), p), Field(StatusText(t), q);
    FieldInjective(StatusText(s), p, StatusText(t), q);
    FieldInjective(k, u, l, v);
    FieldInjective("dataset", Field(k, u), "dataset", Field(l, v));
    FieldInjective("event", Field("dataset", Field(k, u)), "event", Field("dataset", Field(l, v)));
  }

  lemma NamesAreColonFree()
    ensures ColonFree("event") && ColonFree("dataset") && ColonFree("pfz") && ColonFree("obs")
    ensures ColonFree("failed") && ColonFree("completed")
  {
  }

  /** ... from the keys of runs, ... */
  lemma DatasetKeyIsNoJobKey(k: string, s: DatasetHealth.Status, p: string, uid: string, failed: bool)
    requires ColonFree(k) && ColonFree(uid)
    ensures DatasetKey(k, s, p) != JobNotice(uid, failed).key
  {
    hide Field, StatusText, ColonFree;
    NamesAreColonFree();
    var rest, word := Field(k, Field(StatusText(s), p)), if failed then "failed" else "completed";
    FieldHasColon(k, Field(StatusText(s), p));
    FieldInjective("dataset", rest, uid, word);
    FieldInjective("event", Field("dataset", rest), "event", Field(uid, word));
  }

  /** ... and from the keys of records. */
  lemma DatasetKeyIsNoRecordKey(k: string, s: DatasetHealth.Status, p: string, r: Record)
    requires ColonFree(r.idem)
    ensures !Tells(r, DatasetKey(k, s, p))
  {
    var rest := Field(k, Field(StatusText(s), p));
    assert "dataset" != "pfz" && "dataset" != "obs" by { assert |"dataset"| != |"pfz"|; }
    hide Field, StatusText, ColonFree;
    NamesAreColonFree();
    FieldHasColon("dataset", rest);
    FieldInjective("event", Field("dataset", rest), "event", r.idem);
    FieldInjective("dataset", rest, "pfz", r.idem);
    FieldInjective("dataset", rest, "obs", r.idem);
    FieldInjective("event", Field("dataset", rest), "event", Field("pfz", r.idem));
    FieldInjective("event", Field("dataset", rest), "event", Field("obs", r.idem));
  }

  /** The identifiers an action brings are colon-free. */
  ghost predicate Plain(a: Action) {
    a.DoIngest? ==> ColonFree(a.uid) && ColonFree(a.f.dataset) && forall r :: r in InOrder(a.f) ==> ColonFree(r.idem)
  }

  ghost predicate PlainUids(s: Store) { forall c :: c in s.uids ==> ColonFree(s.uids[c]) }

  /** The action is an ingest, failed or not, that turns the dataset's status into this one under this stamp. */
  ghost predicate Turns(s: Store, a: Action, default: real, key: string, status: DatasetHealth.Status, stamp: string)
    requires HasTables(s.books)
  {
    && a.DoIngest? && a.f.dataset == key
    && var was, now := EnsureDataset(s, key).datasets[key], Act(s, a, default).datasets[key];
       now.row.status == status && now.processedAt == stamp && was.row.status != status
  }

  lemma {:induction false} RecordsTellNoStatus(b: Books, rs: seq<Record>, key: string, status: DatasetHealth.Status,
                                               stamp: string, n: nat)
    requires HasTables(b) && n <= |rs| && forall r :: r in rs ==> ColonFree(r.idem)
    ensures DatasetKey(key, status, stamp) in IngestAll(Progress(b, NO_TALLY, false), rs[..n]).books.seen
            <==> DatasetKey(key, status, stamp) in b.seen
  {
    hide Tells, DatasetKey, IngestOne, ColonFree;
    if n == 0 {
      assert rs[..n] == [];
    } else {
      var p := Progress(b, NO_TALLY, false);
      RecordsTellNoStatus(b, rs, key, status, stamp, n - 1);
      IngestAllStep(p, rs, n - 1);
      assert rs[n - 1] in rs;
      DatasetKeyIsNoRecordKey(key, status, stamp, rs[n - 1]);
      SilentRecord(IngestAll(p, rs[..n - 1]), rs[n - 1], DatasetKey(key, status, stamp));
    }
  }

  lemma SilentRecord(p: Progress, r: Record, key: string)
    requires HasTables(p.books) && !Tells(r, key)
    ensures key in IngestOne(p, r).books.seen <==> key in p.books.seen
  {
  }

  lemma RecordsKeepStatusKeys(b: Books, f: Fetch, key: string, status: DatasetHealth.Status, stamp: string)
    requires HasTables(b) && forall r :: r in InOrder(f) ==> ColonFree(r.idem)
    ensures DatasetKey(key, status, stamp) in Records(b, f).books.seen <==> DatasetKey(key, status, stamp) in b.seen
  {
    hide DatasetKey, ColonFree, IngestAll;
    var rs := InOrder(f);
    RecordsTellNoStatus(b, rs, key, status, stamp, |rs|);
    assert rs[..|rs|] == rs;
  }

  lemma CloseTellsStatus(b: Books, k: string, uid: string, failed: bool, was: Held, now: Held,
                         key: string, status: DatasetHealth.Status, stamp: string)
    requires ColonFree(k) && ColonFree(uid) && ColonFree(key)
    ensures DatasetKey(key, status, stamp) in CloseBooks(b, k, uid, failed, was, now).seen
            <==> DatasetKey(key, status, stamp) in b.seen
                 || (k == key && now.row.status == status && now.processedAt == stamp && was.row.status != status)
  {
    hide DatasetKey, ColonFree;
    DatasetKeyIsNoJobKey(key, status, stamp, uid, failed);
    DatasetKeyInjective(key, status, stamp, k, now.row.status, now.processedAt);
  }

  lemma OtherActionsTellNothing(s: Store, a: Action, default: real)
    requires HasTables(s.books) && !a.DoIngest?
    ensures Act(s, a, default).books == s.books && Act(s, a, default).uids == s.uids
  {
  }

  /** One action adds the notice of a status exactly when it turns the dataset to that status under that stamp. */
  lemma StatusKeyAfterAct(s: Store, a: Action, default: real, key: string, status: DatasetHealth.Status, stamp: string)
    requires HasTables(s.books) && PlainUids(s) && Plain(a) && ColonFree(key)
    ensures PlainUids(Act(s, a, default))
    ensures DatasetKey(key, status, stamp) in Act(s, a, default).books.seen
            <==> DatasetKey(key, status, stamp) in s.books.seen || Turns(s, a, default, key, status, stamp)
  {
    hide DatasetKey, ColonFree, Records, InOrder, CloseBooks, Closed;
    if a.DoIngest? {
      var f, o := a.f, Open(s, a.f, a.uid);
      var p, was := Records(s.books, f), o.datasets[f.dataset];
      RecordsKeepStatusKeys(s.books, f, key, status, stamp);
      CloseTellsStatus(p.books, f.dataset, o.uids[f.checksum], p.failed, was, Closed(was, f, p.failed, a.at, a.stamp),
                       key, status, stamp);
    } else {
      OtherActionsTellNothing(s, a, default);
    }
  }

  /** The store after the first `n` actions. */
  ghost function StoreAfter(registry: map<string, Held>, actions: seq<Action>, n: nat, default: real): (s: Store)
    requires n <= |actions|
    ensures HasTables(s.books)
  {
    Run(NewStore(registry), actions[..n], default)
  }

  /** Some ingest among the first `n` actions turned the dataset to this status under this stamp. */
  ghost predicate Turned(registry: map<string, Held>, actions: seq<Action>, n: nat, default: real,
                         key: string, status: DatasetHealth.Status, stamp: string)
    requires n <= |actions|
  {
    exists i :: 0 <= i < n && Turns(StoreAfter(registry, actions, i, default), actions[i], default, key, status, stamp)
  }

  lemma StoreAfterNext(registry: map<string, Held>, actions: seq<Action>, n: nat, default: real)
    requires n < |actions|
    ensures StoreAfter(registry, actions, n + 1, default)
            == Act(StoreAfter(registry, actions, n, default), actions[n], default)
  {
    hide Act, NewStore;
    assert actions[..n + 1][..n] == actions[..n];
  }

  lemma TurnedNext(registry: map<string, Held>, actions: seq<Action>, n: nat, default: real,
                   key: string, status: DatasetHealth.Status, stamp: string)
    requires n < |actions|
    ensures Turned(registry, actions, n + 1, default, key, status, stamp) <==>
            || Turned(registry, actions, n, default, key, status, stamp)
            || Turns(StoreAfter(registry, actions, n, default), actions[n], default, key, status, stamp)
  {
    hide Turns, StoreAfter;
  }

  lemma NothingIsKnown(registry: map<string, Held>, actions: seq<Action>, default: real, key: string)
    ensures PlainUids(StoreAfter(registry, actions, 0, default))
    ensures key !in StoreAfter(registry, actions, 0, default).books.seen
  {
    assert actions[..0] == [];
  }

  /** Over every run: a status notice is known exactly when some ingest of the run turned the dataset so. */
  lemma {:induction false} StatusNoticesExactly(registry: map<string, Held>, actions: seq<Action>, n: nat, default: real,
                                                key: string, status: DatasetHealth.Status, stamp: string)
    requires n <= |actions| && ColonFree(key) && forall a :: a in actions ==> Plain(a)
    ensures PlainUids(StoreAfter(registry, actions, n, default))
    ensures DatasetKey(key, status, stamp) in StoreAfter(registry, actions, n, default).books.seen
            <==> Turned(registry, actions, n, default, key, status, stamp)
  {
    hide DatasetKey, ColonFree, Turns, Plain, PlainUids, StoreAfter, Act;
    if n == 0 {
      NothingIsKnown(registry, actions, default, DatasetKey(key, status, stamp));
    } else {
      hide Turned;
      StatusNoticesExactly(registry, actions, n - 1, default, key, status, stamp);
      assert actions[n - 1] in actions;
      StoreAfterNext(registry, actions, n - 1, default);
      TurnedNext(registry, actions, n - 1, default, key, status, stamp);
      StatusKeyAfterAct(StoreAfter(registry, actions, n - 1, default), actions[n - 1], default, key, status, stamp);
    }
  }

  /** What the queue has admitted of an ingest before its dataset's status is announced. */
  ghost function AdmittedBeforeStatus(s: Store, f: Fetch, uid: string): seq<Notice>
    requires HasTables(s.books)
  {
    var p := Records(s.books, f);
    Announce(p.books, JobNotice(Open(s, f, uid).uids[f.checksum], p.failed)).admitted
  }

  /** A status change by an ingest, failed or not, is announced exactly when its notice is not known to the queue. */
  lemma StatusChangeIsAnnouncedUnlessKnown(s: Store, a: Action, default: real)
    requires HasTables(s.books) && PlainUids(s) && a.DoIngest? && Plain(a)
    ensures var key, t := a.f.dataset, Act(s, a, default);
            var was, now := EnsureDataset(s, key).datasets[key], t.datasets[key];
      was.row.status != now.row.status ==>
        t.books.admitted == AdmittedBeforeStatus(s, a.f, a.uid)
          + if DatasetKey(key, now.row.status, now.processedAt) in s.books.seen then [] else [DatasetNotice(key, now)]
  {
    var key, o := a.f.dataset, Open(s, a.f, a.uid);
    var p, was := Records(s.books, a.f), o.datasets[key];
    var now := Closed(was, a.f, p.failed, a.at, a.stamp);
    RecordsKeepStatusKeys(s.books, a.f, key, now.row.status, now.processedAt);
    hide DatasetKey, ColonFree, Records, InOrder, Closed;
    if was.row.status != now.row.status {
      AppendsUnlessKnown(p.books, key, o.uids[a.f.checksum], p.failed, was, now);
    }
  }

  /**
    * In every run a status change by an ingest, failed or not, is announced exactly when no earlier ingest of the run
    * had turned the dataset to that status under the same processing time.
    */
  lemma StatusChangeIsAnnouncedExactly(registry: map<string, Held>, actions: seq<Action>, default: real, a: Action)
    requires (forall b :: b in actions ==> Plain(b)) && Plain(a) && a.DoIngest?
    ensures var s, key := StoreAfter(registry, actions, |actions|, default), a.f.dataset;
            var t := Act(s, a, default);
            var was, now := EnsureDataset(s, key).datasets[key], t.datasets[key];
      was.row.status != now.row.status ==>
        t.books.admitted == AdmittedBeforeStatus(s, a.f, a.uid)
          + if Turned(registry, actions, |actions|, default, key, now.row.status, now.processedAt)
            then [] else [DatasetNotice(key, now)]
  {
    var s, key := StoreAfter(registry, actions, |actions|, default), a.f.dataset;
    var now := Act(s, a, default).datasets[key];
    StatusNoticesExactly(registry, actions, |actions|, default, key, now.row.status, now.processedAt);
    StatusChangeIsAnnouncedUnlessKnown(s, a, default);
  }

  lemma AppendsUnlessKnown(b: Books, k: string, uid: string, failed: bool, was: Held, now: Held)
    requires ColonFree(k) && ColonFree(uid) && was.row.status != now.row.status
    ensures CloseBooks(b, k, uid, failed, was, now).admitted
            == Announce(b, JobNotice(uid, failed)).admitted
               + if DatasetKey(k, now.row.status, now.processedAt) in b.seen then [] else [DatasetNotice(k, now)]
  {
    hide DatasetKey, ColonFree;
    DatasetKeyIsNoJobKey(k, now.row.status, now.processedAt, uid, failed);
  }
}
