/** The ingestion service over its stored rows, dataset objects and work queue. */
module IngestionService {
  import opened Wrappers
  import opened Ingestion
  import DatasetHealth
  import WorkQueue

  /** The queue grew by messages for exactly the notices admitted in between, in order and lane, with five attempts each. */
  ghost predicate Follows(before: seq<WorkQueue.Message>, after: seq<WorkQueue.Message>,
                          known: seq<Notice>, admitted: seq<Notice>) {
    && before <= after && known <= admitted && |after| - |before| == |admitted| - |known|
    && forall i :: |known| <= i < |admitted| ==>
         var m := after[|before| - |known| + i]; admitted[i] == Notice(m.key, m.priority) && m.maxAttempts == 5
  }

  lemma FollowsInTurn(a: seq<WorkQueue.Message>, b: seq<WorkQueue.Message>, c: seq<WorkQueue.Message>,
                      u: seq<Notice>, v: seq<Notice>, w: seq<Notice>)
    requires Follows(a, b, u, v) && Follows(b, c, v, w)
    ensures Follows(a, c, u, w)
  {
    forall i | |u| <= i < |w|
      ensures w[i] == Notice(c[|a| - |u| + i].key, c[|a| - |u| + i].priority) && c[|a| - |u| + i].maxAttempts == 5
    {
      if i < |v| { assert w[i] == v[i] && c[|a| - |u| + i] == b[|a| - |u| + i]; }
    }
  }

  /** Records after one that raised are not looked at. */
  lemma {:induction false} IngestStops(p: Progress, rs: seq<Record>, i: nat)
    requires HasTables(p.books) && i <= |rs| && (i == |rs| || IngestAll(p, rs[..i]).failed)
    ensures IngestAll(p, rs) == IngestAll(p, rs[..i])
    decreases |rs| - i
  {
    if i == |rs| {
      assert rs[..i] == rs;
    } else {
      IngestAllStep(p, rs, i);
      IngestStops(p, rs, i + 1);
    }
  }

  function Flat(lists: seq<seq<Record>>): seq<Record> {
    if lists == [] then [] else Flat(lists[..|lists| - 1]) + lists[|lists| - 1]
  }

  lemma FlatOfEight(a: seq<Record>, b: seq<Record>, c: seq<Record>, d: seq<Record>, e: seq<Record>, f: seq<Record>,
                    g: seq<Record>, h: seq<Record>)
    ensures Flat([a, b, c, d, e, f, g, h]) == a + b + c + d + e + f + g + h
  {
    FlatOfMore([], a);
    FlatOfMore([a], b);
    FlatOfMore([a, b], c);
    FlatOfMore([a, b, c], d);
    assert [] + [a] == [a] && [a] + [b] == [a, b] && [a, b] + [c] == [a, b, c] && [a, b, c] + [d] == [a, b, c, d];
    FlatOfMore([a, b, c, d], e);
    FlatOfMore([a, b, c, d, e], f);
    FlatOfMore([a, b, c, d, e, f], g);
    FlatOfMore([a, b, c, d, e, f, g], h);
    assert [a, b, c, d] + [e] == [a, b, c, d, e] && [a, b, c, d, e] + [f] == [a, b, c, d, e, f];
    assert [a, b, c, d, e, f] + [g] == [a, b, c, d, e, f, g];
    assert [a, b, c, d, e, f, g] + [h] == [a, b, c, d, e, f, g, h];
    assert Flat([a]) == a;
  }

  lemma FlatOfMore(lists: seq<seq<Record>>, last: seq<Record>)
    ensures Flat(lists + [last]) == Flat(lists) + last
  {
    assert (lists + [last])[..|lists|] == lists;
  }

  class Service {
    var rows: map<Table, seq<string>>
    var audits: seq<string>
    var jobs: seq<string>
    var assets: seq<(string, string)>
    var procs: seq<string>
    var runs: seq<string>
    var uids: map<string, string>
    var datasets: map<string, DatasetHealth.Dataset>
    const queue: WorkQueue.InMemoryQueue
    ghost var admitted: seq<Notice>

    ghost function BooksView(): Books
      reads this, queue`seen
    {
      Books(rows, audits, queue.seen, admitted)
    }

    ghost function Registry(): map<string, Held>
      reads `datasets, datasets.Values
    {
      map key | key in datasets :: Held(datasets[key].Value(), datasets[key].processedAt)
    }

    ghost function View(): Store
      reads this, queue`seen, datasets.Values
    {
      Store(BooksView(), jobs, assets, procs, runs, uids, Registry())
    }

    /** Each table exists, and each dataset stands under its own key. */
    ghost predicate Shelved()
      reads `rows, `datasets
    {
      (forall t: Table :: t in rows) && forall key :: key in datasets ==> datasets[key].key == key
    }

    /** Exactly the processing jobs have identifiers. */
    ghost predicate Traced()
      reads `uids, `procs
    {
      forall c :: c in uids <==> c in procs
    }

    ghost predicate Valid()
      reads this, queue, queue.pending, queue.dead
    {
      queue.Valid() && Shelved() && Traced()
    }

    constructor (queue: WorkQueue.InMemoryQueue, registry: map<string, DatasetHealth.Dataset>)
      requires queue.Valid() && forall key :: key in registry ==> registry[key].key == key
      ensures Valid() && this.queue == queue && datasets == registry
      ensures View() == NewStore(Registry()).(books := NewStore(Registry()).books.(seen := queue.seen))
    {
      rows, audits := NO_ROWS, [];
      jobs, assets, procs, runs, uids, datasets := [], [], [], [], map[], registry;
      this.queue := queue;
      admitted := [];
      new;
      NoRowsHasTables();
    }

    /** Publishes one notice; the queue drops it when its key was seen. */
    method Offer(n: Notice, at: real)
      requires Valid()
      modifies queue, `admitted
      ensures Valid()
      ensures BooksView() == Announce(old(BooksView()), n)
      ensures Follows(old(queue.pending), queue.pending, old(admitted), admitted)
      ensures queue.dead == old(queue.dead)
    {
      hide WorkQueue.Conserved;
      var id: string := *;
      var msg := queue.PublishMessage(n.priority, n.key, n.key, 5, id, at, at);
      if msg != null {
        admitted := admitted + [n];
      }
    }

    /** Audits a record, stores it when its key is new to its table, and offers its notice. */
    method Keep(r: Record, tally: Tally, at: real) returns (counted: Tally)
      requires Valid() && !Skips(BooksView(), r) && !r.raises
      modifies this`rows, this`audits, this`admitted, queue
      ensures Valid()
      ensures Progress(BooksView(), counted, false) == IngestOne(Progress(old(BooksView()), tally, false), r)
      ensures Follows(old(queue.pending), queue.pending, old(admitted), admitted)
      ensures queue.dead == old(queue.dead)
    {
      counted := Count(tally, r.quality);
      audits := audits + [r.idem];
      if Keyed(r.table) || (r.quality != Rejected && r.uid !in rows[r.table]) {
        rows := rows[r.table := rows[r.table] + [RowKey(r)]];
      }
      assert BooksView() == Enter(old(BooksView()), r);
      var notice := NoticeOf(r);
      if notice.Some? {
        Offer(notice.value, at);
        counted := counted.(events := counted.events + [notice.value.key]);
      }
    }

    /** One record: skipped, raised on, or stored. */
    method IngestRecord(r: Record, tally: Tally, at: real) returns (counted: Tally, raised: bool)
      requires Valid()
      modifies this`rows, this`audits, this`admitted, queue
      ensures Valid()
      ensures Progress(BooksView(), counted, raised) == IngestOne(Progress(old(BooksView()), tally, false), r)
      ensures Follows(old(queue.pending), queue.pending, old(admitted), admitted)
      ensures queue.dead == old(queue.dead)
    {
      if Keyed(r.table) && r.idem in rows[r.table] {
        return tally.(skipped := tally.skipped + 1), false;
      }
      if r.raises {
        return tally, true;
      }
      counted := Keep(r, tally, at);
      raised := false;
    }

    /** One list of records, up to the first that raises. */
    method IngestList(rs: seq<Record>, tally: Tally, raised: bool, at: real) returns (counted: Tally, failed: bool)
      requires Valid()
      modifies this`rows, this`audits, this`admitted, queue
      ensures Valid()
      ensures Progress(BooksView(), counted, failed) == IngestAll(Progress(old(BooksView()), tally, raised), rs)
      ensures Follows(old(queue.pending), queue.pending, old(admitted), admitted)
      ensures queue.dead == old(queue.dead)
    {
      hide WorkQueue.Conserved, IngestOne;
      counted, failed := tally, raised;
      ghost var first := Progress(BooksView(), tally, raised);
      var i := 0;
      while i < |rs| && !failed
        invariant i <= |rs| && Valid()
        invariant Progress(BooksView(), counted, failed) == IngestAll(first, rs[..i])
        invariant Follows(old(queue.pending), queue.pending, old(admitted), admitted)
        invariant queue.dead == old(queue.dead)
      {
        ghost var pending, known := queue.pending, admitted;
        counted, failed := IngestRecord(rs[i], counted, at);
        FollowsInTurn(old(queue.pending), pending, queue.pending, old(admitted), known, admitted);
        IngestAllStep(first, rs, i);
        i := i + 1;
      }
      IngestStops(first, rs, i);
    }

    /** All lists of a fetch, in order. */
    method IngestRecords(f: Fetch, at: real) returns (tally: Tally, failed: bool)
      requires Valid()
      modifies this`rows, this`audits, this`admitted, queue
      ensures Valid()
      ensures Progress(BooksView(), tally, failed) == Records(old(BooksView()), f)
      ensures Follows(old(queue.pending), queue.pending, old(admitted), admitted)
      ensures queue.dead == old(queue.dead)
    {
      var cyclones, tsunamis := CycloneAlerts(f.cyclones), TsunamiAlerts(f.tsunamis);
      var lists := [f.alerts, f.pfz, f.stations, f.zones, f.observations, f.forecasts, cyclones, tsunamis];
      tally, failed := NO_TALLY, false;
      ghost var first := Progress(BooksView(), NO_TALLY, false);
      for i := 0 to |lists|
        invariant Valid()
        invariant Progress(BooksView(), tally, failed) == IngestAll(first, Flat(lists[..i]))
        invariant Follows(old(queue.pending), queue.pending, old(admitted), admitted)
        invariant queue.dead == old(queue.dead)
      {
        ghost var pending, known := queue.pending, admitted;
        tally, failed := IngestList(lists[i], tally, failed, at);
        FollowsInTurn(old(queue.pending), pending, queue.pending, old(admitted), known, admitted);
        IngestAllConcat(first, Flat(lists[..i]), lists[i]);
        assert lists[..i + 1][..i] == lists[..i];
      }
      assert lists[..|lists|] == lists;
      FlatOfEight(f.alerts, f.pfz, f.stations, f.zones, f.observations, f.forecasts, cyclones, tsunamis);
    }

    /** Looks a dataset up, registering it first when it is new. */
    method FindDataset(key: string) returns (d: DatasetHealth.Dataset)
      requires Valid()
      modifies `datasets
      ensures Valid()
      ensures View() == EnsureDataset(old(View()), key)
      ensures key in datasets && datasets[key] == d
      ensures key !in old(datasets) ==>
                d.Value() == DatasetHealth.Row(DatasetHealth.Disabled, 0, None, None, DatasetHealth.NotRun, Some(21600), None)
      ensures forall k :: k in old(datasets) ==> k in datasets && datasets[k] == old(datasets[k])
      ensures forall k :: k in datasets ==> k in old(datasets) || fresh(datasets[k])
    {
      if key !in datasets {
        d := new DatasetHealth.Dataset(key, Some(6 * 3600));
        datasets := datasets[key := d];
      } else {
        d := datasets[key];
      }
      assert Registry() == EnsureDataset(old(View()), key).datasets;
    }

    /** Reuses the lineage of a payload seen before, and adds what is missing. */
    method TraceLineage(f: Fetch, uid: string)
      requires Traced()
      modifies `jobs, `assets, `procs, `runs, `uids
      ensures Traced() && f.checksum in uids
      ensures jobs == AddIfMissing(old(jobs), f.checksum) && assets == AddIfMissing(old(assets), (f.dataset, f.uri))
      ensures procs == AddIfMissing(old(procs), f.checksum) && runs == AddIfMissing(old(runs), f.checksum)
      ensures uids == if f.checksum in old(uids) then old(uids) else old(uids)[f.checksum := uid]
    {
      if f.checksum !in jobs {
        jobs := jobs + [f.checksum];
      }
      if (f.dataset, f.uri) !in assets {
        assets := assets + [(f.dataset, f.uri)];
      }
      if f.checksum !in procs {
        procs := procs + [f.checksum];
        uids := uids[f.checksum := uid];
      }
      if f.checksum !in runs {
        runs := runs + [f.checksum];
      }
    }

    /** Announces a dataset whose status has changed. */
    method EmitDatasetUpdated(d: DatasetHealth.Dataset, previous: DatasetHealth.Status, at: real)
      requires Valid()
      modifies queue, `admitted
      ensures Valid()
      ensures BooksView() == if d.status == previous then old(BooksView())
                             else Announce(old(BooksView()), DatasetNotice(d.key, Held(d.Value(), d.processedAt)))
      ensures Follows(old(queue.pending), queue.pending, old(admitted), admitted)
      ensures queue.dead == old(queue.dead)
    {
      if d.status != previous {
        var key := DatasetKey(d.key, d.status, d.processedAt);
        Offer(Notice(key, WorkQueue.NormalIngestion), at);
      }
    }

    /** The closing updates of the dataset row. */
    method UpdateDataset(d: DatasetHealth.Dataset, f: Fetch, failed: bool, at: real, stamp: string)
      requires f.dataset in datasets && datasets[f.dataset] == d && Shelved()
      modifies d
      ensures Held(d.Value(), d.processedAt) == Closed(old(Held(d.Value(), d.processedAt)), f, failed, at, stamp)
      ensures Registry() == old(Registry())[f.dataset := Held(d.Value(), d.processedAt)]
    {
      if failed {
        d.RecordIngestFailure(at);
      } else {
        d.RecordSuccess(at, f.state, f.retrievedAt, stamp);
      }
    }

    /** The dataset and the lineage an ingest runs under. */
    method OpenRun(f: Fetch, uid: string) returns (d: DatasetHealth.Dataset)
      requires Valid()
      modifies `datasets, `jobs, `assets, `procs, `runs, `uids
      ensures Valid() && f.checksum in uids
      ensures View() == Open(old(View()), f, uid)
      ensures f.dataset in datasets && datasets[f.dataset] == d
      ensures forall k :: k in datasets ==> datasets[k] in old(datasets).Values || fresh(datasets[k])
    {
      hide WorkQueue.Conserved;
      d := FindDataset(f.dataset);
      ghost var found := View();
      TraceLineage(f, uid);
      assert BooksView() == found.books && Registry() == found.datasets;
    }

    /** The closing updates of the dataset row, and the two notices that go with them. */
    method CloseRun(d: DatasetHealth.Dataset, f: Fetch, failed: bool, at: real, stamp: string)
      requires Valid() && f.dataset in datasets && datasets[f.dataset] == d && f.checksum in uids
      modifies d, queue, `admitted
      ensures Valid()
      ensures Held(d.Value(), d.processedAt) == Closed(old(Held(d.Value(), d.processedAt)), f, failed, at, stamp)
      ensures Registry() == old(Registry())[f.dataset := Held(d.Value(), d.processedAt)]
      ensures BooksView() == CloseBooks(old(BooksView()), f.dataset, uids[f.checksum], failed,
                                        old(Held(d.Value(), d.processedAt)), Held(d.Value(), d.processedAt))
      ensures Follows(old(queue.pending), queue.pending, old(admitted), admitted)
      ensures queue.dead == old(queue.dead)
    {
      hide WorkQueue.Conserved, Follows, Closed, DatasetNotice;
      var previous := d.status;
      ghost var books := BooksView();
      UpdateDataset(d, f, failed, at, stamp);
      ghost var now, registry := Held(d.Value(), d.processedAt), Registry();
      assert BooksView() == books;
      Offer(JobNotice(uids[f.checksum], failed), at);
      ghost var pending, known := queue.pending, admitted;
      assert Held(d.Value(), d.processedAt) == now && Registry() == registry;
      EmitDatasetUpdated(d, previous, at);
      assert Held(d.Value(), d.processedAt) == now && Registry() == registry;
      FollowsInTurn(old(queue.pending), pending, queue.pending, old(admitted), known, admitted);
    }

    /**
      * Ingests a fetch. When a record raises, the run and the dataset are marked failed and announced before the error
      * is passed on (`failed`); what was stored before the record that raised stays stored.
      */
    method IngestFetch(f: Fetch, uid: string, at: real, stamp: string) returns (tally: Tally, failed: bool)
      requires Valid()
      modifies this, queue, datasets.Values
      ensures Valid()
      ensures View() == Ingest(old(View()), f, uid, at, stamp)
      ensures failed == Records(old(BooksView()), f).failed && tally == Records(old(BooksView()), f).tally
      ensures Follows(old(queue.pending), queue.pending, old(admitted), admitted)
      ensures queue.dead == old(queue.dead)
    {
      hide WorkQueue.Conserved, Records, CloseBooks, Open;
      var d := OpenRun(f, uid);
      ghost var found := View();
      assert BooksView() == old(BooksView()) by { assert queue.seen == old(queue.seen); }
      tally, failed := IngestRecords(f, at);
      ghost var pending, known := queue.pending, admitted;
      assert View() == found.(books := BooksView());
      CloseRun(d, f, failed, at, stamp);
      FollowsInTurn(old(queue.pending), pending, queue.pending, old(admitted), known, admitted);
    }

    /** Marks a dataset whose source failed. */
    method MarkSourceError(d: DatasetHealth.Dataset, key: string, at: real, kind: DatasetHealth.ErrorKind)
      requires key in datasets && datasets[key] == d && Shelved()
      modifies d
      ensures forall default :: Registry() == old(Registry())[key :=
                Changed(old(Registry())[key], DatasetHealth.SourceFailed(at, kind), default)]
    {
      hide DatasetHealth.Step;
      d.RecordSourceError(at, kind);
      assert Registry() == old(Registry())[key := Held(d.Value(), d.processedAt)];
    }

    /** Records a fetch that never produced a payload. */
    method RecordSourceError(key: string, at: real, kind: DatasetHealth.ErrorKind)
      requires Valid()
      modifies `datasets, datasets.Values
      ensures Valid()
      ensures forall default :: View() == Act(old(View()), DoSourceError(key, at, kind), default)
    {
      hide WorkQueue.Conserved, Changed;
      var d := FindDataset(key);
      ghost var found := View();
      MarkSourceError(d, key, at, kind);
      assert BooksView() == found.books;
    }
  }
}
