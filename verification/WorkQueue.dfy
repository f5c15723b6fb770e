/** The in-memory work queue: idempotent admission, stable priority order, retries with backoff, dead letters. */
module WorkQueue {
  import opened Numbers
  import opened Sequences
  import opened Wrappers

  // ---------------------------------------------------------------- priorities and backoff

  datatype Priority = CriticalAlerts | RealtimeObservations | NormalIngestion | Scientific | BackfillArchive

  function Rank(p: Priority): nat {
    match p
    case CriticalAlerts => 0 case RealtimeObservations => 1 case NormalIngestion => 2
    case Scientific => 3 case BackfillArchive => 4
  }

  /** The classes of work, most urgent first. */
  const WORK_PRIORITIES := [CriticalAlerts, RealtimeObservations, NormalIngestion, Scientific, BackfillArchive]

  function Pow2(n: nat): real { if n == 0 then 1.0 else 2.0 * Pow2(n - 1) }

  function Capped(base: real, factor: real, maximum: real): real { MinReal(maximum, base * factor) }

  /** Ceiling of the delay after the given (1-based) failed attempt. */
  function RawBackoff(attempt: int, base: real, maximum: real): real {
    Capped(base, Pow2(if attempt > 1 then attempt - 1 else 0), maximum)
  }

  /** Full jitter: any point between zero and the ceiling. */
  method BackoffDelay(attempt: int, base: real, maximum: real) returns (delay: real)
    ensures 0.0 <= RawBackoff(attempt, base, maximum) ==> 0.0 <= delay <= RawBackoff(attempt, base, maximum)
    ensures RawBackoff(attempt, base, maximum) <= 0.0 ==> RawBackoff(attempt, base, maximum) <= delay <= 0.0
  {
    var u: real :| 0.0 <= u <= 1.0;
    var raw := RawBackoff(attempt, base, maximum);
    delay := raw * u;
    JitterBounds(raw, u);
  }

  lemma JitterBounds(raw: real, u: real)
    requires 0.0 <= u <= 1.0
    ensures 0.0 <= raw ==> 0.0 <= raw * u <= raw
    ensures raw <= 0.0 ==> raw <= raw * u <= 0.0
  {
    assert raw * (1.0 - u) == raw - raw * u;
  }

  /** The ceiling never passes the maximum, never falls from one attempt to the next, and doubles until it is capped. */
  lemma {:induction false} BackoffCeiling(k: nat, base: real, maximum: real)
    requires k >= 1 && base >= 0.0 && maximum >= 0.0
    ensures 0.0 <= RawBackoff(k, base, maximum) <= maximum
    ensures RawBackoff(k, base, maximum) <= RawBackoff(k + 1, base, maximum)
    ensures RawBackoff(k + 1, base, maximum) == MinReal(maximum, 2.0 * RawBackoff(k, base, maximum))
  {
    PowPositive(k - 1);
    assert base * Pow2(k) == 2.0 * (base * Pow2(k - 1));
  }

  /** The first retry waits at most the base delay, the second twice that, the third four times, as far as the maximum. */
  lemma BackoffInPlainTerms(base: real, maximum: real)
    ensures RawBackoff(1, base, maximum) == if base <= maximum then base else maximum
    ensures RawBackoff(2, base, maximum) == if 2.0 * base <= maximum then 2.0 * base else maximum
    ensures RawBackoff(3, base, maximum) == if 4.0 * base <= maximum then 4.0 * base else maximum
    ensures forall attempt: int :: attempt <= 1 ==> RawBackoff(attempt, base, maximum) == RawBackoff(1, base, maximum)
  {
    assert Pow2(1) == 2.0 && Pow2(2) == 4.0;
  }

  lemma {:induction false} PowPositive(n: nat)
    ensures Pow2(n) >= 1.0
  {
    if n > 0 { PowPositive(n - 1); }
  }

  // ---------------------------------------------------------------- messages as values

  datatype Msg = Msg(priority: Priority, payload: string, key: string, id: string, attempts: nat, maxAttempts: int,
                     enqueuedAt: real, notBefore: real, lastError: Option<string>)

  /** Strict order of draining: rank, then readiness time, then enqueue time. */
  predicate Before(m: Msg, n: Msg) {
    Rank(m.priority) < Rank(n.priority)
    || (m.priority == n.priority
        && (m.notBefore < n.notBefore || (m.notBefore == n.notBefore && m.enqueuedAt < n.enqueuedAt)))
  }

  /** The draining order, by position in the list of classes. */
  lemma BeforeInPlainTerms(m: Msg, n: Msg, i: nat, j: nat)
    requires i < 5 && j < 5 && m.priority == WORK_PRIORITIES[i] && n.priority == WORK_PRIORITIES[j]
    ensures Before(m, n) <==> i < j || (i == j && (m.notBefore < n.notBefore
                                                   || (m.notBefore == n.notBefore && m.enqueuedAt < n.enqueuedAt)))
  {
  }

  function Insert(m: Msg, sorted: seq<Msg>): seq<Msg> {
    if sorted == [] then [m]
    else
      var n := |sorted| - 1;
      if Before(m, sorted[n]) then Insert(m, sorted[..n]) + [sorted[n]] else sorted + [m]
  }

  /** Stable sort by draining order. */
  function Sort(ms: seq<Msg>): seq<Msg> {
    if ms == [] then [] else Insert(ms[|ms| - 1], Sort(ms[..|ms| - 1]))
  }

  ghost predicate Sorted(ms: seq<Msg>) {
    forall i, j :: 0 <= i < j < |ms| ==> !Before(ms[j], ms[i])
  }

  /** The messages that tie with `m`, in the order in which they stand. */
  function Ties(ms: seq<Msg>, m: Msg): seq<Msg> {
    if ms == [] then []
    else
      var last := ms[|ms| - 1];
      var front := Ties(ms[..|ms| - 1], m);
      if Before(m, last) || Before(last, m) then front else front + [last]
  }

  lemma {:induction false} InsertKeepsMessages(m: Msg, ms: seq<Msg>)
    ensures multiset(Insert(m, ms)) == multiset(ms) + multiset{m}
  {
    if ms != [] && Before(m, ms[|ms| - 1]) {
      var n := |ms| - 1;
      hide Before;
      InsertKeepsMessages(m, ms[..n]);
      MultisetOfFront(ms);
    }
  }

  lemma {:induction false} SortIsPermutation(ms: seq<Msg>)
    ensures multiset(Sort(ms)) == multiset(ms)
  {
    if ms != [] {
      hide Insert;
      var n := |ms| - 1;
      SortIsPermutation(ms[..n]);
      InsertKeepsMessages(ms[n], Sort(ms[..n]));
      MultisetOfFront(ms);
    }
  }

  lemma {:induction false} InsertSorts(m: Msg, ms: seq<Msg>)
    requires Sorted(ms)
    ensures Sorted(Insert(m, ms))
  {
    if ms != [] && Before(m, ms[|ms| - 1]) {
      var n := |ms| - 1;
      InsertSorts(m, ms[..n]);
      var front := Insert(m, ms[..n]);
      InsertKeepsMessages(m, ms[..n]);
      forall i | 0 <= i < |front| ensures !Before(ms[n], front[i]) {
        assert front[i] in multiset(front);
        if front[i] != m {
          assert front[i] in ms[..n];
          var j :| 0 <= j < n && ms[j] == front[i];
        }
      }
    }
  }

  lemma {:induction false} SortSorts(ms: seq<Msg>)
    ensures Sorted(Sort(ms))
  {
    if ms != [] {
      SortSorts(ms[..|ms| - 1]);
      InsertSorts(ms[|ms| - 1], Sort(ms[..|ms| - 1]));
    }
  }

  lemma {:induction false} InsertKeepsTies(m: Msg, ms: seq<Msg>, t: Msg)
    ensures Ties(Insert(m, ms), t) == if Before(t, m) || Before(m, t) then Ties(ms, t) else Ties(ms, t) + [m]
  {
    if ms == [] {
      assert [m][..0] == [];
    } else {
      var n := |ms| - 1;
      if Before(m, ms[n]) {
        InsertKeepsTies(m, ms[..n], t);
        assert (Insert(m, ms[..n]) + [ms[n]])[..|Insert(m, ms[..n])|] == Insert(m, ms[..n]);
      } else {
        assert (ms + [m])[..|ms|] == ms;
      }
    }
  }

  /** Sorting never reorders messages that tie. */
  lemma {:induction false} SortIsStable(ms: seq<Msg>, t: Msg)
    ensures Ties(Sort(ms), t) == Ties(ms, t)
  {
    if ms != [] {
      SortIsStable(ms[..|ms| - 1], t);
      InsertKeepsTies(ms[|ms| - 1], Sort(ms[..|ms| - 1]), t);
    }
  }

  // ---------------------------------------------------------------- the queue as a value

  /** What the queue holds, and what has left it acknowledged. */
  datatype Ledger = Ledger(pending: seq<Msg>, dead: seq<Msg>, acked: seq<Msg>, seen: set<string>)

  const EMPTY := Ledger([], [], [], {})

  function IndexOf(ms: seq<Msg>, m: Msg): (i: nat)
    ensures i <= |ms|
    ensures i < |ms| ==> ms[i] == m
    ensures m in ms <==> i < |ms|
    ensures forall k :: 0 <= k < i ==> ms[k] != m
  {
    if ms == [] then 0 else if ms[0] == m then 0 else 1 + IndexOf(ms[1..], m)
  }

  function RemoveFirst(ms: seq<Msg>, m: Msg): seq<Msg> {
    var i := IndexOf(ms, m);
    if i < |ms| then ms[..i] + ms[i + 1..] else ms
  }

  function Publish(l: Ledger, m: Msg): Ledger {
    if m.key in l.seen then l else l.(pending := l.pending + [m], seen := l.seen + {m.key})
  }

  function Poll(l: Ledger): Ledger { l.(pending := Sort(l.pending)) }

  function FirstReady(ms: seq<Msg>, now: real): Option<Msg> {
    if ms == [] then None else if ms[0].notBefore <= now then Some(ms[0]) else FirstReady(ms[1..], now)
  }

  function NextReady(l: Ledger, now: real): Option<Msg> { FirstReady(Sort(l.pending), now) }

  function Ack(l: Ledger, m: Msg): Ledger {
    if m in l.pending then l.(pending := RemoveFirst(l.pending, m), acked := l.acked + [m]) else l
  }

  function Failed(m: Msg, error: string): Msg { m.(attempts := m.attempts + 1, lastError := Some(error)) }

  predicate Final(m: Msg) { m.attempts + 1 >= m.maxAttempts }

  /** A failure: dead-lettered once attempts are used up, otherwise delayed in place. */
  function Nack(l: Ledger, m: Msg, error: string, readyAt: real): Ledger {
    var failed := Failed(m, error);
    if Final(m) then l.(pending := RemoveFirst(l.pending, m), dead := l.dead + [failed])
    else if m in l.pending then l.(pending := l.pending[IndexOf(l.pending, m) := failed.(notBefore := readyAt)])
    else l
  }

  // ---------------------------------------------------------------- conservation

  /** How many messages carry the key. */
  function Count(ms: seq<Msg>, key: string): nat {
    if ms == [] then 0 else Count(ms[..|ms| - 1], key) + (if ms[|ms| - 1].key == key then 1 else 0)
  }

  function Holdings(l: Ledger, key: string): nat { Count(l.pending, key) + Count(l.dead, key) + Count(l.acked, key) }

  /** Every admitted key is in exactly one of the three places, exactly once; no other key is anywhere. */
  ghost predicate Conserved(l: Ledger) {
    forall key :: Holdings(l, key) == if key in l.seen then 1 else 0
  }

  function One(m: Msg, key: string): nat { if m.key == key then 1 else 0 }

  lemma {:induction false} CountOfConcat(ms: seq<Msg>, ns: seq<Msg>, key: string)
    ensures Count(ms + ns, key) == Count(ms, key) + Count(ns, key)
  {
    if ns == [] {
      assert ms + ns == ms;
    } else {
      var n := |ns| - 1;
      CountOfConcat(ms, ns[..n], key);
      assert (ms + ns)[..|ms + ns| - 1] == ms + ns[..n];
    }
  }

  lemma CountOfAppend(ms: seq<Msg>, m: Msg, key: string)
    ensures Count(ms + [m], key) == Count(ms, key) + One(m, key)
  {
    assert (ms + [m])[..|ms|] == ms;
  }

  lemma CountAround(ms: seq<Msg>, i: nat, key: string)
    requires i < |ms|
    ensures Count(ms, key) == Count(ms[..i], key) + One(ms[i], key) + Count(ms[i + 1..], key)
  {
    assert ms == (ms[..i] + [ms[i]]) + ms[i + 1..];
    CountOfConcat(ms[..i] + [ms[i]], ms[i + 1..], key);
    CountOfAppend(ms[..i], ms[i], key);
  }

  lemma CountOfRemoval(ms: seq<Msg>, i: nat, key: string)
    requires i < |ms|
    ensures Count(ms[..i] + ms[i + 1..], key) + One(ms[i], key) == Count(ms, key)
  {
    CountAround(ms, i, key);
    CountOfConcat(ms[..i], ms[i + 1..], key);
  }

  lemma CountOfUpdate(ms: seq<Msg>, i: nat, m: Msg, key: string)
    requires i < |ms| && m.key == ms[i].key
    ensures Count(ms[i := m], key) == Count(ms, key)
  {
    CountAround(ms, i, key);
    CountAround(ms[i := m], i, key);
    assert ms[i := m][..i] == ms[..i] && ms[i := m][i + 1..] == ms[i + 1..];
  }

  lemma {:induction false} CountOfInsert(m: Msg, ms: seq<Msg>, key: string)
    ensures Count(Insert(m, ms), key) == Count(ms, key) + One(m, key)
  {
    if ms == [] {
      CountOfAppend([], m, key);
      assert [] + [m] == [m];
    } else {
      var n := |ms| - 1;
      if Before(m, ms[n]) {
        CountOfInsert(m, ms[..n], key);
        CountOfAppend(Insert(m, ms[..n]), ms[n], key);
      } else {
        CountOfAppend(ms, m, key);
      }
    }
  }

  lemma {:induction false} CountOfSort(ms: seq<Msg>, key: string)
    ensures Count(Sort(ms), key) == Count(ms, key)
  {
    if ms != [] {
      CountOfSort(ms[..|ms| - 1], key);
      CountOfInsert(ms[|ms| - 1], Sort(ms[..|ms| - 1]), key);
    }
  }

  /** In a conserving ledger no two pending messages share a key. */
  lemma PendingKeysAreDistinct(l: Ledger, i: nat, j: nat)
    requires Conserved(l) && i < j < |l.pending|
    ensures l.pending[i].key != l.pending[j].key
  {
    var key := l.pending[j].key;
    CountAround(l.pending, j, key);
    CountAround(l.pending[..j], i, key);
    assert Holdings(l, key) <= 1;
  }

  /** Removal by value equality takes out exactly the intended message, wherever it stands. */
  lemma RemovalIsExact(l: Ledger, i: nat)
    requires Conserved(l) && i < |l.pending|
    ensures IndexOf(l.pending, l.pending[i]) == i
    ensures RemoveFirst(l.pending, l.pending[i]) == l.pending[..i] + l.pending[i + 1..]
  {
    var j := IndexOf(l.pending, l.pending[i]);
    if j < i { PendingKeysAreDistinct(l, j, i); }
  }

  lemma PublishConserves(l: Ledger, m: Msg)
    requires Conserved(l)
    ensures Conserved(Publish(l, m))
  {
    forall key ensures Holdings(Publish(l, m), key) == if key in Publish(l, m).seen then 1 else 0 {
      CountOfAppend(l.pending, m, key);
      assert Holdings(l, key) == if key in l.seen then 1 else 0;
    }
  }

  lemma PollConserves(l: Ledger)
    requires Conserved(l)
    ensures Conserved(Poll(l))
  {
    forall key ensures Holdings(Poll(l), key) == Holdings(l, key) { CountOfSort(l.pending, key); }
  }

  lemma AckConserves(l: Ledger, m: Msg)
    requires Conserved(l)
    ensures Conserved(Ack(l, m))
  {
    forall key ensures Holdings(Ack(l, m), key) == Holdings(l, key) {
      if m in l.pending {
        CountOfRemoval(l.pending, IndexOf(l.pending, m), key);
        CountOfAppend(l.acked, m, key);
      }
    }
  }

  lemma NackHoldings(l: Ledger, m: Msg, error: string, readyAt: real, key: string)
    ensures Holdings(Nack(l, m, error, readyAt), key)
            == Holdings(l, key) + if m !in l.pending && Final(m) then One(m, key) else 0
  {
    CountOfAppend(l.dead, Failed(m, error), key);
    if m in l.pending {
      CountOfRemoval(l.pending, IndexOf(l.pending, m), key);
      CountOfUpdate(l.pending, IndexOf(l.pending, m), Failed(m, error).(notBefore := readyAt), key);
    }
  }

  /** A failure report keeps conservation exactly when its message is still pending or has attempts left. */
  lemma NackConservesExactly(l: Ledger, m: Msg, error: string, readyAt: real)
    requires Conserved(l)
    ensures Conserved(Nack(l, m, error, readyAt)) <==> m in l.pending || !Final(m)
  {
    forall key { NackHoldings(l, m, error, readyAt, key); }
    if m !in l.pending && Final(m) {
      assert Holdings(Nack(l, m, error, readyAt), m.key) == Holdings(l, m.key) + 1;
    }
  }

  /** What a failure does to a pending message: the last attempt moves it to the dead letters, others delay it in place. */
  lemma NackInPlainTerms(l: Ledger, i: nat, error: string, readyAt: real)
    requires Conserved(l) && i < |l.pending|
    ensures var m := l.pending[i];
            var counted := m.(attempts := m.attempts + 1, lastError := Some(error));
            var n := Nack(l, m, error, readyAt);
      && n.acked == l.acked && n.seen == l.seen
      && if m.attempts + 1 >= m.maxAttempts
         then n.dead == l.dead + [counted] && n.pending == l.pending[..i] + l.pending[i + 1..]
         else n.dead == l.dead && n.pending == l.pending[i := counted.(notBefore := readyAt)]
  {
    RemovalIsExact(l, i);
  }

  /**
    * A failure reported on an object that is not itself pending: the attempt is counted before the list is searched by
    * value, so only a pending message that already equals the counted one is removed.
    */
  function NackStray(l: Ledger, m: Msg, error: string): Ledger {
    if Final(m) then l.(pending := RemoveFirst(l.pending, Failed(m, error)), dead := l.dead + [Failed(m, error)]) else l
  }

  /** Such a report keeps conservation exactly when attempts are left, or its counted copy was still pending. */
  lemma NackOfStrayConservesExactly(l: Ledger, m: Msg, error: string)
    requires Conserved(l)
    ensures Conserved(NackStray(l, m, error)) <==> Failed(m, error) in l.pending || !Final(m)
  {
    var failed := Failed(m, error);
    forall key ensures Holdings(NackStray(l, m, error), key)
                       == Holdings(l, key) + if failed !in l.pending && Final(m) then One(m, key) else 0 {
      CountOfAppend(l.dead, failed, key);
      if failed in l.pending { CountOfRemoval(l.pending, IndexOf(l.pending, failed), key); }
    }
    if failed !in l.pending && Final(m) {
      assert Holdings(NackStray(l, m, error), m.key) == Holdings(l, m.key) + 1;
    }
  }

  // ---------------------------------------------------------------- attempts

  /** Attempts a message is good for; a non-positive limit still allows the first delivery. */
  function Budget(m: Msg): nat { if m.maxAttempts >= 1 then m.maxAttempts else 1 }

  /** Pending messages have attempts left; dead letters have used exactly their budget. */
  ghost predicate WithinBudget(l: Ledger) {
    && (forall m :: m in l.pending ==> m.attempts < Budget(m))
    && (forall m :: m in l.dead ==> m.attempts == Budget(m))
  }

  function Remaining(ms: seq<Msg>): int {
    if ms == [] then 0 else Remaining(ms[..|ms| - 1]) + (Budget(ms[|ms| - 1]) - ms[|ms| - 1].attempts)
  }

  function Left(m: Msg): int { Budget(m) - m.attempts }

  lemma {:induction false} RemainingOfConcat(ms: seq<Msg>, ns: seq<Msg>)
    ensures Remaining(ms + ns) == Remaining(ms) + Remaining(ns)
  {
    if ns == [] {
      assert ms + ns == ms;
    } else {
      var n := |ns| - 1;
      RemainingOfConcat(ms, ns[..n]);
      assert (ms + ns)[..|ms + ns| - 1] == ms + ns[..n];
    }
  }

  lemma RemainingOfAppend(ms: seq<Msg>, m: Msg)
    ensures Remaining(ms + [m]) == Remaining(ms) + Left(m)
  {
    assert (ms + [m])[..|ms|] == ms;
  }

  lemma RemainingAround(ms: seq<Msg>, i: nat)
    requires i < |ms|
    ensures Remaining(ms) == Remaining(ms[..i]) + Left(ms[i]) + Remaining(ms[i + 1..])
  {
    assert ms == ms[..i] + [ms[i]] + ms[i + 1..];
    RemainingOfConcat(ms[..i] + [ms[i]], ms[i + 1..]);
    RemainingOfAppend(ms[..i], ms[i]);
  }

  lemma RemainingOfRemoval(ms: seq<Msg>, i: nat)
    requires i < |ms|
    ensures Remaining(ms[..i] + ms[i + 1..]) == Remaining(ms) - Left(ms[i])
  {
    RemainingAround(ms, i);
    RemainingOfConcat(ms[..i], ms[i + 1..]);
  }

  lemma RemainingOfUpdate(ms: seq<Msg>, i: nat, m: Msg)
    requires i < |ms|
    ensures Remaining(ms[i := m]) == Remaining(ms) - Left(ms[i]) + Left(m)
  {
    RemainingAround(ms, i);
    RemainingAround(ms[i := m], i);
    assert ms[i := m][..i] == ms[..i] && ms[i := m][i + 1..] == ms[i + 1..];
  }

  lemma {:induction false} RemainingOfInsert(m: Msg, ms: seq<Msg>)
    ensures Remaining(Insert(m, ms)) == Remaining(ms) + Left(m)
  {
    if ms == [] {
      assert [m] == [] + [m];
      RemainingOfAppend([], m);
    } else {
      var n := |ms| - 1;
      if Before(m, ms[n]) {
        RemainingOfInsert(m, ms[..n]);
        RemainingOfAppend(Insert(m, ms[..n]), ms[n]);
      } else {
        RemainingOfAppend(ms, m);
      }
    }
  }

  lemma {:induction false} RemainingOfSort(ms: seq<Msg>)
    ensures Remaining(Sort(ms)) == Remaining(ms)
  {
    if ms != [] {
      RemainingOfSort(ms[..|ms| - 1]);
      RemainingOfInsert(ms[|ms| - 1], Sort(ms[..|ms| - 1]));
    }
  }

  lemma {:induction false} RemainingIsNonNegative(ms: seq<Msg>)
    requires forall m :: m in ms ==> m.attempts < Budget(m)
    ensures Remaining(ms) >= |ms|
  {
    if ms != [] { RemainingIsNonNegative(ms[..|ms| - 1]); }
  }

  // ---------------------------------------------------------------- whole runs

  datatype Op = DoPublish(m: Msg) | DoPoll | DoAck(m: Msg) | DoNack(m: Msg, error: string, readyAt: real)

  function Apply(l: Ledger, op: Op): Ledger {
    match op
    case DoPublish(m) => Publish(l, m)
    case DoPoll => Poll(l)
    case DoAck(m) => Ack(l, m)
    case DoNack(m, error, readyAt) => Nack(l, m, error, readyAt)
  }

  /** Publishes bring fresh messages; acknowledgements and failures name pending ones. */
  predicate Legal(l: Ledger, op: Op) {
    match op
    case DoPublish(m) => m.attempts == 0
    case DoPoll => true
    case DoAck(m) => m in l.pending
    case DoNack(m, _, _) => m in l.pending
  }

  function Run(l: Ledger, ops: seq<Op>): Ledger
    decreases |ops|
  {
    if ops == [] then l else Run(Apply(l, ops[0]), ops[1..])
  }

  predicate LegalRun(l: Ledger, ops: seq<Op>)
    decreases |ops|
  {
    ops == [] || (Legal(l, ops[0]) && LegalRun(Apply(l, ops[0]), ops[1..]))
  }

  /** Acknowledgements and failure reports in a run. */
  function Feedback(ops: seq<Op>): nat {
    if ops == [] then 0 else Spent(ops[0]) + Feedback(ops[1..])
  }

  /** Total budget of the messages that a run admits. */
  function AdmittedBudget(l: Ledger, ops: seq<Op>): nat
    decreases |ops|
  {
    if ops == [] then 0
    else Gained(l, ops[0]) + AdmittedBudget(Apply(l, ops[0]), ops[1..])
  }

  /** How often a run admits a message with the given key. */
  function Admissions(l: Ledger, ops: seq<Op>, key: string): nat
    decreases |ops|
  {
    if ops == [] then 0
    else (if ops[0].DoPublish? && ops[0].m.key == key && key !in l.seen then 1 else 0)
         + Admissions(Apply(l, ops[0]), ops[1..], key)
  }

  lemma SortKeepsMembers(ms: seq<Msg>)
    ensures forall m :: m in Sort(ms) <==> m in ms
  {
    SortIsPermutation(ms);
    assert forall m :: m in Sort(ms) <==> m in multiset(Sort(ms));
    assert forall m :: m in ms <==> m in multiset(ms);
  }

  /** One legal step keeps conservation. */
  lemma StepConserves(l: Ledger, op: Op)
    requires Conserved(l) && Legal(l, op)
    ensures Conserved(Apply(l, op)) && l.seen <= Apply(l, op).seen
  {
    match op
    case DoPublish(m) => PublishConserves(l, m);
    case DoPoll => PollConserves(l);
    case DoAck(m) => AckConserves(l, m);
    case DoNack(m, error, readyAt) => NackConservesExactly(l, m, error, readyAt);
  }

  lemma StepKeepsBudgets(l: Ledger, op: Op)
    requires WithinBudget(l) && Legal(l, op)
    ensures WithinBudget(Apply(l, op))
  {
    match op
    case DoPublish(m) =>
    case DoPoll => SortKeepsMembers(l.pending);
    case DoAck(m) =>
    case DoNack(m, error, readyAt) =>
  }

  function Spent(op: Op): nat { if op.DoAck? || op.DoNack? then 1 else 0 }

  function Gained(l: Ledger, op: Op): nat {
    if op.DoPublish? && op.m.key !in l.seen then Budget(op.m) else 0
  }

  /** Every report strictly uses up remaining attempts; only an admission adds any. */
  lemma StepSpendsAttempts(l: Ledger, op: Op)
    requires WithinBudget(l) && Legal(l, op)
    ensures Remaining(Apply(l, op).pending) + Spent(op) <= Remaining(l.pending) + Gained(l, op)
  {
    hide Remaining, Sort;
    match op
    case DoPublish(m) => RemainingOfAppend(l.pending, m);
    case DoPoll => RemainingOfSort(l.pending);
    case DoAck(m) => RemainingOfRemoval(l.pending, IndexOf(l.pending, m));
    case DoNack(m, error, readyAt) =>
      RemainingOfRemoval(l.pending, IndexOf(l.pending, m));
      RemainingOfUpdate(l.pending, IndexOf(l.pending, m), Failed(m, error).(notBefore := readyAt));
  }

  /**
    * Over every legal run: each admitted message is in exactly one place, attempts stay within budget, and the number
    * of acknowledgements and failures is bounded by the attempts there were plus those that were admitted.
    */
  lemma {:induction false} EveryRunConserves(l: Ledger, ops: seq<Op>)
    requires Conserved(l) && WithinBudget(l) && LegalRun(l, ops)
    ensures Conserved(Run(l, ops)) && WithinBudget(Run(l, ops))
    ensures Feedback(ops) + |Run(l, ops).pending| <= Remaining(l.pending) + AdmittedBudget(l, ops)
    ensures l.seen <= Run(l, ops).seen
    decreases |ops|
  {
    if ops == [] {
      RemainingIsNonNegative(l.pending);
    } else {
      StepConserves(l, ops[0]);
      StepKeepsBudgets(l, ops[0]);
      StepSpendsAttempts(l, ops[0]);
      EveryRunConserves(Apply(l, ops[0]), ops[1..]);
    }
  }

  /** Acknowledged, then failed on its last attempt: what each report books. */
  lemma AckThenFailure(m: Msg, error: string, readyAt: real)
    requires m.attempts == 0 && m.maxAttempts == 1
    ensures var l := Ack(Publish(EMPTY, m), m);
      && m in Publish(EMPTY, m).pending && Conserved(l) && l.acked == [m]
      && Nack(l, m, error, readyAt) == l.(dead := [Failed(m, error)])
      && !Conserved(Nack(l, m, error, readyAt))
  {
    var admitted := Publish(EMPTY, m);
    var l := Ack(admitted, m);
    assert admitted.pending == [m] && l.pending == [] && l.acked == [m];
    assert Nack(l, m, error, readyAt) == l.(dead := [Failed(m, error)]);
    hide Publish, Ack, Nack, Failed;
    EmptyConserves();
    PublishConserves(EMPTY, m);
    AckConserves(admitted, m);
    NackConservesExactly(l, m, error, readyAt);
  }

  lemma RunOfThree(l: Ledger, p: Op, a: Op, n: Op)
    ensures Run(l, [p, a]) == Apply(Apply(l, p), a)
    ensures Run(l, [p, a, n]) == Apply(Apply(Apply(l, p), a), n)
    ensures LegalRun(l, [p, a]) <==> Legal(l, p) && Legal(Apply(l, p), a)
  {
    hide Apply, Legal;
    var l1 := Apply(l, p);
    var l2 := Apply(l1, a);
    assert [p, a][1..] == [a] && [a][1..] == [] && [p, a, n][1..] == [a, n] && [a, n][1..] == [n] && [n][1..] == [];
    assert Run(l1, [a]) == Run(l2, []) == l2;
    assert Run(l1, [a, n]) == Run(l2, [n]) == Run(Apply(l2, n), []);
    assert LegalRun(l1, [a]) <==> Legal(l1, a) && LegalRun(l2, []);
  }

  /** A run that acknowledges a message and then fails it: it is booked as done and dead-lettered as well. */
  lemma FailureAfterAckIsBookedTwice(m: Msg, error: string, readyAt: real)
    requires m.attempts == 0 && m.maxAttempts == 1
    ensures var l := Run(EMPTY, [DoPublish(m), DoAck(m)]);
      && LegalRun(EMPTY, [DoPublish(m), DoAck(m)]) && Conserved(l)
      && Run(EMPTY, [DoPublish(m), DoAck(m), DoNack(m, error, readyAt)]) == l.(dead := [Failed(m, error)])
      && l.acked == [m] && !Conserved(l.(dead := [Failed(m, error)]))
  {
    hide Run, LegalRun, Publish, Ack, Nack, Failed, Conserved;
    RunOfThree(EMPTY, DoPublish(m), DoAck(m), DoNack(m, error, readyAt));
    AckThenFailure(m, error, readyAt);
  }

  lemma EmptyConserves()
    ensures Conserved(EMPTY)
  {
  }

  /** A key is admitted at most once in any run at all, legal or not, even after its message has left. */
  lemma {:induction false} KeysAreAdmittedOnce(l: Ledger, ops: seq<Op>, key: string)
    ensures Admissions(l, ops, key) + (if key in l.seen then 1 else 0) == if key in Run(l, ops).seen then 1 else 0
    decreases |ops|
  {
    if ops != [] { KeysAreAdmittedOnce(Apply(l, ops[0]), ops[1..], key); }
  }

  // ---------------------------------------------------------------- polling

  lemma {:induction false} FirstReadyIsFirst(ms: seq<Msg>, now: real) returns (i: nat)
    ensures FirstReady(ms, now).None? <==> forall m :: m in ms ==> m.notBefore > now
    ensures FirstReady(ms, now).Some? ==>
              i < |ms| && ms[i] == FirstReady(ms, now).value && ms[i].notBefore <= now
              && forall k :: 0 <= k < i ==> ms[k].notBefore > now
  {
    i := 0;
    if ms != [] && ms[0].notBefore > now {
      i := FirstReadyIsFirst(ms[1..], now);
      i := i + 1;
      assert forall m :: m in ms <==> m == ms[0] || m in ms[1..];
    }
  }

  /** The polled message is ready and minimal among the ready ones; there is none exactly when nothing is ready. */
  lemma NextReadyIsBest(l: Ledger, now: real)
    ensures NextReady(l, now).None? <==> forall m :: m in l.pending ==> m.notBefore > now
    ensures NextReady(l, now).Some? ==> NextReady(l, now).value in l.pending && NextReady(l, now).value.notBefore <= now
    ensures NextReady(l, now).Some? ==>
              forall m :: m in l.pending && m.notBefore <= now ==> !Before(m, NextReady(l, now).value)
  {
    var s := Sort(l.pending);
    SortKeepsMembers(l.pending);
    SortSorts(l.pending);
    var i := FirstReadyIsFirst(s, now);
    if NextReady(l, now).Some? {
      assert s[i] in s;
      forall m | m in l.pending && m.notBefore <= now ensures !Before(m, s[i]) {
        assert m in s;
        var k :| 0 <= k < |s| && s[k] == m;
      }
    }
  }

  /**
    * Nothing less urgent is polled past something more urgent: no ready message is of a more urgent class, and among the
    * ready ones of its class none became ready earlier, nor was enqueued earlier when they became ready together.
    */
  lemma MostUrgentIsPolled(l: Ledger, now: real, k: nat)
    requires NextReady(l, now).Some? && k < 5 && NextReady(l, now).value.priority == WORK_PRIORITIES[k]
    ensures var best := NextReady(l, now).value;
      && best in l.pending && best.notBefore <= now
      && forall m :: m in l.pending && m.notBefore <= now ==>
           && m.priority !in WORK_PRIORITIES[..k]
           && (m.priority == best.priority ==>
                 best.notBefore < m.notBefore || (best.notBefore == m.notBefore && best.enqueuedAt <= m.enqueuedAt))
  {
    hide NextReady, Before;
    NextReadyIsBest(l, now);
    var best := NextReady(l, now).value;
    forall m | m in l.pending && m.notBefore <= now
      ensures m.priority !in WORK_PRIORITIES[..k]
      ensures m.priority == best.priority ==>
                best.notBefore < m.notBefore || (best.notBefore == m.notBefore && best.enqueuedAt <= m.enqueuedAt)
    {
      var j := ClassOf(m.priority);
      BeforeInPlainTerms(m, best, j, k);
      assert m.priority in WORK_PRIORITIES[..k] ==> j < k;
    }
  }

  lemma ClassOf(p: Priority) returns (k: nat)
    ensures k < 5 && WORK_PRIORITIES[k] == p
    ensures forall j :: 0 <= j < 5 && WORK_PRIORITIES[j] == p ==> j == k
  {
    k := Rank(p);
  }

  // ---------------------------------------------------------------- the queue as objects

  class Message {
    const priority: Priority
    const payload: string
    const key: string
    const id: string
    const maxAttempts: int
    const enqueuedAt: real
    var attempts: nat
    var notBefore: real
    var lastError: Option<string>

    function Value(): Msg
      reads this
    {
      Msg(priority, payload, key, id, attempts, maxAttempts, enqueuedAt, notBefore, lastError)
    }

    /** One more failed attempt. */
    method Fail(error: string)
      modifies this
      ensures Value() == Failed(old(Value()), error)
    {
      attempts := attempts + 1;
      lastError := Some(error);
    }

    constructor (m: Msg)
      ensures Value() == m
    {
      priority, payload, key, id := m.priority, m.payload, m.key, m.id;
      maxAttempts, enqueuedAt := m.maxAttempts, m.enqueuedAt;
      attempts, notBefore, lastError := m.attempts, m.notBefore, m.lastError;
    }
  }

  ghost function Values(ms: seq<Message>): (vs: seq<Msg>)
    reads ms
    ensures |vs| == |ms|
    ensures forall i :: 0 <= i < |ms| ==> vs[i] == ms[i].Value()
  {
    seq(|ms|, i requires 0 <= i < |ms| reads ms => ms[i].Value())
  }

  /** How far from the right a message travels when it is inserted. */
  method InsertionPoint(m: Message, sorted: seq<Message>) returns (j: nat)
    ensures j <= |sorted|
    ensures forall k :: j <= k < |sorted| ==> Before(m.Value(), Values(sorted)[k])
    ensures j == 0 || !Before(m.Value(), Values(sorted)[j - 1])
  {
    j := |sorted|;
    while j > 0 && Before(m.Value(), sorted[j - 1].Value())
      invariant j <= |sorted|
      invariant forall k :: j <= k < |sorted| ==> Before(m.Value(), Values(sorted)[k])
    {
      j := j - 1;
    }
  }

  /** Stable insertion, on objects. */
  method InsertMessage(m: Message, sorted: seq<Message>) returns (r: seq<Message>)
    ensures Values(r) == Insert(m.Value(), Values(sorted))
    ensures multiset(r) == multiset(sorted) + multiset{m}
  {
    var j := InsertionPoint(m, sorted);
    hide Insert, Before;
    r := sorted[..j] + [m] + sorted[j..];
    MultisetOfInsertion(sorted, j, m);
    ghost var vs := Values(sorted);
    InsertLands(m.Value(), vs, j);
    assert Values(r) == vs[..j] + [m.Value()] + vs[j..];
  }

  lemma {:induction false} InsertLands(m: Msg, sorted: seq<Msg>, j: nat)
    requires j <= |sorted|
    requires forall k :: j <= k < |sorted| ==> Before(m, sorted[k])
    requires j == 0 || !Before(m, sorted[j - 1])
    ensures Insert(m, sorted) == sorted[..j] + [m] + sorted[j..]
  {
    if j < |sorted| {
      var n := |sorted| - 1;
      InsertLands(m, sorted[..n], j);
      assert sorted[..n][..j] == sorted[..j];
      assert sorted[j..] == sorted[..n][j..] + [sorted[n]];
    } else if sorted != [] {
      assert sorted[..j] == sorted;
    }
  }

  lemma SortOfNext(ms: seq<Msg>, i: nat)
    requires i < |ms|
    ensures Sort(ms[..i + 1]) == Insert(ms[i], Sort(ms[..i]))
  {
    hide Insert;
    assert ms[..i + 1][..i] == ms[..i];
  }

  /** Insertion sort over objects; the objects themselves are untouched. */
  method SortMessages(ms: seq<Message>) returns (sorted: seq<Message>)
    ensures Values(sorted) == Sort(Values(ms))
    ensures multiset(sorted) == multiset(ms)
  {
    hide Insert;
    sorted := [];
    ghost var vs := Values(ms);
    for i := 0 to |ms|
      invariant Values(sorted) == Sort(vs[..i])
      invariant multiset(sorted) == multiset(ms[..i])
    {
      SortOfNext(vs, i);
      MultisetOfPrefix(ms, i);
      sorted := InsertMessage(ms[i], sorted);
    }
    assert ms[..|ms|] == ms && vs[..|ms|] == vs;
  }

  /** First message of a list that is ready. */
  method FindReady(ms: seq<Message>, now: real) returns (msg: Message?)
    ensures msg == null <==> FirstReady(Values(ms), now).None?
    ensures msg != null ==> msg in ms && FirstReady(Values(ms), now) == Some(msg.Value())
  {
    ghost var vs := Values(ms);
    assert vs[0..] == vs;
    for i := 0 to |ms|
      invariant FirstReady(vs, now) == FirstReady(vs[i..], now)
    {
      if ms[i].notBefore <= now {
        return ms[i];
      }
      assert vs[i..][1..] == vs[i + 1..];
    }
    msg := null;
  }

  class InMemoryQueue {
    var pending: seq<Message>
    var dead: seq<Message>
    var seen: set<string>
    ghost var acked: seq<Msg>
    const base: real
    const maximum: real

    ghost function View(): Ledger
      reads this, pending, dead
    {
      Ledger(Values(pending), Values(dead), acked, seen)
    }

    /** Keys are conserved, and no message object stands in two places. */
    ghost predicate Valid()
      reads this, pending, dead
    {
      Conserved(View()) && NoDuplicates(pending) && forall m :: m in pending ==> m !in dead
    }

    constructor (base: real, maximum: real)
      ensures Valid() && View() == EMPTY
      ensures this.base == base && this.maximum == maximum
    {
      pending, dead, seen, acked := [], [], {}, [];
      this.base, this.maximum := base, maximum;
    }

    /** Admits a message unless its key was ever admitted before. */
    method PublishMessage(priority: Priority, payload: string, key: string, maxAttempts: int, id: string,
                          enqueuedAt: real, notBefore: real)
      returns (msg: Message?)
      requires Valid()
      modifies this
      ensures Valid()
      ensures View() == Publish(old(View()), Msg(priority, payload, key, id, 0, maxAttempts, enqueuedAt, notBefore, None))
      ensures msg == null <==> key in old(seen)
      ensures msg == null ==> pending == old(pending)
      ensures msg != null ==> fresh(msg) && pending == old(pending) + [msg]
      ensures dead == old(dead)
    {
      hide Conserved;
      if key in seen {
        return null;
      }
      seen := seen + {key};
      var value := Msg(priority, payload, key, id, 0, maxAttempts, enqueuedAt, notBefore, None);
      msg := new Message(value);
      ghost var before := old(View());
      PublishConserves(before, value);
      pending := pending + [msg];
      assert Values(pending) == before.pending + [value];
      assert View() == Publish(before, value);
    }

    /** Sorts the pending list in place: a stable permutation of the same objects. */
    method SortPending()
      requires Valid()
      modifies `pending
      ensures Valid()
      ensures View() == Poll(old(View()))
      ensures multiset(pending) == multiset(old(pending))
    {
      hide Sort, Conserved;
      var sorted := SortMessages(pending);
      PollConserves(View());
      SameObjectsStayDistinct(pending, sorted);
      pending := sorted;
    }

    /** The most urgent message that is ready, after sorting. */
    method PollReady(now: real) returns (msg: Message?)
      requires Valid()
      modifies `pending
      ensures Valid()
      ensures View() == Poll(old(View()))
      ensures msg == null <==> NextReady(old(View()), now).None?
      ensures msg != null ==> msg in pending && NextReady(old(View()), now) == Some(msg.Value())
      ensures msg != null ==> msg.notBefore <= now
      ensures msg != null ==>
                forall k, m :: 0 <= k < 5 && msg.priority == WORK_PRIORITIES[k]
                               && m in old(View()).pending && m.notBefore <= now ==>
                  && m.priority !in WORK_PRIORITIES[..k]
                  && (m.priority == msg.priority ==>
                        msg.notBefore < m.notBefore || (msg.notBefore == m.notBefore && msg.enqueuedAt <= m.enqueuedAt))
    {
      ghost var before := View();
      SortPending();
      msg := FindReady(pending, now);
      if msg != null {
        ghost var k := ClassOf(msg.priority);
        MostUrgentIsPolled(before, now, k);
      }
    }

    /** Position of the first message that equals `msg` by value. */
    method FindEqual(msg: Message) returns (i: nat)
      ensures i == IndexOf(Values(pending), msg.Value())
    {
      i := 0;
      while i < |pending| && pending[i].Value() != msg.Value()
        invariant i <= |pending|
        invariant forall k :: 0 <= k < i ==> pending[k].Value() != msg.Value()
      {
        i := i + 1;
      }
    }

    /** Takes one message out of the pending list. */
    method RemoveAt(i: nat)
      requires i < |pending| && NoDuplicates(pending)
      modifies `pending
      ensures Values(pending) == old(Values(pending))[..i] + old(Values(pending))[i + 1..]
      ensures NoDuplicates(pending) && old(pending)[i] !in pending
      ensures forall m :: m in pending ==> m in old(pending)
    {
      DistinctRemoval(pending, i);
      pending := pending[..i] + pending[i + 1..];
      assert Values(pending) == old(Values(pending))[..i] + old(Values(pending))[i + 1..];
    }

    /** Removes an acknowledged message; anything else is ignored. */
    method Acknowledge(msg: Message)
      requires Valid()
      modifies this
      ensures Valid()
      ensures View() == Ack(old(View()), old(msg.Value()))
      ensures dead == old(dead)
    {
      hide Conserved;
      ghost var before := View();
      AckConserves(before, msg.Value());
      var i := FindEqual(msg);
      if i < |pending| {
        RemoveAt(i);
        acked := acked + [msg.Value()];
        assert Values(dead) == before.dead;
      }
      assert View() == Ack(before, msg.Value());
    }

    /** A pending object stands where its value stands, and nowhere else. */
    lemma PendingObjectIsUnique(msg: Message) returns (p: nat)
      requires Valid() && msg in pending
      ensures p < |pending| && pending[p] == msg && View().pending[p] == msg.Value()
      ensures IndexOf(View().pending, msg.Value()) == p
      ensures forall k :: 0 <= k < |pending| && k != p ==> pending[k] != msg && pending[k].key != msg.key
      ensures msg !in dead
    {
      p :| 0 <= p < |pending| && pending[p] == msg;
      RemovalIsExact(View(), p);
      forall k | 0 <= k < |pending| && k != p ensures pending[k].key != msg.key {
        if k < p { PendingKeysAreDistinct(View(), k, p); } else { PendingKeysAreDistinct(View(), p, k); }
        assert View().pending[k] == pending[k].Value() && View().pending[p] == msg.Value();
      }
    }

    /** Counts one failed attempt; `p` is where the message stands, or the length of the list. */
    method CountFailure(msg: Message, error: string, ghost p: nat)
      requires p <= |pending| && NoDuplicates(pending) && (p < |pending| ==> pending[p] == msg && msg !in dead)
      requires p == |pending| ==> msg !in pending
      modifies msg
      ensures msg.Value() == Failed(old(msg.Value()), error)
      ensures Values(pending) == if p < |pending| then old(Values(pending))[p := msg.Value()] else old(Values(pending))
      ensures msg !in dead ==> Values(dead) == old(Values(dead))
    {
      msg.Fail(error);
      assert Values(pending) == if p < |pending| then old(Values(pending))[p := msg.Value()] else old(Values(pending));
      assert msg !in dead ==> Values(dead) == old(Values(dead));
    }

    /** Puts a message off by a jittered backoff. */
    method DelayMessage(msg: Message, now: real, ghost p: nat)
      requires p <= |pending| && NoDuplicates(pending) && (p < |pending| ==> pending[p] == msg && msg !in dead)
      requires p == |pending| ==> msg !in pending
      requires msg.attempts >= 1
      modifies msg
      ensures msg.Value() == old(msg.Value()).(notBefore := msg.notBefore)
      ensures base >= 0.0 && maximum >= 0.0 ==>
                now <= msg.notBefore <= now + Capped(base, Pow2(msg.attempts - 1), maximum)
      ensures Values(pending) == if p < |pending| then old(Values(pending))[p := msg.Value()] else old(Values(pending))
      ensures msg !in dead ==> Values(dead) == old(Values(dead))
    {
      var delay := BackoffDelay(msg.attempts, base, maximum);
      BackoffCeilingSign(msg.attempts, base, maximum);
      msg.notBefore := now + delay;
      assert Values(pending) == if p < |pending| then old(Values(pending))[p := msg.Value()] else old(Values(pending));
      assert msg !in dead ==> Values(dead) == old(Values(dead));
    }

    /** Moves an exhausted message to the dead letters, and takes the first equal message out of the pending list. */
    method DeadLetter(msg: Message)
      requires NoDuplicates(pending)
      modifies this
      ensures dead == old(dead) + [msg] && acked == old(acked) && seen == old(seen)
      ensures Values(dead) == old(Values(dead)) + [msg.Value()]
      ensures Values(pending) == RemoveFirst(old(Values(pending)), msg.Value())
      ensures NoDuplicates(pending) && forall m :: m in pending ==> m in old(pending)
      ensures var i := IndexOf(old(Values(pending)), msg.Value());
              i < |old(pending)| ==> old(pending)[i] !in pending
    {
      hide IndexOf, Values;
      var i := FindEqual(msg);
      if i < |pending| {
        RemoveAt(i);
      }
      dead := dead + [msg];
      assert Values(dead) == old(Values(dead)) + [msg.Value()];
    }

    /** Counts the failure of a message, then dead-letters or delays it; `p` is where it stands, or the list's length. */
    method Settle(msg: Message, error: string, now: real, ghost p: nat) returns (deadLettered: bool)
      requires p <= |pending| && NoDuplicates(pending) && (p < |pending| ==> pending[p] == msg && msg !in dead)
      requires p < |pending| ==> forall k :: 0 <= k < |pending| && k != p ==> pending[k].key != msg.key
      requires p == |pending| ==> msg !in pending
      requires forall m :: m in pending ==> m !in dead
      modifies this, msg
      ensures acked == old(acked) && seen == old(seen)
      ensures deadLettered <==> Final(old(msg.Value()))
      ensures dead == if deadLettered then old(dead) + [msg] else old(dead)
      ensures !deadLettered ==> pending == old(pending)
      ensures NoDuplicates(pending) && forall m :: m in pending ==> m !in dead
      ensures !deadLettered && base >= 0.0 && maximum >= 0.0 ==>
                now <= msg.notBefore <= now + Capped(base, Pow2(old(msg.attempts)), maximum)
      ensures msg !in old(dead) && deadLettered ==>
                Values(dead) == old(Values(dead)) + [Failed(old(msg.Value()), error)]
      ensures msg !in old(dead) && !deadLettered ==> Values(dead) == old(Values(dead))
      ensures p < |old(pending)| && deadLettered ==>
                Values(pending) == old(Values(pending))[..p] + old(Values(pending))[p + 1..]
      ensures p < |old(pending)| && !deadLettered ==>
                Values(pending) == old(Values(pending))[p := Failed(old(msg.Value()), error).(notBefore := msg.notBefore)]
      ensures p == |old(pending)| ==>
                Values(pending) == if deadLettered then RemoveFirst(old(Values(pending)), Failed(old(msg.Value()), error))
                                   else old(Values(pending))
    {
      ghost var was := Values(pending);
      CountFailure(msg, error, p);
      ghost var counted := msg.Value();
      deadLettered := msg.attempts >= msg.maxAttempts;
      if deadLettered {
        if p < |was| { UpdatedIsFound(was, p, counted); }
        DeadLetter(msg);
      } else {
        DelayMessage(msg, now, p);
      }
    }

    /**
      * Records a failure: dead-letters the message once its attempts are used up, otherwise delays it by a jittered
      * backoff. A message that has already left is still counted, and an exhausted one is dead-lettered once more; a
      * copy of a pending message takes that message with it exactly when the two are equal once the copy is counted.
      */
    method ReportFailure(msg: Message, error: string, now: real) returns (deadLettered: bool)
      requires Valid()
      modifies this, msg
      ensures deadLettered <==> Final(old(msg.Value()))
      ensures dead == if deadLettered then old(dead) + [msg] else old(dead)
      ensures !deadLettered ==> pending == old(pending)
      ensures acked == old(acked) && seen == old(seen)
      ensures !deadLettered && base >= 0.0 && maximum >= 0.0 ==>
                now <= msg.notBefore <= now + Capped(base, Pow2(old(msg.attempts)), maximum)
      ensures msg in old(pending) ==>
                Valid() && View() == Nack(old(View()), old(msg.Value()), error, msg.notBefore)
      ensures msg !in old(pending) ==>
                Values(pending) == NackStray(old(View()), old(msg.Value()), error).pending
      ensures msg !in old(pending) && msg !in old(dead) ==>
                View() == NackStray(old(View()), old(msg.Value()), error)
    {
      ghost var before := View();
      ghost var p := |pending|;
      if msg in pending {
        p := PendingObjectIsUnique(msg);
        NackByPosition(before, p, error);
      }
      deadLettered := Settle(msg, error, now, p);
      NackConservesExactly(before, old(msg.Value()), error, msg.notBefore);
    }
  }

  /** Once the message at `p` has been counted it is still the first of its value, keys being distinct. */
  lemma UpdatedIsFound(ms: seq<Msg>, p: nat, m: Msg)
    requires p < |ms| && forall k :: 0 <= k < |ms| && k != p ==> ms[k].key != m.key
    ensures IndexOf(ms[p := m], m) == p
    ensures RemoveFirst(ms[p := m], m) == ms[..p] + ms[p + 1..]
  {
    assert ms[p := m][p] == m;
    assert ms[p := m][..p] == ms[..p] && ms[p := m][p + 1..] == ms[p + 1..];
  }

  /** What a failure does to a ledger in which the message stands at position `p`. */
  lemma NackByPosition(l: Ledger, p: nat, error: string)
    requires p < |l.pending| && IndexOf(l.pending, l.pending[p]) == p
    ensures var failed := Failed(l.pending[p], error);
      && (Final(l.pending[p]) ==> forall readyAt ::
            Nack(l, l.pending[p], error, readyAt)
            == l.(pending := l.pending[..p] + l.pending[p + 1..], dead := l.dead + [failed]))
      && (!Final(l.pending[p]) ==> forall readyAt ::
            Nack(l, l.pending[p], error, readyAt) == l.(pending := l.pending[p := failed.(notBefore := readyAt)]))
  {
  }

  lemma DistinctRemoval(ms: seq<Message>, i: nat)
    requires i < |ms| && NoDuplicates(ms)
    ensures NoDuplicates(ms[..i] + ms[i + 1..]) && ms[i] !in ms[..i] + ms[i + 1..]
    ensures forall m :: m in ms[..i] + ms[i + 1..] ==> m in ms
  {
  }

  lemma BackoffCeilingSign(k: nat, base: real, maximum: real)
    requires k >= 1
    ensures RawBackoff(k, base, maximum) == Capped(base, Pow2(k - 1), maximum)
    ensures base >= 0.0 && maximum >= 0.0 ==> 0.0 <= RawBackoff(k, base, maximum)
  {
    if base >= 0.0 && maximum >= 0.0 { BackoffCeiling(k, base, maximum); }
  }

  lemma {:induction false} SameObjectsStayDistinct(ms: seq<Message>, ns: seq<Message>)
    requires NoDuplicates(ms) && multiset(ms) == multiset(ns)
    ensures NoDuplicates(ns)
    ensures forall m :: m in ns <==> m in ms
  {
    assert forall m :: m in ns <==> m in multiset(ns);
    assert forall m :: m in ms <==> m in multiset(ms);
    forall i, j | 0 <= i < j < |ns| ensures ns[i] != ns[j] {
      if ns[i] == ns[j] {
        assert ns == ns[..i] + [ns[i]] + ns[i + 1..j] + [ns[j]] + ns[j + 1..];
        assert multiset(ns)[ns[i]] >= 2;
        DistinctObjectsOccurOnce(ms, ns[i]);
      }
    }
  }

  lemma {:induction false} DistinctObjectsOccurOnce(ms: seq<Message>, m: Message)
    requires NoDuplicates(ms)
    ensures multiset(ms)[m] <= 1
  {
    if ms != [] {
      var n := |ms| - 1;
      DistinctObjectsOccurOnce(ms[..n], m);
      assert ms == ms[..n] + [ms[n]];
      if m == ms[n] { assert m !in ms[..n]; }
    }
  }
}
