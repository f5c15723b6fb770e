/** Lock expiry with a clock: a lock lives for a fixed time from the request that set it. */
module LockLifetime {
  import opened SingleFlight

  /** The shared machine, when each lock was set, and when each elected call was elected. */
  datatype Timed = Timed(state: State, born: map<string, int>, elected: map<nat, int>)

  const OPENING := Timed(START, map[], map[])

  /** The request sets a lock that was not there. */
  predicate SetsLock(c: Config, s: State, t: Step)
    requires Enabled(c, s, t)
  {
    t.Acquire? && s.callers[t.i].key !in s.locks && s.callers[t.i].key in Next(c, s, t).locks
  }

  predicate WinsElection(c: Config, s: State, t: Step)
    requires Enabled(c, s, t)
  {
    t.Acquire? && InElected(Next(c, s, t).callers[t.i].phase)
  }

  function After(c: Config, x: Timed, t: Step): Timed
    requires Enabled(c, x.state, t)
  {
    var s := x.state;
    Timed(Next(c, s, t),
          if SetsLock(c, s, t) then x.born[s.callers[t.i].key := s.clock] else x.born,
          if WinsElection(c, s, t) then x.elected[t.i := s.clock] else x.elected)
  }

  /** The store lets a lock go on its own only once its lifetime is over. */
  predicate Ripe(lifetime: int, x: Timed, key: string) {
    key in x.state.locks ==> key in x.born && x.state.clock >= x.born[key] + lifetime
  }

  /** What the timed store may do, with lock operations whose errors do not mislead. */
  predicate Honest(lifetime: int, x: Timed, t: Step) {
    if t.ExpireLock? then Ripe(lifetime, x, t.key) else !Spoils(x.state, t)
  }

  /** Every elected call is younger than a lock's lifetime: load, store and release fit into it. */
  ghost predicate Brief(lifetime: int, x: Timed) {
    forall i :: 0 <= i < |x.state.callers| && InElected(x.state.callers[i].phase) ==>
      i in x.elected && x.state.clock < x.elected[i] + lifetime
  }

  /** A run of the timed machine in which nothing misleads and every hold is brief whenever something happens. */
  ghost predicate IsTimedRun(c: Config, lifetime: int, x: Timed, ts: seq<Step>)
    decreases |ts|
  {
    ts == []
    || (Enabled(c, x.state, ts[0]) && Honest(lifetime, x, ts[0]) && Brief(lifetime, x)
        && IsTimedRun(c, lifetime, After(c, x, ts[0]), ts[1..]))
  }

  /** Exclusion, and the lock of every elected call was set when that call was elected. */
  ghost predicate Synced(x: Timed) {
    && Exclusive(x.state)
    && forall i :: 0 <= i < |x.state.callers| && InElected(x.state.callers[i].phase) ==>
         var key := x.state.callers[i].key; i in x.elected && key in x.born && x.born[key] == x.elected[i]
  }

  /** In a synced state the store may take a held lock away exactly when some hold has lasted a lifetime. */
  lemma HeldLockMayExpireExactly(lifetime: int, x: Timed)
    requires Synced(x)
    ensures (exists key :: key in x.state.locks && Ripe(lifetime, x, key)) <==> !Brief(lifetime, x)
  {
    var s := x.state;
    if key :| key in s.locks && Ripe(lifetime, x, key) {
      var i :| 0 <= i < |s.callers| && InElected(s.callers[i].phase) && s.callers[i].key == key;
      assert x.born[key] == x.elected[i];
    }
    if !Brief(lifetime, x) {
      var i :| 0 <= i < |s.callers| && InElected(s.callers[i].phase)
               && !(i in x.elected && s.clock < x.elected[i] + lifetime);
      assert Ripe(lifetime, x, s.callers[i].key);
    }
  }

  lemma BriefHoldsSpoilNothing(lifetime: int, x: Timed, t: Step)
    requires Synced(x) && Brief(lifetime, x) && Honest(lifetime, x, t)
    ensures !Spoils(x.state, t)
  {
    HeldLockMayExpireExactly(lifetime, x);
  }

  /** So, among the steps of the timed store, some step can break exclusion exactly when some hold has lasted a lifetime. */
  lemma ExclusionCanBreakExactly(c: Config, lifetime: int, x: Timed)
    requires c.live && Synced(x)
    ensures (exists t :: Enabled(c, x.state, t) && Honest(lifetime, x, t) && !Exclusive(Next(c, x.state, t)))
            <==> !Brief(lifetime, x)
  {
    hide Brief, Ripe, Exclusive, Next;
    HeldLockMayExpireExactly(lifetime, x);
    forall t | Enabled(c, x.state, t) ensures Exclusive(Next(c, x.state, t)) <==> !Spoils(x.state, t) {
      ExclusionIsKeptExactly(c, x.state, t);
    }
    if key :| key in x.state.locks && Ripe(lifetime, x, key) {
      assert Enabled(c, x.state, ExpireLock(key)) && Honest(lifetime, x, ExpireLock(key));
    }
  }

  lemma WinnerSetsItsLock(c: Config, s: State, t: Step)
    requires c.live && Enabled(c, s, t) && !Spoils(s, t) && WinsElection(c, s, t)
    ensures SetsLock(c, s, t)
  {
  }

  lemma OnlyAcquireElects(c: Config, s: State, t: Step, i: nat)
    requires Enabled(c, s, t) && i < |Next(c, s, t).callers| && InElected(Next(c, s, t).callers[i].phase)
    ensures i < |s.callers| && Next(c, s, t).callers[i].key == s.callers[i].key
    ensures InElected(s.callers[i].phase) || (WinsElection(c, s, t) && t.i == i)
    ensures WinsElection(c, s, t) && t.i == i ==> !InElected(s.callers[i].phase)
  {
  }

  lemma StepKeepsSynced(c: Config, x: Timed, t: Step)
    requires c.live && Synced(x) && Enabled(c, x.state, t) && !Spoils(x.state, t)
    ensures Synced(After(c, x, t))
  {
    hide Next, Enabled, InElected, WinsElection;
    var s, y := x.state, After(c, x, t);
    ExclusionIsKeptExactly(c, s, t);
    forall i: nat | i < |y.state.callers| && InElected(y.state.callers[i].phase)
      ensures i in y.elected && y.state.callers[i].key in y.born && y.born[y.state.callers[i].key] == y.elected[i]
    {
      OnlyAcquireElects(c, s, t, i);
      if WinsElection(c, s, t) { WinnerSetsItsLock(c, s, t); }
    }
  }

  /** Holds shorter than the lifetime of a lock are never spoiled by expiry: such runs are unspoiled, and exclusive. */
  lemma {:induction false} BriefHoldsKeepExclusion(c: Config, lifetime: int, x: Timed, ts: seq<Step>)
    requires c.live && Synced(x) && IsTimedRun(c, lifetime, x, ts)
    ensures IsRun(c, x.state, ts) && Unspoiled(c, x.state, ts) && Exclusive(Run(c, x.state, ts))
    decreases |ts|
  {
    if ts != [] {
      BriefHoldsSpoilNothing(lifetime, x, ts[0]);
      StepKeepsSynced(c, x, ts[0]);
      BriefHoldsKeepExclusion(c, lifetime, After(c, x, ts[0]), ts[1..]);
    }
  }

  lemma BriefHoldsFromStart(c: Config, lifetime: int, ts: seq<Step>)
    requires c.live && IsTimedRun(c, lifetime, OPENING, ts)
    ensures IsRun(c, START, ts) && Unspoiled(c, START, ts) && Exclusive(Run(c, START, ts))
  {
    BriefHoldsKeepExclusion(c, lifetime, OPENING, ts);
  }
}
