/** The single-flight document cache: any number of callers over one shared store, with faults, expiry and a clock. */
module SingleFlight {
  import opened Wrappers

  // ---------------------------------------------------------------- one call

  datatype Outcome = Returned(value: string) | Raised

  datatype Path = HitFirst | Elected | HitWaiting | TimedOut

  /** Where a call stands between two of its own actions. */
  datatype Phase =
    | Idle
    | Missed
    | Loading
    | Storing(value: string)
    | Releasing(outcome: Outcome)
    | Refused
    | Waiting(deadline: int)
    | Sleeping(deadline: int, wake: int)
    | Degraded
    | DegradedStoring(value: string)
    | Finished(outcome: Outcome, path: Path)

  /** Wait limit and poll interval, in milliseconds; `live` is false when there is no client. */
  datatype Config = Config(live: bool, timeout: int, poll: int)

  /** The elected section: from a won election until the lock is given back. */
  predicate InElected(p: Phase) { p.Loading? || p.Storing? || p.Releasing? }

  /** One action of a call, as seen from the call itself. */
  predicate Moves(c: Config, now: int, p: Phase, q: Phase) {
    match p
    case Idle => q == Missed || (c.live && q.Finished? && q.outcome.Returned? && q.path == HitFirst)
    case Missed => q == Loading || (c.live && q == Refused)
    case Refused => q == Waiting(now + c.timeout)
    case Loading => q.Storing? || q == Releasing(Raised)
    case Storing(v) => q == Releasing(Returned(v))
    case Releasing(o) => q == Finished(o, Elected)
    case Waiting(d) => if now < d then q == Sleeping(d, now + c.poll) else q == Degraded
    case Sleeping(d, w) => now >= w && (q == Waiting(d) || (q.Finished? && q.outcome.Returned? && q.path == HitWaiting))
    case Degraded => q.DegradedStoring? || q == Finished(Raised, TimedOut)
    case DegradedStoring(v) => q == Finished(Returned(v), TimedOut)
    case Finished(_, _) => false
  }

  // What a call has contributed to each counter by the time it reaches a phase.

  function Bit(b: bool): nat { if b then 1 else 0 }

  function HitsOf(p: Phase): nat { Bit(p.Finished? && (p.path == HitFirst || p.path == HitWaiting)) }

  function MissesOf(p: Phase): nat { Bit(!p.Idle? && !(p.Finished? && p.path == HitFirst)) }

  function WaitsOf(p: Phase): nat {
    Bit(p.Refused? || p.Waiting? || p.Sleeping? || p.Degraded? || p.DegradedStoring?
        || (p.Finished? && (p.path == HitWaiting || p.path == TimedOut)))
  }

  function DegradedOf(p: Phase): nat { Bit(p.Degraded? || p.DegradedStoring? || (p.Finished? && p.path == TimedOut)) }

  function RunsOf(p: Phase): nat {
    Bit(p.Storing? || p.Releasing? || p.DegradedStoring? || (p.Finished? && (p.path == Elected || p.path == TimedOut)))
  }

  // ---------------------------------------------------------------- all calls and the store

  datatype Caller = Caller(key: string, phase: Phase)

  datatype State = State(callers: seq<Caller>, values: map<string, string>, locks: set<string>, clock: int,
                         hits: nat, misses: nat, waits: nat, degraded: nat, runs: nat,
                         produced: set<(string, string)>, failed: set<nat>)

  /** A store operation goes through, or raises before or after its effect took place. */
  datatype Reply = Fine | LostBefore | LostAfter

  datatype Step =
    | Arrive(key: string)
    | Read(i: nat, reply: Reply)
    | Acquire(i: nat, reply: Reply)
    | Load(i: nat, result: Option<string>)
    | Store(i: nat, reply: Reply)
    | Release(i: nat, reply: Reply)
    | SetDeadline(i: nat)
    | Sleep(i: nat)
    | Wake(i: nat, reply: Reply)
    | GiveUp(i: nat)
    | Tick(d: nat)
    | ExpireValue(key: string)
    | ExpireLock(key: string)

  const START := State([], map[], {}, 0, 0, 0, 0, 0, 0, {}, {})

  /** Steps taken by a call, as opposed to arrivals, time and the store. */
  predicate ByCaller(t: Step) {
    !(t.Arrive? || t.Tick? || t.ExpireValue? || t.ExpireLock?)
  }

  predicate Enabled(c: Config, s: State, t: Step) {
    match t
    case Arrive(_) => true
    case Tick(_) => true
    case ExpireValue(_) => true
    case ExpireLock(_) => true
    case Read(i, _) => i < |s.callers| && s.callers[i].phase.Idle?
    case Acquire(i, _) => i < |s.callers| && s.callers[i].phase.Missed?
    case Load(i, _) => i < |s.callers| && (s.callers[i].phase.Loading? || s.callers[i].phase.Degraded?)
    case Store(i, _) => i < |s.callers| && (s.callers[i].phase.Storing? || s.callers[i].phase.DegradedStoring?)
    case Release(i, _) => i < |s.callers| && s.callers[i].phase.Releasing?
    case SetDeadline(i) => i < |s.callers| && s.callers[i].phase.Refused?
    case Sleep(i) => i < |s.callers| && s.callers[i].phase.Waiting? && s.clock < s.callers[i].phase.deadline
    case Wake(i, _) => i < |s.callers| && s.callers[i].phase.Sleeping? && s.clock >= s.callers[i].phase.wake
    case GiveUp(i) => i < |s.callers| && s.callers[i].phase.Waiting? && s.clock >= s.callers[i].phase.deadline
  }

  /** Moves one call on; nothing else changes. */
  function Move(s: State, i: nat, q: Phase): State
    requires i < |s.callers|
  {
    s.(callers := s.callers[i := s.callers[i].(phase := q)])
  }

  /** What a read of the document gives: errors and a missing client look like a miss. */
  function Lookup(c: Config, s: State, key: string, reply: Reply): Option<string> {
    if c.live && reply == Fine && key in s.values then Some(s.values[key]) else None
  }

  function Next(c: Config, s: State, t: Step): State
    requires Enabled(c, s, t)
  {
    match t
    case Arrive(key) => s.(callers := s.callers + [Caller(key, Idle)])
    case Tick(d) => s.(clock := s.clock + d)
    case ExpireValue(key) => s.(values := s.values - {key})
    case ExpireLock(key) => s.(locks := s.locks - {key})
    case Read(i, reply) =>
      (match Lookup(c, s, s.callers[i].key, reply)
       case Some(v) => Move(s, i, Finished(Returned(v), HitFirst)).(hits := s.hits + 1)
       case None => Move(s, i, Missed).(misses := s.misses + 1))
    case Acquire(i, reply) =>
      var key := s.callers[i].key;
      if !c.live then Move(s, i, Loading)
      else if reply == Fine && key in s.locks then Move(s, i, Refused).(waits := s.waits + 1)
      else Move(s, i, Loading).(locks := if reply == LostBefore then s.locks else s.locks + {key})
    case Load(i, result) =>
      (match result
       case Some(v) =>
         Move(s, i, if s.callers[i].phase.Loading? then Storing(v) else DegradedStoring(v))
         .(runs := s.runs + 1, produced := s.produced + {(s.callers[i].key, v)})
       case None =>
         Move(s, i, if s.callers[i].phase.Loading? then Releasing(Raised) else Finished(Raised, TimedOut))
         .(runs := s.runs + 1, failed := s.failed + {i}))
    case Store(i, reply) =>
      var v := s.callers[i].phase.value;
      Move(s, i, if s.callers[i].phase.Storing? then Releasing(Returned(v)) else Finished(Returned(v), TimedOut))
      .(values := if c.live && reply != LostBefore then s.values[s.callers[i].key := v] else s.values)
    case Release(i, reply) =>
      Move(s, i, Finished(s.callers[i].phase.outcome, Elected))
      .(locks := if c.live && reply != LostBefore then s.locks - {s.callers[i].key} else s.locks)
    case SetDeadline(i) => Move(s, i, Waiting(s.clock + c.timeout))
    case Sleep(i) => Move(s, i, Sleeping(s.callers[i].phase.deadline, s.clock + c.poll))
    case Wake(i, reply) =>
      (match Lookup(c, s, s.callers[i].key, reply)
       case Some(v) => Move(s, i, Finished(Returned(v), HitWaiting)).(hits := s.hits + 1)
       case None => Move(s, i, Waiting(s.callers[i].phase.deadline)))
    case GiveUp(i) => Move(s, i, Degraded).(degraded := s.degraded + 1)
  }

  predicate IsRun(c: Config, s: State, ts: seq<Step>)
    decreases |ts|
  {
    ts == [] || (Enabled(c, s, ts[0]) && IsRun(c, Next(c, s, ts[0]), ts[1..]))
  }

  function Run(c: Config, s: State, ts: seq<Step>): State
    requires IsRun(c, s, ts)
    decreases |ts|
  {
    if ts == [] then s else Run(c, Next(c, s, ts[0]), ts[1..])
  }

  /** Every step of the shared machine moves its call along the call's own program. */
  lemma MachineFollowsTheProgram(c: Config, s: State, t: Step)
    requires Enabled(c, s, t) && ByCaller(t)
    ensures |Next(c, s, t).callers| == |s.callers| && t.i < |s.callers|
    ensures Moves(c, s.clock, s.callers[t.i].phase, Next(c, s, t).callers[t.i].phase)
    ensures forall k :: 0 <= k < |s.callers| && k != t.i ==> Next(c, s, t).callers[k] == s.callers[k]
  {
  }

  // ---------------------------------------------------------------- mutual exclusion

  /** At most one call per key is in the elected section, and the lock exists exactly while one is. */
  ghost predicate Exclusive(s: State) {
    && (forall i, j :: 0 <= i < j < |s.callers| && InElected(s.callers[i].phase) && InElected(s.callers[j].phase)
          ==> s.callers[i].key != s.callers[j].key)
    && (forall i :: 0 <= i < |s.callers| && InElected(s.callers[i].phase) ==> s.callers[i].key in s.locks)
    && (forall key :: key in s.locks ==>
          exists i :: 0 <= i < |s.callers| && InElected(s.callers[i].phase) && s.callers[i].key == key)
  }

  /** The only events that spoil the election: a lock that expires while held, and a lock operation that misleads. */
  predicate Spoils(s: State, t: Step) {
    match t
    case Acquire(i, reply) =>
      reply == LostBefore || (reply == LostAfter && i < |s.callers| && s.callers[i].key in s.locks)
    case Release(_, reply) => reply == LostBefore
    case ExpireLock(key) => key in s.locks
    case _ => false
  }

  /** From an exclusive state, a step keeps exclusion exactly when it is not one of those events. */
  lemma ExclusionIsKeptExactly(c: Config, s: State, t: Step)
    requires c.live && Exclusive(s) && Enabled(c, s, t)
    ensures Exclusive(Next(c, s, t)) <==> !Spoils(s, t)
  {
    var n := Next(c, s, t);
    if !t.Tick? && !t.ExpireValue? && !t.Arrive? {
      if t.ExpireLock? {
        if t.key in s.locks {
          var i :| 0 <= i < |s.callers| && InElected(s.callers[i].phase) && s.callers[i].key == t.key;
          assert n.callers[i] == s.callers[i];
        }
      } else {
        CallerStepKeepsExclusionExactly(c, s, t);
      }
    } else {
      assert forall k :: 0 <= k < |s.callers| ==> n.callers[k] == s.callers[k];
      forall key | key in n.locks
        ensures exists i :: 0 <= i < |n.callers| && InElected(n.callers[i].phase) && n.callers[i].key == key
      {
        var i :| 0 <= i < |s.callers| && InElected(s.callers[i].phase) && s.callers[i].key == key;
        assert n.callers[i] == s.callers[i];
      }
    }
  }

  /** Two states that differ at most in the phase of one call. */
  ghost predicate SameButOne(s: State, n: State, i: nat) {
    && |n.callers| == |s.callers| && i < |s.callers|
    && n.callers[i].key == s.callers[i].key
    && forall k :: 0 <= k < |s.callers| && k != i ==> n.callers[k] == s.callers[k]
  }

  lemma StayingKeepsExclusion(s: State, n: State, i: nat)
    requires Exclusive(s) && SameButOne(s, n, i) && n.locks == s.locks
    requires InElected(n.callers[i].phase) == InElected(s.callers[i].phase)
    ensures Exclusive(n)
  {
    forall key | key in n.locks
      ensures exists j :: 0 <= j < |n.callers| && InElected(n.callers[j].phase) && n.callers[j].key == key
    {
      var j :| 0 <= j < |s.callers| && InElected(s.callers[j].phase) && s.callers[j].key == key;
      assert InElected(n.callers[j].phase) && n.callers[j].key == key;
    }
  }

  lemma EnteringKeepsExclusionExactly(s: State, n: State, i: nat)
    requires Exclusive(s) && SameButOne(s, n, i)
    requires n.locks == s.locks || n.locks == s.locks + {s.callers[i].key}
    requires InElected(n.callers[i].phase) && !InElected(s.callers[i].phase)
    ensures Exclusive(n) <==> s.callers[i].key !in s.locks && s.callers[i].key in n.locks
  {
    var key := s.callers[i].key;
    if key in s.locks {
      var j :| 0 <= j < |s.callers| && InElected(s.callers[j].phase) && s.callers[j].key == key;
      assert n.callers[j] == s.callers[j] && j != i;
    } else if key in n.locks {
      forall k | k in n.locks
        ensures exists j :: 0 <= j < |n.callers| && InElected(n.callers[j].phase) && n.callers[j].key == k
      {
        if k in s.locks {
          var j :| 0 <= j < |s.callers| && InElected(s.callers[j].phase) && s.callers[j].key == k;
          assert n.callers[j] == s.callers[j];
        } else {
          assert InElected(n.callers[i].phase) && n.callers[i].key == k;
        }
      }
    }
  }

  lemma LeavingKeepsExclusionExactly(s: State, n: State, i: nat)
    requires Exclusive(s) && SameButOne(s, n, i)
    requires n.locks == s.locks || n.locks == s.locks - {s.callers[i].key}
    requires !InElected(n.callers[i].phase) && InElected(s.callers[i].phase)
    ensures Exclusive(n) <==> s.callers[i].key !in n.locks
  {
    var key := s.callers[i].key;
    if key in n.locks {
      forall j | 0 <= j < |n.callers| && InElected(n.callers[j].phase) ensures n.callers[j].key != key {
        assert j != i;
      }
    } else {
      forall k | k in n.locks
        ensures exists j :: 0 <= j < |n.callers| && InElected(n.callers[j].phase) && n.callers[j].key == k
      {
        var j :| 0 <= j < |s.callers| && InElected(s.callers[j].phase) && s.callers[j].key == k;
        assert j != i && n.callers[j] == s.callers[j];
      }
    }
  }

  lemma CallerStepKeepsExclusionExactly(c: Config, s: State, t: Step)
    requires c.live && Exclusive(s) && Enabled(c, s, t) && ByCaller(t)
    ensures Exclusive(Next(c, s, t)) <==> !Spoils(s, t)
  {
    var n, i := Next(c, s, t), t.i;
    assert SameButOne(s, n, i);
    if InElected(n.callers[i].phase) == InElected(s.callers[i].phase) {
      StayingKeepsExclusion(s, n, i);
    } else if InElected(n.callers[i].phase) {
      EnteringKeepsExclusionExactly(s, n, i);
    } else {
      LeavingKeepsExclusionExactly(s, n, i);
    }
  }

  /** No step of the run is one of the spoiling events. */
  predicate Unspoiled(c: Config, s: State, ts: seq<Step>)
    requires IsRun(c, s, ts)
    decreases |ts|
  {
    ts == [] || (!Spoils(s, ts[0]) && Unspoiled(c, Next(c, s, ts[0]), ts[1..]))
  }

  /** Single flight, over every interleaving of any number of calls, loaders that raise included. */
  lemma {:induction false} SingleFlightHolds(c: Config, s: State, ts: seq<Step>)
    requires c.live && Exclusive(s) && IsRun(c, s, ts) && Unspoiled(c, s, ts)
    ensures Exclusive(Run(c, s, ts))
    decreases |ts|
  {
    if ts != [] {
      ExclusionIsKeptExactly(c, s, ts[0]);
      SingleFlightHolds(c, Next(c, s, ts[0]), ts[1..]);
    }
  }

  lemma SingleFlightFromStart(c: Config, ts: seq<Step>)
    requires c.live && IsRun(c, START, ts) && Unspoiled(c, START, ts)
    ensures Exclusive(Run(c, START, ts))
  {
    SingleFlightHolds(c, START, ts);
  }

  /** A call that waits, or that has timed out and loads for itself. */
  predicate OutsideElection(p: Phase) { p.Refused? || p.Waiting? || p.Sleeping? || p.Degraded? || p.DegradedStoring? }

  /** Such a call never touches a lock and never comes back into the election. */
  lemma WaitersNeverTouchTheLock(c: Config, s: State, t: Step)
    requires Enabled(c, s, t) && ByCaller(t) && OutsideElection(s.callers[t.i].phase)
    ensures Next(c, s, t).locks == s.locks
    ensures var q := Next(c, s, t).callers[t.i].phase; OutsideElection(q) || (q.Finished? && q.path != Elected)
  {
  }

  // ---------------------------------------------------------------- why the hypotheses are needed

  /** Between the decision to load and the loader's end. */
  predicate MayLoad(p: Phase) { p.Loading? || p.Degraded? }

  /** Time only passes while no call is at its loader. */
  ghost predicate LoadersTakeNoTime(c: Config, s: State, ts: seq<Step>)
    requires IsRun(c, s, ts)
    decreases |ts|
  {
    ts == [] || (!TicksWhileLoading(s, ts[0]) && LoadersTakeNoTime(c, Next(c, s, ts[0]), ts[1..]))
  }

  ghost predicate TicksWhileLoading(s: State, t: Step) {
    t.Tick? && exists i :: 0 <= i < |s.callers| && MayLoad(s.callers[i].phase)
  }

  /** A run that goes one step further. */
  lemma {:induction false} RunAppend(c: Config, s: State, ts: seq<Step>, t: Step)
    requires IsRun(c, s, ts) && Enabled(c, Run(c, s, ts), t)
    ensures IsRun(c, s, ts + [t]) && Run(c, s, ts + [t]) == Next(c, Run(c, s, ts), t)
    ensures Unspoiled(c, s, ts + [t]) <==> Unspoiled(c, s, ts) && !Spoils(Run(c, s, ts), t)
    ensures LoadersTakeNoTime(c, s, ts + [t]) <==> LoadersTakeNoTime(c, s, ts) && !TicksWhileLoading(Run(c, s, ts), t)
    decreases |ts|
  {
    hide Enabled, Next, Spoils, TicksWhileLoading;
    var more := ts + [t];
    if ts == [] {
      assert more[1..] == [];
    } else {
      RunAppend(c, Next(c, s, ts[0]), ts[1..], t);
      assert more[1..] == ts[1..] + [t];
    }
  }

  lemma EmptyRun(c: Config, s: State)
    ensures IsRun(c, s, []) && Run(c, s, []) == s && Unspoiled(c, s, []) && LoadersTakeNoTime(c, s, [])
  {
  }

  /** Two calls for one key that have both missed. */
  lemma TwoMisses(c: Config, key: string) returns (ts: seq<Step>)
    requires c.live
    ensures IsRun(c, START, ts) && Unspoiled(c, START, ts) && LoadersTakeNoTime(c, START, ts)
    ensures Run(c, START, ts) == START.(callers := [Caller(key, Missed), Caller(key, Missed)], misses := 2)
  {
    ts := [];
    EmptyRun(c, START);
    RunAppend(c, START, ts, Arrive(key));
    ts := ts + [Arrive(key)];
    assert Run(c, START, ts).callers == [Caller(key, Idle)];
    RunAppend(c, START, ts, Arrive(key));
    ts := ts + [Arrive(key)];
    assert Run(c, START, ts).callers == [Caller(key, Idle), Caller(key, Idle)];
    RunAppend(c, START, ts, Read(0, Fine));
    ts := ts + [Read(0, Fine)];
    assert Run(c, START, ts).callers == [Caller(key, Missed), Caller(key, Idle)];
    RunAppend(c, START, ts, Read(1, Fine));
    ts := ts + [Read(1, Fine)];
    assert Run(c, START, ts).callers == [Caller(key, Missed), Caller(key, Missed)];
  }

  /** If the lock of the first expires while it loads, both are elected at once. */
  lemma ExpiredLockElectsTwo(c: Config, key: string) returns (ts: seq<Step>)
    requires c.live
    ensures IsRun(c, START, ts) && Run(c, START, ts).callers == [Caller(key, Loading), Caller(key, Loading)]
  {
    ts := TwoMisses(c, key);
    hide IsRun, Run, Unspoiled, LoadersTakeNoTime;
    RunAppend(c, START, ts, Acquire(0, Fine));
    ts := ts + [Acquire(0, Fine)];
    RunAppend(c, START, ts, ExpireLock(key));
    ts := ts + [ExpireLock(key)];
    assert Run(c, START, ts).callers == [Caller(key, Loading), Caller(key, Missed)];
    assert Run(c, START, ts).locks == {};
    RunAppend(c, START, ts, Acquire(1, Fine));
    ts := ts + [Acquire(1, Fine)];
  }

  // ---------------------------------------------------------------- one loader at a time

  /** At most one call per key is running its loader, elected or not. */
  ghost predicate OneLoader(s: State) {
    forall i, j :: 0 <= i < j < |s.callers| && MayLoad(s.callers[i].phase) && MayLoad(s.callers[j].phase)
      ==> s.callers[i].key != s.callers[j].key
  }

  /** The step leads its call to the loader: the wait has run out, or the lock was not refused. */
  predicate StartsLoading(c: Config, s: State, t: Step)
    requires Enabled(c, s, t)
  {
    t.GiveUp? || (t.Acquire? && !(c.live && t.reply == Fine && s.callers[t.i].key in s.locks))
  }

  /** One loader at a time is kept exactly unless a call turns to its loader while another call of its key loads. */
  lemma OneLoaderIsKeptExactly(c: Config, s: State, t: Step)
    requires OneLoader(s) && Enabled(c, s, t)
    ensures OneLoader(Next(c, s, t)) <==>
            !(StartsLoading(c, s, t)
              && exists j :: 0 <= j < |s.callers| && j != t.i && MayLoad(s.callers[j].phase)
                             && s.callers[j].key == s.callers[t.i].key)
  {
    var n := Next(c, s, t);
    if ByCaller(t) {
      LoadingStartsExactly(c, s, t);
      hide Next, Enabled, StartsLoading;
      CallerStepIsAMove(c, s, t);
      assert forall j :: 0 <= j < |s.callers| && j != t.i ==> n.callers[j] == s.callers[j];
      if j :| StartsLoading(c, s, t) && 0 <= j < |s.callers| && j != t.i && MayLoad(s.callers[j].phase)
              && s.callers[j].key == s.callers[t.i].key
      {
        assert MayLoad(n.callers[t.i].phase) && MayLoad(n.callers[j].phase);
      }
    } else {
      assert forall j :: 0 <= j < |s.callers| ==> n.callers[j] == s.callers[j];
    }
  }

  lemma LoadingStartsExactly(c: Config, s: State, t: Step)
    requires Enabled(c, s, t) && ByCaller(t)
    ensures t.i < |Next(c, s, t).callers|
    ensures MayLoad(Next(c, s, t).callers[t.i].phase) <==> StartsLoading(c, s, t)
  {
  }

  /** Nothing is spoiled and the lock is held, yet a waiter whose time is up loads beside the elected call. */
  lemma TimedOutWaiterLoadsToo(c: Config, key: string) returns (ts: seq<Step>)
    requires c.live
    ensures IsRun(c, START, ts) && Unspoiled(c, START, ts)
    ensures Run(c, START, ts).callers == [Caller(key, Loading), Caller(key, Degraded)]
  {
    ts := TwoMisses(c, key);
    hide IsRun, Run, Unspoiled, LoadersTakeNoTime;
    RunAppend(c, START, ts, Acquire(0, Fine));
    ts := ts + [Acquire(0, Fine)];
    RunAppend(c, START, ts, Acquire(1, Fine));
    ts := ts + [Acquire(1, Fine)];
    assert Run(c, START, ts).callers == [Caller(key, Loading), Caller(key, Refused)];
    RunAppend(c, START, ts, SetDeadline(1));
    ts := ts + [SetDeadline(1)];
    assert Run(c, START, ts).callers == [Caller(key, Loading), Caller(key, Waiting(c.timeout))];
    var d := if c.timeout > 0 then c.timeout else 0;
    RunAppend(c, START, ts, Tick(d));
    ts := ts + [Tick(d)];
    RunAppend(c, START, ts, GiveUp(1));
    ts := ts + [GiveUp(1)];
  }

  /** No wait runs out. */
  predicate Patient(ts: seq<Step>) { forall k :: 0 <= k < |ts| ==> !ts[k].GiveUp? }

  ghost predicate NoneDegraded(s: State) { forall i :: 0 <= i < |s.callers| ==> !s.callers[i].phase.Degraded? }

  lemma PatientStepKeepsNoneDegraded(c: Config, s: State, t: Step)
    requires NoneDegraded(s) && Enabled(c, s, t) && !t.GiveUp?
    ensures NoneDegraded(Next(c, s, t))
  {
  }

  lemma {:induction false} PatientRunKeepsNoneDegraded(c: Config, s: State, ts: seq<Step>)
    requires NoneDegraded(s) && IsRun(c, s, ts) && Patient(ts)
    ensures NoneDegraded(Run(c, s, ts))
    decreases |ts|
  {
    if ts != [] {
      PatientStepKeepsNoneDegraded(c, s, ts[0]);
      PatientRunKeepsNoneDegraded(c, Next(c, s, ts[0]), ts[1..]);
    }
  }

  /** The docstring's promise over runs from the start: unspoiled, and with no wait run out, one loader per key. */
  lemma OneLoaderFromStart(c: Config, ts: seq<Step>)
    requires c.live && IsRun(c, START, ts) && Unspoiled(c, START, ts) && Patient(ts)
    ensures OneLoader(Run(c, START, ts))
  {
    hide IsRun, Run, Unspoiled, Patient;
    SingleFlightFromStart(c, ts);
    PatientRunKeepsNoneDegraded(c, START, ts);
  }

  /**
    * Fast loaders alone do not keep waits from running out beside a loader. Here no loader takes any time at all: the
    * first raises at once, the waiter naps, and a third call is elected at the instant the waiter's time is up.
    */
  lemma FastLoadersDoNotSuffice(c: Config, key: string) returns (ts: seq<Step>)
    requires c.live && c.timeout > 0
    ensures IsRun(c, START, ts) && Unspoiled(c, START, ts) && LoadersTakeNoTime(c, START, ts)
    ensures Run(c, START, ts).callers
            == [Caller(key, Finished(Raised, Elected)), Caller(key, Degraded), Caller(key, Loading)]
  {
    var first, third := Caller(key, Finished(Raised, Elected)), Caller(key, Loading);
    ts := NapEndsBesideALoader(c, key);
    hide IsRun, Run, Unspoiled, LoadersTakeNoTime;
    RunAppend(c, START, ts, Wake(1, Fine));
    ts := ts + [Wake(1, Fine)];
    assert Run(c, START, ts).callers == [first, Caller(key, Waiting(c.timeout)), third];
    RunAppend(c, START, ts, GiveUp(1));
    ts := ts + [GiveUp(1)];
  }

  /** The waiter's time is up, and a third call has just been elected. */
  lemma NapEndsBesideALoader(c: Config, key: string) returns (ts: seq<Step>)
    requires c.live && c.timeout > 0
    ensures IsRun(c, START, ts) && Unspoiled(c, START, ts) && LoadersTakeNoTime(c, START, ts)
    ensures var s := Run(c, START, ts);
      && s.callers == [Caller(key, Finished(Raised, Elected)), Caller(key, Sleeping(c.timeout, c.poll)), Caller(key, Loading)]
      && s.values == map[] && s.clock >= c.timeout && s.clock >= c.poll
  {
    var first, nap := Caller(key, Finished(Raised, Elected)), Caller(key, Sleeping(c.timeout, c.poll));
    var d := if c.timeout > c.poll then c.timeout else c.poll;
    ts := FailedFirstLoader(c, key);
    hide IsRun, Run, Unspoiled, LoadersTakeNoTime;
    RunAppend(c, START, ts, Tick(d));
    ts := ts + [Tick(d)];
    RunAppend(c, START, ts, Arrive(key));
    ts := ts + [Arrive(key)];
    assert Run(c, START, ts).callers == [first, nap, Caller(key, Idle)];
    RunAppend(c, START, ts, Read(2, Fine));
    ts := ts + [Read(2, Fine)];
    assert Run(c, START, ts).callers == [first, nap, Caller(key, Missed)];
    RunAppend(c, START, ts, Acquire(2, Fine));
    ts := ts + [Acquire(2, Fine)];
    assert Run(c, START, ts).callers == [first, nap, Caller(key, Loading)];
  }

  /** One call naps; the elected one has raised at once and given its lock back. */
  lemma FailedFirstLoader(c: Config, key: string) returns (ts: seq<Step>)
    requires c.live && c.timeout > 0
    ensures IsRun(c, START, ts) && Unspoiled(c, START, ts) && LoadersTakeNoTime(c, START, ts)
    ensures var s := Run(c, START, ts);
      && s.callers == [Caller(key, Finished(Raised, Elected)), Caller(key, Sleeping(c.timeout, c.poll))]
      && s.locks == {} && s.values == map[] && s.clock == 0
  {
    ts := TwoMisses(c, key);
    hide IsRun, Run, Unspoiled, LoadersTakeNoTime;
    RunAppend(c, START, ts, Acquire(0, Fine));
    ts := ts + [Acquire(0, Fine)];
    RunAppend(c, START, ts, Acquire(1, Fine));
    ts := ts + [Acquire(1, Fine)];
    assert Run(c, START, ts).callers == [Caller(key, Loading), Caller(key, Refused)];
    RunAppend(c, START, ts, SetDeadline(1));
    ts := ts + [SetDeadline(1)];
    assert Run(c, START, ts).callers == [Caller(key, Loading), Caller(key, Waiting(c.timeout))];
    RunAppend(c, START, ts, Sleep(1));
    ts := ts + [Sleep(1)];
    assert Run(c, START, ts).callers == [Caller(key, Loading), Caller(key, Sleeping(c.timeout, c.poll))];
    RunAppend(c, START, ts, Load(0, None));
    ts := ts + [Load(0, None)];
    assert Run(c, START, ts).callers == [Caller(key, Releasing(Raised)), Caller(key, Sleeping(c.timeout, c.poll))];
    RunAppend(c, START, ts, Release(0, Fine));
    ts := ts + [Release(0, Fine)];
  }

  /**
    * A load is redundant when its document is cached by the time the call turns to its loader. The program never looks
    * again before it loads, so this happens exactly when a wait runs out, or a lock is not refused, on a cached key.
    */
  lemma LoadIsRedundantExactly(c: Config, s: State, t: Step)
    requires Enabled(c, s, t) && ByCaller(t)
    ensures var n, key := Next(c, s, t), s.callers[t.i].key;
      t.i < |n.callers| && (MayLoad(n.callers[t.i].phase) && key in n.values <==> StartsLoading(c, s, t) && key in s.values)
  {
  }

  /** So one loader call in total is not promised: a late winner loads a document that is there already. */
  lemma LateWinnerLoadsAgain(c: Config, key: string, v: string) returns (ts: seq<Step>)
    requires c.live
    ensures IsRun(c, START, ts) && Unspoiled(c, START, ts)
    ensures var s := Run(c, START, ts);
      && s.callers == [Caller(key, Finished(Returned(v), Elected)), Caller(key, Loading)]
      && key in s.values && s.values[key] == v && s.runs == 1
  {
    ts := TwoMisses(c, key);
    hide IsRun, Run, Unspoiled, LoadersTakeNoTime;
    RunAppend(c, START, ts, Acquire(0, Fine));
    ts := ts + [Acquire(0, Fine)];
    RunAppend(c, START, ts, Load(0, Some(v)));
    ts := ts + [Load(0, Some(v))];
    assert Run(c, START, ts).callers == [Caller(key, Storing(v)), Caller(key, Missed)];
    RunAppend(c, START, ts, Store(0, Fine));
    ts := ts + [Store(0, Fine)];
    RunAppend(c, START, ts, Release(0, Fine));
    ts := ts + [Release(0, Fine)];
    assert Run(c, START, ts).callers == [Caller(key, Finished(Returned(v), Elected)), Caller(key, Missed)];
    assert Run(c, START, ts).locks == {};
    RunAppend(c, START, ts, Acquire(1, Fine));
    ts := ts + [Acquire(1, Fine)];
  }

  // ---------------------------------------------------------------- documents come from loaders

  predicate Carries(p: Phase, v: string) {
    (p.Storing? && p.value == v) || (p.DegradedStoring? && p.value == v)
    || (p.Releasing? && p.outcome == Returned(v)) || (p.Finished? && p.outcome == Returned(v))
  }

  predicate Raises(p: Phase) { (p.Releasing? || p.Finished?) && p.outcome == Raised }

  /** Stored and returned documents were produced by a loader for that key; a call raises only if its loader did. */
  ghost predicate Provenance(s: State) {
    && (forall key :: key in s.values ==> (key, s.values[key]) in s.produced)
    && (forall i, v :: 0 <= i < |s.callers| && Carries(s.callers[i].phase, v) ==> (s.callers[i].key, v) in s.produced)
    && (forall i :: 0 <= i < |s.callers| && Raises(s.callers[i].phase) ==> i in s.failed)
  }

  lemma MoveKeepsProvenance(s: State, n: State, i: nat)
    requires Provenance(s) && SameButOne(s, n, i)
    requires s.produced <= n.produced && s.failed <= n.failed
    requires forall v :: Carries(n.callers[i].phase, v) ==> (n.callers[i].key, v) in n.produced
    requires Raises(n.callers[i].phase) ==> i in n.failed
    requires n.values == s.values
             || exists v :: Carries(n.callers[i].phase, v) && n.values == s.values[n.callers[i].key := v]
    ensures Provenance(n)
  {
    forall k, v | 0 <= k < |n.callers| && Carries(n.callers[k].phase, v) ensures (n.callers[k].key, v) in n.produced {
      if k != i { assert Carries(s.callers[k].phase, v); }
    }
    forall k | 0 <= k < |n.callers| && Raises(n.callers[k].phase) ensures k in n.failed {
      if k != i { assert Raises(s.callers[k].phase); }
    }
  }

  /** What the moving call carries or raises is accounted for. */
  lemma MoverIsAccountedFor(c: Config, s: State, t: Step)
    requires Provenance(s) && Enabled(c, s, t) && ByCaller(t)
    ensures var n := Next(c, s, t);
      && (forall v :: Carries(n.callers[t.i].phase, v) ==> (n.callers[t.i].key, v) in n.produced)
      && (Raises(n.callers[t.i].phase) ==> t.i in n.failed)
  {
    var n, p := Next(c, s, t), s.callers[t.i].phase;
    forall v | Carries(n.callers[t.i].phase, v) ensures (n.callers[t.i].key, v) in n.produced {
      if t.Store? || t.Release? { assert Carries(p, v); }
    }
    if t.Release? && p.outcome == Raised { assert Raises(p); }
  }

  lemma StoreWritesWhatItCarries(c: Config, s: State, t: Step)
    requires Enabled(c, s, t) && ByCaller(t)
    ensures var n := Next(c, s, t);
      && SameButOne(s, n, t.i) && s.produced <= n.produced && s.failed <= n.failed
      && (n.values == s.values
          || exists v :: Carries(n.callers[t.i].phase, v) && n.values == s.values[n.callers[t.i].key := v])
  {
    if t.Store? { assert Carries(Next(c, s, t).callers[t.i].phase, s.callers[t.i].phase.value); }
  }

  lemma EnvironmentKeepsProvenance(c: Config, s: State, t: Step)
    requires Provenance(s) && Enabled(c, s, t) && !ByCaller(t)
    ensures Provenance(Next(c, s, t))
  {
    var n := Next(c, s, t);
    assert forall k :: 0 <= k < |s.callers| ==> n.callers[k] == s.callers[k];
  }

  lemma StepKeepsProvenance(c: Config, s: State, t: Step)
    requires Provenance(s) && Enabled(c, s, t)
    ensures Provenance(Next(c, s, t))
  {
    if ByCaller(t) {
      MoverIsAccountedFor(c, s, t);
      StoreWritesWhatItCarries(c, s, t);
      MoveKeepsProvenance(s, Next(c, s, t), t.i);
    } else {
      EnvironmentKeepsProvenance(c, s, t);
    }
  }

  /** Under any pattern of faults and expiry, in every run. */
  lemma {:induction false} ProvenanceHolds(c: Config, s: State, ts: seq<Step>)
    requires Provenance(s) && IsRun(c, s, ts)
    ensures Provenance(Run(c, s, ts))
    decreases |ts|
  {
    if ts != [] {
      StepKeepsProvenance(c, s, ts[0]);
      ProvenanceHolds(c, Next(c, s, ts[0]), ts[1..]);
    }
  }

  lemma ProvenanceFromStart(c: Config, ts: seq<Step>)
    requires IsRun(c, START, ts)
    ensures Provenance(Run(c, START, ts))
  {
    ProvenanceHolds(c, START, ts);
  }

  // ---------------------------------------------------------------- accounting

  function Sum(cs: seq<Caller>, f: Phase -> nat): nat {
    if cs == [] then 0 else Sum(cs[..|cs| - 1], f) + f(cs[|cs| - 1].phase)
  }

  lemma {:induction false} SumOfUpdate(cs: seq<Caller>, f: Phase -> nat, i: nat, c: Caller)
    requires i < |cs|
    ensures Sum(cs[i := c], f) == Sum(cs, f) - f(cs[i].phase) + f(c.phase)
  {
    var n := |cs| - 1;
    if i == n {
      assert cs[i := c][..n] == cs[..n];
    } else {
      SumOfUpdate(cs[..n], f, i, c);
      assert cs[i := c][..n] == cs[..n][i := c];
    }
  }

  lemma SumOfAppend(cs: seq<Caller>, f: Phase -> nat, c: Caller)
    ensures Sum(cs + [c], f) == Sum(cs, f) + f(c.phase)
  {
    assert (cs + [c])[..|cs|] == cs;
  }

  /** The shared counters are the sums of what the calls have done. */
  predicate Balanced(s: State) {
    && s.hits == Sum(s.callers, HitsOf) && s.misses == Sum(s.callers, MissesOf) && s.waits == Sum(s.callers, WaitsOf)
    && s.degraded == Sum(s.callers, DegradedOf) && s.runs == Sum(s.callers, RunsOf)
  }

  /** A step of a call changes the phase of that call only, and not the clock. */
  lemma CallerStepIsAMove(c: Config, s: State, t: Step)
    requires Enabled(c, s, t) && ByCaller(t)
    ensures t.i < |s.callers| && t.i < |Next(c, s, t).callers|
    ensures var n := Next(c, s, t); n.callers == Move(s, t.i, n.callers[t.i].phase).callers && n.clock == s.clock
  {
  }

  /** The counters the program increments on its way are what its phases say it has contributed. */
  lemma CallerStepCharges(c: Config, s: State, t: Step)
    requires Enabled(c, s, t) && ByCaller(t) && t.i < |Next(c, s, t).callers|
    ensures var n := Next(c, s, t);
            var p, q := s.callers[t.i].phase, n.callers[t.i].phase;
      && n.hits == s.hits + HitsOf(q) - HitsOf(p) && n.misses == s.misses + MissesOf(q) - MissesOf(p)
      && n.waits == s.waits + WaitsOf(q) - WaitsOf(p) && n.degraded == s.degraded + DegradedOf(q) - DegradedOf(p)
      && n.runs == s.runs + RunsOf(q) - RunsOf(p)
  {
  }

  lemma ArrivalKeepsBalance(s: State, key: string)
    requires Balanced(s)
    ensures Balanced(s.(callers := s.callers + [Caller(key, Idle)]))
  {
    hide Sum;
    var a := Caller(key, Idle);
    SumOfAppend(s.callers, HitsOf, a);
    SumOfAppend(s.callers, MissesOf, a);
    SumOfAppend(s.callers, WaitsOf, a);
    SumOfAppend(s.callers, DegradedOf, a);
    SumOfAppend(s.callers, RunsOf, a);
  }

  lemma CallerStepKeepsBalance(c: Config, s: State, t: Step)
    requires Balanced(s) && Enabled(c, s, t) && ByCaller(t)
    ensures Balanced(Next(c, s, t))
  {
    hide Sum, Next, Enabled, HitsOf, MissesOf, WaitsOf, DegradedOf, RunsOf;
    CallerStepIsAMove(c, s, t);
    CallerStepCharges(c, s, t);
    var a := Next(c, s, t).callers[t.i];
    SumOfUpdate(s.callers, HitsOf, t.i, a);
    SumOfUpdate(s.callers, MissesOf, t.i, a);
    SumOfUpdate(s.callers, WaitsOf, t.i, a);
    SumOfUpdate(s.callers, DegradedOf, t.i, a);
    SumOfUpdate(s.callers, RunsOf, t.i, a);
  }

  lemma StepKeepsBalance(c: Config, s: State, t: Step)
    requires Balanced(s) && Enabled(c, s, t)
    ensures Balanced(Next(c, s, t))
  {
    hide Sum;
    if t.Arrive? {
      ArrivalKeepsBalance(s, t.key);
    } else if ByCaller(t) {
      CallerStepKeepsBalance(c, s, t);
    }
  }

  lemma {:induction false} BalanceHolds(c: Config, s: State, ts: seq<Step>)
    requires Balanced(s) && IsRun(c, s, ts)
    ensures Balanced(Run(c, s, ts))
    decreases |ts|
  {
    if ts != [] {
      StepKeepsBalance(c, s, ts[0]);
      BalanceHolds(c, Next(c, s, ts[0]), ts[1..]);
    }
  }

  predicate Quiescent(s: State) { forall i :: 0 <= i < |s.callers| ==> s.callers[i].phase.Finished? }

  lemma {:induction false} FinishedCallsAddUp(cs: seq<Caller>)
    requires forall i :: 0 <= i < |cs| ==> cs[i].phase.Finished?
    ensures Sum(cs, RunsOf) + Sum(cs, WaitsOf) == Sum(cs, MissesOf) + Sum(cs, DegradedOf)
    ensures |cs| == Sum(cs, HitsOf) + Sum(cs, RunsOf)
  {
    if cs != [] { FinishedCallsAddUp(cs[..|cs| - 1]); }
  }

  /** Once every call has ended: loader runs = misses - waits + degraded, and calls = hits + loader runs. */
  lemma BooksCloseAtQuiescence(c: Config, ts: seq<Step>)
    requires IsRun(c, START, ts) && Quiescent(Run(c, START, ts))
    ensures var s := Run(c, START, ts);
            s.runs == s.misses - s.waits + s.degraded && |s.callers| == s.hits + s.runs
  {
    BalanceHolds(c, START, ts);
    FinishedCallsAddUp(Run(c, START, ts).callers);
  }

  // ---------------------------------------------------------------- every call ends

  /** Polls that still fit before a deadline `x` milliseconds away. */
  function Polls(c: Config, x: int): nat
    requires c.poll > 0
    decreases if x > 0 then x else 0
  {
    if x <= 0 then 0 else 1 + Polls(c, x - c.poll)
  }

  /** Own actions a call may still take. */
  function Rank(c: Config, clock: int, p: Phase): nat
    requires c.poll > 0
  {
    match p
    case Finished(_, _) => 0
    case Releasing(_) => 1
    case Storing(_) => 2
    case Loading => 3
    case DegradedStoring(_) => 1
    case Degraded => 2
    case Waiting(d) => 3 + 2 * Polls(c, d - clock)
    case Sleeping(d, w) => 4 + 2 * Polls(c, d - w)
    case Refused => 4 + 2 * Polls(c, c.timeout)
    case Missed => 5 + 2 * Polls(c, c.timeout)
    case Idle => 6 + 2 * Polls(c, c.timeout)
  }

  lemma {:induction false} PollsMonotone(c: Config, x: int, y: int)
    requires c.poll > 0 && x <= y
    ensures Polls(c, x) <= Polls(c, y)
    decreases if y > 0 then y else 0
  {
    if 0 < x { PollsMonotone(c, x - c.poll, y - c.poll); }
  }

  /** The number of polls is the wait limit over the interval, rounded up. */
  lemma {:induction false} PollsIsCeiling(c: Config, x: int)
    requires c.poll > 0
    ensures c.poll * Polls(c, x) >= x
    ensures x > 0 ==> c.poll * (Polls(c, x) - 1) < x
    decreases if x > 0 then x else 0
  {
    if x > 0 {
      PollsIsCeiling(c, x - c.poll);
      var n: int := Polls(c, x - c.poll);
      assert c.poll * (n + 1) == c.poll * n + c.poll;
      assert c.poll * (n - 1) == c.poll * n - c.poll;
    }
  }

  /** Every action of a call brings it strictly closer to its end. */
  lemma OwnActionsDecrease(c: Config, clock: int, p: Phase, q: Phase)
    requires c.poll > 0 && Moves(c, clock, p, q)
    ensures Rank(c, clock, q) < Rank(c, clock, p)
  {
    match p
    case Waiting(d) =>
    case Sleeping(d, w) => PollsMonotone(c, d - clock, d - w);
    case _ =>
  }

  function TotalRank(c: Config, clock: int, cs: seq<Caller>): nat
    requires c.poll > 0
  {
    if cs == [] then 0 else TotalRank(c, clock, cs[..|cs| - 1]) + Rank(c, clock, cs[|cs| - 1].phase)
  }

  lemma {:induction false} RankOfUpdate(c: Config, clock: int, cs: seq<Caller>, i: nat, a: Caller)
    requires c.poll > 0 && i < |cs|
    ensures TotalRank(c, clock, cs[i := a]) == TotalRank(c, clock, cs) - Rank(c, clock, cs[i].phase) + Rank(c, clock, a.phase)
  {
    var n := |cs| - 1;
    if i == n {
      assert cs[i := a][..n] == cs[..n];
    } else {
      RankOfUpdate(c, clock, cs[..n], i, a);
      assert cs[i := a][..n] == cs[..n][i := a];
    }
  }

  lemma {:induction false} TimeNeverAddsWork(c: Config, clock: int, later: int, cs: seq<Caller>)
    requires c.poll > 0 && clock <= later
    ensures TotalRank(c, later, cs) <= TotalRank(c, clock, cs)
  {
    if cs != [] {
      TimeNeverAddsWork(c, clock, later, cs[..|cs| - 1]);
      var p := cs[|cs| - 1].phase;
      if p.Waiting? { PollsMonotone(c, p.deadline - later, p.deadline - clock); }
    }
  }

  function CallerSteps(ts: seq<Step>): nat {
    if ts == [] then 0 else (if ByCaller(ts[0]) then 1 else 0) + CallerSteps(ts[1..])
  }

  function Arrivals(ts: seq<Step>): nat {
    if ts == [] then 0 else (if ts[0].Arrive? then 1 else 0) + Arrivals(ts[1..])
  }

  /** The longest call: read, lock, set a deadline, then sleep and read again until the deadline, then load and store. */
  function CallBound(c: Config): nat
    requires c.poll > 0
  {
    6 + 2 * Polls(c, c.timeout)
  }

  lemma ArrivalAddsItsBound(c: Config, clock: int, cs: seq<Caller>, a: Caller)
    requires c.poll > 0 && a.phase == Idle
    ensures TotalRank(c, clock, cs + [a]) <= TotalRank(c, clock, cs) + CallBound(c)
  {
    assert (cs + [a])[..|cs|] == cs;
  }

  lemma StepUsesUpWork(c: Config, s: State, t: Step)
    requires c.poll > 0 && Enabled(c, s, t)
    ensures var n := Next(c, s, t);
            TotalRank(c, n.clock, n.callers) + Bit(ByCaller(t))
            <= TotalRank(c, s.clock, s.callers) + Bit(t.Arrive?) * CallBound(c)
  {
    hide TotalRank, CallBound, Moves;
    if t.Arrive? {
      ArrivalAddsItsBound(c, s.clock, s.callers, Caller(t.key, Idle));
    } else if t.Tick? {
      TimeNeverAddsWork(c, s.clock, s.clock + t.d, s.callers);
    } else if ByCaller(t) {
      hide Enabled, Next;
      MachineFollowsTheProgram(c, s, t);
      CallerStepIsAMove(c, s, t);
      var a := Next(c, s, t).callers[t.i];
      OwnActionsDecrease(c, s.clock, s.callers[t.i].phase, a.phase);
      RankOfUpdate(c, s.clock, s.callers, t.i, a);
      assert Next(c, s, t).callers == s.callers[t.i := a];
    }
  }

  /** What that many calls may do: CallBound actions each. */
  function Allowance(c: Config, arrivals: nat): nat
    requires c.poll > 0
  {
    arrivals * CallBound(c)
  }

  lemma AllowanceAddsUp(c: Config, m: nat, n: nat)
    requires c.poll > 0
    ensures Allowance(c, m + n) == m * CallBound(c) + Allowance(c, n)
  {
  }

  /** Fail-open termination: in every run the calls take at most CallBound actions each, whatever the store does. */
  lemma {:induction false} EveryCallEnds(c: Config, s: State, ts: seq<Step>)
    requires c.poll > 0 && IsRun(c, s, ts)
    ensures CallerSteps(ts) <= TotalRank(c, s.clock, s.callers) + Allowance(c, Arrivals(ts))
    decreases |ts|
  {
    hide TotalRank, CallBound, Allowance;
    if ts != [] {
      hide Enabled, Next;
      StepUsesUpWork(c, s, ts[0]);
      EveryCallEnds(c, Next(c, s, ts[0]), ts[1..]);
      AllowanceAddsUp(c, Bit(ts[0].Arrive?), Arrivals(ts[1..]));
    }
  }

  /** A call that has not ended can always act, at once or after the end of its nap. */
  lemma NoCallIsStuck(c: Config, s: State, i: nat)
    requires i < |s.callers| && !s.callers[i].phase.Finished?
    ensures (exists t :: Enabled(c, s, t) && ByCaller(t) && t.i == i)
            || (s.callers[i].phase.Sleeping? && s.clock < s.callers[i].phase.wake
                && var d := s.callers[i].phase.wake - s.clock; Enabled(c, Next(c, s, Tick(d)), Wake(i, Fine)))
  {
    var p := s.callers[i].phase;
    var t := if p.Idle? then Read(i, Fine)
             else if p.Missed? then Acquire(i, Fine)
             else if p.Loading? || p.Degraded? then Load(i, None)
             else if p.Storing? || p.DegradedStoring? then Store(i, Fine)
             else if p.Releasing? then Release(i, Fine)
             else if p.Refused? then SetDeadline(i)
             else if p.Sleeping? then Wake(i, Fine)
             else if s.clock < p.deadline then Sleep(i) else GiveUp(i);
    if !p.Sleeping? || s.clock >= p.wake { assert Enabled(c, s, t); }
  }

  // ---------------------------------------------------------------- what a call says to the store

  datatype Request = GetDocument(key: string) | LockIfFree(key: string) | SetDocument(key: string, value: string)
                   | DeleteLock(key: string)

  /** A request that went out, and how it fared. */
  datatype Exchange = Exchange(request: Request, reply: Reply)

  predicate Own(t: Step, me: nat) { ByCaller(t) && t.i == me }

  /** The requests of one step; without a client there are none. */
  function Asks(c: Config, s: State, t: Step): seq<Exchange>
    requires Enabled(c, s, t)
  {
    if !c.live then []
    else
      match t
      case Read(i, reply) => [Exchange(GetDocument(s.callers[i].key), reply)]
      case Wake(i, reply) => [Exchange(GetDocument(s.callers[i].key), reply)]
      case Acquire(i, reply) => [Exchange(LockIfFree(s.callers[i].key), reply)]
      case Store(i, reply) => [Exchange(SetDocument(s.callers[i].key, s.callers[i].phase.value), reply)]
      case Release(i, reply) => [Exchange(DeleteLock(s.callers[i].key), reply)]
      case _ => []
  }

  /** Everything one call says to the store in a run. */
  function Talk(c: Config, s: State, ts: seq<Step>, me: nat): seq<Exchange>
    requires IsRun(c, s, ts)
    decreases |ts|
  {
    if ts == [] then []
    else (if Own(ts[0], me) then Asks(c, s, ts[0]) else []) + Talk(c, Next(c, s, ts[0]), ts[1..], me)
  }

  /** What the loader of one call gives in a run. */
  function Loads(ts: seq<Step>, me: nat): seq<Option<string>> {
    if ts == [] then []
    else Loads(ts[..|ts| - 1], me)
         + if ts[|ts| - 1].Load? && Own(ts[|ts| - 1], me) then [ts[|ts| - 1].result] else []
  }

  /** How often one call polls in a run. */
  function Wakes(ts: seq<Step>, me: nat): nat {
    if ts == [] then 0
    else Wakes(ts[..|ts| - 1], me) + Bit(ts[|ts| - 1].Wake? && Own(ts[|ts| - 1], me))
  }

  lemma {:induction false} TalkAppend(c: Config, s: State, ts: seq<Step>, t: Step, me: nat)
    requires IsRun(c, s, ts) && Enabled(c, Run(c, s, ts), t) && IsRun(c, s, ts + [t])
    ensures Talk(c, s, ts + [t], me) == Talk(c, s, ts, me) + if Own(t, me) then Asks(c, Run(c, s, ts), t) else []
    decreases |ts|
  {
    hide Enabled, Next, Asks, Own;
    var more := ts + [t];
    if ts == [] {
      assert more[1..] == [];
    } else {
      assert more[1..] == ts[1..] + [t];
      TalkAppend(c, Next(c, s, ts[0]), ts[1..], t, me);
    }
  }

  lemma LoadsAppend(ts: seq<Step>, t: Step, me: nat)
    ensures Loads(ts + [t], me) == Loads(ts, me) + if t.Load? && Own(t, me) then [t.result] else []
    ensures Wakes(ts + [t], me) == Wakes(ts, me) + Bit(t.Wake? && Own(t, me))
  {
    assert (ts + [t])[..|ts|] == ts;
  }

  function Requests(xs: seq<Exchange>): (rs: seq<Request>)
    ensures |rs| == |xs|
  {
    seq(|xs|, i requires 0 <= i < |xs| => xs[i].request)
  }

  /** The same read, over and over. */
  function Polling(key: string, polls: nat): seq<Request> {
    if polls == 0 then [] else Polling(key, polls - 1) + [GetDocument(key)]
  }

  /** What a call has said to the store by the time it reaches a phase, having polled so often. */
  function Script(key: string, p: Phase, polls: nat): seq<Request> {
    var opening := [GetDocument(key), LockIfFree(key)];
    match p
    case Idle => []
    case Missed => [GetDocument(key)]
    case Loading => opening
    case Storing(_) => opening
    case Releasing(o) => opening + Stored(key, o)
    case Refused => opening
    case Waiting(_) => opening + Polling(key, polls)
    case Sleeping(_, _) => opening + Polling(key, polls)
    case Degraded => opening + Polling(key, polls)
    case DegradedStoring(_) => opening + Polling(key, polls)
    case Finished(o, path) =>
      match path
      case HitFirst => [GetDocument(key)]
      case Elected => opening + Stored(key, o) + [DeleteLock(key)]
      case HitWaiting => opening + Polling(key, polls)
      case TimedOut => opening + Polling(key, polls) + Stored(key, o)
  }

  /** A loaded document is stored; a loader that raised leaves nothing to store. */
  function Stored(key: string, o: Outcome): seq<Request> {
    match o case Returned(v) => [SetDocument(key, v)] case Raised => []
  }

  /** What the call's loader has given by then. */
  function Yield(p: Phase): seq<Option<string>> {
    match p
    case Storing(v) => [Some(v)]
    case DegradedStoring(v) => [Some(v)]
    case Releasing(o) => Given(o)
    case Finished(o, path) => if path == Elected || path == TimedOut then Given(o) else []
    case _ => []
  }

  function Given(o: Outcome): seq<Option<string>> { match o case Returned(v) => [Some(v)] case Raised => [None] }

  predicate MayHavePolled(p: Phase) {
    p.Waiting? || p.Sleeping? || p.Degraded? || p.DegradedStoring? || p.Finished?
  }

  /** The call has said its script so far, and its loader has given what its phase says. */
  ghost predicate OnScript(c: Config, s: State, ts: seq<Step>, me: nat, key: string)
    requires IsRun(c, s, ts)
  {
    && me < |Run(c, s, ts).callers| && Run(c, s, ts).callers[me].key == key
    && Requests(Talk(c, s, ts, me)) == (if c.live then Script(key, Run(c, s, ts).callers[me].phase, Wakes(ts, me)) else [])
    && Loads(ts, me) == Yield(Run(c, s, ts).callers[me].phase)
    && (!MayHavePolled(Run(c, s, ts).callers[me].phase) ==> Wakes(ts, me) == 0)
  }

  lemma NextLineOfScript(c: Config, s: State, t: Step, polls: nat)
    requires Enabled(c, s, t) && ByCaller(t) && c.live && t.i < |Next(c, s, t).callers|
    requires !MayHavePolled(s.callers[t.i].phase) ==> polls == 0
    ensures var p, q, key := s.callers[t.i].phase, Next(c, s, t).callers[t.i].phase, s.callers[t.i].key;
      Script(key, q, polls + Bit(t.Wake?)) == Script(key, p, polls) + Requests(Asks(c, s, t))
  {
    assert Polling(s.callers[t.i].key, polls) + [] == Polling(s.callers[t.i].key, polls);
  }

  lemma NextYield(c: Config, s: State, t: Step)
    requires Enabled(c, s, t) && ByCaller(t)
    ensures t.i < |Next(c, s, t).callers| && Next(c, s, t).callers[t.i].key == s.callers[t.i].key
    ensures var p, q := s.callers[t.i].phase, Next(c, s, t).callers[t.i].phase;
      && Yield(q) == Yield(p) + (if t.Load? then [t.result] else [])
      && (!MayHavePolled(q) ==> !t.Wake? && !MayHavePolled(p))
  {
  }

  /** One step of the call says exactly the next line of its script. */
  lemma NextLine(c: Config, s: State, t: Step, polls: nat)
    requires Enabled(c, s, t) && ByCaller(t)
    requires !MayHavePolled(s.callers[t.i].phase) ==> polls == 0
    ensures t.i < |Next(c, s, t).callers| && Next(c, s, t).callers[t.i].key == s.callers[t.i].key
    ensures var p, q, key := s.callers[t.i].phase, Next(c, s, t).callers[t.i].phase, s.callers[t.i].key;
      && (c.live ==> Script(key, q, polls + Bit(t.Wake?)) == Script(key, p, polls) + Requests(Asks(c, s, t)))
      && (!c.live ==> Asks(c, s, t) == [])
      && Yield(q) == Yield(p) + (if t.Load? then [t.result] else [])
      && (!MayHavePolled(q) ==> !t.Wake? && polls == 0)
  {
    hide Enabled, Next, Script, Requests, Yield, MayHavePolled;
    NextYield(c, s, t);
    if c.live { NextLineOfScript(c, s, t, polls); }
  }

  lemma OthersStandStill(c: Config, s: State, t: Step, me: nat)
    requires Enabled(c, s, t) && me < |s.callers| && !Own(t, me)
    ensures me < |Next(c, s, t).callers| && Next(c, s, t).callers[me] == s.callers[me]
  {
  }

  lemma RequestsOfMore(xs: seq<Exchange>, ys: seq<Exchange>)
    ensures Requests(xs + ys) == Requests(xs) + Requests(ys)
  {
  }

  lemma OnScriptNext(c: Config, s: State, ts: seq<Step>, t: Step, me: nat, key: string)
    requires IsRun(c, s, ts) && OnScript(c, s, ts, me, key) && Enabled(c, Run(c, s, ts), t)
    ensures IsRun(c, s, ts + [t]) && OnScript(c, s, ts + [t], me, key)
  {
    hide IsRun, Run, Talk, Loads, Wakes, Script, Yield, Asks, Next, Enabled, Requests, MayHavePolled;
    var n := Run(c, s, ts);
    RunAppend(c, s, ts, t);
    TalkAppend(c, s, ts, t, me);
    LoadsAppend(ts, t, me);
    RequestsOfMore(Talk(c, s, ts, me), if Own(t, me) then Asks(c, n, t) else []);
    if Own(t, me) {
      NextLine(c, n, t, Wakes(ts, me));
      NothingRequested();
    } else {
      OthersStandStill(c, n, t, me);
      NothingRequested();
    }
  }

  lemma NothingRequested()
    ensures Requests([]) == []
  {
  }

  lemma {:induction false} RunPrefix(c: Config, s: State, ts: seq<Step>, n: nat)
    requires IsRun(c, s, ts) && n < |ts|
    ensures IsRun(c, s, ts[..n]) && Enabled(c, Run(c, s, ts[..n]), ts[n])
    decreases n
  {
    hide Enabled, Next;
    if n == 0 {
      assert ts[..n] == [];
    } else {
      RunPrefix(c, Next(c, s, ts[0]), ts[1..], n - 1);
      assert ts[..n][1..] == ts[1..][..n - 1];
    }
  }

  lemma RunOfArrival(c: Config, s: State, key: string)
    ensures IsRun(c, s, [Arrive(key)]) && Run(c, s, [Arrive(key)]) == Next(c, s, Arrive(key))
    ensures Talk(c, s, [Arrive(key)], |s.callers|) == [] && Loads([Arrive(key)], |s.callers|) == []
    ensures OnScript(c, s, [Arrive(key)], |s.callers|, key)
  {
    var ts := [Arrive(key)];
    assert ts[1..] == [] && ts[..0] == [];
    assert Talk(c, Next(c, s, ts[0]), ts[1..], |s.callers|) == [];
    assert Run(c, Next(c, s, ts[0]), ts[1..]) == Next(c, s, ts[0]);
    NothingRequested();
  }

  /** In every run, under any faults, a call says exactly its script, request by request, and loads as it says. */
  lemma {:induction false} CallsKeepToTheScript(c: Config, s: State, ts: seq<Step>)
    requires IsRun(c, s, ts) && ts != [] && ts[0].Arrive?
    ensures OnScript(c, s, ts, |s.callers|, ts[0].key)
  {
    hide OnScript, Enabled, Run, Talk, IsRun, Next, Loads;
    var n := |ts| - 1;
    if n == 0 {
      RunOfArrival(c, s, ts[0].key);
      assert ts == [Arrive(ts[0].key)];
    } else {
      RunPrefix(c, s, ts, n);
      CallsKeepToTheScript(c, s, ts[..n]);
      OnScriptNext(c, s, ts[..n], ts[n], |s.callers|, ts[0].key);
      assert ts == ts[..n] + [ts[n]];
    }
  }

  lemma {:induction false} PollingLocksNothing(key: string, polls: nat)
    ensures DeleteLock(key) !in Polling(key, polls)
  {
    if polls > 0 { PollingLocksNothing(key, polls - 1); }
  }

  /**
    * A call that asked for the lock and was not refused gives it back exactly once, as its last request, whether its
    * loader raised or not; every other call never deletes a lock.
    */
  lemma LockIsGivenBackOnce(c: Config, s: State, ts: seq<Step>)
    requires c.live && IsRun(c, s, ts) && ts != [] && ts[0].Arrive?
    ensures |s.callers| < |Run(c, s, ts).callers|
    ensures var rs, p := Requests(Talk(c, s, ts, |s.callers|)), Run(c, s, ts).callers[|s.callers|].phase;
      p.Finished? ==>
        if p.path == Elected then |rs| > 0 && rs[|rs| - 1] == DeleteLock(ts[0].key) && DeleteLock(ts[0].key) !in rs[..|rs| - 1]
        else DeleteLock(ts[0].key) !in rs
  {
    var me := |s.callers|;
    CallsKeepToTheScript(c, s, ts);
    var p := Run(c, s, ts).callers[me].phase;
    if p.Finished? { ScriptReleasesOnce(ts[0].key, p, Wakes(ts, me)); }
  }

  lemma ScriptReleasesOnce(key: string, p: Phase, polls: nat)
    requires p.Finished?
    ensures var rs := Script(key, p, polls);
      if p.path == Elected then |rs| > 0 && rs[|rs| - 1] == DeleteLock(key) && DeleteLock(key) !in rs[..|rs| - 1]
      else DeleteLock(key) !in rs
  {
    PollingLocksNothing(key, polls);
    if p.path == Elected {
      var front := [GetDocument(key), LockIfFree(key)] + Stored(key, p.outcome);
      assert Script(key, p, polls)[..|front|] == front;
    }
  }
}
