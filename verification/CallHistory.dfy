/** One call of the cache over a whole run: what its reads find, what its election meets, and what follows from them. */
module CallHistory {
  import opened SingleFlight
  import opened Wrappers

  // ---------------------------------------------------------------- runs, cut at a position

  lemma {:induction false} RunSplit(c: Config, s: State, ts: seq<Step>, k: nat)
    requires IsRun(c, s, ts) && k <= |ts|
    ensures IsRun(c, s, ts[..k]) && IsRun(c, Run(c, s, ts[..k]), ts[k..])
    ensures Run(c, Run(c, s, ts[..k]), ts[k..]) == Run(c, s, ts)
    decreases k
  {
    hide Enabled, Next;
    if k == 0 {
      assert ts[..k] == [] && ts[k..] == ts;
    } else {
      RunSplit(c, Next(c, s, ts[0]), ts[1..], k - 1);
      assert ts[..k][1..] == ts[1..][..k - 1] && ts[k..] == ts[1..][k - 1..];
    }
  }

  /** The state before the `k`-th step. */
  ghost function StateAt(c: Config, s: State, ts: seq<Step>, k: nat): State
    requires IsRun(c, s, ts) && k <= |ts|
  {
    RunSplit(c, s, ts, k);
    Run(c, s, ts[..k])
  }

  lemma StateAtEnds(c: Config, s: State, ts: seq<Step>)
    requires IsRun(c, s, ts)
    ensures StateAt(c, s, ts, 0) == s && StateAt(c, s, ts, |ts|) == Run(c, s, ts)
  {
    assert ts[..0] == [] && ts[..|ts|] == ts;
  }

  lemma StateAtNext(c: Config, s: State, ts: seq<Step>, k: nat)
    requires IsRun(c, s, ts) && k < |ts|
    ensures Enabled(c, StateAt(c, s, ts, k), ts[k])
    ensures StateAt(c, s, ts, k + 1) == Next(c, StateAt(c, s, ts, k), ts[k])
  {
    hide Enabled, Next;
    RunPrefix(c, s, ts, k);
    RunAppend(c, s, ts[..k], ts[k]);
    assert ts[..k + 1] == ts[..k] + [ts[k]];
  }

  /** From the arrival on, the call stands there under its key. */
  lemma CallStands(c: Config, s: State, ts: seq<Step>, k: nat)
    requires IsRun(c, s, ts) && ts != [] && ts[0].Arrive? && 0 < k <= |ts|
    ensures var u := StateAt(c, s, ts, k); |s.callers| < |u.callers| && u.callers[|s.callers|].key == ts[0].key
  {
    hide Run, Enabled, Next;
    RunSplit(c, s, ts, k);
    CallsKeepToTheScript(c, s, ts[..k]);
  }

  /** What a call has become stays true of it, as long as its own steps keep it true. */
  ghost predicate Lasts(c: Config, P: Phase -> bool) {
    forall now: int, p: Phase, q: Phase :: P(p) && Moves(c, now, p, q) ==> P(q)
  }

  lemma {:induction false} PhaseLasts(c: Config, s: State, ts: seq<Step>, k: nat, n: nat, me: nat, P: Phase -> bool)
    requires IsRun(c, s, ts) && k <= n <= |ts| && Lasts(c, P)
    requires me < |StateAt(c, s, ts, k).callers| && P(StateAt(c, s, ts, k).callers[me].phase)
    ensures me < |StateAt(c, s, ts, n).callers| && P(StateAt(c, s, ts, n).callers[me].phase)
    decreases n
  {
    hide StateAt, Next, Enabled, IsRun, Moves;
    if k < n {
      PhaseLasts(c, s, ts, k, n - 1, me, P);
      StateAtNext(c, s, ts, n - 1);
      var u, t := StateAt(c, s, ts, n - 1), ts[n - 1];
      if Own(t, me) {
        MachineFollowsTheProgram(c, u, t);
      } else {
        OthersStandStill(c, u, t, me);
      }
    }
  }

  /** An outcome is final. */
  lemma OutcomeLasts(c: Config, s: State, ts: seq<Step>, k: nat, me: nat, o: Outcome, path: Path)
    requires IsRun(c, s, ts) && k <= |ts|
    requires me < |StateAt(c, s, ts, k).callers| && StateAt(c, s, ts, k).callers[me].phase == Finished(o, path)
    ensures me < |Run(c, s, ts).callers| && Run(c, s, ts).callers[me].phase == Finished(o, path)
  {
    var P := (p: Phase) => p == Finished(o, path);
    assert Lasts(c, P);
    hide StateAt, IsRun, Next, Run;
    PhaseLasts(c, s, ts, k, |ts|, me, P);
    StateAtEnds(c, s, ts);
  }

  /** The call at one of its own steps: the step was possible, and its key is still the one it came with. */
  lemma OwnStep(c: Config, s: State, ts: seq<Step>, k: nat)
    requires IsRun(c, s, ts) && ts != [] && ts[0].Arrive? && k < |ts| && Own(ts[k], |s.callers|)
    ensures 0 < k
    ensures var me, u := |s.callers|, StateAt(c, s, ts, k);
      && Enabled(c, u, ts[k]) && StateAt(c, s, ts, k + 1) == Next(c, u, ts[k])
      && me < |u.callers| && u.callers[me].key == ts[0].key
  {
    hide StateAt, Enabled, Next, IsRun;
    CallStands(c, s, ts, k);
    StateAtNext(c, s, ts, k);
  }

  /** A call that ends without loading has run no loader. */
  lemma HitsLoadNothing(c: Config, s: State, ts: seq<Step>, o: Outcome, path: Path)
    requires IsRun(c, s, ts) && ts != [] && ts[0].Arrive? && |s.callers| < |Run(c, s, ts).callers|
    requires Run(c, s, ts).callers[|s.callers|].phase == Finished(o, path) && (path == HitFirst || path == HitWaiting)
    ensures Loads(ts, |s.callers|) == []
  {
    hide Run, Loads, IsRun;
    CallsKeepToTheScript(c, s, ts);
  }

  // ---------------------------------------------------------------- what reads find

  /** One first read: a stored document ends the call as a hit, anything else is a miss. */
  lemma ReadStep(c: Config, u: State, me: nat, reply: Reply)
    requires Enabled(c, u, Read(me, reply))
    ensures var n, key := Next(c, u, Read(me, reply)), u.callers[me].key;
      && me < |n.callers|
      && if c.live && reply == Fine && key in u.values
         then n.callers[me].phase == Finished(Returned(u.values[key]), HitFirst) && n.hits == u.hits + 1 && n.misses == u.misses
         else n.callers[me].phase == Missed && n.hits == u.hits && n.misses == u.misses + 1
  {
  }

  /** One further read: a stored document ends the call as a hit, otherwise it goes on waiting for the same deadline. */
  lemma WakeStep(c: Config, u: State, me: nat, reply: Reply)
    requires Enabled(c, u, Wake(me, reply))
    ensures var n, key := Next(c, u, Wake(me, reply)), u.callers[me].key;
      && me < |n.callers|
      && if c.live && reply == Fine && key in u.values
         then n.callers[me].phase == Finished(Returned(u.values[key]), HitWaiting) && n.hits == u.hits + 1
         else n.callers[me].phase == Waiting(u.callers[me].phase.deadline) && n.hits == u.hits
  {
  }

  /**
    * The first read decides: a stored document is returned and counted as a hit, and no loader runs; otherwise a miss is
    * counted, and the call does not end as a first hit.
    */
  lemma FirstReadDecides(c: Config, s: State, ts: seq<Step>, k: nat, reply: Reply)
    requires IsRun(c, s, ts) && ts != [] && ts[0].Arrive? && k < |ts| && ts[k] == Read(|s.callers|, reply)
    ensures var me, key := |s.callers|, ts[0].key;
            var u, n, e := StateAt(c, s, ts, k), StateAt(c, s, ts, k + 1), Run(c, s, ts);
      && me < |e.callers|
      && (if c.live && reply == Fine && key in u.values
          then && e.callers[me].phase == Finished(Returned(u.values[key]), HitFirst) && Loads(ts, me) == []
               && n.hits == u.hits + 1 && n.misses == u.misses
          else && !(e.callers[me].phase.Finished? && e.callers[me].phase.path == HitFirst)
               && n.hits == u.hits && n.misses == u.misses + 1)
  {
    hide StateAt, IsRun, Next, Run, Loads, Enabled;
    var me, key := |s.callers|, ts[0].key;
    OwnStep(c, s, ts, k);
    var u := StateAt(c, s, ts, k);
    ReadStep(c, u, me, reply);
    if c.live && reply == Fine && key in u.values {
      OutcomeLasts(c, s, ts, k + 1, me, Returned(u.values[key]), HitFirst);
      HitsLoadNothing(c, s, ts, Returned(u.values[key]), HitFirst);
    } else {
      MissLasts(c, s, ts, k + 1, me);
    }
  }

  lemma MissLasts(c: Config, s: State, ts: seq<Step>, k: nat, me: nat)
    requires IsRun(c, s, ts) && k <= |ts|
    requires me < |StateAt(c, s, ts, k).callers| && StateAt(c, s, ts, k).callers[me].phase == Missed
    ensures var e := Run(c, s, ts);
            me < |e.callers| && !(e.callers[me].phase.Finished? && e.callers[me].phase.path == HitFirst)
  {
    var P := (p: Phase) => !p.Idle? && !(p.Finished? && p.path == HitFirst);
    assert Lasts(c, P);
    hide StateAt, IsRun, Next, Run;
    PhaseLasts(c, s, ts, k, |ts|, me, P);
    StateAtEnds(c, s, ts);
  }

  /** Each further read decides likewise: a stored document is returned, and no loader runs; otherwise the wait goes on. */
  lemma EachWakeDecides(c: Config, s: State, ts: seq<Step>, k: nat, reply: Reply)
    requires IsRun(c, s, ts) && ts != [] && ts[0].Arrive? && k < |ts| && ts[k] == Wake(|s.callers|, reply)
    ensures var me, key := |s.callers|, ts[0].key;
            var u, n, e := StateAt(c, s, ts, k), StateAt(c, s, ts, k + 1), Run(c, s, ts);
      && me < |n.callers| && me < |e.callers|
      && (if c.live && reply == Fine && key in u.values
          then && e.callers[me].phase == Finished(Returned(u.values[key]), HitWaiting) && Loads(ts, me) == []
               && n.hits == u.hits + 1
          else n.callers[me].phase.Waiting? && n.hits == u.hits)
  {
    hide StateAt, IsRun, Next, Run, Loads, Enabled;
    var me, key := |s.callers|, ts[0].key;
    OwnStep(c, s, ts, k);
    StateAtEnds(c, s, ts);
    CallStands(c, s, ts, |ts|);
    var u := StateAt(c, s, ts, k);
    WakeStep(c, u, me, reply);
    if c.live && reply == Fine && key in u.values {
      OutcomeLasts(c, s, ts, k + 1, me, Returned(u.values[key]), HitWaiting);
      HitsLoadNothing(c, s, ts, Returned(u.values[key]), HitWaiting);
    }
  }

  lemma ArrivalIsIdle(c: Config, s: State, ts: seq<Step>)
    requires IsRun(c, s, ts) && ts != [] && ts[0].Arrive?
    ensures var u := StateAt(c, s, ts, 1); |s.callers| < |u.callers| && u.callers[|s.callers|].phase == Idle
  {
    StateAtEnds(c, s, ts);
    StateAtNext(c, s, ts, 0);
  }

  /** The step of the call that brought it where it is, for phases that are not reached on arrival. */
  lemma {:induction false} LastOwnStep(c: Config, s: State, ts: seq<Step>, n: nat, p: Phase) returns (k: nat)
    requires IsRun(c, s, ts) && ts != [] && ts[0].Arrive? && 0 < n <= |ts| && p != Idle
    requires |s.callers| < |StateAt(c, s, ts, n).callers| && StateAt(c, s, ts, n).callers[|s.callers|].phase == p
    ensures 0 < k < n && Own(ts[k], |s.callers|)
    ensures |s.callers| < |StateAt(c, s, ts, k + 1).callers| && StateAt(c, s, ts, k + 1).callers[|s.callers|].phase == p
    decreases n
  {
    hide StateAt, IsRun, Enabled;
    var me := |s.callers|;
    StateAtNext(c, s, ts, n - 1);
    if n == 1 {
      ArrivalIsIdle(c, s, ts);
    } else if Own(ts[n - 1], me) {
      k := n - 1;
    } else {
      CallStands(c, s, ts, n - 1);
      OthersStandStill(c, StateAt(c, s, ts, n - 1), ts[n - 1], me);
      k := LastOwnStep(c, s, ts, n - 1, p);
    }
  }

  /** The `k`-th step of the run is this step, and there is a client and a stored document when it is taken. */
  ghost predicate Finds(c: Config, s: State, ts: seq<Step>, k: nat, t: Step, key: string)
    requires IsRun(c, s, ts)
  {
    k < |ts| && ts[k] == t && c.live && key in StateAt(c, s, ts, k).values
  }

  lemma OnlyReadsHit(c: Config, u: State, t: Step, me: nat, o: Outcome, path: Path)
    requires Enabled(c, u, t) && Own(t, me) && me < |Next(c, u, t).callers|
    requires Next(c, u, t).callers[me].phase == Finished(o, path) && (path == HitFirst || path == HitWaiting)
    ensures me < |u.callers| && t == (if path == HitFirst then Read(me, Fine) else Wake(me, Fine))
    ensures c.live && u.callers[me].key in u.values && o == Returned(u.values[u.callers[me].key])
  {
  }

  /** A hit comes from a read that found the document, and is that document. */
  lemma HitCameFromARead(c: Config, s: State, ts: seq<Step>, o: Outcome, path: Path) returns (k: nat)
    requires IsRun(c, s, ts) && ts != [] && ts[0].Arrive? && |s.callers| < |Run(c, s, ts).callers|
    requires Run(c, s, ts).callers[|s.callers|].phase == Finished(o, path) && (path == HitFirst || path == HitWaiting)
    ensures var me, key := |s.callers|, ts[0].key;
      && Finds(c, s, ts, k, if path == HitFirst then Read(me, Fine) else Wake(me, Fine), key)
      && o == Returned(StateAt(c, s, ts, k).values[key])
  {
    hide StateAt, IsRun, Enabled, Run, Next, Own;
    StateAtEnds(c, s, ts);
    k := LastOwnStep(c, s, ts, |ts|, Finished(o, path));
    OwnStep(c, s, ts, k);
    OnlyReadsHit(c, StateAt(c, s, ts, k), ts[k], |s.callers|, o, path);
  }

  /**
    * A call ends as a first hit exactly when its first read goes through while its document is stored, and as a later
    * hit exactly when a further read does; either way it returns the document stored then, and runs no loader.
    */
  lemma HitsExactly(c: Config, s: State, ts: seq<Step>, o: Outcome, path: Path)
    requires IsRun(c, s, ts) && ts != [] && ts[0].Arrive? && |s.callers| < |Run(c, s, ts).callers|
    requires Run(c, s, ts).callers[|s.callers|].phase == Finished(o, path)
    ensures var me, key := |s.callers|, ts[0].key;
      && (path == HitFirst <==> exists k :: Finds(c, s, ts, k, Read(me, Fine), key))
      && (path == HitWaiting <==> exists k :: Finds(c, s, ts, k, Wake(me, Fine), key))
      && (forall k :: Finds(c, s, ts, k, Read(me, Fine), key) || Finds(c, s, ts, k, Wake(me, Fine), key) ==>
            o == Returned(StateAt(c, s, ts, k).values[key]) && Loads(ts, me) == [])
  {
    hide StateAt, IsRun, Enabled, Run, Next, Loads;
    var me, key := |s.callers|, ts[0].key;
    forall k | Finds(c, s, ts, k, Read(me, Fine), key)
      ensures path == HitFirst && o == Returned(StateAt(c, s, ts, k).values[key]) && Loads(ts, me) == []
    {
      FirstReadDecides(c, s, ts, k, Fine);
    }
    forall k | Finds(c, s, ts, k, Wake(me, Fine), key)
      ensures path == HitWaiting && o == Returned(StateAt(c, s, ts, k).values[key]) && Loads(ts, me) == []
    {
      EachWakeDecides(c, s, ts, k, Fine);
    }
    if path == HitFirst || path == HitWaiting {
      var k := HitCameFromARead(c, s, ts, o, path);
    }
  }

  /** What a cache is for: with a client, no loader runs for a call whose document is stored when it reads it. */
  lemma StoredDocumentsAreNotLoaded(c: Config, s: State, ts: seq<Step>, k: nat)
    requires c.live && IsRun(c, s, ts) && ts != [] && ts[0].Arrive? && k < |ts|
    requires ts[k] == Read(|s.callers|, Fine) || ts[k] == Wake(|s.callers|, Fine)
    requires ts[0].key in StateAt(c, s, ts, k).values
    ensures Loads(ts, |s.callers|) == []
    ensures var e := Run(c, s, ts);
      && |s.callers| < |e.callers| && e.callers[|s.callers|].phase.Finished?
      && e.callers[|s.callers|].phase.outcome == Returned(StateAt(c, s, ts, k).values[ts[0].key])
  {
    hide StateAt, IsRun, Enabled, Run, Next, Loads;
    if ts[k].Read? { FirstReadDecides(c, s, ts, k, Fine); } else { EachWakeDecides(c, s, ts, k, Fine); }
  }

  // ---------------------------------------------------------------- what the election meets

  lemma AcquireStep(c: Config, u: State, me: nat, reply: Reply)
    requires Enabled(c, u, Acquire(me, reply))
    ensures var n, key := Next(c, u, Acquire(me, reply)), u.callers[me].key;
      && me < |n.callers|
      && n.callers[me].phase == (if c.live && reply == Fine && key in u.locks then Refused else Loading)
      && n.locks == (if !c.live || reply == LostBefore then u.locks else u.locks + {key})
  {
  }

  /**
    * The request for the lock decides between loading at once and waiting: a call is refused exactly when there is a
    * client, the request went through, and the lock was held. Whenever coordination is impossible the call loads.
    */
  lemma AcquireDecides(c: Config, s: State, ts: seq<Step>, k: nat, reply: Reply)
    requires IsRun(c, s, ts) && ts != [] && ts[0].Arrive? && k < |ts| && ts[k] == Acquire(|s.callers|, reply)
    ensures |s.callers| < |Run(c, s, ts).callers|
    ensures var p := Run(c, s, ts).callers[|s.callers|].phase;
      p.Finished? ==>
        if c.live && reply == Fine && ts[0].key in StateAt(c, s, ts, k).locks
        then p.path == HitWaiting || p.path == TimedOut else p.path == Elected
  {
    hide StateAt, IsRun, Enabled, Run, Next;
    OwnStep(c, s, ts, k);
    AcquireStep(c, StateAt(c, s, ts, k), |s.callers|, reply);
    if c.live && reply == Fine && ts[0].key in StateAt(c, s, ts, k).locks {
      RefusalLasts(c, s, ts, k + 1, |s.callers|);
    } else {
      ElectionLasts(c, s, ts, k + 1, |s.callers|);
    }
  }

  lemma RefusalLasts(c: Config, s: State, ts: seq<Step>, k: nat, me: nat)
    requires IsRun(c, s, ts) && k <= |ts|
    requires me < |StateAt(c, s, ts, k).callers| && StateAt(c, s, ts, k).callers[me].phase == Refused
    ensures me < |Run(c, s, ts).callers|
    ensures var p := Run(c, s, ts).callers[me].phase; p.Finished? ==> p.path == HitWaiting || p.path == TimedOut
  {
    var P := (p: Phase) => OutsideElection(p) || (p.Finished? && (p.path == HitWaiting || p.path == TimedOut));
    assert Lasts(c, P);
    hide StateAt, IsRun, Next, Run;
    PhaseLasts(c, s, ts, k, |ts|, me, P);
    StateAtEnds(c, s, ts);
  }

  lemma ElectionLasts(c: Config, s: State, ts: seq<Step>, k: nat, me: nat)
    requires IsRun(c, s, ts) && k <= |ts|
    requires me < |StateAt(c, s, ts, k).callers| && StateAt(c, s, ts, k).callers[me].phase == Loading
    ensures me < |Run(c, s, ts).callers|
    ensures var p := Run(c, s, ts).callers[me].phase; p.Finished? ==> p.path == Elected
  {
    var P := (p: Phase) => InElected(p) || (p.Finished? && p.path == Elected);
    assert Lasts(c, P);
    hide StateAt, IsRun, Next, Run;
    PhaseLasts(c, s, ts, k, |ts|, me, P);
    StateAtEnds(c, s, ts);
  }

  /** Without a client every call that ends has run its own loader, once, and has said nothing to the store. */
  lemma NoClientMeansEveryCallLoads(c: Config, s: State, ts: seq<Step>)
    requires !c.live && IsRun(c, s, ts) && ts != [] && ts[0].Arrive?
    ensures |s.callers| < |Run(c, s, ts).callers|
    ensures var p := Run(c, s, ts).callers[|s.callers|].phase;
      p.Finished? ==> p.path == Elected && |Loads(ts, |s.callers|)| == 1 && Requests(Talk(c, s, ts, |s.callers|)) == []
  {
    var P := (p: Phase) => p.Idle? || p.Missed? || InElected(p) || (p.Finished? && p.path == Elected);
    assert Lasts(c, P);
    ArrivalIsIdle(c, s, ts);
    hide StateAt, IsRun, Next, Run, Loads, Talk, Requests;
    PhaseLasts(c, s, ts, 1, |ts|, |s.callers|, P);
    StateAtEnds(c, s, ts);
    CallsKeepToTheScript(c, s, ts);
  }

  // ---------------------------------------------------------------- what is counted

  /** Which steps move which counter, by one each. */
  lemma CountersInPlainTerms(c: Config, u: State, t: Step)
    requires Enabled(c, u, t)
    ensures var n := Next(c, u, t);
      && n.hits - u.hits == (if (t.Read? || t.Wake?) && c.live && t.reply == Fine && u.callers[t.i].key in u.values then 1 else 0)
      && n.misses - u.misses == (if t.Read? && !(c.live && t.reply == Fine && u.callers[t.i].key in u.values) then 1 else 0)
      && n.waits - u.waits == (if t.Acquire? && c.live && t.reply == Fine && u.callers[t.i].key in u.locks then 1 else 0)
      && n.degraded - u.degraded == (if t.GiveUp? then 1 else 0)
      && n.runs - u.runs == (if t.Load? then 1 else 0)
  {
  }

  // ---------------------------------------------------------------- what is stored, and how long a call waits

  /** A loaded document reaches the store exactly when there is a client and the request is not lost before its effect. */
  lemma StoreDecides(c: Config, s: State, ts: seq<Step>, k: nat, reply: Reply) returns (v: string)
    requires IsRun(c, s, ts) && ts != [] && ts[0].Arrive? && k < |ts| && ts[k] == Store(|s.callers|, reply)
    ensures Loads(ts[..k], |s.callers|) == [Some(v)]
    ensures var u, n, key := StateAt(c, s, ts, k), StateAt(c, s, ts, k + 1), ts[0].key;
            n.values == if c.live && reply != LostBefore then u.values[key := v] else u.values
  {
    hide IsRun, Run, Loads;
    OwnStep(c, s, ts, k);
    RunSplit(c, s, ts, k);
    var u := StateAt(c, s, ts, k);
    v := u.callers[|s.callers|].phase.value;
    CallsKeepToTheScript(c, s, ts[..k]);
  }

  /** Where the deadline and the end of the nap come from. */
  ghost predicate WaitsAsSaid(c: Config, s: State, ts: seq<Step>, n: nat)
    requires IsRun(c, s, ts) && n <= |ts|
  {
    var me, u := |s.callers|, StateAt(c, s, ts, n);
    me < |u.callers| ==>
      var p := u.callers[me].phase;
      && (p.Waiting? || p.Sleeping? ==> BeganBefore(c, s, ts, n, SetDeadline(me), p.deadline - c.timeout))
      && (p.Sleeping? ==> BeganBefore(c, s, ts, n, Sleep(me), p.wake - c.poll))
  }

  /** Some step before the `n`-th is this one, taken at this time. */
  ghost predicate BeganBefore(c: Config, s: State, ts: seq<Step>, n: nat, t: Step, clock: int)
    requires IsRun(c, s, ts) && n <= |ts|
  {
    exists j: nat :: j < n && ts[j] == t && StateAt(c, s, ts, j).clock == clock
  }

  lemma BeginningsStay(c: Config, s: State, ts: seq<Step>, n: nat)
    requires IsRun(c, s, ts) && 0 < n <= |ts|
    ensures forall t, clock :: BeganBefore(c, s, ts, n - 1, t, clock) ==> BeganBefore(c, s, ts, n, t, clock)
  {
    hide StateAt;
  }

  lemma WaitStep(c: Config, u: State, t: Step, me: nat)
    requires Enabled(c, u, t) && me < |u.callers| && me < |Next(c, u, t).callers|
    ensures var p, q := u.callers[me].phase, Next(c, u, t).callers[me].phase;
      && (q.Waiting? ==> (t == SetDeadline(me) && q.deadline == u.clock + c.timeout)
                         || ((p.Waiting? || p.Sleeping?) && p.deadline == q.deadline))
      && (q.Sleeping? ==> (p.Waiting? || p.Sleeping?) && p.deadline == q.deadline)
      && (q.Sleeping? ==> (t == Sleep(me) && q.wake == u.clock + c.poll) || (p.Sleeping? && p.wake == q.wake))
  {
  }

  lemma {:induction false} CallsWaitAsSaid(c: Config, s: State, ts: seq<Step>, n: nat)
    requires IsRun(c, s, ts) && ts != [] && ts[0].Arrive? && 0 < n <= |ts|
    ensures WaitsAsSaid(c, s, ts, n)
    decreases n
  {
    hide StateAt, IsRun, Enabled, Next;
    if n == 1 {
      ArrivalIsIdle(c, s, ts);
    } else {
      CallsWaitAsSaid(c, s, ts, n - 1);
      StateAtNext(c, s, ts, n - 1);
      CallStands(c, s, ts, n - 1);
      CallStands(c, s, ts, n);
      var u, me := StateAt(c, s, ts, n - 1), |s.callers|;
      WaitStep(c, u, ts[n - 1], me);
      assert BeganBefore(c, s, ts, n, ts[n - 1], u.clock) by { assert n - 1 < n; }
      BeginningsStay(c, s, ts, n);
    }
  }

  /** A call that gives up has waited out its whole limit since it set its deadline. */
  lemma GivingUpTakesTheWholeWait(c: Config, s: State, ts: seq<Step>, k: nat) returns (j: nat)
    requires IsRun(c, s, ts) && ts != [] && ts[0].Arrive? && k < |ts| && ts[k] == GiveUp(|s.callers|)
    ensures j < k && ts[j] == SetDeadline(|s.callers|)
    ensures StateAt(c, s, ts, k).clock >= StateAt(c, s, ts, j).clock + c.timeout
  {
    hide IsRun, Next, StateAt;
    OwnStep(c, s, ts, k);
    CallsWaitAsSaid(c, s, ts, k);
    var u, me := StateAt(c, s, ts, k), |s.callers|;
    j :| j < k && ts[j] == SetDeadline(me) && StateAt(c, s, ts, j).clock == u.callers[me].phase.deadline - c.timeout;
  }

  /** A further read comes one poll interval after the call went to sleep, or later. */
  lemma NapsLastOneInterval(c: Config, s: State, ts: seq<Step>, k: nat, reply: Reply) returns (j: nat)
    requires IsRun(c, s, ts) && ts != [] && ts[0].Arrive? && k < |ts| && ts[k] == Wake(|s.callers|, reply)
    ensures j < k && ts[j] == Sleep(|s.callers|)
    ensures StateAt(c, s, ts, k).clock >= StateAt(c, s, ts, j).clock + c.poll
  {
    hide IsRun, Next, StateAt;
    OwnStep(c, s, ts, k);
    CallsWaitAsSaid(c, s, ts, k);
    var u, me := StateAt(c, s, ts, k), |s.callers|;
    j :| j < k && ts[j] == Sleep(me) && StateAt(c, s, ts, j).clock == u.callers[me].phase.wake - c.poll;
  }
}
