/** The cache object over a store it shares with any number of other calls: its calls are runs of the shared machine. */
module DocumentCache {
  import opened SingleFlight
  import opened Wrappers
  import CallHistory

  /** The shared store, the clock and the other calls; what reaches the store, and what the loader gives, is recorded. */
  class Host {
    var callers: seq<Caller>
    var values: map<string, string>
    var locks: set<string>
    var now: int
    var runs: nat
    var produced: set<(string, string)>
    var failed: set<nat>
    ghost var asked: seq<Exchange>
    ghost var loaded: seq<Option<string>>

    constructor ()
      ensures callers == [] && values == map[] && locks == {} && asked == [] && loaded == []
    {
      callers, values, locks, now, runs, produced, failed := [], map[], {}, 0, 0, {}, {};
      asked, loaded := [], [];
    }

    /** GET; on an error there is no answer. */
    method ClientGet(key: string) returns (raised: bool, value: Option<string>, ghost reply: Reply)
      modifies `asked
      ensures raised == (reply != Fine)
      ensures !raised ==> value == if key in values then Some(values[key]) else None
      ensures asked == old(asked) + [Exchange(GetDocument(key), reply)]
    {
      var r: Reply := *;
      raised, reply := r != Fine, r;
      value := if key in values then Some(values[key]) else None;
      asked := asked + [Exchange(GetDocument(key), reply)];
    }

    /** SET NX of the lock; an error may hide that it took effect. */
    method ClientLockIfFree(key: string) returns (raised: bool, won: bool, ghost reply: Reply)
      modifies `asked, `locks
      ensures raised == (reply != Fine)
      ensures !raised ==> won == (key !in old(locks))
      ensures locks == if reply == LostBefore then old(locks) else old(locks) + {key}
      ensures asked == old(asked) + [Exchange(LockIfFree(key), reply)]
    {
      var r: Reply := *;
      raised, reply := r != Fine, r;
      won := key !in locks;
      if r != LostBefore {
        locks := locks + {key};
      }
      asked := asked + [Exchange(LockIfFree(key), reply)];
    }

    /** SET of a document. */
    method ClientSet(key: string, value: string) returns (raised: bool, ghost reply: Reply)
      modifies `asked, `values
      ensures raised == (reply != Fine)
      ensures values == if reply == LostBefore then old(values) else old(values)[key := value]
      ensures asked == old(asked) + [Exchange(SetDocument(key, value), reply)]
    {
      var r: Reply := *;
      raised, reply := r != Fine, r;
      if r != LostBefore {
        values := values[key := value];
      }
      asked := asked + [Exchange(SetDocument(key, value), reply)];
    }

    /** DEL of the lock. */
    method ClientDeleteLock(key: string) returns (raised: bool, ghost reply: Reply)
      modifies `asked, `locks
      ensures raised == (reply != Fine)
      ensures locks == if reply == LostBefore then old(locks) else old(locks) - {key}
      ensures asked == old(asked) + [Exchange(DeleteLock(key), reply)]
    {
      var r: Reply := *;
      raised, reply := r != Fine, r;
      if r != LostBefore {
        locks := locks - {key};
      }
      asked := asked + [Exchange(DeleteLock(key), reply)];
    }

    /** Runs the loader of call `me`; None when it raises. */
    method RunLoader(me: nat, key: string) returns (document: Option<string>)
      modifies `loaded, `runs, `produced, `failed
      ensures loaded == old(loaded) + [document] && runs == old(runs) + 1
      ensures document.Some? ==> produced == old(produced) + {(key, document.value)} && failed == old(failed)
      ensures document.None? ==> produced == old(produced) && failed == old(failed) + {me}
    {
      document := *;
      runs := runs + 1;
      if document.Some? {
        produced := produced + {(key, document.value)};
      } else {
        failed := failed + {me};
      }
      loaded := loaded + [document];
    }
  }

  /** A call under way: where the run began, what has happened since, which caller it is, and the records before it. */
  datatype Session = Session(start: State, ts: seq<Step>, me: nat, key: string, asked: seq<Exchange>,
                             loaded: seq<Option<string>>)

  class BulletinCache {
    const config: Config
    var hits: nat
    var misses: nat
    var waits: nat
    var degraded: nat

    constructor (config: Config)
      ensures this.config == config && hits == misses == waits == degraded == 0
    {
      this.config := config;
      hits, misses, waits, degraded := 0, 0, 0, 0;
    }

    /** Cache, store, clock and calls, as one state of the shared machine. */
    function World(host: Host): State
      reads this, host
    {
      State(host.callers, host.values, host.locks, host.now, hits, misses, waits, degraded, host.runs, host.produced,
            host.failed)
    }

    /** The run of the session leads to this state, and the records are those of its call. */
    ghost predicate Reached(g: Session, was: State, asked: seq<Exchange>, loaded: seq<Option<string>>, p: Phase) {
      && IsRun(config, g.start, g.ts) && Run(config, g.start, g.ts) == was
      && g.me < |was.callers| && was.callers[g.me] == Caller(g.key, p)
      && asked == g.asked + Talk(config, g.start, g.ts, g.me) && loaded == g.loaded + Loads(g.ts, g.me)
    }

    ghost predicate At(host: Host, g: Session, p: Phase)
      reads this, host
    {
      Reached(g, World(host), host.asked, host.loaded, p)
    }

    /** The same call, further on. */
    static ghost predicate Later(g: Session, h: Session) { h == g.(ts := h.ts) && g.ts <= h.ts }

    lemma ReachedNext(g: Session, was: State, asked: seq<Exchange>, loaded: seq<Option<string>>, p: Phase, t: Step,
                      q: Phase)
      requires Reached(g, was, asked, loaded, p) && Enabled(config, was, t)
      requires g.me < |Next(config, was, t).callers| && Next(config, was, t).callers[g.me] == Caller(g.key, q)
      ensures Reached(g.(ts := g.ts + [t]), Next(config, was, t),
                      asked + (if Own(t, g.me) then Asks(config, was, t) else []),
                      loaded + (if t.Load? && Own(t, g.me) then [t.result] else []), q)
    {
      hide IsRun, Run, Talk, Loads, Enabled, Next, Asks;
      RunAppend(config, g.start, g.ts, t);
      TalkAppend(config, g.start, g.ts, t, g.me);
      LoadsAppend(g.ts, t, g.me);
    }

    /** Between two actions of a call the other calls and the store may take any number of steps. */
    method Others(host: Host, me: nat, ghost g: Session, ghost p: Phase) returns (ghost h: Session)
      requires At(host, g, p) && g.me == me
      modifies this, host`callers, host`values, host`locks, host`now, host`runs, host`produced, host`failed
      ensures At(host, h, p) && Later(g, h) && host.now >= old(host.now)
    {
      h := g;
      var steps: seq<Step> := *;
      for k := 0 to |steps|
        invariant At(host, h, p) && Later(g, h) && host.now >= old(host.now)
      {
        hide Reached, Next;
        var t := steps[k];
        if Enabled(config, World(host), t) && !Own(t, me) {
          h := Take(host, t, h, p);
        }
      }
    }

    /** One step of the surroundings. */
    method Take(host: Host, t: Step, ghost g: Session, ghost p: Phase) returns (ghost h: Session)
      requires At(host, g, p) && Enabled(config, World(host), t) && !Own(t, g.me)
      modifies this, host`callers, host`values, host`locks, host`now, host`runs, host`produced, host`failed
      ensures At(host, h, p) && h == g.(ts := g.ts + [t]) && World(host) == Next(config, old(World(host)), t)
      ensures host.now >= old(host.now)
    {
      ghost var was := World(host);
      var w := Next(config, World(host), t);
      TimeNeverTurnsBack(config, was, t);
      OthersStandStill(config, was, t, g.me);
      ReachedNext(g, was, host.asked, host.loaded, p, t, p);
      h := g.(ts := g.ts + [t]);
      hide Next, Reached, Enabled;
      host.callers, host.values, host.locks, host.now := w.callers, w.values, w.locks, w.clock;
      host.runs, host.produced, host.failed := w.runs, w.produced, w.failed;
      hits, misses, waits, degraded := w.hits, w.misses, w.waits, w.degraded;
      assert World(host) == w;
    }

    /**
      * Moves the call on after an action. What the code did to counters, store and records must be exactly what the
      * machine's step does, and what the step says to the store.
      */
    method MoveOn(host: Host, me: nat, q: Phase, ghost g: Session, ghost p: Phase, ghost t: Step, ghost was: State,
                  ghost asked: seq<Exchange>, ghost loaded: seq<Option<string>>)
      returns (ghost h: Session)
      requires Reached(g, was, asked, loaded, p) && g.me == me && Own(t, me) && Enabled(config, was, t)
      requires host.callers == was.callers
      requires Next(config, was, t) == World(host).(callers := was.callers[me := Caller(g.key, q)])
      requires host.asked == asked + Asks(config, was, t)
      requires host.loaded == loaded + if t.Load? then [t.result] else []
      modifies host`callers
      ensures At(host, h, q) && Later(g, h) && h.ts == g.ts + [t]
      ensures |host.callers| == |old(host.callers)|
    {
      hide IsRun, Run, Talk, Loads, Next, Enabled, Asks;
      assert host.callers[me].key == g.key;
      ReachedNext(g, was, asked, loaded, p, t, q);
      hide Reached;
      host.callers := host.callers[me := host.callers[me].(phase := q)];
      h := g.(ts := g.ts + [t]);
      assert World(host) == Next(config, was, t);
    }

    /** Reads the document; a missing client, an error and an absent document all look the same. */
    method Get(host: Host, key: string) returns (r: Option<string>, ghost reply: Reply)
      modifies host`asked
      ensures r == Lookup(config, World(host), key, reply)
      ensures host.asked == old(host.asked) + if config.live then [Exchange(GetDocument(key), reply)] else []
    {
      reply := Fine;
      if !config.live {
        return None, reply;
      }
      var raised, value;
      raised, value, reply := host.ClientGet(key);
      r := if raised then None else value;
    }

    /** Writes the document; errors are swallowed. */
    method Set(host: Host, key: string, value: string) returns (ghost reply: Reply)
      modifies host`asked, host`values
      ensures host.values == if config.live && reply != LostBefore then old(host.values)[key := value] else old(host.values)
      ensures host.asked == old(host.asked) + if config.live then [Exchange(SetDocument(key, value), reply)] else []
    {
      reply := Fine;
      if config.live {
        var raised;
        raised, reply := host.ClientSet(key, value);
      }
    }

    /** Tries to win the election; whenever coordination is impossible the call fetches. */
    method TryAcquire(host: Host, key: string) returns (won: bool, ghost reply: Reply)
      modifies host`asked, host`locks
      ensures won == !(config.live && reply == Fine && key in old(host.locks))
      ensures host.locks == if !config.live || !won || reply == LostBefore then old(host.locks)
                            else old(host.locks) + {key}
      ensures host.asked == old(host.asked) + if config.live then [Exchange(LockIfFree(key), reply)] else []
    {
      reply := Fine;
      if !config.live {
        return true, reply;
      }
      var raised, acquired;
      raised, acquired, reply := host.ClientLockIfFree(key);
      won := raised || acquired;
    }

    /** Gives the lock back; errors are swallowed. */
    method Release(host: Host, key: string) returns (ghost reply: Reply)
      modifies host`asked, host`locks
      ensures host.locks == if config.live && reply != LostBefore then old(host.locks) - {key} else old(host.locks)
      ensures host.asked == old(host.asked) + if config.live then [Exchange(DeleteLock(key), reply)] else []
    {
      reply := Fine;
      if config.live {
        var raised;
        raised, reply := host.ClientDeleteLock(key);
      }
    }

    lemma Standing(g: Session, was: State, asked: seq<Exchange>, loaded: seq<Option<string>>, p: Phase)
      requires Reached(g, was, asked, loaded, p)
      ensures g.me < |was.callers| && was.callers[g.me] == Caller(g.key, p)
    {
    }

    /** Runs the loader, elected or not. */
    method Load(host: Host, me: nat, key: string, p: Phase, ghost g: Session)
      returns (document: Option<string>, ghost h: Session)
      requires At(host, g, p) && g.me == me && g.key == key && MayLoad(p)
      modifies this, host
      ensures At(host, h, match document
                          case Some(v) => if p.Loading? then Storing(v) else DegradedStoring(v)
                          case None => if p.Loading? then Releasing(Raised) else Finished(Raised, TimedOut))
      ensures Later(g, h)
    {
      hide Reached;
      h := Others(host, me, g, p);
      ghost var was, asked, loaded := World(host), host.asked, host.loaded;
      Standing(h, was, asked, loaded, p);
      document := host.RunLoader(me, key);
      var q := match document
               case Some(v) => (if p.Loading? then Storing(v) else DegradedStoring(v))
               case None => if p.Loading? then Releasing(Raised) else Finished(Raised, TimedOut);
      h := MoveOn(host, me, q, h, p, SingleFlight.Load(me, document), was, asked, loaded);
    }

    /** Stores a loaded document, elected or not. */
    method Store(host: Host, me: nat, key: string, value: string, p: Phase, ghost g: Session)
      returns (ghost h: Session)
      requires At(host, g, p) && g.me == me && g.key == key && (p == Storing(value) || p == DegradedStoring(value))
      modifies this, host
      ensures At(host, h, if p.Storing? then Releasing(Returned(value)) else Finished(Returned(value), TimedOut))
      ensures Later(g, h)
    {
      hide Reached;
      h := Others(host, me, g, p);
      ghost var was, asked, loaded := World(host), host.asked, host.loaded;
      Standing(h, was, asked, loaded, p);
      ghost var reply := Set(host, key, value);
      h := MoveOn(host, me, if p.Storing? then Releasing(Returned(value)) else Finished(Returned(value), TimedOut),
                  h, p, SingleFlight.Store(me, reply), was, asked, loaded);
    }

    /** The elected section: load, store, and give the lock back whatever happened. */
    method FetchElected(host: Host, me: nat, key: string, ghost g: Session) returns (o: Outcome, ghost h: Session)
      requires At(host, g, Loading) && g.me == me && g.key == key
      modifies this, host
      ensures At(host, h, Finished(o, Elected)) && Later(g, h)
    {
      hide Reached;
      var document;
      document, h := Load(host, me, key, Loading, g);
      if document.Some? {
        h := Store(host, me, key, document.value, Storing(document.value), h);
        o := Returned(document.value);
      } else {
        o := Raised;
      }
      h := Others(host, me, h, Releasing(o));
      ghost var was, asked, loaded := World(host), host.asked, host.loaded;
      Standing(h, was, asked, loaded, Releasing(o));
      ghost var reply := Release(host, key);
      h := MoveOn(host, me, Finished(o, Elected), h, Releasing(o), SingleFlight.Release(me, reply), was, asked, loaded);
    }

    /** The wait ran out: load and store without the lock. */
    method FetchDegraded(host: Host, me: nat, key: string, ghost g: Session) returns (o: Outcome, ghost h: Session)
      requires At(host, g, Degraded) && g.me == me && g.key == key
      modifies this, host
      ensures At(host, h, Finished(o, TimedOut)) && Later(g, h)
    {
      hide Reached;
      var document;
      document, h := Load(host, me, key, Degraded, g);
      if document.Some? {
        h := Store(host, me, key, document.value, DegradedStoring(document.value), h);
        o := Returned(document.value);
      } else {
        o := Raised;
      }
    }

    /** Sleeps until an instant; other calls go on meanwhile. */
    method Nap(host: Host, me: nat, wake: int, p: Phase, ghost g: Session) returns (ghost h: Session)
      requires At(host, g, p) && g.me == me
      modifies this, host
      ensures At(host, h, p) && Later(g, h) && host.now >= wake
    {
      hide Reached;
      h := Others(host, me, g, p);
      if host.now < wake {
        h := Take(host, Tick(wake - host.now), h, p);
      }
    }

    /** Looks at the clock before the deadline and goes to sleep for one interval. */
    method FallAsleep(host: Host, me: nat, deadline: int, ghost g: Session) returns (wake: int, ghost h: Session)
      requires At(host, g, Waiting(deadline)) && g.me == me && host.now < deadline
      modifies host`callers
      ensures wake == host.now + config.poll
      ensures At(host, h, Sleeping(deadline, wake)) && Later(g, h)
    {
      hide Reached;
      ghost var was, asked, loaded := World(host), host.asked, host.loaded;
      Standing(g, was, asked, loaded, Waiting(deadline));
      wake := host.now + config.poll;
      h := MoveOn(host, me, Sleeping(deadline, wake), g, Waiting(deadline), Sleep(me), was, asked, loaded);
    }

    /** Reads the document again after a nap. */
    method Poll(host: Host, me: nat, key: string, deadline: int, wake: int, ghost g: Session)
      returns (cached: Option<string>, ghost h: Session)
      requires At(host, g, Sleeping(deadline, wake)) && g.me == me && g.key == key
      modifies this, host
      ensures At(host, h, match cached case Some(v) => Finished(Returned(v), HitWaiting) case None => Waiting(deadline))
      ensures Later(g, h) && host.now >= wake
    {
      hide Reached;
      var p := Sleeping(deadline, wake);
      h := Nap(host, me, wake, p, g);
      h := Others(host, me, h, p);
      ghost var was, asked, loaded := World(host), host.asked, host.loaded;
      Standing(h, was, asked, loaded, p);
      ghost var reply;
      cached, reply := Get(host, key);
      var q := Waiting(deadline);
      if cached.Some? {
        hits := hits + 1;
        q := Finished(Returned(cached.value), HitWaiting);
      }
      h := MoveOn(host, me, q, h, p, Wake(me, reply), was, asked, loaded);
    }

    /** Polls for the elected call's document until the deadline. */
    method AwaitDocument(host: Host, me: nat, key: string, deadline: int, ghost g: Session)
      returns (r: Option<string>, ghost h: Session)
      requires config.poll > 0 && At(host, g, Waiting(deadline)) && g.me == me && g.key == key
      modifies this, host
      ensures At(host, h, match r case Some(v) => Finished(Returned(v), HitWaiting) case None => Degraded)
      ensures Later(g, h)
    {
      hide Reached;
      h := Others(host, me, g, Waiting(deadline));
      while host.now < deadline
        invariant At(host, h, Waiting(deadline)) && Later(g, h)
        decreases Polls(config, deadline - host.now)
      {
        ghost var before := host.now;
        var wake, cached;
        wake, h := FallAsleep(host, me, deadline, h);
        cached, h := Poll(host, me, key, deadline, wake, h);
        if cached.Some? {
          return cached, h;
        }
        h := Others(host, me, h, Waiting(deadline));
        PollsMonotone(config, deadline - host.now, deadline - before - config.poll);
      }
      ghost var was, asked, loaded := World(host), host.asked, host.loaded;
      Standing(h, was, asked, loaded, Waiting(deadline));
      degraded := degraded + 1;
      h := MoveOn(host, me, Degraded, h, Waiting(deadline), GiveUp(me), was, asked, loaded);
      r := None;
    }

    /** Another call is fetching: wait for its document, and fetch directly when it does not come. */
    method WaitThenFetch(host: Host, me: nat, key: string, ghost g: Session)
      returns (o: Outcome, path: Path, ghost h: Session)
      requires config.poll > 0 && At(host, g, Refused) && g.me == me && g.key == key
      modifies this, host
      ensures At(host, h, Finished(o, path)) && Later(g, h)
    {
      hide Reached;
      h := Others(host, me, g, Refused);
      ghost var was, asked, loaded := World(host), host.asked, host.loaded;
      Standing(h, was, asked, loaded, Refused);
      var deadline := host.now + config.timeout;
      h := MoveOn(host, me, Waiting(deadline), h, Refused, SetDeadline(me), was, asked, loaded);
      var cached;
      cached, h := AwaitDocument(host, me, key, deadline, h);
      if cached.Some? {
        return Returned(cached.value), HitWaiting, h;
      }
      o, h := FetchDegraded(host, me, key, h);
      path := TimedOut;
    }

    /** The first read: a hit, or a miss. */
    method Look(host: Host, me: nat, key: string, ghost g: Session) returns (cached: Option<string>, ghost h: Session)
      requires At(host, g, Idle) && g.me == me && g.key == key
      modifies this, host
      ensures At(host, h, match cached case Some(v) => Finished(Returned(v), HitFirst) case None => Missed)
      ensures Later(g, h)
      ensures IsRun(config, h.start, h.ts) && h.ts != [] && h.ts[|h.ts| - 1].Read? && h.ts[|h.ts| - 1].i == me
      ensures var u, reply := CallHistory.StateAt(config, h.start, h.ts, |h.ts| - 1), h.ts[|h.ts| - 1].reply;
              cached == if config.live && reply == Fine && key in u.values then Some(u.values[key]) else None
    {
      hide Reached;
      h := Others(host, me, g, Idle);
      ghost var was, asked, loaded, before := World(host), host.asked, host.loaded, h;
      Standing(h, was, asked, loaded, Idle);
      ghost var reply;
      cached, reply := Get(host, key);
      var q := Missed;
      if cached.Some? {
        hits := hits + 1;
        q := Finished(Returned(cached.value), HitFirst);
      } else {
        misses := misses + 1;
      }
      h := MoveOn(host, me, q, h, Idle, Read(me, reply), was, asked, loaded);
      RunReached(h, World(host), host.asked, host.loaded, q);
      RunReached(before, was, asked, loaded, Idle);
      assert h.ts[..|h.ts| - 1] == before.ts;
    }

    lemma RunReached(g: Session, was: State, asked: seq<Exchange>, loaded: seq<Option<string>>, p: Phase)
      requires Reached(g, was, asked, loaded, p)
      ensures IsRun(config, g.start, g.ts) && Run(config, g.start, g.ts) == was
    {
    }

    /** Stands for election. */
    method Stand(host: Host, me: nat, key: string, ghost g: Session) returns (won: bool, ghost h: Session)
      requires At(host, g, Missed) && g.me == me && g.key == key
      modifies this, host
      ensures At(host, h, if won then Loading else Refused) && Later(g, h)
    {
      hide Reached;
      h := Others(host, me, g, Missed);
      ghost var was, asked, loaded := World(host), host.asked, host.loaded;
      Standing(h, was, asked, loaded, Missed);
      ghost var reply;
      won, reply := TryAcquire(host, key);
      if !won {
        waits := waits + 1;
      }
      h := MoveOn(host, me, if won then Loading else Refused, h, Missed, Acquire(me, reply), was, asked, loaded);
    }

    lemma EndsOnScript(g: Session, was: State, asked: seq<Exchange>, loaded: seq<Option<string>>, p: Phase)
      requires Reached(g, was, asked, loaded, p)
      requires g.me == |g.start.callers| && g.ts != [] && g.ts[0] == SingleFlight.Arrive(g.key)
      ensures IsRun(config, g.start, g.ts) && Run(config, g.start, g.ts) == was
      ensures g.me < |was.callers| && was.callers[g.me] == Caller(g.key, p)
      ensures asked == g.asked + Talk(config, g.start, g.ts, g.me)
      ensures Requests(asked[|g.asked|..]) == if config.live then Script(g.key, p, Wakes(g.ts, g.me)) else []
      ensures loaded == g.loaded + Yield(p)
    {
      hide IsRun, Run, Talk, Loads, Wakes, Script, Yield;
      CallsKeepToTheScript(config, g.start, g.ts);
      assert asked[|g.asked|..] == Talk(config, g.start, g.ts, g.me);
    }

    /** A new call enters. */
    method Enter(host: Host, key: string) returns (me: nat, ghost g: Session)
      modifies host`callers
      ensures me == |old(host.callers)| && g.me == me && g.key == key
      ensures At(host, g, Idle)
      ensures g == Session(old(World(host)), [SingleFlight.Arrive(key)], me, key, old(host.asked), old(host.loaded))
    {
      me := |host.callers|;
      ghost var was := World(host);
      host.callers := host.callers + [Caller(key, Idle)];
      g := Session(was, [SingleFlight.Arrive(key)], me, key, host.asked, host.loaded);
      RunOfArrival(config, was, key);
      assert World(host) == Next(config, was, SingleFlight.Arrive(key));
      assert host.asked == g.asked + [] && host.loaded == g.loaded + [];
    }

    /**
      * Returns the cached document or fetches it. The call is a run of the shared machine, whatever the store and the
      * other calls do: counters, store and clock change exactly as its steps say. It says its script to the store,
      * request by request, and runs its loader as its path says; in particular an elected call deletes the lock
      * after its loader, raised or not.
      */
    method GetOrFetch(host: Host, key: string) returns (o: Outcome, path: Path, ghost g: Session)
      requires config.poll > 0
      modifies this, host
      ensures g.start == old(World(host)) && g.me == |old(host.callers)| && g.key == key
      ensures IsRun(config, g.start, g.ts) && World(host) == Run(config, g.start, g.ts)
      ensures g.me < |host.callers| && host.callers[g.me] == Caller(key, Finished(o, path))
      ensures host.asked == old(host.asked) + Talk(config, g.start, g.ts, g.me)
      ensures Requests(host.asked[|old(host.asked)|..])
              == if config.live then Script(key, Finished(o, path), Wakes(g.ts, g.me)) else []
      ensures host.loaded == old(host.loaded) + Yield(Finished(o, path))
      ensures path == HitFirst <==> exists k :: CallHistory.Finds(config, g.start, g.ts, k, Read(g.me, Fine), key)
      ensures path == HitWaiting <==> exists k :: CallHistory.Finds(config, g.start, g.ts, k, Wake(g.me, Fine), key)
      ensures forall k :: CallHistory.Finds(config, g.start, g.ts, k, Read(g.me, Fine), key)
                          || CallHistory.Finds(config, g.start, g.ts, k, Wake(g.me, Fine), key) ==>
                o == Returned(CallHistory.StateAt(config, g.start, g.ts, k).values[key]) && host.loaded == old(host.loaded)
      ensures !config.live ==> path == Elected && |host.loaded| == |old(host.loaded)| + 1
    {
      hide Reached, CallHistory.Finds, CallHistory.StateAt;
      var me;
      me, g := Enter(host, key);
      var cached;
      cached, g := Look(host, me, key, g);
      if cached.Some? {
        o, path := Returned(cached.value), HitFirst;
      } else {
        var won;
        won, g := Stand(host, me, key, g);
        if won {
          o, g := FetchElected(host, me, key, g);
          path := Elected;
        } else {
          o, path, g := WaitThenFetch(host, me, key, g);
        }
      }
      assert g.ts[0] == SingleFlight.Arrive(key);
      EndsOnScript(g, World(host), host.asked, host.loaded, Finished(o, path));
      EndsAsItsReadsFound(g, World(host), host.asked, host.loaded, o, path);
    }

    lemma EndsAsItsReadsFound(g: Session, was: State, asked: seq<Exchange>, loaded: seq<Option<string>>, o: Outcome,
                              path: Path)
      requires Reached(g, was, asked, loaded, Finished(o, path))
      requires g.me == |g.start.callers| && g.ts != [] && g.ts[0] == SingleFlight.Arrive(g.key)
      ensures path == HitFirst <==> exists k :: CallHistory.Finds(config, g.start, g.ts, k, Read(g.me, Fine), g.key)
      ensures path == HitWaiting <==> exists k :: CallHistory.Finds(config, g.start, g.ts, k, Wake(g.me, Fine), g.key)
      ensures forall k :: CallHistory.Finds(config, g.start, g.ts, k, Read(g.me, Fine), g.key)
                          || CallHistory.Finds(config, g.start, g.ts, k, Wake(g.me, Fine), g.key) ==>
                o == Returned(CallHistory.StateAt(config, g.start, g.ts, k).values[g.key]) && loaded == g.loaded
      ensures !config.live ==> path == Elected && |loaded| == |g.loaded| + 1
    {
      hide Run, Loads, Talk, IsRun, CallHistory.StateAt, CallHistory.Finds;
      CallHistory.HitsExactly(config, g.start, g.ts, o, path);
      FindsIsDefined(g);
      if !config.live { CallHistory.NoClientMeansEveryCallLoads(config, g.start, g.ts); }
    }

    lemma FindsIsDefined(g: Session)
      requires IsRun(config, g.start, g.ts)
      ensures forall k: nat, t: Step :: CallHistory.Finds(config, g.start, g.ts, k, t, g.key) ==>
                k <= |g.ts| && g.key in CallHistory.StateAt(config, g.start, g.ts, k).values
    {
    }
  }

  lemma TimeNeverTurnsBack(c: Config, s: State, t: Step)
    requires Enabled(c, s, t)
    ensures Next(c, s, t).clock >= s.clock
  {
  }
}
