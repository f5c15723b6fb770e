/** The in-process alert broker: fan-out to subscriber queues, with a bounded replay for newcomers. */
module AlertBroker {
  import opened Wrappers

  type Event = string

  /** The last `n` elements, or all of them when there are fewer. */
  function LastN(s: seq<Event>, n: nat): seq<Event> {
    if |s| <= n then s else s[|s| - n..]
  }

  /** Appending to a bounded deque drops from the front. */
  function PushBounded(recent: seq<Event>, e: Event, n: nat): seq<Event> { LastN(recent + [e], n) }

  /** What a queue is due: the replay at the time of joining, then everything published until it left. */
  function Due(published: seq<Event>, replay: nat, joined: nat, left: nat): seq<Event>
    requires joined <= left <= |published|
  {
    LastN(published[..joined], replay) + published[joined..left]
  }

  function ReplayStart(replay: nat, joined: nat): nat { if joined <= replay then 0 else joined - replay }

  /** That is one gapless stretch of the publication order: nothing missing, nothing twice, nothing out of order. */
  lemma DueIsOneStretch(published: seq<Event>, replay: nat, joined: nat, left: nat)
    requires joined <= left <= |published|
    ensures Due(published, replay, joined, left) == published[if joined <= replay then 0 else joined - replay..left]
  {
    var start := ReplayStart(replay, joined);
    assert LastN(published[..joined], replay) == published[start..joined];
  }

  lemma PushKeepsTheLast(published: seq<Event>, e: Event, n: nat)
    ensures PushBounded(LastN(published, n), e, n) == LastN(published + [e], n)
  {
  }

  lemma DueGrows(published: seq<Event>, e: Event, replay: nat, joined: nat, left: nat)
    requires joined <= left <= |published|
    ensures Due(published + [e], replay, joined, left) == Due(published, replay, joined, left)
    ensures left == |published| ==> Due(published + [e], replay, joined, left + 1) == Due(published, replay, joined, left) + [e]
  {
    assert (published + [e])[..joined] == published[..joined];
    assert (published + [e])[joined..left] == published[joined..left];
    if left == |published| { assert (published + [e])[joined..left + 1] == published[joined..left] + [e]; }
  }

  /** A subscriber's queue; `received` is everything ever put into it. */
  class EventQueue {
    var items: seq<Event>
    ghost var received: seq<Event>

    constructor ()
      ensures items == received == []
    {
      items, received := [], [];
    }

    method Put(e: Event)
      modifies this
      ensures items == old(items) + [e] && received == old(received) + [e]
    {
      items, received := items + [e], received + [e];
    }

    /** Taking an event out does not undo that it was received. */
    method Take() returns (e: Option<Event>)
      modifies `items
      ensures old(items) == [] ==> e == None && items == []
      ensures old(items) != [] ==> e == Some(old(items)[0]) && items == old(items)[1..]
    {
      if items == [] {
        return None;
      }
      e := Some(items[0]);
      items := items[1..];
    }
  }

  class Broker {
    const replay: nat
    var recent: seq<Event>
    var subscribers: set<EventQueue>
    ghost var published: seq<Event>
    ghost var joined: map<EventQueue, nat>
    ghost var left: map<EventQueue, nat>

    ghost function LeftAt(q: EventQueue): nat
      reads this
    {
      if q in left then left[q] else |published|
    }

    /** Every queue that ever subscribed has received exactly what it is due. */
    ghost predicate Valid()
      reads this, joined.Keys
    {
      && recent == LastN(published, replay)
      && left.Keys <= joined.Keys
      && subscribers == joined.Keys - left.Keys
      && (forall q :: q in joined ==> joined[q] <= LeftAt(q) <= |published|)
      && (forall q :: q in joined ==> q.received == Due(published, replay, joined[q], LeftAt(q)))
    }

    constructor (replay: nat)
      ensures Valid() && published == [] && joined == map[] && this.replay == replay
    {
      this.replay := replay;
      recent, subscribers := [], {};
      published, joined, left := [], map[], map[];
    }

    /** Puts an event on every queue of the snapshot, in any order. */
    method Deliver(e: Event, targets: set<EventQueue>)
      modifies targets
      ensures forall q :: q in targets ==> q.received == old(q.received) + [e]
    {
      var rest := targets;
      while rest != {}
        invariant rest <= targets
        invariant forall q :: q in rest ==> q.received == old(q.received)
        invariant forall q :: q in targets && q !in rest ==> q.received == old(q.received) + [e]
        decreases |rest|
      {
        var q :| q in rest;
        q.Put(e);
        rest := rest - {q};
      }
    }

    /** Records the event for replay and fans it out. */
    method Publish(e: Event)
      requires Valid()
      modifies this, subscribers
      ensures Valid()
      ensures published == old(published) + [e]
      ensures joined == old(joined) && left == old(left)
    {
      hide Due, LastN, PushBounded;
      PushKeepsTheLast(published, e, replay);
      forall q | q in joined {
        DueGrows(published, e, replay, joined[q], LeftAt(q));
      }
      recent := PushBounded(recent, e, replay);
      published := published + [e];
      Deliver(e, subscribers);
    }

    /** Hands out a new queue, filled with the replay buffer. */
    method Subscribe() returns (q: EventQueue)
      requires Valid()
      modifies this
      ensures Valid()
      ensures fresh(q) && q in subscribers && published == old(published) && left == old(left)
      ensures joined == old(joined)[q := |published|]
      ensures q.received == LastN(published, replay)
    {
      q := new EventQueue();
      for i := 0 to |recent|
        invariant q.received == recent[..i]
        modifies q
      {
        q.Put(recent[i]);
      }
      assert q !in joined;
      assert published[..|published|] == published;
      subscribers := subscribers + {q};
      joined := joined[q := |published|];
    }

    /** Drops a queue from the fan-out; unknown queues are ignored. */
    method Unsubscribe(q: EventQueue)
      requires Valid()
      modifies this
      ensures Valid()
      ensures q !in subscribers && published == old(published) && joined == old(joined)
      ensures left == if q in old(subscribers) then old(left)[q := |published|] else old(left)
    {
      if q in subscribers {
        left := left[q := |published|];
      }
      subscribers := subscribers - {q};
    }

    /** In every reachable state a queue holds one stretch of the publication order, from its replay to its leave. */
    lemma FanOutIsExact(q: EventQueue)
      requires Valid() && q in joined
      ensures q.received == published[if joined[q] <= replay then 0 else joined[q] - replay..LeftAt(q)]
      ensures LeftAt(q) == if q in subscribers then |published| else left[q]
    {
      DueIsOneStretch(published, replay, joined[q], LeftAt(q));
    }
  }

  // ---------------------------------------------------------------- publish split in two

  /** A subscriber by number: the first event it is due, when it left, and the events put so far, by position. */
  datatype Subscriber = Subscriber(start: nat, left: Option<nat>, received: seq<nat>)

  /** Snapshot and delivery as separate steps: `flying` holds deliveries that are still to be made. */
  datatype Split = Split(count: nat, subscribers: map<nat, Subscriber>, flying: set<(nat, nat)>)

  datatype Action = Snapshot | Hand(n: nat, q: nat) | Join(q: nat) | Leave(q: nat)

  function Until(s: Split, q: nat): nat
    requires q in s.subscribers
  {
    match s.subscribers[q].left case Some(n) => n case None => s.count
  }

  function Range(lo: nat, hi: nat): seq<nat>
    requires lo <= hi
    decreases hi
  {
    if lo == hi then [] else Range(lo, hi - 1) + [hi - 1]
  }

  predicate Possible(s: Split, a: Action) {
    match a
    case Snapshot => true
    case Hand(n, q) => (n, q) in s.flying && q in s.subscribers
    case Join(q) => q !in s.subscribers
    case Leave(q) => q in s.subscribers && s.subscribers[q].left.None?
  }

  function After(replay: nat, s: Split, a: Action): Split
    requires Possible(s, a)
  {
    match a
    case Snapshot =>
      var targets := set q | q in s.subscribers && s.subscribers[q].left.None? :: (s.count, q);
      s.(count := s.count + 1, flying := s.flying + targets)
    case Hand(n, q) =>
      var sub := s.subscribers[q];
      s.(subscribers := s.subscribers[q := sub.(received := sub.received + [n])], flying := s.flying - {(n, q)})
    case Join(q) =>
      var start := ReplayStart(replay, s.count);
      s.(subscribers := s.subscribers[q := Subscriber(start, None, Range(start, s.count))])
    case Leave(q) => s.(subscribers := s.subscribers[q := s.subscribers[q].(left := Some(s.count))])
  }

  /** Each event a subscriber is due is either received, once, or still flying to it; nothing else is either. */
  ghost predicate Accounted(s: Split) {
    && (forall q :: q in s.subscribers ==> s.subscribers[q].start <= Until(s, q) <= s.count)
    && (forall q, i, j :: q in s.subscribers && 0 <= i < j < |s.subscribers[q].received|
          ==> s.subscribers[q].received[i] != s.subscribers[q].received[j])
    && (forall q, n: nat :: q in s.subscribers ==>
          (n in s.subscribers[q].received || (n, q) in s.flying <==> s.subscribers[q].start <= n < Until(s, q)))
    && (forall q, n: nat :: q in s.subscribers && (n, q) in s.flying ==> n !in s.subscribers[q].received)
    && (forall q, n: nat :: (n, q) in s.flying ==> q in s.subscribers)
  }

  lemma {:induction false} RangeIsRange(lo: nat, hi: nat)
    requires lo <= hi
    ensures |Range(lo, hi)| == hi - lo && forall i :: 0 <= i < hi - lo ==> Range(lo, hi)[i] == lo + i
    ensures forall n :: n in Range(lo, hi) <==> lo <= n < hi
    decreases hi
  {
    if lo < hi { RangeIsRange(lo, hi - 1); }
  }

  lemma SnapshotKeepsAccounts(replay: nat, s: Split)
    requires Accounted(s)
    ensures Accounted(After(replay, s, Snapshot))
  {
  }

  lemma HandKeepsAccounts(replay: nat, s: Split, n: nat, q: nat)
    requires Accounted(s) && Possible(s, Hand(n, q))
    ensures Accounted(After(replay, s, Hand(n, q)))
  {
    var t := After(replay, s, Hand(n, q));
    assert forall k: nat :: k in t.subscribers[q].received <==> k in s.subscribers[q].received || k == n;
  }

  lemma JoinKeepsAccounts(replay: nat, s: Split, q: nat)
    requires Accounted(s) && Possible(s, Join(q))
    ensures Accounted(After(replay, s, Join(q)))
  {
    RangeIsRange(ReplayStart(replay, s.count), s.count);
  }

  lemma LeaveKeepsAccounts(replay: nat, s: Split, q: nat)
    requires Accounted(s) && Possible(s, Leave(q))
    ensures Accounted(After(replay, s, Leave(q)))
  {
  }

  /** Splitting publish keeps every event accounted for, exactly once per subscriber, over every interleaving. */
  lemma SplitKeepsEventsAccounted(replay: nat, s: Split, a: Action)
    requires Accounted(s) && Possible(s, a)
    ensures Accounted(After(replay, s, a))
  {
    hide Accounted, After, Possible;
    match a
    case Snapshot => SnapshotKeepsAccounts(replay, s);
    case Hand(n, q) => HandKeepsAccounts(replay, s, n, q);
    case Join(q) => JoinKeepsAccounts(replay, s, q);
    case Leave(q) => LeaveKeepsAccounts(replay, s, q);
  }

  predicate IsRun(replay: nat, s: Split, actions: seq<Action>)
    decreases |actions|
  {
    actions == [] || (Possible(s, actions[0]) && IsRun(replay, After(replay, s, actions[0]), actions[1..]))
  }

  function Run(replay: nat, s: Split, actions: seq<Action>): Split
    requires IsRun(replay, s, actions)
    decreases |actions|
  {
    if actions == [] then s else Run(replay, After(replay, s, actions[0]), actions[1..])
  }

  /** Each subscriber holds each event it is due, once, and no other. */
  ghost predicate HoldsWhatIsDue(s: Split) {
    forall q :: q in s.subscribers ==>
      && (forall n: nat :: n in s.subscribers[q].received <==> s.subscribers[q].start <= n < Until(s, q))
      && (forall i, j :: 0 <= i < j < |s.subscribers[q].received| ==>
            s.subscribers[q].received[i] != s.subscribers[q].received[j])
  }

  /** So once nothing is flying, a subscriber holds each event it is due exactly once, and no other. */
  lemma {:induction false} SplitDeliversExactlyOnce(replay: nat, s: Split, actions: seq<Action>)
    requires Accounted(s) && IsRun(replay, s, actions)
    ensures Accounted(Run(replay, s, actions))
    ensures Run(replay, s, actions).flying == {} ==> HoldsWhatIsDue(Run(replay, s, actions))
    decreases |actions|
  {
    if actions != [] {
      SplitKeepsEventsAccounted(replay, s, actions[0]);
      SplitDeliversExactlyOnce(replay, After(replay, s, actions[0]), actions[1..]);
    }
  }

  /** No event published and nobody subscribed. */
  const NOBODY := Split(0, map[], {})

  lemma SplitDeliversFromStart(replay: nat, actions: seq<Action>)
    requires IsRun(replay, NOBODY, actions)
    ensures Run(replay, NOBODY, actions).flying == {} ==> HoldsWhatIsDue(Run(replay, NOBODY, actions))
  {
    SplitDeliversExactlyOnce(replay, NOBODY, actions);
  }

  /** A newcomer gets the last events before it joined, at most as many as the replay holds, in their order. */
  lemma JoinInPlainTerms(replay: nat, s: Split, q: nat)
    requires Possible(s, Join(q))
    ensures var n := After(replay, s, Join(q));
            var replayed := if s.count <= replay then s.count else replay;
      && q in n.subscribers && n.subscribers[q].left.None? && n.subscribers[q].start == s.count - replayed
      && |n.subscribers[q].received| == replayed
      && forall i :: 0 <= i < replayed ==> n.subscribers[q].received[i] == s.count - replayed + i
  {
    RangeIsRange(ReplayStart(replay, s.count), s.count);
  }

  /** Where a subscriber starts, and where it left, is settled once. */
  lemma StepKeepsStretch(replay: nat, s: Split, a: Action, q: nat)
    requires Possible(s, a) && q in s.subscribers
    ensures var n := After(replay, s, a);
      && q in n.subscribers && n.subscribers[q].start == s.subscribers[q].start
      && (s.subscribers[q].left.Some? ==> n.subscribers[q].left == s.subscribers[q].left)
      && (a == Leave(q) ==> n.subscribers[q].left == Some(s.count))
      && (s.subscribers[q].left.None? && a != Leave(q) ==> n.subscribers[q].left.None?)
  {
  }

  lemma {:induction false} RunKeepsStretch(replay: nat, s: Split, actions: seq<Action>, q: nat)
    requires IsRun(replay, s, actions) && q in s.subscribers
    ensures var n := Run(replay, s, actions);
      && q in n.subscribers && n.subscribers[q].start == s.subscribers[q].start
      && (s.subscribers[q].left.Some? ==> n.subscribers[q].left == s.subscribers[q].left)
    decreases |actions|
  {
    if actions != [] {
      StepKeepsStretch(replay, s, actions[0], q);
      RunKeepsStretch(replay, After(replay, s, actions[0]), actions[1..], q);
    }
  }

  lemma {:induction false} RunCut(replay: nat, s: Split, actions: seq<Action>, k: nat)
    requires IsRun(replay, s, actions) && k < |actions|
    ensures IsRun(replay, s, actions[..k])
    ensures var u := Run(replay, s, actions[..k]);
      && Possible(u, actions[k]) && IsRun(replay, After(replay, u, actions[k]), actions[k + 1..])
      && Run(replay, After(replay, u, actions[k]), actions[k + 1..]) == Run(replay, s, actions)
    decreases k
  {
    hide After, Possible;
    if k == 0 {
      assert actions[..k] == [];
    } else {
      RunCut(replay, After(replay, s, actions[0]), actions[1..], k - 1);
      assert actions[..k][1..] == actions[1..][..k - 1] && actions[1..][k..] == actions[k + 1..];
    }
  }

  /** Over a whole run: what a subscriber is due begins with the replay at the moment it joined. */
  lemma SplitStartsAtTheReplay(replay: nat, s: Split, actions: seq<Action>, k: nat, q: nat)
    requires IsRun(replay, s, actions) && k < |actions| && actions[k] == Join(q)
    ensures IsRun(replay, s, actions[..k])
    ensures var u, e := Run(replay, s, actions[..k]), Run(replay, s, actions);
            q in e.subscribers && e.subscribers[q].start == if u.count <= replay then 0 else u.count - replay
  {
    hide After, Possible;
    RunCut(replay, s, actions, k);
    var u := Run(replay, s, actions[..k]);
    JoinInPlainTerms(replay, u, q);
    RunKeepsStretch(replay, After(replay, u, actions[k]), actions[k + 1..], q);
  }

  /** And it ends with the last event published before it left. */
  lemma SplitEndsAtTheLeave(replay: nat, s: Split, actions: seq<Action>, k: nat, q: nat)
    requires IsRun(replay, s, actions) && k < |actions| && actions[k] == Leave(q)
    ensures IsRun(replay, s, actions[..k])
    ensures var u, e := Run(replay, s, actions[..k]), Run(replay, s, actions);
            q in e.subscribers && e.subscribers[q].left == Some(u.count) && Until(e, q) == u.count
  {
    RunCut(replay, s, actions, k);
    var u := Run(replay, s, actions[..k]);
    StepKeepsStretch(replay, u, actions[k], q);
    hide After;
    RunKeepsStretch(replay, After(replay, u, actions[k]), actions[k + 1..], q);
  }

  function Snapshots(actions: seq<Action>): nat {
    if actions == [] then 0 else (if actions[0].Snapshot? then 1 else 0) + Snapshots(actions[1..])
  }

  /** Events are counted as they are published, and only then. */
  lemma {:induction false} CountIsOfSnapshots(replay: nat, s: Split, actions: seq<Action>)
    requires IsRun(replay, s, actions)
    ensures Run(replay, s, actions).count == s.count + Snapshots(actions)
    decreases |actions|
  {
    if actions != [] { CountIsOfSnapshots(replay, After(replay, s, actions[0]), actions[1..]); }
  }

  /** The order is not kept: two publishers may deliver the other way round, even after the subscriber has left. */
  lemma SplitLosesOrder(replay: nat)
    ensures var s0 := NOBODY;
      && Possible(s0, Join(7))
      && var s1 := After(replay, s0, Join(7));
      var s2 := After(replay, After(replay, s1, Snapshot), Snapshot);
      && Possible(s2, Leave(7)) && Possible(After(replay, s2, Leave(7)), Hand(1, 7))
      && var s3 := After(replay, After(replay, s2, Leave(7)), Hand(1, 7));
      && Possible(s3, Hand(0, 7)) && After(replay, s3, Hand(0, 7)).subscribers[7].received == [1, 0]
  {
    var s1 := After(replay, NOBODY, Join(7));
    assert s1.subscribers[7] == Subscriber(0, None, []);
    var t := After(replay, s1, Snapshot);
    assert (0, 7) in t.flying;
    var s2 := After(replay, t, Snapshot);
    assert (0, 7) in s2.flying && (1, 7) in s2.flying;
  }
}
