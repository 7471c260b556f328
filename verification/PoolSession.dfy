/** Callers of the pool: its methods one after another, with the guarantees of the runs they make. */
module PoolSession {
  import opened PoolModel
  import opened PoolInvariant
  import opened PoolPreservation
  import opened PoolRuns
  import opened PoolGuarantees
  import S = SecurityContextPool

  /** Giving one lease back leaves another handed out. */
  method GiveOne(pool: S.Pool, lease: S.SecurityContextLease, other: S.SecurityContextLease, ghost i: nat, ghost j: nat,
                 r: Readings)
    requires pool.Ready() && pool.Handed(lease, i) && pool.Handed(other, j) && lease != other && i != j
    requires Ordered(pool.view.clock, r)
    modifies pool, lease, lease.entry
    ensures pool.Ready() && pool.Handed(lease, i) && pool.Handed(other, j) && lease.released
            && pool.view.clock == r.armed
  {
    pool.Release(lease, i, r);
    ReleasedBy(pool.config, old(pool.view), i, r);
  }

  lemma ReleasedBy(cfg: Config, p: Pool, l: nat, r: Readings)
    requires l < |p.leases| && Ordered(p.clock, r)
    ensures Apply(cfg, p, ReleaseStep(l, r)).clock == r.armed
  {
  }

  /** Two holders give their leases back, in turn; neither release disturbs the other lease. */
  method GiveBack(pool: S.Pool, first: S.SecurityContextLease, second: S.SecurityContextLease, ghost i: nat,
                  ghost j: nat, r: Readings, again: Readings)
    requires pool.Ready() && pool.Handed(first, i) && pool.Handed(second, j) && first != second && i != j
    requires Ordered(pool.view.clock, r) && Ordered(r.armed, again)
    modifies pool, first, second, first.entry, second.entry
    ensures pool.Ready() && pool.Handed(first, i) && pool.Handed(second, j) && first.released && second.released
  {
    GiveOne(pool, first, second, i, j, r);
    GiveOne(pool, second, first, j, i, again);
  }

  /** `ObservedIdentity` at a moment when the trackers are these: each credential's key and generation. */
  ghost predicate Observed(snapshot: Identity -> (Key, nat), trackers: seq<seq<Key>>) {
    forall identity | ValidIdentity(trackers, identity) ::
      && snapshot(identity).1 == CurrentGeneration(trackers, identity)
      && Showed(trackers, identity, snapshot(identity).1, snapshot(identity).0)
  }

  /** What one connection attempt leaves in the pool; `shown` is what its credential shows at the end. */
  ghost predicate Connected(before: Pool, after: Pool, identity: Identity, shown: (Key, nat), ok: bool) {
    var (key, generation) := shown;
    if ok && !before.stopping && key !in before.entries then
      && after.entries.Keys == before.entries.Keys + {key} && after.closed == before.closed
      && after.entries[key].identity == identity && after.entries[key].generation == generation
      && after.entries[key].connection == |before.owners|
      && forall k <- before.entries :: after.entries[k] == before.entries[k]
    else
      && after.entries == before.entries
      && after.closed == if ok then before.closed + multiset{|before.owners|} else before.closed
  }

  /** An attempt dials, and meanwhile credentials are observed. */
  method DialObserved(pool: S.Pool, a: nat, ok: bool, ghost trackers: seq<seq<Key>>)
    requires pool.Ready() && a < |pool.attempts| && pool.attempts[a].phase == Dialing
    requires Extends(pool.view.trackers, trackers)
    modifies pool
    ensures pool.Ready() && pool.entries == old(pool.entries)
    ensures pool.view == Dial(old(pool.view), a, ok).(trackers := trackers)
  {
    pool.Dial(a, ok);
    pool.Pass(trackers, pool.view.clock);
  }

  /**
   An attempt dials; while it does, credentials are observed; then its result is
   committed.  A connection that opened is stored under the key and generation that
   its credential shows by then, which need not be the key it was dialled for; if
   that key is taken or the pool is stopping, exactly this connection is closed.
   */
  method Connect(pool: S.Pool, a: nat, snapshot: Identity -> (Key, nat), ok: bool, r: Readings,
                 ghost trackers: seq<seq<Key>>)
    requires pool.Ready() && Ordered(pool.view.clock, r)
    requires a < |pool.attempts| && pool.attempts[a].phase == Dialing
    requires Extends(pool.view.trackers, trackers) && Observed(snapshot, trackers)
    modifies pool
    ensures pool.Ready() && fresh(pool.entries.Values - old(pool.entries.Values))
    ensures pool.view.leases == old(pool.view).leases
    ensures var identity := old(pool.attempts[a].identity);
            Connected(old(pool.view), pool.view, identity, snapshot(identity), ok)
  {
    ghost var before := pool.view;
    var identity := pool.attempts[a].identity;
    var (key, generation) := snapshot(identity);
    DialObserved(pool, a, ok, trackers);
    CommitEnabled(pool.config, pool.view, a, snapshot, r);
    pool.Commit(a, key, generation, r, trackers);
    ConnectedBy(pool.config, before, a, key, generation, ok, r, trackers);
  }

  lemma CommitEnabled(cfg: Config, p: Pool, a: nat, snapshot: Identity -> (Key, nat), r: Readings)
    requires Reachable(cfg, p) && Ordered(p.clock, r) && a < |p.attempts| && Observed(snapshot, p.trackers)
    requires p.attempts[a].phase.Dialed? || p.attempts[a].phase.DialFailed?
    ensures var (key, generation) := snapshot(p.attempts[a].identity);
            Enabled(p, CommitStep(a, key, generation, p.trackers, r))
  {
    ReachableIsInv(cfg, p);
    assert ValidIdentity(p.trackers, p.attempts[a].identity);
  }

  /** The steps of one attempt, on the model. */
  lemma ConnectedBy(cfg: Config, p: Pool, a: nat, key: Key, generation: nat, ok: bool, r: Readings,
                    trackers: seq<seq<Key>>)
    requires a < |p.attempts| && p.attempts[a].phase == Dialing
    ensures var q := Dial(p, a, ok).(trackers := trackers, clock := r.armed);
            Connected(p, Commit(cfg, q, a, key, generation, r), p.attempts[a].identity, (key, generation), ok)
  {
  }

  lemma FewerNew<T>(now: set<T>, middle: set<T>, before: set<T>)
    requires middle <= before
    ensures now - before <= now - middle
  {
  }

  /** A request uses and returns a pooled connection, or connects for the attempt it waits for. */
  method Request(pool: S.Pool, key: Key, identity: Identity, seen: map<Key, nat>, connected: bool,
                 snapshot: Identity -> (Key, nat), ok: bool, r: Readings, later: Readings,
                 ghost trackers: seq<seq<Key>>, ghost latest: seq<seq<Key>>)
    requires pool.Ready() && Brings(pool.view, key, identity, seen, r, trackers) && Ordered(r.armed, later)
    requires Extends(trackers, latest) && Observed(snapshot, latest)
    modifies pool, pool.entries.Values
    ensures pool.Ready() && fresh(pool.entries.Values - old(pool.entries.Values))
  {
    ghost var n := |pool.view.leases|;
    var outcome, lease, a := pool.Acquire(key, identity, seen, connected, r, trackers);
    ghost var middle := pool.entries.Values;
    if lease != null {
      pool.Release(lease, n, later);
    } else if outcome.Wait? {
      Await(pool, outcome.attempt, snapshot, ok, later, latest);
    }
    FewerNew(pool.entries.Values, middle, old(pool.entries.Values));
  }

  /** The attempt that a request waits for, if it is still dialling. */
  method Await(pool: S.Pool, a: nat, snapshot: Identity -> (Key, nat), ok: bool, r: Readings,
               ghost trackers: seq<seq<Key>>)
    requires pool.Ready() && Ordered(pool.view.clock, r)
    requires Extends(pool.view.trackers, trackers) && Observed(snapshot, trackers)
    modifies pool
    ensures pool.Ready() && fresh(pool.entries.Values - old(pool.entries.Values))
  {
    if a < |pool.attempts| && pool.attempts[a].phase == Dialing {
      Connect(pool, a, snapshot, ok, r, trackers);
    }
  }

  /**
   After any request the pool can be closed; then it is empty, and nothing it ever opened is left
   open or closed twice.
   */
  method RequestThenClose(pool: S.Pool, key: Key, identity: Identity, seen: map<Key, nat>, connected: bool,
                          snapshot: Identity -> (Key, nat), ok: bool, r: Readings, later: Readings,
                          ghost trackers: seq<seq<Key>>, ghost latest: seq<seq<Key>>)
    requires pool.Ready() && Brings(pool.view, key, identity, seen, r, trackers) && Ordered(r.armed, later)
    requires Extends(trackers, latest) && Observed(snapshot, latest)
    modifies pool, pool.entries.Values
    ensures pool.Ready() && pool.stopping && pool.entries == map[]
    ensures pool.inflight == map[] ==> forall c: nat :: pool.closed[c] == if c < pool.dialled then 1 else 0
  {
    Request(pool, key, identity, seen, connected, snapshot, ok, r, later, trackers, latest);
    ghost var order := pool.Close();
    Settled(pool);
  }

  /** A tracked credential that is refreshed while the attempt dials: the connection is stored under the new key. */
  method ConnectRefreshed(pool: S.Pool, a: nat, tracker: nat, key: Key, snapshot: Identity -> (Key, nat), r: Readings)
    requires pool.Ready() && Ordered(pool.view.clock, r) && !pool.stopping && key !in pool.entries
    requires a < |pool.attempts| && pool.attempts[a].phase == Dialing && pool.attempts[a].identity == Tracked(tracker)
    requires tracker < |pool.view.trackers|
    requires var shown := pool.view.trackers[tracker]; Observed(snapshot, pool.view.trackers[tracker := shown + [key]])
    modifies pool
    ensures pool.Ready() && pool.entries.Keys == old(pool.entries.Keys) + {key}
    ensures pool.entries[key].generation == |old(pool.view.trackers[tracker])|
  {
    ghost var trackers := pool.view.trackers[tracker := pool.view.trackers[tracker] + [key]];
    Connect(pool, a, snapshot, true, r, trackers);
  }

  /** What a closed pool's guarantees say of the object. */
  lemma Settled(pool: S.Pool)
    requires pool.Ready() && pool.stopping
    ensures pool.inflight == map[] ==> forall c: nat :: pool.closed[c] == if c < pool.dialled then 1 else 0
  {
    ClosedPoolSettles(pool.config, pool.view, [], pool.view);
  }
}
