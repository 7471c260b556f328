/** Grants, releases, shutdown and draining: the pool's promises across steps. */
module PoolLifecycle {
  import opened PoolModel
  import opened PoolInvariant
  import opened PoolPreservation
  import opened PoolRuns
  import opened PoolTheorems

  // ----- what a grant means -------------------------------------------------------------------

  /** What one iteration of the rotation scan leaves under a key. */
  lemma EvictChangedOneMarks(p: Pool, last: Key, seen: nat, k: Key)
    requires k in EvictChangedOne(p, last, seen).entries
    ensures var q := EvictChangedOne(p, last, seen);
            && k in p.entries && Older(p.entries[k], q.entries[k])
            && (k == last && p.entries[k].generation != seen ==> q.entries[k].expired)
  {
  }

  /** The rotation scan leaves no visited entry unexpired whose identity has moved on. */
  lemma {:induction false} EvictChangedMarks(p: Pool, seen: map<Key, nat>, order: seq<Key>, k: Key)
    requires (forall j <- order :: j in seen) && k in EvictChanged(p, seen, order).entries
    ensures var q := EvictChanged(p, seen, order);
            && k in p.entries && Older(p.entries[k], q.entries[k])
            && (k in order && p.entries[k].generation != seen[k] ==> q.entries[k].expired)
  {
    if order != [] {
      var rest, last := order[..|order| - 1], order[|order| - 1];
      EvictChangedOneMarks(EvictChanged(p, seen, rest), last, seen[last], k);
      EvictChangedMarks(p, seen, rest, k);
      assert k in order ==> k in rest || k == last;
    }
  }

  lemma UseGranted(cfg: Config, q: Pool, a: Lookup)
    requires q.entries.Keys <= a.seen.Keys && Use(cfg, q, a).1.Granted?
    ensures a.key in q.entries && !q.entries[a.key].expired && a.r.now - q.entries[a.key].created < cfg.maxLifetime
    ensures Use(cfg, q, a) == (Grant(cfg, q, a.key, a.seen[a.key], a.r), Granted)
  {
  }

  /** A lookup grants by exactly one path: a pooled, unexpired, connected entry. */
  lemma GrantIs(cfg: Config, p: Pool, a: Lookup)
    requires p.entries.Keys <= a.seen.Keys && (forall k <- a.scan :: k in a.seen)
    requires Acquire(cfg, p, a).1.Granted?
    ensures var q := EvictChanged(p, a.seen, a.scan);
            && a.key in q.entries && !q.entries[a.key].expired && a.r.now - q.entries[a.key].created < cfg.maxLifetime
            && Acquire(cfg, p, a) == (Grant(cfg, q, a.key, a.seen[a.key], a.r), Granted)
  {
    UseGranted(cfg, EvictChanged(p, a.seen, a.scan), a);
  }

  /** What a granting lookup found in the pool and what it left there. */
  lemma GrantedFrom(cfg: Config, p: Pool, a: Lookup, q: Pool)
    requires p.entries.Keys <= a.seen.Keys && Visits(a.scan, p.entries.Keys)
    requires Acquire(cfg, p, a) == (q, Granted)
    ensures a.key in p.entries && a.key in q.entries
    ensures var e := p.entries[a.key];
            && q.leases == p.leases + [Lease(a.key, e.id, e.connection, a.r.now, e.created + cfg.maxLifetime,
                                             e.generation, false)]
            && !e.expired && !q.entries[a.key].expired && q.entries[a.key].id == e.id
            && a.r.now < e.created + cfg.maxLifetime && a.seen[a.key] == e.generation
  {
    EvictChangedFrame(p, a.seen, a.scan);
    GrantIs(cfg, p, a);
    EvictChangedMarks(p, a.seen, a.scan, a.key);
  }

  /** A pooled entry's connection is open, and its identity showed its key at the generation it was stored with. */
  lemma PooledEntryShows(cfg: Config, p: Pool, k: Key, trackers: seq<seq<Key>>)
    requires Inv(cfg, p) && k in p.entries && Extends(p.trackers, trackers)
    ensures p.closed[p.entries[k].connection] == 0
    ensures Showed(trackers, p.entries[k].identity, p.entries[k].generation, k)
  {
    assert EntryOk(cfg, k, p.entries[k], p.leases, p.pending, p.trackers);
  }

  /**
   A granted lease comes from the entry stored under exactly the key the caller's
   refresh returned; when the scan of the same critical section read that entry's
   identity, it showed that key; and the lease starts before it expires.
   */
  lemma GrantedLease(cfg: Config, p: Pool, a: Lookup, trackers: seq<seq<Key>>, q: Pool)
    requires Inv(cfg, p) && LookupEnabled(p, a, trackers) && LookUp(cfg, p, a, trackers) == (q, Granted)
    ensures |q.leases| == |p.leases| + 1 && a.key in p.entries && a.key in q.entries
    ensures var lease, e := q.leases[|p.leases|], p.entries[a.key];
            && lease.key == a.key && lease.entry == e.id == q.entries[a.key].id
            && !e.expired && !q.entries[a.key].expired && !lease.released
            && Showed(trackers, e.identity, lease.scanned, a.key)
            && ReadWithin(p.trackers, trackers, e.identity, lease.scanned)
            && p.clock <= lease.grantedAt < lease.expiresAt == e.created + cfg.maxLifetime
            && lease.connection == e.connection && p.closed[e.connection] == 0
  {
    GrantedFrom(cfg, p.(trackers := trackers, clock := a.r.armed), a, q);
    PooledEntryShows(cfg, p, a.key, trackers);
  }

  // ----- releasing ----------------------------------------------------------------------------

  /** The last release of an expired entry takes it out of the pool and closes its connection. */
  lemma LastReleaseRemoves(cfg: Config, p: Pool, l: nat, r: Readings)
    requires Inv(cfg, p) && !p.stopping && l < |p.leases| && !p.leases[l].released
    requires Outstanding(p.leases, p.leases[l].entry) == {l} && p.entries[p.leases[l].key].expired
    ensures var q, k := Release(cfg, p, l, r), p.leases[l].key;
            k !in q.entries && q.closed[p.leases[l].connection] == 1
  {
    var k := p.leases[l].key;
    assert EntryOk(cfg, k, p.entries[k], p.leases, p.pending, p.trackers);
    assert |{l}| == 1;
  }

  // ----- shutdown -----------------------------------------------------------------------------

  lemma {:induction false} RemoveAllFromEmpty(p: Pool, order: seq<Key>)
    requires p.entries == map[]
    ensures RemoveAll(p, order) == p
  {
    if order != [] { RemoveAllFromEmpty(p, order[..|order| - 1]); }
  }

  lemma ClosedStep(cfg: Config, p: Pool, s: Step)
    requires Inv(cfg, p) && p.stopping && Enabled(p, s)
    ensures var q := Apply(cfg, p, s);
            && q.stopping && q.entries == map[] && q.made == p.made
            && |q.leases| == |p.leases| && |q.attempts| == |p.attempts| && q.inflight.Keys <= p.inflight.Keys
    ensures s.AcquireStep? ==> LookUp(cfg, p, s.a, s.trackers).1 == ConnectionClosed
  {
    match s
    case CloseStep(order) => RemoveAllFromEmpty(p, order);
    case _ =>
  }

  /** After `close` the pool stays empty: no lease is granted, no entry made and no connection attempt started. */
  lemma {:induction false} ClosedForGood(cfg: Config, p: Pool, ss: seq<Step>, q: Pool)
    requires Inv(cfg, p) && p.stopping && Reaches(cfg, p, ss, q)
    ensures q.stopping && q.entries == map[] && q.made == p.made
    ensures |q.leases| == |p.leases| && |q.attempts| == |p.attempts| && q.inflight.Keys <= p.inflight.Keys
    decreases |ss|
  {
    if ss != [] {
      StepKeepsInv(cfg, p, ss[0]);
      ClosedStep(cfg, p, ss[0]);
      ClosedForGood(cfg, Apply(cfg, p, ss[0]), ss[1..], q);
    }
  }

  /** Once a closed pool has no attempt in flight, every connection it ever opened was closed exactly once. */
  lemma EveryConnectionClosedOnce(cfg: Config, p: Pool)
    requires Inv(cfg, p) && p.stopping && p.inflight == map[]
    ensures forall c: nat :: p.closed[c] == if c < |p.owners| then 1 else 0
    ensures forall a: nat :: a < |p.attempts| ==> p.attempts[a].doneCloses == 1
  {
    forall c: nat | c < |p.owners| ensures p.closed[c] == 1 {
      assert !Live(p.entries, p.attempts, c, p.owners[c]);
    }
  }

  // ----- draining -----------------------------------------------------------------------------

  /** Any callback of an unreferenced entry that runs at or after its deadline removes it. */
  lemma ExpireRemovesDue(cfg: Config, p: Pool, k: Key, r: Readings)
    requires k in p.entries && p.entries[k].references == 0 && Deadline(cfg, p.entries[k]) <= r.now
    ensures Expire(cfg, p, k, p.entries[k].id, r).entries == p.entries - {k}
  {
  }

  /** Every pooled entry is unreferenced. */
  ghost predicate Idle(p: Pool) {
    forall k <- p.entries :: p.entries[k].references == 0
  }

  /** Only time passes and timers run. */
  ghost predicate TimersOnly(ss: seq<Step>) {
    forall s <- ss :: s.EnvironmentStep? || s.FireStep? || s.ExpireStep?
  }

  function At(t: int): Readings {
    Readings(t, t, t, t, t)
  }

  /** When its deadline has passed, a launched callback drains an unreferenced entry. */
  lemma DrainBy(cfg: Config, p: Pool, k: Key) returns (q: Pool)
    requires Inv(cfg, p) && Idle(p) && k in p.entries
    requires (k, p.entries[k].id) in p.pending && Deadline(cfg, p.entries[k]) <= p.clock
    ensures Inv(cfg, q) && Idle(q) && q.entries == p.entries - {k}
    ensures Reaches(cfg, p, [ExpireStep(k, p.entries[k].id, At(p.clock))], q)
  {
    var r := At(p.clock);
    var s := ExpireStep(k, p.entries[k].id, r);
    q := Expire(cfg, p.(clock := r.armed), k, p.entries[k].id, r);
    ExpireRemovesDue(cfg, p.(clock := r.armed), k, r);
    StepKeepsInv(cfg, p, s);
    OneStep(cfg, p, s);
  }

  /** A due timer launches its entry's callback. */
  lemma FireOne(cfg: Config, p: Pool, k: Key) returns (q: Pool)
    requires Inv(cfg, p) && Idle(p) && k in p.entries
    requires p.entries[k].timer.Armed? && p.entries[k].timer.due <= p.clock
    ensures q == Fire(p, k) && Inv(cfg, q) && Idle(q) && Reaches(cfg, p, [FireStep(k)], q)
  {
    q := Fire(p, k);
    StepKeepsInv(cfg, p, FireStep(k));
    OneStep(cfg, p, FireStep(k));
  }

  lemma WaitUntil(cfg: Config, p: Pool, t: int) returns (q: Pool)
    requires Inv(cfg, p) && Idle(p) && p.clock <= t
    ensures q == p.(clock := t) && Inv(cfg, q) && Idle(q)
    ensures Reaches(cfg, p, [EnvironmentStep(t, p.trackers)], q)
  {
    var s := EnvironmentStep(t, p.trackers);
    q := p.(clock := t);
    StepKeepsInv(cfg, p, s);
    OneStep(cfg, p, s);
  }

  lemma FiredEntry(p: Pool, k: Key)
    requires k in p.entries
    ensures var fired := Fire(p, k);
            && fired.entries - {k} == p.entries - {k} && fired.clock == p.clock
            && fired.entries[k] == p.entries[k].(timer := Spent) && (k, p.entries[k].id) in fired.pending
  {
  }

  /** A due timer and its callback drain an unreferenced entry. */
  lemma DrainArmed(cfg: Config, p: Pool, k: Key) returns (q: Pool)
    requires Inv(cfg, p) && Idle(p) && k in p.entries && Deadline(cfg, p.entries[k]) <= p.clock
    requires p.entries[k].timer.Armed? && p.entries[k].timer.due <= p.clock
    ensures Reaches(cfg, p, [FireStep(k)] + [ExpireStep(k, p.entries[k].id, At(p.clock))], q)
    ensures Inv(cfg, q) && Idle(q) && q.entries == p.entries - {k}
  {
    var fired := FireOne(cfg, p, k);
    FiredEntry(p, k);
    q := DrainBy(cfg, fired, k);
    RunsJoin(cfg, p, [FireStep(k)], fired, [ExpireStep(k, p.entries[k].id, At(p.clock))], q);
  }

  lemma ArmedUnlessPending(cfg: Config, p: Pool, k: Key)
    requires Inv(cfg, p) && Idle(p) && k in p.entries && (k, p.entries[k].id) !in p.pending
    ensures p.entries[k].timer.Armed?
  {
    assert EntryOk(cfg, k, p.entries[k], p.leases, p.pending, p.trackers);
  }

  /** Once due, an unreferenced entry is drained by its callback, after its timer launched it if need be. */
  lemma DrainDue(cfg: Config, p: Pool, k: Key) returns (ss: seq<Step>, q: Pool)
    requires Inv(cfg, p) && Idle(p) && k in p.entries && Deadline(cfg, p.entries[k]) <= p.clock
    requires p.entries[k].timer.Armed? ==> p.entries[k].timer.due <= p.clock
    ensures Reaches(cfg, p, ss, q) && TimersOnly(ss)
    ensures Inv(cfg, q) && Idle(q) && q.entries == p.entries - {k}
  {
    var last := ExpireStep(k, p.entries[k].id, At(p.clock));
    if (k, p.entries[k].id) in p.pending {
      q := DrainBy(cfg, p, k);
      ss := [last];
    } else {
      ArmedUnlessPending(cfg, p, k);
      q := DrainArmed(cfg, p, k);
      ss := [FireStep(k)] + [last];
    }
  }

  /** One entry can be drained by letting time pass, firing its timer and running its callback. */
  lemma DrainOne(cfg: Config, p: Pool, k: Key) returns (ss: seq<Step>, q: Pool)
    requires Inv(cfg, p) && Idle(p) && k in p.entries
    ensures Reaches(cfg, p, ss, q) && TimersOnly(ss)
    ensures Inv(cfg, q) && Idle(q) && q.entries == p.entries - {k}
  {
    var e := p.entries[k];
    var d := if e.timer.Armed? && Deadline(cfg, e) < e.timer.due then e.timer.due else Deadline(cfg, e);
    var t := if d <= p.clock then p.clock else d;
    var later := WaitUntil(cfg, p, t);
    ss, q := DrainDue(cfg, later, k);
    RunsJoin(cfg, p, [EnvironmentStep(t, p.trackers)], later, ss, q);
    ss := [EnvironmentStep(t, p.trackers)] + ss;
  }

  /** Once all leases are released, letting the timers run empties the pool. */
  lemma {:induction false} PoolDrains(cfg: Config, p: Pool) returns (ss: seq<Step>, q: Pool)
    requires Inv(cfg, p) && Idle(p)
    ensures Reaches(cfg, p, ss, q) && TimersOnly(ss) && q.entries == map[]
    decreases |p.entries|
  {
    if p.entries == map[] {
      ss, q := [], p;
    } else {
      var k :| k in p.entries;
      var ss0, mid := DrainOne(cfg, p, k);
      assert |mid.entries.Keys| == |p.entries.Keys| - 1;
      var ss1;
      ss1, q := PoolDrains(cfg, mid);
      RunsJoin(cfg, p, ss0, mid, ss1, q);
      ss := ss0 + ss1;
    }
  }
}
