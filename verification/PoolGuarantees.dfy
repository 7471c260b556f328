/** What the pool guarantees in every state that some run of a new pool reaches. */
module PoolGuarantees {
  import opened PoolModel
  import opened PoolInvariant
  import opened PoolPreservation
  import opened PoolRuns
  import opened PoolTheorems
  import opened PoolTimers
  import opened PoolLifecycle

  /** Some run of a new pool, with any interleaving of its steps, ends in `p`. */
  ghost predicate Reachable(cfg: Config, p: Pool) {
    exists trackers, clock, ss :: Reaches(cfg, NewPool(trackers, clock), ss, p)
  }

  lemma ReachableIsInv(cfg: Config, p: Pool)
    requires Reachable(cfg, p)
    ensures Inv(cfg, p)
  {
    var trackers, clock, ss :| Reaches(cfg, NewPool(trackers, clock), ss, p);
    ReachableInv(cfg, trackers, clock, ss, p);
  }

  lemma ReachableOn(cfg: Config, p: Pool, ss: seq<Step>, q: Pool)
    requires Reachable(cfg, p) && Reaches(cfg, p, ss, q)
    ensures Reachable(cfg, q)
  {
    var trackers, clock, ss0 :| Reaches(cfg, NewPool(trackers, clock), ss0, p);
    RunsJoin(cfg, NewPool(trackers, clock), ss0, p, ss, q);
  }

  lemma ReachableNew(cfg: Config, trackers: seq<seq<Key>>, clock: int)
    ensures Reachable(cfg, NewPool(trackers, clock))
  {
    assert Reaches(cfg, NewPool(trackers, clock), [], NewPool(trackers, clock));
  }

  lemma ReachableStep(cfg: Config, p: Pool, s: Step)
    requires Reachable(cfg, p) && Enabled(p, s)
    ensures Reachable(cfg, Apply(cfg, p, s))
  {
    var q := Apply(cfg, p, s);
    RunsCons(cfg, p, s, [], q);
    ReachableOn(cfg, p, [s] + [], q);
  }

  // ----- connections --------------------------------------------------------------------------

  /** Entries and attempts, and the open connections themselves, never exceed the limit. */
  lemma ConnectionLimit(cfg: Config, p: Pool)
    requires Reachable(cfg, p)
    ensures |OpenConns(p)| <= |p.entries| + |p.inflight| <= cfg.maxConnections
  {
    ReachableIsInv(cfg, p);
    ConnectionsBounded(cfg, p);
  }

  /** A connection has been closed once if nothing holds it any more, and not at all otherwise. */
  lemma ClosedWhenLetGo(cfg: Config, p: Pool, c: ConnId)
    requires Reachable(cfg, p)
    ensures p.closed[c] == if c < |p.owners| && !Live(p.entries, p.attempts, c, p.owners[c]) then 1 else 0
  {
    ReachableIsInv(cfg, p);
    NoDoubleClose(cfg, p, c);
  }

  /** Each key has at most one attempt under way, and no attempt is signalled twice. */
  lemma OneAttemptPerKey(cfg: Config, p: Pool, a: nat, b: nat)
    requires Reachable(cfg, p) && a < |p.attempts| && b < |p.attempts| && a != b
    ensures p.attempts[a].key == p.attempts[b].key ==> p.attempts[a].phase.Finished? || p.attempts[b].phase.Finished?
    ensures p.attempts[a].doneCloses == if p.attempts[a].phase.Finished? then 1 else 0
  {
    ReachableIsInv(cfg, p);
  }

  // ----- leases -------------------------------------------------------------------------------

  /** An entry's references are the leases of it that are not released. */
  lemma ReferencesAreLeases(cfg: Config, p: Pool, k: Key)
    requires Reachable(cfg, p) && k in p.entries
    ensures p.entries[k].references == |Outstanding(p.leases, p.entries[k].id)|
  {
    ReachableIsInv(cfg, p);
    assert EntryOk(cfg, k, p.entries[k], p.leases, p.pending, p.trackers);
  }

  /**
   Every lease started before it expires; unreleased, in an open pool, its entry is pooled and its
   connection open.
   */
  lemma LeasesHold(cfg: Config, p: Pool, l: nat)
    requires Reachable(cfg, p) && l < |p.leases|
    ensures p.leases[l].grantedAt < p.leases[l].expiresAt
    ensures !p.leases[l].released && !p.stopping ==>
              Pooled(p.entries, p.leases[l].key, p.leases[l].entry) && p.closed[p.leases[l].connection] == 0
  {
    ReachableIsInv(cfg, p);
    if !p.leases[l].released && !p.stopping { LeasedConnectionsStayOpen(cfg, p, l); }
  }

  /** In any state of any run, a granted lease is the one `PoolLifecycle.GrantedLease` describes. */
  lemma GrantsAreCurrent(cfg: Config, p: Pool, a: Lookup, trackers: seq<seq<Key>>, q: Pool)
    requires Reachable(cfg, p) && LookupEnabled(p, a, trackers) && LookUp(cfg, p, a, trackers) == (q, Granted)
    ensures a.key in p.entries && |q.leases| == |p.leases| + 1
    ensures var lease, e := q.leases[|p.leases|], p.entries[a.key];
            && lease.key == a.key && lease.entry == e.id && !e.expired
            && Showed(trackers, e.identity, lease.scanned, a.key)
            && ReadWithin(p.trackers, trackers, e.identity, lease.scanned)
            && lease.grantedAt < lease.expiresAt == e.created + cfg.maxLifetime && p.closed[lease.connection] == 0
  {
    ReachableIsInv(cfg, p);
    GrantedLease(cfg, p, a, trackers, q);
  }

  // ----- expiry -------------------------------------------------------------------------------

  /** Entry `id` was made and is expired or gone. */
  ghost predicate Spent(p: Pool, id: EntryId) {
    id < p.made && forall k <- p.entries :: p.entries[k].id == id ==> p.entries[k].expired
  }

  lemma ExpiredIsSpent(cfg: Config, p: Pool, k: Key)
    requires Inv(cfg, p) && k in p.entries && p.entries[k].expired
    ensures Spent(p, p.entries[k].id)
  {
  }

  lemma SpentStays(p: Pool, q: Pool, id: EntryId)
    requires Ages(p, q) && Spent(p, id)
    ensures Spent(q, id)
  {
  }

  /** The leases of `p` are the first ones of `q`, and none of the later ones is of entry `id`. */
  ghost predicate NoneGranted(before: seq<Lease>, after: seq<Lease>, id: EntryId) {
    && |before| <= |after|
    && forall l :: |before| <= l < |after| ==> after[l].entry != id
  }

  /** The same lease, later: at most it was released. */
  ghost predicate Continues(lease: Lease, later: Lease) {
    later == lease.(released := later.released) && (lease.released ==> later.released)
  }

  /** A step that is no lookup hands out no lease. */
  lemma OtherStepsGrantNothing(cfg: Config, p: Pool, s: Step)
    requires Enabled(p, s) && !s.AcquireStep?
    ensures |Apply(cfg, p, s).leases| == |p.leases|
    ensures forall l :: 0 <= l < |p.leases| ==> Continues(p.leases[l], Apply(cfg, p, s).leases[l])
  {
    match s
    case CloseStep(order) => RemoveAllLeases(p.(stopping := true), order);
    case _ =>
  }

  lemma {:induction false} RemoveAllLeases(p: Pool, order: seq<Key>)
    ensures RemoveAll(p, order).leases == p.leases && RemoveAll(p, order).stopping == p.stopping
  {
    if order != [] { RemoveAllLeases(p, order[..|order| - 1]); }
  }

  /** A lookup that does not grant hands out no lease either. */
  lemma OtherOutcomesGrantNothing(cfg: Config, p: Pool, a: Lookup)
    requires p.entries.Keys <= a.seen.Keys && (forall k <- a.scan :: k in a.seen) && !Acquire(cfg, p, a).1.Granted?
    ensures Acquire(cfg, p, a).0.leases == p.leases
  {
    if !p.stopping {
      var q := EvictChanged(p, a.seen, a.scan);
      EvictChangedLeases(p, a.seen, a.scan);
      if a.key !in q.entries {
        EvictIdleLeases(cfg, q, a.r.now, a.sweep);
      } else {
        EvictIdleLeases(cfg, Retire(q, a.key), a.r.now, a.sweep);
      }
    }
  }

  lemma {:induction false} EvictChangedLeases(p: Pool, seen: map<Key, nat>, order: seq<Key>)
    requires forall k <- order :: k in seen
    ensures EvictChanged(p, seen, order).leases == p.leases
  {
    if order != [] { EvictChangedLeases(p, seen, order[..|order| - 1]); }
  }

  lemma {:induction false} EvictIdleLeases(cfg: Config, p: Pool, now: int, order: seq<Key>)
    ensures EvictIdle(cfg, p, now, order).leases == p.leases
  {
    if order != [] { EvictIdleLeases(cfg, p, now, order[..|order| - 1]); }
  }

  lemma GrantNotSpent(cfg: Config, p: Pool, a: Lookup, trackers: seq<seq<Key>>, q: Pool, id: EntryId)
    requires LookupEnabled(p, a, trackers) && LookUp(cfg, p, a, trackers) == (q, Granted) && Spent(p, id)
    ensures NoneGranted(p.leases, q.leases, id)
  {
    GrantedFrom(cfg, p.(trackers := trackers, clock := a.r.armed), a, q);
  }

  lemma LookupGrantsNoSpent(cfg: Config, p: Pool, a: Lookup, trackers: seq<seq<Key>>, id: EntryId)
    requires LookupEnabled(p, a, trackers) && Spent(p, id)
    ensures NoneGranted(p.leases, LookUp(cfg, p, a, trackers).0.leases, id)
  {
    var (q, outcome) := LookUp(cfg, p, a, trackers);
    if outcome.Granted? {
      GrantNotSpent(cfg, p, a, trackers, q, id);
    } else {
      OtherOutcomesGrantNothing(cfg, p.(trackers := trackers, clock := a.r.armed), a);
    }
  }

  lemma StepGrantsNoSpent(cfg: Config, p: Pool, s: Step, id: EntryId)
    requires Enabled(p, s) && Spent(p, id)
    ensures NoneGranted(p.leases, Apply(cfg, p, s).leases, id)
  {
    if s.AcquireStep? {
      LookupGrantsNoSpent(cfg, p, s.a, s.trackers, id);
    } else {
      OtherStepsGrantNothing(cfg, p, s);
    }
  }

  lemma {:induction false} LeasesGrow(cfg: Config, p: Pool, ss: seq<Step>, q: Pool)
    requires Reaches(cfg, p, ss, q)
    ensures |p.leases| <= |q.leases|
    ensures forall l :: 0 <= l < |p.leases| ==> Continues(p.leases[l], q.leases[l])
    decreases |ss|
  {
    if ss != [] {
      StepLeasesGrow(cfg, p, ss[0]);
      LeasesGrow(cfg, Apply(cfg, p, ss[0]), ss[1..], q);
    }
  }

  lemma StepLeasesGrow(cfg: Config, p: Pool, s: Step)
    requires Enabled(p, s)
    ensures |p.leases| <= |Apply(cfg, p, s).leases|
    ensures forall l :: 0 <= l < |p.leases| ==> Continues(p.leases[l], Apply(cfg, p, s).leases[l])
  {
    if s.AcquireStep? {
      var m := p.(trackers := s.trackers, clock := s.a.r.armed);
      var (q, outcome) := LookUp(cfg, p, s.a, s.trackers);
      if outcome.Granted? {
        GrantedFrom(cfg, m, s.a, q);
      } else {
        OtherOutcomesGrantNothing(cfg, m, s.a);
      }
    } else {
      OtherStepsGrantNothing(cfg, p, s);
    }
  }

  lemma {:induction false} NoneGrantedInRun(cfg: Config, p: Pool, ss: seq<Step>, q: Pool, id: EntryId)
    requires Inv(cfg, p) && Spent(p, id) && Reaches(cfg, p, ss, q)
    ensures NoneGranted(p.leases, q.leases, id)
    decreases |ss|
  {
    if ss != [] {
      var m := Apply(cfg, p, ss[0]);
      StepGrantsNoSpent(cfg, p, ss[0], id);
      StepKeepsInv(cfg, p, ss[0]);
      StepAges(cfg, p, ss[0]);
      SpentStays(p, m, id);
      NoneGrantedInRun(cfg, m, ss[1..], q, id);
      LeasesGrow(cfg, m, ss[1..], q);
    }
  }

  /** From the moment an entry is expired no run leases it again, even after it has left the pool. */
  lemma NoLeaseAfterExpiry(cfg: Config, p: Pool, k: Key, ss: seq<Step>, q: Pool)
    requires Reachable(cfg, p) && k in p.entries && p.entries[k].expired && Reaches(cfg, p, ss, q)
    ensures NoneGranted(p.leases, q.leases, p.entries[k].id)
  {
    ReachableIsInv(cfg, p);
    ExpiredIsSpent(cfg, p, k);
    NoneGrantedInRun(cfg, p, ss, q, p.entries[k].id);
  }

  lemma ReachableIsArmed(cfg: Config, p: Pool)
    requires Reachable(cfg, p)
    ensures ArmedBy(p.entries, p.clock)
  {
    var trackers, clock, ss :| Reaches(cfg, NewPool(trackers, clock), ss, p);
    RunArmed(cfg, NewPool(trackers, clock), ss, p);
  }

  /** The entry's timer is armed, and due when the entry is, up to the time spent arming it, which has passed. */
  ghost predicate Watched(cfg: Config, e: Entry, clock: int) {
    && e.timer.Armed? && e.timer.read <= e.timer.armed <= clock
    && Deadline(cfg, e) <= e.timer.due <= Max(clock, Deadline(cfg, e) + (e.timer.armed - e.timer.read))
  }

  function Max(a: int, b: int): int {
    if a < b then b else a
  }

  /** No entry is stranded: it waits for its last release, for a launched callback, or for a timer due in time. */
  lemma NoneStranded(cfg: Config, p: Pool, k: Key)
    requires Reachable(cfg, p) && k in p.entries
    ensures var e := p.entries[k]; (e.expired && e.references > 0) || (k, e.id) in p.pending || Watched(cfg, e, p.clock)
  {
    ReachableIsInv(cfg, p);
    ReachableIsArmed(cfg, p);
    assert EntryOk(cfg, k, p.entries[k], p.leases, p.pending, p.trackers);
  }

  /** Every lease handed out so far was released. */
  ghost predicate AllReleased(p: Pool) {
    forall l :: 0 <= l < |p.leases| ==> p.leases[l].released
  }

  /**
   Nothing is left to run: no pooled entry has a launched callback, no armed timer
   is due, and the time by which each armed timer has to be due has passed.
   */
  ghost predicate Quiet(cfg: Config, p: Pool) {
    forall k <- p.entries ::
      && (k, p.entries[k].id) !in p.pending
      && (p.entries[k].timer.Armed? ==>
            && p.clock < p.entries[k].timer.due
            && Deadline(cfg, p.entries[k]) + (p.entries[k].timer.armed - p.entries[k].timer.read) <= p.clock)
  }

  /**
   Whatever run led here, with whatever late and stale callbacks: once every lease
   is released and every timer and callback that was due has run, the pool is empty.
   */
  lemma QuietPoolIsEmpty(cfg: Config, p: Pool)
    requires Reachable(cfg, p) && AllReleased(p) && Quiet(cfg, p)
    ensures p.entries == map[]
  {
    if k :| k in p.entries {
      ReferencesAreLeases(cfg, p, k);
      assert Outstanding(p.leases, p.entries[k].id) == {};
      NoneStranded(cfg, p, k);
    }
  }

  /** Every callback of an unreferenced entry that runs at or after its deadline removes it, in any reachable state. */
  lemma DueCallbackRemoves(cfg: Config, p: Pool, k: Key, r: Readings)
    requires Reachable(cfg, p) && AllReleased(p) && k in p.entries && Deadline(cfg, p.entries[k]) <= r.now
    ensures Expire(cfg, p, k, p.entries[k].id, r).entries == p.entries - {k}
  {
    ReferencesAreLeases(cfg, p, k);
    assert Outstanding(p.leases, p.entries[k].id) == {};
    ExpireRemovesDue(cfg, p, k, r);
  }

  /**
   Such a quiet state can always be reached: once every lease is released, some run of timers alone
   empties the pool.
   */
  lemma ReleasedPoolDrains(cfg: Config, p: Pool) returns (ss: seq<Step>, q: Pool)
    requires Reachable(cfg, p) && AllReleased(p)
    ensures Reaches(cfg, p, ss, q) && TimersOnly(ss) && q.entries == map[]
  {
    forall k | k in p.entries ensures p.entries[k].references == 0 {
      ReferencesAreLeases(cfg, p, k);
      assert Outstanding(p.leases, p.entries[k].id) == {};
    }
    ReachableIsInv(cfg, p);
    ss, q := PoolDrains(cfg, p);
  }

  // ----- late releases ------------------------------------------------------------------------

  /** A lease that was released is never released again: its later calls change nothing but the clock. */
  lemma ReleasedForGood(cfg: Config, p: Pool, l: nat, ss: seq<Step>, q: Pool, r: Readings)
    requires Reaches(cfg, p, ss, q) && l < |p.leases| && p.leases[l].released && Ordered(q.clock, r)
    ensures l < |q.leases| && q.leases[l].released
    ensures Apply(cfg, q, ReleaseStep(l, r)) == q.(clock := r.armed)
  {
    LeasesGrow(cfg, p, ss, q);
  }

  /**
   Once an entry has left the pool, the releases of its leases change nothing but those leases, in
   any continuation.
   */
  lemma ReleaseAfterRemoval(cfg: Config, p: Pool, l: nat, ss: seq<Step>, q: Pool, r: Readings)
    requires Reachable(cfg, p) && l < |p.leases| && !Pooled(p.entries, p.leases[l].key, p.leases[l].entry)
    requires !p.leases[l].released && Reaches(cfg, p, ss, q) && Ordered(q.clock, r)
    ensures l < |q.leases|
    ensures Apply(cfg, q, ReleaseStep(l, r)) == MarkReleased(q.(clock := r.armed), l)
  {
    ReachableIsInv(cfg, p);
    ReachableOn(cfg, p, ss, q);
    ReachableIsInv(cfg, q);
    LeasesGrow(cfg, p, ss, q);
    StoppedStays(cfg, p, l, ss, q);
    var m := q.(clock := r.armed);
    if q.leases[l].released { assert m.leases[l := m.leases[l].(released := true)] == m.leases; }
  }

  /** An unreleased lease whose entry is not pooled belongs to a closed pool, and stays so. */
  lemma StoppedStays(cfg: Config, p: Pool, l: nat, ss: seq<Step>, q: Pool)
    requires Inv(cfg, p) && l < |p.leases| && !p.leases[l].released && Reaches(cfg, p, ss, q)
    requires !Pooled(p.entries, p.leases[l].key, p.leases[l].entry)
    ensures q.entries == map[]
  {
    assert p.stopping;
    ClosedForGood(cfg, p, ss, q);
  }

  /**
   What a caller of the lookup brings: readings after the clock, a key its refresh showed, and the
   scan's readings.
   */
  ghost predicate Brings(p: Pool, key: Key, identity: Identity, seen: map<Key, nat>, r: Readings,
                         trackers: seq<seq<Key>>) {
    && Extends(p.trackers, trackers) && ValidIdentity(p.trackers, identity) && Ordered(p.clock, r)
    && (exists g :: Showed(p.trackers, identity, g, key))
    && p.entries.Keys <= seen.Keys
    && forall k <- p.entries :: ReadWithin(p.trackers, trackers, p.entries[k].identity, seen[k])
  }

  lemma LookupReachable(cfg: Config, p: Pool, a: Lookup, trackers: seq<seq<Key>>)
    requires Reachable(cfg, p) && Brings(p, a.key, a.identity, a.seen, a.r, trackers) && Visits(a.scan, p.entries.Keys)
    requires Visits(a.sweep, Remaining(p.entries, a.seen) - {a.key})
    ensures LookupEnabled(p, a, trackers) && Reachable(cfg, LookUp(cfg, p, a, trackers).0)
    ensures var q := LookUp(cfg, p, a, trackers).0;
            p.leases <= q.leases && q.clock == a.r.armed && q.trackers == trackers
  {
    assert LookupOk(p, a, p.clock);
    ReachableStep(cfg, p, AcquireStep(a, trackers));
    LookupLeases(cfg, p, a, trackers);
    SectionClock(cfg, p.(trackers := trackers, clock := a.r.armed), a);
  }

  lemma LookupLeases(cfg: Config, p: Pool, a: Lookup, trackers: seq<seq<Key>>)
    requires LookupEnabled(p, a, trackers)
    ensures p.leases <= LookUp(cfg, p, a, trackers).0.leases
  {
    var m := p.(trackers := trackers, clock := a.r.armed);
    var (q, outcome) := LookUp(cfg, p, a, trackers);
    if outcome.Granted? { GrantedFrom(cfg, m, a, q); } else { OtherOutcomesGrantNothing(cfg, m, a); }
  }

  lemma CloseReachable(cfg: Config, p: Pool, order: seq<Key>)
    requires Reachable(cfg, p) && Visits(order, p.entries.Keys)
    ensures var q := ClosePool(p, order); Reachable(cfg, q) && q.leases == p.leases && q.stopping
  {
    RemoveAllLeases(p.(stopping := true), order);
    ReachableStep(cfg, p, CloseStep(order));
  }

  /** A closed pool holds no entry. */
  lemma ClosedIsEmpty(cfg: Config, p: Pool)
    requires Reachable(cfg, p) && p.stopping
    ensures p.entries == map[]
  {
    ReachableIsInv(cfg, p);
  }

  // ----- shutdown -----------------------------------------------------------------------------

  /**
   From a closed pool on, no run grants a lease, stores an entry or starts an
   attempt; and when the attempts that were under way have finished, every
   connection ever opened has been closed exactly once.
   */
  lemma ClosedPoolSettles(cfg: Config, p: Pool, ss: seq<Step>, q: Pool)
    requires Reachable(cfg, p) && p.stopping && Reaches(cfg, p, ss, q)
    ensures q.stopping && q.entries == map[] && q.made == p.made
    ensures |q.leases| == |p.leases| && |q.attempts| == |p.attempts|
    ensures q.inflight == map[] ==> forall c: nat :: q.closed[c] == if c < |q.owners| then 1 else 0
  {
    ReachableIsInv(cfg, p);
    ClosedForGood(cfg, p, ss, q);
    ReachableOn(cfg, p, ss, q);
    ReachableIsInv(cfg, q);
    if q.inflight == map[] { EveryConnectionClosedOnce(cfg, q); }
  }
}
