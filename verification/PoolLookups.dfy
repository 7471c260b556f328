/**
 What one lookup decides in a reachable pool, and what it leaves there, in terms of
 the pool it found: the entries, the attempts in flight and the limit.
 */
module PoolLookups {
  import opened PoolModel
  import opened PoolInvariant
  import opened PoolPreservation
  import opened PoolRuns
  import opened PoolGuarantees

  // ----- the two evictions --------------------------------------------------------------------

  /** What a scan that visited `order` leaves under key `k` of the entry `was`. */
  ghost predicate ScanLeft(was: Entry, moved: bool, entries: map<Key, Entry>, k: Key) {
    if !moved then k in entries && entries[k] == was
    else if was.references == 0 then k !in entries
    else k in entries && entries[k] == was.(expired := true)
  }

  lemma {:induction false} ScanLeaves(p: Pool, seen: map<Key, nat>, order: seq<Key>, k: Key)
    requires (forall j <- order :: j in seen) && k in p.entries && k in seen
    ensures ScanLeft(p.entries[k], k in order && p.entries[k].generation != seen[k],
                     EvictChanged(p, seen, order).entries, k)
  {
    if order != [] {
      var rest, last := order[..|order| - 1], order[|order| - 1];
      ScanLeaves(p, seen, rest, k);
      assert k in order <==> k in rest || k == last;
    }
  }

  /** An unreferenced entry that a sweep at `now` takes out. */
  predicate Idled(cfg: Config, e: Entry, now: int) {
    e.references == 0 && (e.expired || now - e.lastUsed >= cfg.idleTimeout)
  }

  lemma {:induction false} SweepLeaves(cfg: Config, p: Pool, now: int, order: seq<Key>, k: Key)
    ensures var q := EvictIdle(cfg, p, now, order);
            && (k in q.entries <==> k in p.entries && (k in order ==> !Idled(cfg, p.entries[k], now)))
            && (k in q.entries ==> q.entries[k] == p.entries[k])
  {
    if order != [] {
      var rest, last := order[..|order| - 1], order[|order| - 1];
      SweepLeaves(cfg, p, now, rest, k);
      assert k in order <==> k in rest || k == last;
    }
  }

  /** The scan takes out every unreferenced entry whose identity moved on, and expires the referenced ones. */
  lemma ScanResult(p: Pool, seen: map<Key, nat>, order: seq<Key>)
    requires Visits(order, p.entries.Keys) && p.entries.Keys <= seen.Keys
    ensures var q := EvictChanged(p, seen, order);
            && OnlyEvicts(p, q) && q.entries.Keys == Remaining(p.entries, seen)
            && forall k <- q.entries ::
                 q.entries[k] == if p.entries[k].generation == seen[k] then p.entries[k]
                                 else p.entries[k].(expired := true)
  {
    EvictChangedFrame(p, seen, order);
    forall k <- p.entries
      ensures ScanLeft(p.entries[k], p.entries[k].generation != seen[k], EvictChanged(p, seen, order).entries, k)
    {
      ScanLeaves(p, seen, order, k);
    }
  }

  /** The pool after the rotation scan of a lookup. */
  ghost function AfterScan(p: Pool, a: Lookup, trackers: seq<seq<Key>>): Pool
    requires LookupEnabled(p, a, trackers)
  {
    EvictChanged(p.(trackers := trackers, clock := a.r.armed), a.seen, a.scan)
  }

  lemma Scanned(p: Pool, a: Lookup, trackers: seq<seq<Key>>)
    requires LookupEnabled(p, a, trackers)
    ensures var q := AfterScan(p, a, trackers);
            && OnlyEvicts(p.(trackers := trackers, clock := a.r.armed), q)
            && q.entries.Keys == Remaining(p.entries, a.seen)
            && forall k <- q.entries :: q.entries[k] ==
                 if p.entries[k].generation == a.seen[k] then p.entries[k] else p.entries[k].(expired := true)
  {
    ScanResult(p.(trackers := trackers, clock := a.r.armed), a.seen, a.scan);
  }

  lemma Fewer<T>(s: set<T>, t: set<T>)
    requires s <= t
    ensures |s| <= |t|
  {
    assert t == s + (t - s);
  }

  /** The keys whose entries a sweep at `now` leaves. */
  function Busy(cfg: Config, entries: map<Key, Entry>, now: int): set<Key> {
    set k | k in entries && !Idled(cfg, entries[k], now)
  }

  lemma Swept(cfg: Config, p: Pool, now: int, sweep: seq<Key>)
    requires Visits(sweep, p.entries.Keys)
    ensures var q := EvictIdle(cfg, p, now, sweep);
            && OnlyEvicts(p, q) && q.entries.Keys == Busy(cfg, p.entries, now) && Within(q.entries, p.entries)
            && |q.entries| == |Busy(cfg, p.entries, now)| <= |p.entries|
  {
    var q := EvictIdle(cfg, p, now, sweep);
    EvictIdleFrame(cfg, p, now, sweep);
    forall j: Key ensures j in q.entries <==> j in Busy(cfg, p.entries, now) {
      SweepLeaves(cfg, p, now, sweep, j);
    }
    forall j <- q.entries ensures j in p.entries && q.entries[j] == p.entries[j] {
      SweepLeaves(cfg, p, now, sweep, j);
    }
    Fewer(q.entries.Keys, p.entries.Keys);
    assert |q.entries.Keys| == |q.entries| && |p.entries.Keys| == |p.entries|;
  }

  /** Every entry of `some` is one of `entries`. */
  ghost predicate Within(some: map<Key, Entry>, entries: map<Key, Entry>) {
    forall k <- some :: k in entries && some[k] == entries[k]
  }

  /** What joining an attempt, or starting one, decides. */
  lemma JoinDecides(cfg: Config, p: Pool, k: Key, identity: Identity, now: int, sweep: seq<Key>)
    requires Visits(sweep, p.entries.Keys)
    ensures var (q, outcome) := Join(cfg, p, k, identity, now, sweep);
            var busy := Busy(cfg, p.entries, now);
            if k in p.inflight then q == p && outcome == Wait(p.inflight[k])
            else if |busy| + |p.inflight| >= cfg.maxConnections then
              outcome == LimitReached && OnlyEvicts(p, q) && q.entries.Keys == busy && Within(q.entries, p.entries)
            else
              && outcome == Wait(|p.attempts|) && Within(q.entries, p.entries)
              && q.entries.Keys ==
                 (if |p.entries| + |p.inflight| < cfg.maxConnections then p.entries.Keys else busy)
              && OnlyEvicts(StartAttempt(p, k, identity), q)
  {
    if k !in p.inflight {
      Swept(cfg, p, now, sweep);
    }
  }

  // ----- what a lookup finds ------------------------------------------------------------------

  /** The entry under the key may be handed out: unexpired, of the generation the scan read, and young enough. */
  predicate InService(cfg: Config, p: Pool, a: Lookup) {
    && a.key in p.entries && a.key in a.seen
    && !p.entries[a.key].expired && a.seen[a.key] == p.entries[a.key].generation
    && a.r.now - p.entries[a.key].created < cfg.maxLifetime
  }

  /** The entry under the key is leased but may not be handed out any more. */
  predicate Retiring(cfg: Config, p: Pool, a: Lookup) {
    a.key in p.entries && !InService(cfg, p, a) && p.entries[a.key].references != 0
  }

  /** Nothing under the key is, or has to stay, in the pool. */
  predicate Vacant(cfg: Config, p: Pool, a: Lookup) {
    !InService(cfg, p, a) && !Retiring(cfg, p, a)
  }

  /** The keys that stay pooled even in an idle sweep: leased entries, and current ones used recently enough. */
  function Needed(cfg: Config, p: Pool, a: Lookup): set<Key> {
    set k | k in p.entries && k != a.key
            && (p.entries[k].references != 0
                || (k in a.seen && a.seen[k] == p.entries[k].generation
                    && a.r.now - p.entries[k].lastUsed < cfg.idleTimeout))
  }

  lemma Serves(cfg: Config, p: Pool, a: Lookup, trackers: seq<seq<Key>>)
    requires LookupEnabled(p, a, trackers) && !p.stopping && InService(cfg, p, a)
    ensures var q := AfterScan(p, a, trackers);
            && a.key in q.entries && q.entries[a.key] == p.entries[a.key]
            && LookUp(cfg, p, a, trackers)
            == if a.connected then (Grant(cfg, q, a.key, a.seen[a.key], a.r), Granted) else (q, Reconnecting)
  {
    Scanned(p, a, trackers);
  }

  lemma Refuses(cfg: Config, p: Pool, a: Lookup, trackers: seq<seq<Key>>)
    requires LookupEnabled(p, a, trackers) && !p.stopping && Retiring(cfg, p, a)
    ensures var q := AfterScan(p, a, trackers);
            && a.key in q.entries
            && LookUp(cfg, p, a, trackers)
            == (q.(entries := q.entries[a.key := p.entries[a.key].(expired := true)]), Reconnecting)
  {
    Scanned(p, a, trackers);
  }

  /** With nothing pooled under the key any more the lookup joins or starts an attempt. */
  lemma Joins(cfg: Config, p: Pool, a: Lookup, trackers: seq<seq<Key>>) returns (q: Pool)
    requires LookupEnabled(p, a, trackers) && !p.stopping && Vacant(cfg, p, a)
    ensures OnlyEvicts(AfterScan(p, a, trackers), q) && q.entries == AfterScan(p, a, trackers).entries - {a.key}
    ensures LookUp(cfg, p, a, trackers) == Join(cfg, q, a.key, a.identity, a.r.now, a.sweep)
  {
    Scanned(p, a, trackers);
    q := AfterScan(p, a, trackers);
    if a.key in q.entries {
      q := Retire(q, a.key);
    } else {
      assert q.entries - {a.key} == q.entries;
    }
  }

  lemma ExpiredIsLeased(cfg: Config, p: Pool)
    requires Inv(cfg, p)
    ensures forall k <- p.entries :: p.entries[k].expired ==> p.entries[k].references != 0
  {
    forall k <- p.entries ensures p.entries[k].expired ==> p.entries[k].references != 0 {
      assert EntryOk(cfg, k, p.entries[k], p.leases, p.pending, p.trackers);
    }
  }

  /** After the scan, the entries that a sweep leaves are the needed ones. */
  lemma BusyIsNeeded(cfg: Config, p: Pool, a: Lookup, entries: map<Key, Entry>)
    requires forall k <- p.entries :: p.entries[k].expired ==> p.entries[k].references != 0
    requires p.entries.Keys <= a.seen.Keys && entries.Keys == Remaining(p.entries, a.seen)
    requires forall k <- entries :: entries[k] ==
               if p.entries[k].generation == a.seen[k] then p.entries[k] else p.entries[k].(expired := true)
    ensures Busy(cfg, entries - {a.key}, a.r.now) == Needed(cfg, p, a)
  {
    var left := entries - {a.key};
    forall k: Key ensures k in left && !Idled(cfg, left[k], a.r.now) <==> k in Needed(cfg, p, a) {
    }
  }

  /** The keys that the scan leaves besides the one looked up. */
  ghost function Kept(p: Pool, a: Lookup): set<Key> {
    Remaining(p.entries, a.seen) - {a.key}
  }

  /** A lookup changes these tables at most. */
  ghost predicate Touches(p: Pool, q: Pool, a: Lookup, trackers: seq<seq<Key>>) {
    q == p.(trackers := trackers, clock := a.r.armed, entries := q.entries, closed := q.closed, leases := q.leases,
            inflight := q.inflight, attempts := q.attempts)
  }

  /** An entry that a lookup of another key leaves: as it was, or expired because its identity moved on. */
  ghost predicate Carried(p: Pool, q: Pool, a: Lookup, k: Key) {
    && k in p.entries && k in q.entries && k in a.seen
    && q.entries[k] == if p.entries[k].generation == a.seen[k] then p.entries[k] else p.entries[k].(expired := true)
  }

  lemma MissEntries(cfg: Config, p: Pool, a: Lookup, trackers: seq<seq<Key>>)
    requires Reachable(cfg, p) && LookupEnabled(p, a, trackers)
    ensures var left := AfterScan(p, a, trackers).entries - {a.key};
            && left.Keys == Kept(p, a) && |left| == |Kept(p, a)| && Busy(cfg, left, a.r.now) == Needed(cfg, p, a)
  {
    Scanned(p, a, trackers);
    ReachableIsInv(cfg, p);
    ExpiredIsLeased(cfg, p);
    BusyIsNeeded(cfg, p, a, AfterScan(p, a, trackers).entries);
    var left := AfterScan(p, a, trackers).entries - {a.key};
    assert |left.Keys| == |left|;
  }

  /** The pool in which a lookup that misses joins or starts an attempt. */
  lemma Misses(cfg: Config, p: Pool, a: Lookup, trackers: seq<seq<Key>>) returns (m: Pool)
    requires Reachable(cfg, p) && LookupEnabled(p, a, trackers) && !p.stopping && Vacant(cfg, p, a)
    ensures LookUp(cfg, p, a, trackers) == Join(cfg, m, a.key, a.identity, a.r.now, a.sweep)
    ensures Touches(p, m, a, trackers) && m.leases == p.leases && m.inflight == p.inflight && m.attempts == p.attempts
    ensures m.entries.Keys == Kept(p, a) && |m.entries| == |Kept(p, a)|
            && Busy(cfg, m.entries, a.r.now) == Needed(cfg, p, a)
    ensures forall k <- m.entries :: Carried(p, m, a, k)
  {
    m := Joins(cfg, p, a, trackers);
    Scanned(p, a, trackers);
    MissEntries(cfg, p, a, trackers);
  }

  // ----- what a lookup decides ----------------------------------------------------------------

  /** There is room for one more connection, if need be once the idle ones are closed. */
  predicate Room(cfg: Config, p: Pool, a: Lookup) {
    |Needed(cfg, p, a)| + |p.inflight| < cfg.maxConnections
  }

  lemma JoinOutcome(cfg: Config, p: Pool, a: Lookup, trackers: seq<seq<Key>>)
    requires Reachable(cfg, p) && LookupEnabled(p, a, trackers) && !p.stopping && Vacant(cfg, p, a)
    ensures var (q, outcome) := LookUp(cfg, p, a, trackers);
            if a.key in p.inflight then outcome == Wait(p.inflight[a.key])
            else if Room(cfg, p, a) then outcome == Wait(|p.attempts|)
            else outcome == LimitReached
  {
    var m := Misses(cfg, p, a, trackers);
    JoinDecides(cfg, m, a.key, a.identity, a.r.now, a.sweep);
  }

  /**
   What any lookup of any reachable pool decides.  It grants exactly when the entry
   under the key is in service and connected; it asks to reconnect exactly when that
   entry is in service and not connected, or out of service and still leased; and
   with nothing under the key it waits for the attempt in flight, or a new one, and
   fails exactly when the leased, current and attempted connections fill the limit.
   */
  lemma LookupOutcome(cfg: Config, p: Pool, a: Lookup, trackers: seq<seq<Key>>)
    requires Reachable(cfg, p) && LookupEnabled(p, a, trackers)
    ensures var outcome := LookUp(cfg, p, a, trackers).1;
            && (outcome.ConnectionClosed? <==> p.stopping)
            && (outcome.Granted? <==> !p.stopping && InService(cfg, p, a) && a.connected)
            && (outcome.Reconnecting? <==>
                  !p.stopping && ((InService(cfg, p, a) && !a.connected) || Retiring(cfg, p, a)))
            && (outcome.LimitReached? <==>
                  !p.stopping && Vacant(cfg, p, a) && a.key !in p.inflight && !Room(cfg, p, a))
            && (outcome.Wait? <==>
                  !p.stopping && Vacant(cfg, p, a) && (a.key in p.inflight || Room(cfg, p, a)))
            && (outcome.Wait? ==>
                  outcome.attempt == if a.key in p.inflight then p.inflight[a.key] else |p.attempts|)
  {
    if !p.stopping {
      if InService(cfg, p, a) {
        Serves(cfg, p, a, trackers);
      } else if Retiring(cfg, p, a) {
        Refuses(cfg, p, a, trackers);
      } else {
        JoinOutcome(cfg, p, a, trackers);
      }
    }
  }

  // ----- what a lookup leaves -----------------------------------------------------------------

  ghost predicate Appended(before: seq<Lease>, after: seq<Lease>, lease: Lease) {
    |after| == |before| + 1 && before <= after && after[|before|] == lease
  }

  lemma GrantOf(cfg: Config, p: Pool, k: Key, scanned: nat, r: Readings, from: int)
    requires k in p.entries && !p.entries[k].expired && Ordered(from, r)
    ensures var q, e := Grant(cfg, p, k, scanned, r), p.entries[k];
            && q == p.(entries := p.entries[k := q.entries[k]], leases := q.leases)
            && Appended(p.leases, q.leases, Lease(k, e.id, e.connection, r.now, e.created + cfg.maxLifetime, scanned,
                                                  false))
            && q.entries[k] == e.(references := e.references + 1, lastUsed := r.now, timer := q.entries[k].timer)
            && q.entries[k].timer.Armed? && TimerDue(cfg, q.entries[k])
  {
    ScheduleAttends(cfg, p.entries[k].(references := p.entries[k].references + 1, lastUsed := r.now), r, from);
  }

  /**
   A granting lookup counts one more reference, stamps the entry, arms its timer
   again and appends the lease; every other entry that the scan keeps stays.
   */
  lemma GrantLeaves(cfg: Config, p: Pool, a: Lookup, trackers: seq<seq<Key>>, q: Pool)
    requires Reachable(cfg, p) && LookupEnabled(p, a, trackers) && LookUp(cfg, p, a, trackers) == (q, Granted)
    ensures Touches(p, q, a, trackers) && q.inflight == p.inflight && q.attempts == p.attempts
    ensures a.key in p.entries && q.entries.Keys == Remaining(p.entries, a.seen)
    ensures forall k <- q.entries :: k != a.key ==> Carried(p, q, a, k)
    ensures var e := p.entries[a.key];
            && a.key in q.entries && q.entries[a.key].timer.Armed? && TimerDue(cfg, q.entries[a.key])
            && q.entries[a.key] == e.(references := e.references + 1, lastUsed := a.r.now,
                                      timer := q.entries[a.key].timer)
            && Appended(p.leases, q.leases, Lease(a.key, e.id, e.connection, a.r.now, e.created + cfg.maxLifetime,
                                                  e.generation, false))
  {
    LookupOutcome(cfg, p, a, trackers);
    Serves(cfg, p, a, trackers);
    Scanned(p, a, trackers);
    GrantOf(cfg, AfterScan(p, a, trackers), a.key, a.seen[a.key], a.r, p.clock);
  }

  /** A lookup that asks to reconnect leaves everything to the scan, except that it expires what it may not hand out. */
  lemma RefusalLeaves(cfg: Config, p: Pool, a: Lookup, trackers: seq<seq<Key>>, q: Pool)
    requires Reachable(cfg, p) && LookupEnabled(p, a, trackers) && LookUp(cfg, p, a, trackers) == (q, Reconnecting)
    ensures Touches(p, q, a, trackers)
    ensures q.leases == p.leases && q.inflight == p.inflight && q.attempts == p.attempts
    ensures a.key in p.entries && q.entries.Keys == Remaining(p.entries, a.seen)
    ensures forall k <- q.entries :: k != a.key ==> Carried(p, q, a, k)
    ensures a.key in q.entries
            && q.entries[a.key]
            == if InService(cfg, p, a) then p.entries[a.key] else p.entries[a.key].(expired := true)
  {
    LookupOutcome(cfg, p, a, trackers);
    Scanned(p, a, trackers);
    if InService(cfg, p, a) { Serves(cfg, p, a, trackers); } else { Refuses(cfg, p, a, trackers); }
  }

  /**
   A lookup that finds nothing usable leaves nothing under its key.  It sweeps the
   idle entries out only when the limit is reached without that, and starts an
   attempt only when none is in flight for the key.
   */
  lemma MissLeaves(cfg: Config, p: Pool, a: Lookup, trackers: seq<seq<Key>>, q: Pool)
    requires Reachable(cfg, p) && LookupEnabled(p, a, trackers) && !p.stopping && Vacant(cfg, p, a)
    requires q == LookUp(cfg, p, a, trackers).0
    ensures Touches(p, q, a, trackers) && q.leases == p.leases
    ensures var sweeps := a.key !in p.inflight && |Kept(p, a)| + |p.inflight| >= cfg.maxConnections;
            q.entries.Keys == if sweeps then Needed(cfg, p, a) else Kept(p, a)
    ensures forall k <- q.entries :: Carried(p, q, a, k)
    ensures var starts := a.key !in p.inflight && Room(cfg, p, a);
            && q.inflight == (if starts then p.inflight[a.key := |p.attempts|] else p.inflight)
            && q.attempts == (if starts then p.attempts + [Attempt(a.key, a.identity, Dialing, 0)] else p.attempts)
  {
    var m := Misses(cfg, p, a, trackers);
    JoinDecides(cfg, m, a.key, a.identity, a.r.now, a.sweep);
  }

  lemma LookupTouches(cfg: Config, p: Pool, a: Lookup, trackers: seq<seq<Key>>)
    requires Reachable(cfg, p) && LookupEnabled(p, a, trackers)
    ensures Touches(p, LookUp(cfg, p, a, trackers).0, a, trackers)
  {
    var (q, outcome) := LookUp(cfg, p, a, trackers);
    LookupOutcome(cfg, p, a, trackers);
    if outcome.Granted? {
      GrantLeaves(cfg, p, a, trackers, q);
    } else if outcome.Reconnecting? {
      RefusalLeaves(cfg, p, a, trackers, q);
    } else if !p.stopping {
      MissLeaves(cfg, p, a, trackers, q);
    }
  }

  /** Whatever a lookup takes out of the pool it closes, once. */
  lemma DroppedIsClosed(cfg: Config, p: Pool, a: Lookup, trackers: seq<seq<Key>>, k: Key)
    requires Reachable(cfg, p) && LookupEnabled(p, a, trackers)
    requires k in p.entries && k !in LookUp(cfg, p, a, trackers).0.entries
    ensures LookUp(cfg, p, a, trackers).0.closed[p.entries[k].connection] == 1
  {
    var q, c := LookUp(cfg, p, a, trackers).0, p.entries[k].connection;
    ReachableIsInv(cfg, p);
    assert p.owners[c] == ByEntry(k, p.entries[k].id);
    LookupTouches(cfg, p, a, trackers);
    ReachableStep(cfg, p, AcquireStep(a, trackers));
    ClosedWhenLetGo(cfg, q, c);
  }
}
