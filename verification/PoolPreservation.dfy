/** Each critical section and each environment step of the pool keeps the invariant. */
module PoolPreservation {
  import opened PoolModel
  import opened PoolInvariant

  /** A key order that a Go map iteration may take: every key, once. */
  ghost predicate Visits(order: seq<Key>, keys: set<Key>) {
    && (forall k <- keys :: k in order)
    && (forall k <- order :: k in keys)
    && (forall i, j :: 0 <= i < j < |order| ==> order[i] != order[j])
  }

  // ----- leases and timers --------------------------------------------------------------------

  lemma OutstandingAppend(leases: seq<Lease>, lease: Lease, id: EntryId)
    requires !lease.released
    ensures Outstanding(leases + [lease], id)
         == if lease.entry == id then Outstanding(leases, id) + {|leases|} else Outstanding(leases, id)
  {
  }

  lemma OutstandingRelease(leases: seq<Lease>, l: nat, id: EntryId)
    requires l < |leases| && !leases[l].released
    ensures Outstanding(leases[l := leases[l].(released := true)], id) == Outstanding(leases, id) - {l}
    ensures leases[l].entry == id <==> l in Outstanding(leases, id)
  {
  }

  lemma ScheduleAttends(cfg: Config, e: Entry, r: Readings, from: int)
    requires Ordered(from, r)
    ensures TimerDue(cfg, Schedule(cfg, e, r))
    ensures !e.expired ==> Schedule(cfg, e, r).timer.Armed?
  {
  }

  // ----- changing one pooled entry ------------------------------------------------------------

  /** `e` may replace the pooled entry: what other tables rely on stays. */
  ghost predicate Updates(was: Entry, e: Entry) {
    e.id == was.id && e.connection == was.connection && e.created == was.created
  }

  lemma UpdateClosesOnce(entries: map<Key, Entry>, k: Key, e: Entry, attempts: seq<Attempt>, owners: seq<Owner>,
                         closed: multiset<ConnId>)
    requires k in entries && Updates(entries[k], e) && ClosedOnce(entries, attempts, owners, closed)
    ensures ClosedOnce(entries[k := e], attempts, owners, closed)
  {
    forall c: nat | c < |owners|
      ensures Live(entries[k := e], attempts, c, owners[c]) == Live(entries, attempts, c, owners[c])
    {
    }
  }

  lemma UpdateKeepsLeases(cfg: Config, entries: map<Key, Entry>, k: Key, e: Entry, leases: seq<Lease>, stopping: bool)
    requires k in entries && Updates(entries[k], e)
    requires LeasesDated(cfg, leases, entries) && LeasesHeld(leases, entries, stopping)
    ensures LeasesDated(cfg, leases, entries[k := e]) && LeasesHeld(leases, entries[k := e], stopping)
  {
  }

  lemma UpdateKeepsOwners(entries: map<Key, Entry>, k: Key, e: Entry, attempts: seq<Attempt>, owners: seq<Owner>,
                          leases: seq<Lease>, made: nat)
    requires k in entries && Updates(entries[k], e)
    requires Owns(entries, attempts, owners) && Numbered(entries, owners, leases, made)
    ensures Owns(entries[k := e], attempts, owners) && Numbered(entries[k := e], owners, leases, made)
  {
  }

  /** Writing a pooled entry disturbs only that entry. */
  lemma Touch(cfg: Config, p: Pool, k: Key, e: Entry)
    requires k in p.entries && CoreExcept(cfg, p, {k}) && Updates(p.entries[k], e)
    ensures CoreExcept(cfg, p.(entries := p.entries[k := e]), {k})
  {
    assert p.entries[k := e].Keys == p.entries.Keys;
    UpdateClosesOnce(p.entries, k, e, p.attempts, p.owners, p.closed);
    UpdateKeepsLeases(cfg, p.entries, k, e, p.leases, p.stopping);
    UpdateKeepsOwners(p.entries, k, e, p.attempts, p.owners, p.leases, p.made);
  }

  lemma Settle(cfg: Config, p: Pool, k: Key)
    requires k in p.entries && CoreExcept(cfg, p, {k})
    requires EntryOk(cfg, k, p.entries[k], p.leases, p.pending, p.trackers)
    ensures Core(cfg, p)
  {
  }

  lemma RemoveClosesOnce(cfg: Config, p: Pool, k: Key)
    requires k in p.entries && CoreExcept(cfg, p, {k})
    ensures var q := Remove(p, k); ClosedOnce(q.entries, q.attempts, q.owners, q.closed)
  {
    var q := Remove(p, k);
    forall c: nat | c < |q.owners|
      ensures q.closed[c] == if Live(q.entries, q.attempts, c, q.owners[c]) then 0 else 1
    {
      if c == p.entries[k].connection {
        assert p.owners[c] == ByEntry(k, p.entries[k].id);
      }
    }
  }

  lemma RemoveKeepsCore(cfg: Config, p: Pool, k: Key)
    requires k in p.entries && CoreExcept(cfg, p, {k})
    requires Outstanding(p.leases, p.entries[k].id) == {} || p.stopping
    ensures Core(cfg, Remove(p, k))
  {
    var q := Remove(p, k);
    assert |q.entries.Keys| == |p.entries.Keys| - 1;
    RemoveClosesOnce(cfg, p, k);
    assert LeasesHeld(q.leases, q.entries, q.stopping) by {
      forall l: nat | l < |q.leases| && !q.leases[l].released
        ensures Pooled(q.entries, q.leases[l].key, q.leases[l].entry) || q.stopping
      {
        assert l !in Outstanding(p.leases, p.entries[k].id) || p.stopping;
      }
    }
  }

  // ----- retiring and evicting ----------------------------------------------------------------

  lemma RetireKeepsCore(cfg: Config, p: Pool, k: Key)
    requires Core(cfg, p) && k in p.entries
    ensures Core(cfg, Retire(p, k))
  {
    assert EntryOk(cfg, k, p.entries[k], p.leases, p.pending, p.trackers);
    if p.entries[k].references == 0 {
      RemoveKeepsCore(cfg, p, k);
    } else {
      MarkKeepsCore(cfg, p, k);
    }
  }

  lemma MarkKeepsCore(cfg: Config, p: Pool, k: Key)
    requires Core(cfg, p) && k in p.entries && p.entries[k].references > 0
    ensures Core(cfg, p.(entries := p.entries[k := p.entries[k].(expired := true)]))
  {
    var e := p.entries[k].(expired := true);
    assert EntryOk(cfg, k, p.entries[k], p.leases, p.pending, p.trackers);
    assert EntryOk(cfg, k, e, p.leases, p.pending, p.trackers);
    Touch(cfg, p, k, e);
    Settle(cfg, p.(entries := p.entries[k := e]), k);
  }

  lemma {:induction false} EvictChangedKeepsCore(cfg: Config, p: Pool, seen: map<Key, nat>, order: seq<Key>)
    requires Core(cfg, p) && forall k <- order :: k in seen
    ensures Core(cfg, EvictChanged(p, seen, order))
  {
    if order != [] {
      var q, k := EvictChanged(p, seen, order[..|order| - 1]), order[|order| - 1];
      EvictChangedKeepsCore(cfg, p, seen, order[..|order| - 1]);
      if k in q.entries { RetireKeepsCore(cfg, q, k); }
    }
  }

  lemma {:induction false} EvictIdleKeepsCore(cfg: Config, p: Pool, now: int, order: seq<Key>)
    requires Core(cfg, p)
    ensures Core(cfg, EvictIdle(cfg, p, now, order))
  {
    if order != [] {
      var q, k := EvictIdle(cfg, p, now, order[..|order| - 1]), order[|order| - 1];
      EvictIdleKeepsCore(cfg, p, now, order[..|order| - 1]);
      if k in q.entries && q.entries[k].references == 0 { RemoveKeepsCore(cfg, q, k); }
    }
  }

  /** Evictions change nothing but the entries and the closed connections. */
  ghost predicate OnlyEvicts(p: Pool, q: Pool) {
    q == p.(entries := q.entries, closed := q.closed)
  }

  lemma {:induction false} EvictIdleFrame(cfg: Config, p: Pool, now: int, order: seq<Key>)
    ensures OnlyEvicts(p, EvictIdle(cfg, p, now, order))
  {
    if order != [] { EvictIdleFrame(cfg, p, now, order[..|order| - 1]); }
  }

  lemma {:induction false} EvictChangedFrame(p: Pool, seen: map<Key, nat>, order: seq<Key>)
    requires forall k <- order :: k in seen
    ensures OnlyEvicts(p, EvictChanged(p, seen, order))
  {
    if order != [] { EvictChangedFrame(p, seen, order[..|order| - 1]); }
  }

  // ----- acquire ------------------------------------------------------------------------------

  lemma AddLeaseTables(cfg: Config, entries: map<Key, Entry>, leases: seq<Lease>, lease: Lease, stopping: bool)
    requires LeasesDated(cfg, leases, entries) && LeasesHeld(leases, entries, stopping)
    requires Pooled(entries, lease.key, lease.entry) && lease.connection == entries[lease.key].connection
    requires lease.grantedAt < lease.expiresAt == entries[lease.key].created + cfg.maxLifetime
    ensures LeasesDated(cfg, leases + [lease], entries) && LeasesHeld(leases + [lease], entries, stopping)
  {
  }

  lemma AddLeaseNumbered(entries: map<Key, Entry>, owners: seq<Owner>, leases: seq<Lease>, made: nat, lease: Lease)
    requires Numbered(entries, owners, leases, made) && Pooled(entries, lease.key, lease.entry)
    ensures Numbered(entries, owners, leases + [lease], made)
    ensures forall k <- entries :: k != lease.key ==> entries[k].id != lease.entry
  {
  }

  lemma AddLeaseEntries(cfg: Config, p: Pool, lease: Lease)
    requires EntriesOk(cfg, p, {lease.key}) && !lease.released
    requires forall k <- p.entries :: k != lease.key ==> p.entries[k].id != lease.entry
    ensures EntriesOk(cfg, p.(leases := p.leases + [lease]), {lease.key})
  {
    forall k <- p.entries | k != lease.key
      ensures EntryOk(cfg, k, p.entries[k], p.leases + [lease], p.pending, p.trackers)
    {
      OutstandingAppend(p.leases, lease, p.entries[k].id);
    }
  }

  lemma AddLease(cfg: Config, p: Pool, lease: Lease)
    requires CoreExcept(cfg, p, {lease.key}) && Pooled(p.entries, lease.key, lease.entry) && !lease.released
    requires lease.connection == p.entries[lease.key].connection
    requires lease.grantedAt < lease.expiresAt == p.entries[lease.key].created + cfg.maxLifetime
    ensures CoreExcept(cfg, p.(leases := p.leases + [lease]), {lease.key})
  {
    AddLeaseTables(cfg, p.entries, p.leases, lease, p.stopping);
    AddLeaseNumbered(p.entries, p.owners, p.leases, p.made, lease);
    AddLeaseEntries(cfg, p, lease);
  }

  lemma GrantedEntryOk(cfg: Config, p: Pool, k: Key, scanned: nat, r: Readings, from: int)
    requires k in p.entries && Ordered(from, r) && !p.entries[k].expired
    requires EntryOk(cfg, k, p.entries[k], p.leases, p.pending, p.trackers)
    ensures var q := Grant(cfg, p, k, scanned, r); EntryOk(cfg, k, q.entries[k], q.leases, q.pending, q.trackers)
  {
    var lease := Grant(cfg, p, k, scanned, r).leases[|p.leases|];
    ScheduleAttends(cfg, p.entries[k].(references := p.entries[k].references + 1, lastUsed := r.now), r, from);
    OutstandingAppend(p.leases, lease, p.entries[k].id);
  }

  lemma GrantKeepsCore(cfg: Config, p: Pool, k: Key, scanned: nat, r: Readings, from: int)
    requires Core(cfg, p) && k in p.entries && Ordered(from, r)
    requires !p.entries[k].expired && r.now - p.entries[k].created < cfg.maxLifetime
    ensures Core(cfg, Grant(cfg, p, k, scanned, r))
  {
    var q := Grant(cfg, p, k, scanned, r);
    Touch(cfg, p, k, q.entries[k]);
    AddLease(cfg, p.(entries := q.entries), q.leases[|p.leases|]);
    GrantedEntryOk(cfg, p, k, scanned, r, from);
    Settle(cfg, q, k);
  }

  /** A new attempt: the tables of attempts. */
  lemma StartKeepsFlight(inflight: map<Key, nat>, attempts: seq<Attempt>, trackers: seq<seq<Key>>, t: Attempt)
    requires SingleFlight(inflight, attempts) && DoneOnce(attempts) && AttemptsIdentified(attempts, trackers)
    requires t.key !in inflight && t.phase == Dialing && t.doneCloses == 0 && ValidIdentity(trackers, t.identity)
    ensures SingleFlight(inflight[t.key := |attempts|], attempts + [t])
    ensures DoneOnce(attempts + [t]) && AttemptsIdentified(attempts + [t], trackers)
  {
  }

  /** A new attempt owns nothing yet. */
  lemma StartKeepsOwners(entries: map<Key, Entry>, attempts: seq<Attempt>, owners: seq<Owner>, closed: multiset<ConnId>,
                         t: Attempt)
    requires ClosedOnce(entries, attempts, owners, closed) && Owns(entries, attempts, owners) && t.phase == Dialing
    ensures ClosedOnce(entries, attempts + [t], owners, closed) && Owns(entries, attempts + [t], owners)
  {
    assert forall c: nat | c < |owners| ::
        Live(entries, attempts + [t], c, owners[c]) == Live(entries, attempts, c, owners[c]);
  }

  lemma StartKeepsCore(cfg: Config, p: Pool, k: Key, identity: Identity)
    requires Core(cfg, p) && k !in p.inflight && !Full(cfg, p) && ValidIdentity(p.trackers, identity)
    ensures Core(cfg, StartAttempt(p, k, identity))
  {
    var q, t := StartAttempt(p, k, identity), Attempt(k, identity, Dialing, 0);
    StartKeepsFlight(p.inflight, p.attempts, p.trackers, t);
    StartKeepsOwners(p.entries, p.attempts, p.owners, p.closed, t);
    assert |q.inflight.Keys| == |p.inflight.Keys| + 1;
  }

  lemma JoinKeepsCore(cfg: Config, p: Pool, k: Key, identity: Identity, now: int, sweep: seq<Key>)
    requires Core(cfg, p) && ValidIdentity(p.trackers, identity)
    ensures var q := Join(cfg, p, k, identity, now, sweep).0; Core(cfg, q) && q.stopping == p.stopping
  {
    if k !in p.inflight {
      var q := if Full(cfg, p) then EvictIdle(cfg, p, now, sweep) else p;
      EvictIdleKeepsCore(cfg, p, now, sweep);
      EvictIdleFrame(cfg, p, now, sweep);
      if !Full(cfg, q) { StartKeepsCore(cfg, q, k, identity); }
    }
  }

  /** What the caller of the lookup brings is in order. */
  ghost predicate LookupOk(p: Pool, a: Lookup, from: int) {
    && ValidIdentity(p.trackers, a.identity) && Ordered(from, a.r)
    && p.entries.Keys <= a.seen.Keys && (forall k <- a.scan :: k in a.seen)
  }

  /** The lookup proper, after the rotation scan. */
  lemma UseKeepsCore(cfg: Config, q: Pool, a: Lookup, from: int)
    requires Core(cfg, q) && LookupOk(q, a, from)
    ensures Core(cfg, Use(cfg, q, a).0) && Use(cfg, q, a).0.stopping == q.stopping
  {
    if a.key !in q.entries {
      JoinKeepsCore(cfg, q, a.key, a.identity, a.r.now, a.sweep);
    } else {
      var e := q.entries[a.key];
      if e.expired || a.r.now - e.created >= cfg.maxLifetime {
        RetireKeepsCore(cfg, q, a.key);
        JoinKeepsCore(cfg, Retire(q, a.key), a.key, a.identity, a.r.now, a.sweep);
      } else if a.connected {
        GrantKeepsCore(cfg, q, a.key, a.seen[a.key], a.r, from);
      }
    }
  }

  lemma AcquireKeepsInv(cfg: Config, p: Pool, a: Lookup, from: int)
    requires Inv(cfg, p) && LookupOk(p, a, from)
    ensures Inv(cfg, Acquire(cfg, p, a).0)
  {
    if !p.stopping {
      var q := EvictChanged(p, a.seen, a.scan);
      EvictChangedKeepsCore(cfg, p, a.seen, a.scan);
      EvictChangedFrame(p, a.seen, a.scan);
      UseKeepsCore(cfg, q, a, from);
    }
  }

  // ----- connect ------------------------------------------------------------------------------

  lemma DialClosesOnce(p: Pool, a: nat, ok: bool)
    requires ClosedOnce(p.entries, p.attempts, p.owners, p.closed) && Owns(p.entries, p.attempts, p.owners)
    requires a < |p.attempts| && p.attempts[a].phase == Dialing
    ensures var q := Dial(p, a, ok);
            ClosedOnce(q.entries, q.attempts, q.owners, q.closed) && Owns(q.entries, q.attempts, q.owners)
  {
    var q := Dial(p, a, ok);
    assert forall c: nat | c < |p.owners| ::
        Live(p.entries, q.attempts, c, p.owners[c]) == Live(p.entries, p.attempts, c, p.owners[c]);
  }

  lemma DialKeepsFlight(p: Pool, a: nat, ok: bool)
    requires SingleFlight(p.inflight, p.attempts) && DoneOnce(p.attempts) && AttemptsIdentified(p.attempts, p.trackers)
    requires Numbered(p.entries, p.owners, p.leases, p.made) && a < |p.attempts| && p.attempts[a].phase == Dialing
    ensures var q := Dial(p, a, ok);
            && SingleFlight(q.inflight, q.attempts) && DoneOnce(q.attempts)
               && AttemptsIdentified(q.attempts, q.trackers)
            && Numbered(q.entries, q.owners, q.leases, q.made)
  {
  }

  lemma DialKeepsCore(cfg: Config, p: Pool, a: nat, ok: bool)
    requires Core(cfg, p) && a < |p.attempts| && p.attempts[a].phase == Dialing
    ensures Core(cfg, Dial(p, a, ok))
  {
    DialClosesOnce(p, a, ok);
    DialKeepsFlight(p, a, ok);
  }

  /** Finishing an attempt takes it, and only it, out of flight. */
  lemma FinishKeepsFlight(p: Pool, a: nat, failed: bool)
    requires SingleFlight(p.inflight, p.attempts) && a < |p.attempts| && !p.attempts[a].phase.Finished?
    ensures var q := Finish(p, a, failed);
            SingleFlight(q.inflight, q.attempts) && |q.inflight| == |p.inflight| - 1
  {
    var q := Finish(p, a, failed);
    assert q.inflight.Keys == p.inflight.Keys - {p.attempts[a].key};
    assert |q.inflight.Keys| == |p.inflight.Keys| - 1;
  }

  /** Finishing an attempt while closing the connection it dialled, if it dialled one. */
  ghost function Discard(p: Pool, a: nat, failed: bool): Pool
    requires a < |p.attempts|
  {
    var phase := p.attempts[a].phase;
    Finish(if phase.Dialed? then p.(closed := p.closed + multiset{phase.connection}) else p, a, failed)
  }

  lemma DiscardClosesOnce(p: Pool, a: nat, failed: bool)
    requires ClosedOnce(p.entries, p.attempts, p.owners, p.closed) && Owns(p.entries, p.attempts, p.owners)
    requires a < |p.attempts| && (p.attempts[a].phase.Dialed? || p.attempts[a].phase.DialFailed?)
    ensures var q := Discard(p, a, failed); ClosedOnce(q.entries, q.attempts, q.owners, q.closed)
  {
    var q := Discard(p, a, failed);
    forall c: nat | c < |q.owners|
      ensures q.closed[c] == if Live(q.entries, q.attempts, c, q.owners[c]) then 0 else 1
    {
      if p.attempts[a].phase == Dialed(c) { assert p.owners[c] == ByAttempt(a); }
    }
  }

  lemma DiscardKeepsOwners(p: Pool, a: nat, failed: bool)
    requires Owns(p.entries, p.attempts, p.owners) && AttemptsIdentified(p.attempts, p.trackers) && DoneOnce(p.attempts)
    requires a < |p.attempts| && (p.attempts[a].phase.Dialed? || p.attempts[a].phase.DialFailed?)
    ensures var q := Discard(p, a, failed);
            Owns(q.entries, q.attempts, q.owners) && AttemptsIdentified(q.attempts, q.trackers) && DoneOnce(q.attempts)
  {
  }

  lemma DiscardKeepsFlight(cfg: Config, p: Pool, a: nat, failed: bool)
    requires SingleFlight(p.inflight, p.attempts) && Bounded(cfg, p)
    requires a < |p.attempts| && (p.attempts[a].phase.Dialed? || p.attempts[a].phase.DialFailed?)
    ensures var q := Discard(p, a, failed); SingleFlight(q.inflight, q.attempts) && Bounded(cfg, q)
  {
    FinishKeepsFlight(p, a, failed);
  }

  lemma DiscardKeepsCore(cfg: Config, p: Pool, a: nat, failed: bool)
    requires Core(cfg, p) && a < |p.attempts| && (p.attempts[a].phase.Dialed? || p.attempts[a].phase.DialFailed?)
    ensures Core(cfg, Discard(p, a, failed))
  {
    DiscardClosesOnce(p, a, failed);
    DiscardKeepsOwners(p, a, failed);
    DiscardKeepsFlight(cfg, p, a, failed);
  }

  /** The state after an attempt's connection became an entry. */
  ghost function Adopt(cfg: Config, p: Pool, a: nat, k: Key, generation: nat, r: Readings): Pool
    requires a < |p.attempts| && p.attempts[a].phase.Dialed? && p.attempts[a].phase.connection < |p.owners|
  {
    Insert(cfg, Finish(p, a, false), k, p.attempts[a].phase.connection, p.attempts[a].identity, generation, r)
  }

  ghost predicate Adoptable(cfg: Config, p: Pool, a: nat, k: Key) {
    && Core(cfg, p) && k !in p.entries && a < |p.attempts| && p.attempts[a].phase.Dialed?
    && p.attempts[a].phase.connection < |p.owners|
  }

  lemma AdoptClosesOnce(cfg: Config, p: Pool, a: nat, k: Key, generation: nat, r: Readings)
    requires ClosedOnce(p.entries, p.attempts, p.owners, p.closed)
    requires Owns(p.entries, p.attempts, p.owners) && Numbered(p.entries, p.owners, p.leases, p.made)
    requires k !in p.entries && a < |p.attempts| && p.attempts[a].phase.Dialed?
    requires p.attempts[a].phase.connection < |p.owners|
    ensures var q := Adopt(cfg, p, a, k, generation, r); ClosedOnce(q.entries, q.attempts, q.owners, q.closed)
  {
    var q := Adopt(cfg, p, a, k, generation, r);
    var mine := p.attempts[a].phase.connection;
    assert p.owners[mine] == ByAttempt(a);
    forall c: nat | c < |q.owners|
      ensures q.closed[c] == if Live(q.entries, q.attempts, c, q.owners[c]) then 0 else 1
    {
      assert c == mine ==> Live(p.entries, p.attempts, c, p.owners[c]);
    }
  }

  lemma AdoptKeepsOwners(cfg: Config, p: Pool, a: nat, k: Key, generation: nat, r: Readings)
    requires Owns(p.entries, p.attempts, p.owners) && Numbered(p.entries, p.owners, p.leases, p.made)
    requires k !in p.entries && a < |p.attempts| && p.attempts[a].phase.Dialed?
    requires p.attempts[a].phase.connection < |p.owners|
    ensures var q := Adopt(cfg, p, a, k, generation, r); Owns(q.entries, q.attempts, q.owners)
  {
    var q := Adopt(cfg, p, a, k, generation, r);
    var mine := p.attempts[a].phase.connection;
    assert p.owners[mine] == ByAttempt(a);
    forall c: nat | c < |q.owners| && q.owners[c].ByEntry? && Pooled(q.entries, q.owners[c].key, q.owners[c].entry)
      ensures q.entries[q.owners[c].key].connection == c
    {
      if c != mine { assert p.owners[c].entry < p.made; }
    }
  }

  lemma AdoptKeepsNumbers(cfg: Config, p: Pool, a: nat, k: Key, generation: nat, r: Readings)
    requires Adoptable(cfg, p, a, k)
    ensures var q := Adopt(cfg, p, a, k, generation, r); Numbered(q.entries, q.owners, q.leases, q.made)
  {
  }

  lemma AdoptKeepsLeases(cfg: Config, p: Pool, a: nat, k: Key, generation: nat, r: Readings)
    requires Adoptable(cfg, p, a, k)
    ensures var q := Adopt(cfg, p, a, k, generation, r);
            && EntriesOk(cfg, q, {k})
            && LeasesDated(cfg, q.leases, q.entries) && LeasesHeld(q.leases, q.entries, q.stopping)
  {
    var q := Adopt(cfg, p, a, k, generation, r);
    assert forall l: nat | l < |p.leases| ::
        Pooled(q.entries, p.leases[l].key, p.leases[l].entry) == Pooled(p.entries, p.leases[l].key, p.leases[l].entry);
  }

  lemma AdoptKeepsFlight(cfg: Config, p: Pool, a: nat, k: Key, generation: nat, r: Readings)
    requires Adoptable(cfg, p, a, k)
    ensures var q := Adopt(cfg, p, a, k, generation, r);
            && SingleFlight(q.inflight, q.attempts) && DoneOnce(q.attempts)
               && AttemptsIdentified(q.attempts, q.trackers)
            && Bounded(cfg, q)
  {
    FinishKeepsFlight(p, a, false);
    assert |Adopt(cfg, p, a, k, generation, r).entries.Keys| == |p.entries.Keys| + 1;
  }

  lemma AdoptKeepsCore(cfg: Config, p: Pool, a: nat, k: Key, generation: nat, r: Readings, from: int)
    requires Adoptable(cfg, p, a, k) && Ordered(from, r)
    requires Showed(p.trackers, p.attempts[a].identity, generation, k)
    ensures Core(cfg, Adopt(cfg, p, a, k, generation, r))
  {
    var q := Adopt(cfg, p, a, k, generation, r);
    AdoptKeepsFlight(cfg, p, a, k, generation, r);
    AdoptClosesOnce(cfg, p, a, k, generation, r);
    AdoptKeepsOwners(cfg, p, a, k, generation, r);
    AdoptKeepsNumbers(cfg, p, a, k, generation, r);
    AdoptKeepsLeases(cfg, p, a, k, generation, r);
    ScheduleAttends(cfg, q.entries[k].(timer := NoTimer), r, from);
    assert Outstanding(p.leases, p.made) == {};
    Settle(cfg, q, k);
  }

  lemma CommitKeepsInv(cfg: Config, p: Pool, a: nat, k: Key, generation: nat, r: Readings, from: int)
    requires Inv(cfg, p) && Ordered(from, r)
    requires a < |p.attempts| && (p.attempts[a].phase.Dialed? || p.attempts[a].phase.DialFailed?)
    requires p.attempts[a].phase.Dialed? ==> p.attempts[a].phase.connection < |p.owners|
    requires Showed(p.trackers, p.attempts[a].identity, generation, k)
    ensures Inv(cfg, Commit(cfg, p, a, k, generation, r))
  {
    if p.attempts[a].phase.DialFailed? || p.stopping {
      DiscardKeepsCore(cfg, p, a, true);
    } else if k in p.entries {
      DiscardKeepsCore(cfg, p, a, false);
    } else {
      AdoptKeepsCore(cfg, p, a, k, generation, r, from);
    }
  }

  // ----- release and expire -------------------------------------------------------------------

  lemma MarkReleasedKeepsLeases(cfg: Config, p: Pool, l: nat)
    requires LeasesDated(cfg, p.leases, p.entries) && LeasesHeld(p.leases, p.entries, p.stopping)
    requires Numbered(p.entries, p.owners, p.leases, p.made)
    requires l < |p.leases| && !p.leases[l].released
    ensures var q := MarkReleased(p, l);
            && LeasesDated(cfg, q.leases, q.entries) && LeasesHeld(q.leases, q.entries, q.stopping)
            && Numbered(q.entries, q.owners, q.leases, q.made)
  {
  }

  lemma MarkReleasedKeeps(cfg: Config, p: Pool, l: nat)
    requires Inv(cfg, p) && l < |p.leases| && !p.leases[l].released
    ensures CoreExcept(cfg, MarkReleased(p, l), {p.leases[l].key})
  {
    var q, mine := MarkReleased(p, l), p.leases[l];
    MarkReleasedKeepsLeases(cfg, p, l);
    forall k <- q.entries | k != mine.key
      ensures EntryOk(cfg, k, q.entries[k], q.leases, q.pending, q.trackers)
    {
      assert Pooled(p.entries, mine.key, mine.entry);
      OutstandingRelease(p.leases, l, p.entries[k].id);
    }
  }

  /** The end of `release` and `expire`: the entry is written back with its next timer. */
  lemma Reschedule(cfg: Config, p: Pool, k: Key, e: Entry, r: Readings, from: int)
    requires k in p.entries && CoreExcept(cfg, p, {k}) && Ordered(from, r) && Updates(p.entries[k], e)
    requires e.references == |Outstanding(p.leases, e.id)| && (e.expired ==> e.references > 0)
    requires ValidIdentity(p.trackers, e.identity) && Showed(p.trackers, e.identity, e.generation, k)
    ensures Core(cfg, p.(entries := p.entries[k := Schedule(cfg, e, r)]))
  {
    Touch(cfg, p, k, Schedule(cfg, e, r));
    ScheduleAttends(cfg, e, r, from);
    Settle(cfg, p.(entries := p.entries[k := Schedule(cfg, e, r)]), k);
  }

  lemma ReleaseEntryKeepsCore(cfg: Config, p: Pool, k: Key, r: Readings, from: int)
    requires k in p.entries && CoreExcept(cfg, p, {k}) && Ordered(from, r)
    requires var e := p.entries[k];
             && e.references == |Outstanding(p.leases, e.id)| + 1
             && ValidIdentity(p.trackers, e.identity) && Showed(p.trackers, e.identity, e.generation, k)
    ensures var q := ReleaseEntry(cfg, p, k, p.entries[k].id, r); Core(cfg, q) && q.stopping == p.stopping
  {
    var e := p.entries[k].(references := p.entries[k].references - 1, lastUsed := r.now);
    if e.references == 0 && (p.stopping || e.expired || r.since - e.created >= cfg.maxLifetime) {
      RemoveKeepsCore(cfg, p, k);
    } else {
      Reschedule(cfg, p, k, e, r, from);
    }
  }

  lemma ReleaseKeepsInv(cfg: Config, p: Pool, l: nat, r: Readings, from: int)
    requires Inv(cfg, p) && l < |p.leases| && Ordered(from, r)
    ensures Inv(cfg, Release(cfg, p, l, r))
  {
    if !p.leases[l].released {
      var k := p.leases[l].key;
      MarkReleasedKeeps(cfg, p, l);
      if Pooled(p.entries, k, p.leases[l].entry) {
        assert EntryOk(cfg, k, p.entries[k], p.leases, p.pending, p.trackers);
        OutstandingRelease(p.leases, l, p.entries[k].id);
        ReleaseEntryKeepsCore(cfg, MarkReleased(p, l), k, r, from);
      }
    }
  }

  /** A callback is consumed; only its own entry may have relied on it. */
  lemma TakeCallback(cfg: Config, p: Pool, k: Key, id: EntryId)
    requires Core(cfg, p) && (k, id) in p.pending
    ensures var q := p.(pending := p.pending - multiset{(k, id)});
            CoreExcept(cfg, q, if Pooled(p.entries, k, id) then {k} else {})
  {
    var q := p.(pending := p.pending - multiset{(k, id)});
    forall j <- q.entries | j != k || q.entries[j].id != id
      ensures EntryOk(cfg, j, q.entries[j], q.leases, q.pending, q.trackers)
    {
      assert (j, q.entries[j].id) != (k, id);
    }
  }

  lemma ForgetTimer(cfg: Config, p: Pool, k: Key, e: Entry, pending: multiset<(Key, EntryId)>)
    requires k in p.entries && CoreExcept(cfg, p, {k}) && Updates(p.entries[k], e) && p.pending <= pending
    requires e.references == |Outstanding(p.leases, e.id)| && e.expired && e.references > 0
    requires ValidIdentity(p.trackers, e.identity) && Showed(p.trackers, e.identity, e.generation, k)
    ensures Core(cfg, p.(entries := p.entries[k := e.(timer := NoTimer)], pending := pending))
  {
    Touch(cfg, p, k, e.(timer := NoTimer));
  }

  lemma ExpireEntryKeepsCore(cfg: Config, p: Pool, k: Key, r: Readings, from: int)
    requires k in p.entries && CoreExcept(cfg, p, {k}) && Ordered(from, r)
    requires var e := p.entries[k];
             && e.references == |Outstanding(p.leases, e.id)| && (e.expired ==> e.references > 0)
             && ValidIdentity(p.trackers, e.identity) && Showed(p.trackers, e.identity, e.generation, k)
    ensures var q := ExpireEntry(cfg, p, k, p.entries[k].id, r); Core(cfg, q) && q.stopping == p.stopping
  {
    var was := p.entries[k];
    var lifetimeExpired := r.now - was.created >= cfg.maxLifetime;
    var e := was.(expired := was.expired || lifetimeExpired);
    if e.references == 0 && (lifetimeExpired || r.now - e.lastUsed >= cfg.idleTimeout) {
      RemoveKeepsCore(cfg, p, k);
    } else if e.expired {
      ForgetTimer(cfg, p, k, e, ExpireEntry(cfg, p, k, was.id, r).pending);
    } else {
      Reschedule(cfg, p, k, e, r, from);
    }
  }

  lemma ExpireKeepsInv(cfg: Config, p: Pool, k: Key, id: EntryId, r: Readings, from: int)
    requires Inv(cfg, p) && Ordered(from, r) && (k, id) in p.pending
    ensures Inv(cfg, Expire(cfg, p, k, id, r))
  {
    TakeCallback(cfg, p, k, id);
    if Pooled(p.entries, k, id) {
      assert EntryOk(cfg, k, p.entries[k], p.leases, p.pending, p.trackers);
      ExpireEntryKeepsCore(cfg, p.(pending := p.pending - multiset{(k, id)}), k, r, from);
    }
  }

  /** A callback launched for an entry attends it. */
  lemma Launch(cfg: Config, p: Pool, k: Key)
    requires k in p.entries && CoreExcept(cfg, p, {k}) && !p.entries[k].timer.Armed?
    requires var e := p.entries[k];
             && e.references == |Outstanding(p.leases, e.id)| && (e.expired ==> e.references > 0)
             && ValidIdentity(p.trackers, e.identity) && Showed(p.trackers, e.identity, e.generation, k)
    ensures Core(cfg, p.(pending := p.pending + multiset{(k, p.entries[k].id)}))
  {
    var q := p.(pending := p.pending + multiset{(k, p.entries[k].id)});
    forall j <- q.entries ensures EntryOk(cfg, j, q.entries[j], q.leases, q.pending, q.trackers) {
      if j != k { assert EntryOk(cfg, j, p.entries[j], p.leases, p.pending, p.trackers); }
    }
  }

  lemma FireKeepsInv(cfg: Config, p: Pool, k: Key)
    requires Inv(cfg, p) && k in p.entries && p.entries[k].timer.Armed?
    ensures Inv(cfg, Fire(p, k))
  {
    var q := p.(entries := p.entries[k := p.entries[k].(timer := Spent)]);
    Touch(cfg, p, k, q.entries[k]);
    Launch(cfg, q, k);
  }

  // ----- the environment ----------------------------------------------------------------------

  /** Trackers only move on: an observation appends a key, an adapted request adds a tracker. */
  ghost predicate Extends(before: seq<seq<Key>>, after: seq<seq<Key>>) {
    |before| <= |after| && forall t :: 0 <= t < |before| ==> before[t] <= after[t]
  }

  lemma ObserveKeepsInv(cfg: Config, p: Pool, trackers: seq<seq<Key>>)
    requires Inv(cfg, p) && Extends(p.trackers, trackers)
    ensures Inv(cfg, p.(trackers := trackers))
  {
  }

  lemma {:induction false} RemoveAllKeepsCore(cfg: Config, p: Pool, order: seq<Key>)
    requires Core(cfg, p) && p.stopping
    ensures Core(cfg, RemoveAll(p, order)) && RemoveAll(p, order).stopping
  {
    if order != [] {
      var q, k := RemoveAll(p, order[..|order| - 1]), order[|order| - 1];
      RemoveAllKeepsCore(cfg, p, order[..|order| - 1]);
      if k in q.entries { RemoveKeepsCore(cfg, q, k); }
    }
  }

  lemma {:induction false} RemoveAllKeys(p: Pool, order: seq<Key>)
    ensures RemoveAll(p, order).entries.Keys == p.entries.Keys - set k | k in order
  {
    if order != [] {
      RemoveAllKeys(p, order[..|order| - 1]);
      assert order == order[..|order| - 1] + [order[|order| - 1]];
    }
  }

  lemma CloseKeepsInv(cfg: Config, p: Pool, order: seq<Key>)
    requires Inv(cfg, p) && Visits(order, p.entries.Keys)
    ensures Inv(cfg, ClosePool(p, order)) && ClosePool(p, order).stopping
  {
    RemoveAllKeepsCore(cfg, p.(stopping := true), order);
    RemoveAllKeys(p.(stopping := true), order);
  }
}
