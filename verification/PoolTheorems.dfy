/** What the pool's invariant and steps amount to: connections, leases and ageing. */
module PoolTheorems {
  import opened PoolModel
  import opened PoolInvariant
  import opened PoolRuns

  // ----- connections --------------------------------------------------------------------------

  ghost function OpenConns(p: Pool): set<ConnId> {
    set c: nat | c < |p.owners| && p.closed[c] == 0
  }

  lemma {:induction false} ValuesBound(m: map<Key, nat>)
    ensures |m.Values| <= |m|
    decreases |m|
  {
    if m == map[] {
      assert m.Values == {};
    } else {
      var k :| k in m;
      var rest := m - {k};
      assert |rest.Keys| == |m.Keys| - 1;
      ValuesBound(rest);
      assert m.Values == rest.Values + {m[k]} by {
        assert forall j <- m :: j != k ==> j in rest.Keys && rest[j] == m[j];
      }
    }
  }

  lemma {:induction false} SubsetSize<T>(a: set<T>, b: set<T>)
    requires a <= b
    ensures |a| <= |b|
  {
    if a != {} {
      var x :| x in a;
      SubsetSize(a - {x}, b - {x});
    }
  }

  /** Each open connection is held by one pooled entry or one attempt in flight. */
  lemma OpenConnsHeld(cfg: Config, p: Pool, pooled: map<Key, nat>, dialed: map<Key, nat>)
    requires Inv(cfg, p)
    requires pooled == map k | k in p.entries :: p.entries[k].connection
    requires dialed == map k | k in p.inflight && p.attempts[p.inflight[k]].phase.Dialed?
                         :: p.attempts[p.inflight[k]].phase.connection
    ensures OpenConns(p) <= pooled.Values + dialed.Values
  {
    forall c <- OpenConns(p) ensures c in pooled.Values + dialed.Values {
      match p.owners[c]
      case ByEntry(k, id) => assert k in pooled.Keys && pooled[k] == c;
      case ByAttempt(a) => assert p.attempts[a].key in dialed.Keys && dialed[p.attempts[a].key] == c;
    }
  }

  /** However keys rotate between an attempt and its commit, open connections never exceed the limit. */
  lemma ConnectionsBounded(cfg: Config, p: Pool)
    requires Inv(cfg, p)
    ensures |OpenConns(p)| <= |p.entries| + |p.inflight| <= cfg.maxConnections
  {
    var pooled := map k | k in p.entries :: p.entries[k].connection;
    var dialed := map k | k in p.inflight && p.attempts[p.inflight[k]].phase.Dialed?
                    :: p.attempts[p.inflight[k]].phase.connection;
    OpenConnsHeld(cfg, p, pooled, dialed);
    SubsetSize(OpenConns(p), pooled.Values + dialed.Values);
    ValuesBound(pooled);
    ValuesBound(dialed);
    assert pooled.Keys == p.entries.Keys && dialed.Keys <= p.inflight.Keys;
    SubsetSize(dialed.Keys, p.inflight.Keys);
  }

  /** While the pool is open, a connection with an unreleased lease is open and counted. */
  lemma LeasedConnectionsStayOpen(cfg: Config, p: Pool, l: nat)
    requires Inv(cfg, p) && !p.stopping && l < |p.leases| && !p.leases[l].released
    ensures p.leases[l].connection < |p.owners| && p.closed[p.leases[l].connection] == 0
    ensures Pooled(p.entries, p.leases[l].key, p.leases[l].entry) && p.entries[p.leases[l].key].references >= 1
  {
    assert l in Outstanding(p.leases, p.leases[l].entry);
    assert EntryOk(cfg, p.leases[l].key, p.entries[p.leases[l].key], p.leases, p.pending, p.trackers);
  }

  /**
   Whatever steps come, a connection is closed at most once, and only entries and attempts that let
   go of it close it.
   */
  lemma NoDoubleClose(cfg: Config, p: Pool, c: ConnId)
    requires Inv(cfg, p)
    ensures p.closed[c] <= 1
    ensures p.closed[c] == 1 <==> c < |p.owners| && !Live(p.entries, p.attempts, c, p.owners[c])
  {
  }

  // ----- what no step undoes ------------------------------------------------------------------

  /** An entry's fixed fields stay and its expiry is one-way. */
  ghost predicate Older(e: Entry, f: Entry) {
    && f.id == e.id && f.connection == e.connection && f.identity == e.identity
    && f.generation == e.generation && f.created == e.created
    && (e.expired ==> f.expired)
  }

  /** What is pooled in `q` was pooled before and has aged, or was made since. */
  ghost predicate EntriesAge(before: map<Key, Entry>, made: nat, after: map<Key, Entry>) {
    forall k <- after :: (k in before && Older(before[k], after[k])) || after[k].id >= made
  }

  ghost predicate Ages(p: Pool, q: Pool) {
    p.made <= q.made && (p.stopping ==> q.stopping) && EntriesAge(p.entries, p.made, q.entries)
  }

  lemma AgesTransitive(p: Pool, q: Pool, s: Pool)
    requires Ages(p, q) && Ages(q, s)
    ensures Ages(p, s)
  {
  }

  lemma RetireAges(p: Pool, k: Key)
    requires k in p.entries
    ensures Ages(p, Retire(p, k))
  {
  }

  lemma {:induction false} EvictChangedAges(p: Pool, seen: map<Key, nat>, order: seq<Key>)
    requires forall k <- order :: k in seen
    ensures Ages(p, EvictChanged(p, seen, order))
  {
    if order != [] {
      var q, k := EvictChanged(p, seen, order[..|order| - 1]), order[|order| - 1];
      EvictChangedAges(p, seen, order[..|order| - 1]);
      if k in q.entries { RetireAges(q, k); }
      AgesTransitive(p, q, EvictChangedOne(q, k, seen[k]));
    }
  }

  lemma {:induction false} EvictIdleAges(cfg: Config, p: Pool, now: int, order: seq<Key>)
    ensures Ages(p, EvictIdle(cfg, p, now, order))
  {
    if order != [] {
      EvictIdleAges(cfg, p, now, order[..|order| - 1]);
    }
  }

  lemma {:induction false} RemoveAllAges(p: Pool, order: seq<Key>)
    ensures Ages(p, RemoveAll(p, order))
  {
    if order != [] {
      RemoveAllAges(p, order[..|order| - 1]);
    }
  }

  lemma JoinAges(cfg: Config, p: Pool, k: Key, identity: Identity, now: int, sweep: seq<Key>)
    ensures Ages(p, Join(cfg, p, k, identity, now, sweep).0)
  {
    EvictIdleAges(cfg, p, now, sweep);
  }

  lemma AcquireAges(cfg: Config, p: Pool, a: Lookup)
    requires p.entries.Keys <= a.seen.Keys && forall k <- a.scan :: k in a.seen
    ensures Ages(p, Acquire(cfg, p, a).0)
  {
    if !p.stopping {
      var q := EvictChanged(p, a.seen, a.scan);
      EvictChangedAges(p, a.seen, a.scan);
      if a.key !in q.entries {
        JoinAges(cfg, q, a.key, a.identity, a.r.now, a.sweep);
      } else {
        RetireAges(q, a.key);
        var retired := Retire(q, a.key);
        JoinAges(cfg, retired, a.key, a.identity, a.r.now, a.sweep);
        AgesTransitive(q, retired, Join(cfg, retired, a.key, a.identity, a.r.now, a.sweep).0);
      }
      AgesTransitive(p, q, Acquire(cfg, p, a).0);
    }
  }

  lemma CommitAges(cfg: Config, p: Pool, a: nat, k: Key, generation: nat, r: Readings)
    requires a < |p.attempts| && (p.attempts[a].phase.Dialed? || p.attempts[a].phase.DialFailed?)
    requires p.attempts[a].phase.Dialed? ==> p.attempts[a].phase.connection < |p.owners|
    ensures Ages(p, Commit(cfg, p, a, k, generation, r))
  {
  }

  lemma CallbackAges(cfg: Config, p: Pool, k: Key, id: EntryId, r: Readings)
    ensures Ages(p, ReleaseEntry(cfg, p, k, id, r)) && Ages(p, ExpireEntry(cfg, p, k, id, r))
  {
  }

  lemma StepAges(cfg: Config, p: Pool, s: Step)
    requires Enabled(p, s)
    ensures Ages(p, Apply(cfg, p, s))
  {
    match s
    case AcquireStep(a, trackers) => AcquireAges(cfg, p.(trackers := trackers, clock := a.r.armed), a);
    case CommitStep(t, k, g, trackers, r) => CommitAges(cfg, p.(trackers := trackers, clock := r.armed), t, k, g, r);
    case ReleaseStep(l, r) => CallbackAges(cfg, MarkReleased(p.(clock := r.armed), l), p.leases[l].key,
                                           p.leases[l].entry, r);
    case ExpireStep(k, id, r) => CallbackAges(cfg, p.(clock := r.armed, pending := p.pending - multiset{(k, id)}), k,
                                              id, r);
    case CloseStep(order) => RemoveAllAges(p.(stopping := true), order);
    case _ =>
  }

  /** Over any run, expired entries stay expired and an entry out of the pool never returns to it. */
  lemma {:induction false} RunAges(cfg: Config, p: Pool, ss: seq<Step>, q: Pool)
    requires Reaches(cfg, p, ss, q)
    ensures Ages(p, q)
    decreases |ss|
  {
    if ss != [] {
      StepAges(cfg, p, ss[0]);
      RunAges(cfg, Apply(cfg, p, ss[0]), ss[1..], q);
      AgesTransitive(p, Apply(cfg, p, ss[0]), q);
    }
  }
}
