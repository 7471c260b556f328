/** Armed timers were armed in the past, in every state of every run. */
module PoolTimers {
  import opened PoolModel
  import opened PoolPreservation
  import opened PoolRuns

  /** Every armed timer of a pooled entry was armed at or before `clock`. */
  ghost predicate ArmedBy(entries: map<Key, Entry>, clock: int) {
    forall k <- entries :: entries[k].timer.Armed? ==> entries[k].timer.armed <= clock
  }

  lemma LaterStill(entries: map<Key, Entry>, clock: int, later: int)
    requires ArmedBy(entries, clock) && clock <= later
    ensures ArmedBy(entries, later)
  {
  }

  lemma {:induction false} EvictChangedArmed(p: Pool, seen: map<Key, nat>, order: seq<Key>, clock: int)
    requires (forall k <- order :: k in seen) && ArmedBy(p.entries, clock)
    ensures ArmedBy(EvictChanged(p, seen, order).entries, clock)
  {
    if order != [] { EvictChangedArmed(p, seen, order[..|order| - 1], clock); }
  }

  lemma {:induction false} EvictIdleArmed(cfg: Config, p: Pool, now: int, order: seq<Key>, clock: int)
    requires ArmedBy(p.entries, clock)
    ensures ArmedBy(EvictIdle(cfg, p, now, order).entries, clock)
  {
    if order != [] { EvictIdleArmed(cfg, p, now, order[..|order| - 1], clock); }
  }

  lemma {:induction false} RemoveAllArmed(p: Pool, order: seq<Key>, clock: int)
    requires ArmedBy(p.entries, clock)
    ensures ArmedBy(RemoveAll(p, order).entries, clock)
    ensures RemoveAll(p, order).clock == p.clock
  {
    if order != [] { RemoveAllArmed(p, order[..|order| - 1], clock); }
  }

  lemma JoinArmed(cfg: Config, p: Pool, k: Key, identity: Identity, now: int, sweep: seq<Key>, clock: int)
    requires ArmedBy(p.entries, clock)
    ensures ArmedBy(Join(cfg, p, k, identity, now, sweep).0.entries, clock)
  {
    EvictIdleArmed(cfg, p, now, sweep, clock);
  }

  lemma AcquireArmed(cfg: Config, p: Pool, a: Lookup)
    requires p.entries.Keys <= a.seen.Keys && (forall k <- a.scan :: k in a.seen) && ArmedBy(p.entries, a.r.armed)
    ensures ArmedBy(Acquire(cfg, p, a).0.entries, a.r.armed)
  {
    if !p.stopping {
      var q := EvictChanged(p, a.seen, a.scan);
      EvictChangedArmed(p, a.seen, a.scan, a.r.armed);
      if a.key !in q.entries {
        JoinArmed(cfg, q, a.key, a.identity, a.r.now, a.sweep, a.r.armed);
      } else {
        JoinArmed(cfg, Retire(q, a.key), a.key, a.identity, a.r.now, a.sweep, a.r.armed);
      }
    }
  }

  lemma JoinClock(cfg: Config, p: Pool, k: Key, identity: Identity, now: int, sweep: seq<Key>)
    ensures var q := Join(cfg, p, k, identity, now, sweep).0; q.clock == p.clock && q.trackers == p.trackers
  {
    EvictIdleFrame(cfg, p, now, sweep);
  }

  lemma UseClock(cfg: Config, q: Pool, a: Lookup)
    requires q.entries.Keys <= a.seen.Keys
    ensures Use(cfg, q, a).0.clock == q.clock && Use(cfg, q, a).0.trackers == q.trackers
  {
    if a.key !in q.entries {
      JoinClock(cfg, q, a.key, a.identity, a.r.now, a.sweep);
    } else {
      JoinClock(cfg, Retire(q, a.key), a.key, a.identity, a.r.now, a.sweep);
    }
  }

  lemma SectionClock(cfg: Config, p: Pool, a: Lookup)
    requires p.entries.Keys <= a.seen.Keys && (forall k <- a.scan :: k in a.seen)
    ensures Acquire(cfg, p, a).0.clock == p.clock && Acquire(cfg, p, a).0.trackers == p.trackers
  {
    if !p.stopping {
      var q := EvictChanged(p, a.seen, a.scan);
      EvictChangedFrame(p, a.seen, a.scan);
      UseClock(cfg, q, a);
    }
  }

  lemma LookUpArmed(cfg: Config, p: Pool, a: Lookup, trackers: seq<seq<Key>>)
    requires LookupEnabled(p, a, trackers) && ArmedBy(p.entries, p.clock)
    ensures var q := LookUp(cfg, p, a, trackers).0; ArmedBy(q.entries, q.clock)
  {
    LaterStill(p.entries, p.clock, a.r.armed);
    AcquireArmed(cfg, p.(trackers := trackers, clock := a.r.armed), a);
    SectionClock(cfg, p.(trackers := trackers, clock := a.r.armed), a);
  }

  lemma CommitArmed(cfg: Config, p: Pool, a: nat, k: Key, generation: nat, r: Readings)
    requires a < |p.attempts| && (p.attempts[a].phase.Dialed? || p.attempts[a].phase.DialFailed?)
    requires p.attempts[a].phase.Dialed? ==> p.attempts[a].phase.connection < |p.owners|
    requires ArmedBy(p.entries, r.armed)
    ensures var q := Commit(cfg, p, a, k, generation, r); ArmedBy(q.entries, r.armed) && q.clock == p.clock
  {
  }

  lemma ReleaseArmed(cfg: Config, p: Pool, l: nat, r: Readings)
    requires l < |p.leases| && ArmedBy(p.entries, r.armed)
    ensures var q := Release(cfg, p, l, r); ArmedBy(q.entries, r.armed) && q.clock == p.clock
  {
  }

  lemma ExpireArmed(cfg: Config, p: Pool, k: Key, id: EntryId, r: Readings)
    requires ArmedBy(p.entries, r.armed)
    ensures var q := Expire(cfg, p, k, id, r); ArmedBy(q.entries, r.armed) && q.clock == p.clock
  {
  }

  lemma FireArmed(p: Pool, k: Key, clock: int)
    requires k in p.entries && ArmedBy(p.entries, clock)
    ensures ArmedBy(Fire(p, k).entries, clock)
  {
  }

  lemma StepArmed(cfg: Config, p: Pool, s: Step)
    requires Enabled(p, s) && ArmedBy(p.entries, p.clock)
    ensures var q := Apply(cfg, p, s); ArmedBy(q.entries, q.clock)
  {
    match s
    case AcquireStep(a, trackers) => LookUpArmed(cfg, p, a, trackers);
    case CommitStep(t, k, g, trackers, r) =>
      LaterStill(p.entries, p.clock, r.armed);
      CommitArmed(cfg, p.(trackers := trackers, clock := r.armed), t, k, g, r);
    case ReleaseStep(l, r) =>
      LaterStill(p.entries, p.clock, r.armed);
      ReleaseArmed(cfg, p.(clock := r.armed), l, r);
    case ExpireStep(k, id, r) =>
      LaterStill(p.entries, p.clock, r.armed);
      ExpireArmed(cfg, p.(clock := r.armed), k, id, r);
    case FireStep(k) => FireArmed(p, k, p.clock);
    case CloseStep(order) => RemoveAllArmed(p.(stopping := true), order, p.clock);
    case EnvironmentStep(clock, trackers) => LaterStill(p.entries, p.clock, clock);
    case DialStep(t, ok) =>
  }

  lemma {:induction false} RunArmed(cfg: Config, p: Pool, ss: seq<Step>, q: Pool)
    requires Reaches(cfg, p, ss, q) && ArmedBy(p.entries, p.clock)
    ensures ArmedBy(q.entries, q.clock)
    decreases |ss|
  {
    if ss != [] {
      StepArmed(cfg, p, ss[0]);
      RunArmed(cfg, Apply(cfg, p, ss[0]), ss[1..], q);
    }
  }
}
