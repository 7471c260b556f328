/** What the other critical sections decide in a reachable pool: releases, timer callbacks and finished attempts. */
module PoolSections {
  import opened PoolModel
  import opened PoolInvariant
  import opened PoolPreservation
  import opened PoolRuns
  import opened PoolGuarantees

  /** The entry at `k` is gone from `q`, and its connection was closed, once. */
  ghost predicate Removed(p: Pool, q: Pool, k: Key) {
    && k in p.entries && k !in q.entries
    && p.closed[p.entries[k].connection] == 0 && q.closed[p.entries[k].connection] == 1
  }

  /** The entry at `k` is now `e`, up to its timer, which is armed unless it is expired, and due in time. */
  ghost predicate Rescheduled(cfg: Config, q: Pool, k: Key, e: Entry) {
    && k in q.entries && q.entries[k] == e.(timer := q.entries[k].timer)
    && (q.entries[k].timer.Armed? <==> !e.expired) && TimerDue(cfg, q.entries[k])
  }

  lemma PooledIsOpen(cfg: Config, p: Pool, k: Key)
    requires Reachable(cfg, p) && k in p.entries
    ensures p.closed[p.entries[k].connection] == 0
  {
    ReachableIsInv(cfg, p);
    ClosedWhenLetGo(cfg, p, p.entries[k].connection);
  }

  lemma LeaseIsPooled(cfg: Config, p: Pool, l: nat)
    requires Reachable(cfg, p) && !p.stopping && l < |p.leases| && !p.leases[l].released
    ensures Pooled(p.entries, p.leases[l].key, p.leases[l].entry)
  {
    LeasesHold(cfg, p, l);
  }

  lemma CountedDown(cfg: Config, p: Pool, k: Key, r: Readings, from: int)
    requires k in p.entries && p.closed[p.entries[k].connection] == 0 && !p.stopping && Ordered(from, r)
    ensures var q, e := ReleaseEntry(cfg, p, k, p.entries[k].id, r), p.entries[k];
            && q.entries - {k} == p.entries - {k}
            && if e.references == 1 && (e.expired || r.since - e.created >= cfg.maxLifetime) then Removed(p, q, k)
               else Rescheduled(cfg, q, k, e.(references := e.references - 1, lastUsed := r.now))
  {
    ScheduleAttends(cfg, p.entries[k].(references := p.entries[k].references - 1, lastUsed := r.now), r, from);
  }

  /**
   The release of a lease takes its entry out exactly when it was the last one and
   the entry is expired or past its lifetime; otherwise the entry stays, with one
   reference less, used now, and its timer armed again.
   */
  lemma ReleaseDecides(cfg: Config, p: Pool, l: nat, r: Readings)
    requires Reachable(cfg, p) && !p.stopping && l < |p.leases| && !p.leases[l].released && Ordered(p.clock, r)
    ensures p.leases[l].key in p.entries
    ensures var q, k := Apply(cfg, p, ReleaseStep(l, r)), p.leases[l].key;
            var e := p.entries[k];
            && q.entries - {k} == p.entries - {k}
            && if e.references == 1 && (e.expired || r.since - e.created >= cfg.maxLifetime) then Removed(p, q, k)
               else Rescheduled(cfg, q, k, e.(references := e.references - 1, lastUsed := r.now))
  {
    LeaseIsPooled(cfg, p, l);
    PooledIsOpen(cfg, p, p.leases[l].key);
    CountedDown(cfg, MarkReleased(p.(clock := r.armed), l), p.leases[l].key, r, p.clock);
  }

  /** The entry at `k` was removed if unreferenced and past its lifetime or idle time, and else armed again. */
  ghost predicate LookedAt(cfg: Config, p: Pool, q: Pool, k: Key, now: int)
    requires k in p.entries
  {
    var e := p.entries[k];
    var over := now - e.created >= cfg.maxLifetime;
    && q.entries - {k} == p.entries - {k}
    && if e.references == 0 && (over || now - e.lastUsed >= cfg.idleTimeout) then Removed(p, q, k)
       else Rescheduled(cfg, q, k, e.(expired := e.expired || over))
  }

  lemma LooksAt(cfg: Config, p: Pool, k: Key, r: Readings, from: int)
    requires k in p.entries && p.closed[p.entries[k].connection] == 0 && Ordered(from, r)
    ensures LookedAt(cfg, p, ExpireEntry(cfg, p, k, p.entries[k].id, r), k, r.now)
  {
    ScheduleAttends(cfg, p.entries[k], r, from);
  }

  /** The clock and the launched callbacks do not matter to that. */
  lemma LookedAtBefore(cfg: Config, p: Pool, m: Pool, q: Pool, k: Key, now: int)
    requires k in p.entries && m.entries == p.entries && m.closed == p.closed && LookedAt(cfg, m, q, k, now)
    ensures LookedAt(cfg, p, q, k, now)
  {
  }

  /**
   A callback takes its entry out exactly when the entry is unreferenced and past
   its lifetime or its idle time; before that the entry stays, expired exactly when
   it was or its lifetime is over.
   */
  lemma CallbackDecides(cfg: Config, p: Pool, k: Key, r: Readings)
    requires Reachable(cfg, p) && k in p.entries && (k, p.entries[k].id) in p.pending && Ordered(p.clock, r)
    ensures LookedAt(cfg, p, Apply(cfg, p, ExpireStep(k, p.entries[k].id, r)), k, r.now)
  {
    PooledIsOpen(cfg, p, k);
    var m := p.(clock := r.armed, pending := p.pending - multiset{(k, p.entries[k].id)});
    LooksAt(cfg, m, k, r, p.clock);
    LookedAtBefore(cfg, p, m, Apply(cfg, p, ExpireStep(k, p.entries[k].id, r)), k, r.now);
  }

  /** A callback of an entry that is not pooled any more changes nothing. */
  lemma StaleCallback(cfg: Config, p: Pool, k: Key, id: EntryId, r: Readings)
    requires Enabled(p, ExpireStep(k, id, r)) && !Pooled(p.entries, k, id)
    ensures var q := Apply(cfg, p, ExpireStep(k, id, r));
            q.entries == p.entries && q.closed == p.closed && q.leases == p.leases
  {
  }

  lemma Unfinished(cfg: Config, p: Pool, a: nat)
    requires Reachable(cfg, p) && a < |p.attempts| && !p.attempts[a].phase.Finished?
    ensures p.attempts[a].doneCloses == 0 && p.attempts[a].key in p.inflight && p.inflight[p.attempts[a].key] == a
  {
    ReachableIsInv(cfg, p);
  }

  /** A finished attempt is signalled once and leaves flight, failed exactly if its dial did or the pool is stopping. */
  lemma AttemptEnds(cfg: Config, p: Pool, a: nat, k: Key, g: nat, trackers: seq<seq<Key>>, r: Readings)
    requires Reachable(cfg, p) && Enabled(p, CommitStep(a, k, g, trackers, r))
    ensures var q, t := Apply(cfg, p, CommitStep(a, k, g, trackers, r)), p.attempts[a];
            && |q.attempts| == |p.attempts|
            && q.attempts[a] == t.(phase := Finished(t.phase.DialFailed? || p.stopping), doneCloses := 1)
            && (forall b :: 0 <= b < |p.attempts| && b != a ==> q.attempts[b] == p.attempts[b])
            && t.key in p.inflight && q.inflight == p.inflight - {t.key} && q.leases == p.leases
  {
    Unfinished(cfg, p, a);
  }

  /** Its connection becomes a new, unreferenced entry under the observed key if that is free, or is closed. */
  lemma CommitDecides(cfg: Config, p: Pool, a: nat, k: Key, g: nat, trackers: seq<seq<Key>>, r: Readings)
    requires Enabled(p, CommitStep(a, k, g, trackers, r))
    ensures var q, t := Apply(cfg, p, CommitStep(a, k, g, trackers, r)), p.attempts[a];
            if t.phase.DialFailed? then q.entries == p.entries && q.closed == p.closed
            else if p.stopping || k in p.entries then
              q.entries == p.entries && q.closed == p.closed + multiset{t.phase.connection}
            else
              && q.entries - {k} == p.entries && q.closed == p.closed
              && Rescheduled(cfg, q, k, Entry(p.made, t.phase.connection, t.identity, g, r.now, r.now, 0, false,
                                              NoTimer))
  {
  }
}
