/**
 The inductive invariant of the connection pool.  Each part is stated over the
 tables it depends on, so that a step leaves the parts it does not touch alone.
 */
module PoolInvariant {
  import opened PoolModel

  /** The unreleased leases of an entry. */
  ghost function Outstanding(leases: seq<Lease>, id: EntryId): set<nat> {
    set l: nat | l < |leases| && leases[l].entry == id && !leases[l].released
  }

  /** A connection is live while its owner still holds it. */
  ghost predicate Live(entries: map<Key, Entry>, attempts: seq<Attempt>, c: ConnId, owner: Owner) {
    match owner
    case ByAttempt(a) => a < |attempts| && attempts[a].phase == Dialed(c)
    case ByEntry(k, id) => Pooled(entries, k, id)
  }

  /** Every connection is open while its owner lives, and was closed exactly once otherwise. */
  ghost predicate ClosedOnce(entries: map<Key, Entry>, attempts: seq<Attempt>, owners: seq<Owner>,
                             closed: multiset<ConnId>) {
    && (forall c: nat :: c < |owners| ==> closed[c] == if Live(entries, attempts, c, owners[c]) then 0 else 1)
    && (forall c: nat :: c >= |owners| ==> closed[c] == 0)
  }

  /** Entries and attempts own the connections they hold, and no two own the same one. */
  ghost predicate Owns(entries: map<Key, Entry>, attempts: seq<Attempt>, owners: seq<Owner>) {
    && (forall k <- entries ::
          entries[k].connection < |owners| && owners[entries[k].connection] == ByEntry(k, entries[k].id))
    && (forall a: nat :: a < |attempts| && attempts[a].phase.Dialed? ==>
          attempts[a].phase.connection < |owners| && owners[attempts[a].phase.connection] == ByAttempt(a))
    && (forall c: nat :: c < |owners| && owners[c].ByEntry? && Pooled(entries, owners[c].key, owners[c].entry) ==>
          entries[owners[c].key].connection == c)
  }

  /** Entries were made one by one. */
  ghost predicate Numbered(entries: map<Key, Entry>, owners: seq<Owner>, leases: seq<Lease>, made: nat) {
    && (forall k <- entries :: entries[k].id < made)
    && (forall j, k :: j in entries && k in entries && j != k ==> entries[j].id != entries[k].id)
    && (forall c :: 0 <= c < |owners| && owners[c].ByEntry? ==> owners[c].entry < made)
    && (forall l :: 0 <= l < |leases| ==> leases[l].entry < made)
  }

  /** `inflight` holds exactly the unfinished attempts, one per key. */
  ghost predicate SingleFlight(inflight: map<Key, nat>, attempts: seq<Attempt>) {
    && (forall k <- inflight ::
          inflight[k] < |attempts| && attempts[inflight[k]].key == k && !attempts[inflight[k]].phase.Finished?)
    && (forall a: nat :: a < |attempts| && !attempts[a].phase.Finished? ==>
          attempts[a].key in inflight && inflight[attempts[a].key] == a)
  }

  /** An attempt's `done` channel was closed once if it finished and not at all otherwise. */
  ghost predicate DoneOnce(attempts: seq<Attempt>) {
    forall a: nat :: a < |attempts| ==> attempts[a].doneCloses == if attempts[a].phase.Finished? then 1 else 0
  }

  ghost predicate AttemptsIdentified(attempts: seq<Attempt>, trackers: seq<seq<Key>>) {
    forall a: nat :: a < |attempts| ==> ValidIdentity(trackers, attempts[a].identity)
  }

  /** A lease was granted before it expires, and while its entry is pooled it agrees with it. */
  ghost predicate LeasesDated(cfg: Config, leases: seq<Lease>, entries: map<Key, Entry>) {
    forall l: nat :: l < |leases| ==>
      && leases[l].grantedAt < leases[l].expiresAt
      && (Pooled(entries, leases[l].key, leases[l].entry) ==>
            && leases[l].connection == entries[leases[l].key].connection
            && leases[l].expiresAt == entries[leases[l].key].created + cfg.maxLifetime)
  }

  /** An unreleased lease keeps its entry in the pool, under the key it was asked for, until the pool is closed. */
  ghost predicate LeasesHeld(leases: seq<Lease>, entries: map<Key, Entry>, stopping: bool) {
    forall l: nat :: l < |leases| && !leases[l].released ==> Pooled(entries, leases[l].key, leases[l].entry) || stopping
  }

  /** The timer is due at, and not before, the entry's deadline, up to the time spent arming it. */
  ghost predicate TimerDue(cfg: Config, e: Entry) {
    e.timer.Armed? ==>
      && e.timer.read <= e.timer.armed
      && Deadline(cfg, e) <= e.timer.due
      && (e.timer.due <= e.timer.armed || e.timer.due <= Deadline(cfg, e) + (e.timer.armed - e.timer.read))
  }

  /** Something will look at the entry again: its last release, its timer or a launched callback. */
  ghost predicate Attended(k: Key, e: Entry, pending: multiset<(Key, EntryId)>) {
    e.expired || e.timer.Armed? || (k, e.id) in pending
  }

  ghost predicate EntryOk(cfg: Config, k: Key, e: Entry, leases: seq<Lease>,
                          pending: multiset<(Key, EntryId)>, trackers: seq<seq<Key>>) {
    && e.references == |Outstanding(leases, e.id)|
    && ValidIdentity(trackers, e.identity)
    && Showed(trackers, e.identity, e.generation, k)
    && (e.expired ==> e.references > 0)
    && Attended(k, e, pending)
    && TimerDue(cfg, e)
  }

  /** Every pooled entry is in order, except those a critical section is busy with. */
  ghost predicate EntriesOk(cfg: Config, p: Pool, busy: set<Key>) {
    forall k <- p.entries :: k !in busy ==> EntryOk(cfg, k, p.entries[k], p.leases, p.pending, p.trackers)
  }

  ghost predicate Bounded(cfg: Config, p: Pool) {
    |p.entries| + |p.inflight| <= cfg.maxConnections
  }

  /** The invariant inside a critical section, except for the entries it is busy with. */
  ghost predicate CoreExcept(cfg: Config, p: Pool, busy: set<Key>) {
    && ClosedOnce(p.entries, p.attempts, p.owners, p.closed)
    && Owns(p.entries, p.attempts, p.owners)
    && Numbered(p.entries, p.owners, p.leases, p.made)
    && SingleFlight(p.inflight, p.attempts)
    && DoneOnce(p.attempts)
    && AttemptsIdentified(p.attempts, p.trackers)
    && LeasesDated(cfg, p.leases, p.entries)
    && LeasesHeld(p.leases, p.entries, p.stopping)
    && Bounded(cfg, p)
    && EntriesOk(cfg, p, busy)
  }

  ghost predicate Core(cfg: Config, p: Pool) {
    CoreExcept(cfg, p, {})
  }

  /** The invariant between critical sections. */
  ghost predicate Inv(cfg: Config, p: Pool) {
    && Core(cfg, p)
    && (p.stopping ==> p.entries == map[])
  }
}
