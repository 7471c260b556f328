/**
 The pool of authenticated connections, as a transition system on values.

 Every region that the source runs under `pool.mu` is one function from state to
 state: the lookup of `acquire`, the commit of `connectContext`, `release`,
 `expire` and `close`.  What the environment does between them (a dial returns,
 a credential is observed, a timer becomes due) is a step of its own.

 A cache key is the preimage of the digest the source stores.  Numbers play the
 part of Go pointers: an entry carries the number it was made with, so that
 `pool.entries[key] != entry` compares numbers.
 */
module PoolModel {
  type Key = string
  type EntryId = nat
  type ConnId = nat

  /** MaxConnections, IdleTimeout and MaxLifetime. */
  datatype Config = Config(maxConnections: nat, idleTimeout: nat, maxLifetime: nat)

  /** An adapted credential: a fixed key, or a tracker that follows a rotating one. */
  datatype Identity = Fixed(key: Key) | Tracked(tracker: nat)

  /**
   `Armed(due, read, armed)`: the callback is due at `due`; `read` and `armed` are
   the first and last clock readings taken while it was being scheduled.
   `Spent` is a timer that fired or was stopped.
   */
  datatype Timer = NoTimer | Armed(due: int, read: int, armed: int) | Spent

  datatype Entry = Entry(
    id: EntryId,
    connection: ConnId,
    identity: Identity,
    generation: nat,
    created: int,
    lastUsed: int,
    references: int,
    expired: bool,
    timer: Timer)

  datatype Phase = Dialing | Dialed(connection: ConnId) | DialFailed | Finished(failed: bool)

  datatype Attempt = Attempt(key: Key, identity: Identity, phase: Phase, doneCloses: nat)

  /** Who opened a connection, or took it over. */
  datatype Owner = ByAttempt(attempt: nat) | ByEntry(key: Key, entry: EntryId)

  /** A handed-out lease; `scanned` is the generation read by the rotation scan that preceded it. */
  datatype Lease = Lease(
    key: Key, entry: EntryId, connection: ConnId,
    grantedAt: int, expiresAt: int, scanned: nat,
    released: bool)

  datatype Pool = Pool(
    entries: map<Key, Entry>,
    made: nat,                          // entries made so far
    inflight: map<Key, nat>,
    attempts: seq<Attempt>,
    owners: seq<Owner>,                 // one per connection ever opened
    closed: multiset<ConnId>,           // calls of Close
    leases: seq<Lease>,
    pending: multiset<(Key, EntryId)>,  // expire callbacks launched by a timer and not yet run
    trackers: seq<seq<Key>>,            // tracker t showed key trackers[t][g] at generation g
    clock: int,
    stopping: bool)

  /** The clock readings of one critical section, in program order. */
  datatype Readings = Readings(now: int, since: int, life: int, idle: int, armed: int)

  predicate Ordered(from: int, r: Readings) {
    from <= r.now <= r.since <= r.life <= r.idle <= r.armed
  }

  predicate Pooled(entries: map<Key, Entry>, k: Key, id: EntryId) {
    k in entries && entries[k].id == id
  }

  predicate ValidIdentity(trackers: seq<seq<Key>>, identity: Identity) {
    identity.Tracked? ==> identity.tracker < |trackers| && trackers[identity.tracker] != []
  }

  /** The generation a tracker shows now; a fixed identity never leaves generation zero. */
  function CurrentGeneration(trackers: seq<seq<Key>>, identity: Identity): nat
    requires ValidIdentity(trackers, identity)
  {
    if identity.Fixed? then 0 else |trackers[identity.tracker]| - 1
  }

  /** The identity showed key `k` at generation `g`. */
  predicate Showed(trackers: seq<seq<Key>>, identity: Identity, g: nat, k: Key) {
    match identity
    case Fixed(key) => g == 0 && key == k
    case Tracked(t) => t < |trackers| && g < |trackers[t]| && trackers[t][g] == k
  }

  // ----- entries and timers -------------------------------------------------------------------

  /** `removeLocked`. */
  function Remove(p: Pool, k: Key): Pool
    requires k in p.entries
  {
    p.(entries := p.entries - {k}, closed := p.closed + multiset{p.entries[k].connection})
  }

  /** Marks the entry expired, and removes it when nothing references it. */
  function Retire(p: Pool, k: Key): Pool
    requires k in p.entries
  {
    if p.entries[k].references == 0 then Remove(p, k)
    else p.(entries := p.entries[k := p.entries[k].(expired := true)])
  }

  function Min(a: int, b: int): int {
    if b < a then b else a
  }

  /** `scheduleLocked`: stops the old timer and arms the next one. */
  function Schedule(cfg: Config, e: Entry, r: Readings): Entry {
    if e.expired then e.(timer := NoTimer)
    else
      var untilLifetime := e.created + cfg.maxLifetime - r.life;
      var delay := if e.references == 0 then Min(untilLifetime, e.lastUsed + cfg.idleTimeout - r.idle)
        else untilLifetime;
      e.(timer := Armed(r.armed + (if delay < 0 then 0 else delay), r.life, r.armed))
  }

  /** When an unexpired entry has to be looked at again. */
  function Deadline(cfg: Config, e: Entry): int {
    if e.references == 0 then Min(e.created + cfg.maxLifetime, e.lastUsed + cfg.idleTimeout)
    else e.created + cfg.maxLifetime
  }

  // ----- the lookup of acquire ----------------------------------------------------------------

  /** One iteration of `evictChangedLocked`, which read generation `seen` from the entry's identity. */
  function EvictChangedOne(p: Pool, k: Key, seen: nat): Pool {
    if k in p.entries && p.entries[k].generation != seen then Retire(p, k) else p
  }

  /** One iteration of `evictIdleLocked`. */
  function EvictIdleOne(cfg: Config, p: Pool, k: Key, now: int): Pool {
    if k in p.entries && p.entries[k].references == 0
       && (p.entries[k].expired || now - p.entries[k].lastUsed >= cfg.idleTimeout)
    then Remove(p, k) else p
  }

  /** `evictChangedLocked`, visiting the keys in `order`. */
  function EvictChanged(p: Pool, seen: map<Key, nat>, order: seq<Key>): (q: Pool)
    requires forall k <- order :: k in seen
    ensures q.entries.Keys <= p.entries.Keys
  {
    if order == [] then p
    else
      var k := order[|order| - 1];
      EvictChangedOne(EvictChanged(p, seen, order[..|order| - 1]), k, seen[k])
  }

  /** `evictIdleLocked`, visiting the keys in `order`. */
  function EvictIdle(cfg: Config, p: Pool, now: int, order: seq<Key>): Pool {
    if order == [] then p
    else EvictIdleOne(cfg, EvictIdle(cfg, p, now, order[..|order| - 1]), order[|order| - 1], now)
  }

  datatype Outcome =
    | Granted  // the new lease is the last one
    | Wait(attempt: nat)
    | Reconnecting
    | ConnectionClosed
    | LimitReached

  /** What one lookup reads from outside the pool. */
  datatype Lookup = Lookup(
    key: Key, identity: Identity,
    seen: map<Key, nat>,   // generation read for each pooled entry by the rotation scan
    scan: seq<Key>,        // map iteration order of evictChangedLocked
    sweep: seq<Key>,       // map iteration order of evictIdleLocked, if it runs
    connected: bool,       // IsConnected of the entry's connection
    r: Readings)

  function Grant(cfg: Config, p: Pool, k: Key, scanned: nat, r: Readings): Pool
    requires k in p.entries
  {
    var e := p.entries[k].(references := p.entries[k].references + 1, lastUsed := r.now);
    p.(entries := p.entries[k := Schedule(cfg, e, r)],
       leases := p.leases + [Lease(k, e.id, e.connection, r.now, e.created + cfg.maxLifetime, scanned, false)])
  }

  function StartAttempt(p: Pool, k: Key, identity: Identity): Pool {
    p.(inflight := p.inflight[k := |p.attempts|], attempts := p.attempts + [Attempt(k, identity, Dialing, 0)])
  }

  predicate Full(cfg: Config, p: Pool) {
    |p.entries| + |p.inflight| >= cfg.maxConnections
  }

  /** Joins the attempt in flight for the key, or starts one if the bound allows it. */
  function Join(cfg: Config, p: Pool, k: Key, identity: Identity, now: int, sweep: seq<Key>): (Pool, Outcome) {
    if k in p.inflight then (p, Wait(p.inflight[k]))
    else
      var q := if Full(cfg, p) then EvictIdle(cfg, p, now, sweep) else p;
      if Full(cfg, q) then (q, LimitReached) else (StartAttempt(q, k, identity), Wait(|q.attempts|))
  }

  /** The lookup proper, after the rotation scan. */
  function Use(cfg: Config, q: Pool, a: Lookup): (Pool, Outcome)
    requires q.entries.Keys <= a.seen.Keys
  {
    if a.key !in q.entries then Join(cfg, q, a.key, a.identity, a.r.now, a.sweep)
    else
      var e := q.entries[a.key];
      if e.expired || a.r.now - e.created >= cfg.maxLifetime then
        if e.references == 0 then Join(cfg, Retire(q, a.key), a.key, a.identity, a.r.now, a.sweep)
        else (Retire(q, a.key), Reconnecting)
      else if !a.connected then (q, Reconnecting)
      else (Grant(cfg, q, a.key, a.seen[a.key], a.r), Granted)
  }

  /** The critical section of `acquire`. */
  function Acquire(cfg: Config, p: Pool, a: Lookup): (Pool, Outcome)
    requires p.entries.Keys <= a.seen.Keys && forall k <- a.scan :: k in a.seen
  {
    if p.stopping then (p, ConnectionClosed) else Use(cfg, EvictChanged(p, a.seen, a.scan), a)
  }

  // ----- connect, release, expire, close ------------------------------------------------------

  /** `pool.connect` returns outside the lock. */
  function Dial(p: Pool, a: nat, ok: bool): Pool
    requires a < |p.attempts|
  {
    if ok then
      p.(attempts := p.attempts[a := p.attempts[a].(phase := Dialed(|p.owners|))], owners := p.owners + [ByAttempt(a)])
    else p.(attempts := p.attempts[a := p.attempts[a].(phase := DialFailed)])
  }

  /** The attempt leaves flight and its `done` channel is closed. */
  function Finish(p: Pool, a: nat, failed: bool): Pool
    requires a < |p.attempts|
  {
    var t := p.attempts[a];
    p.(attempts := p.attempts[a := t.(phase := Finished(failed), doneCloses := t.doneCloses + 1)],
       inflight := p.inflight - {t.key})
  }

  function Insert(cfg: Config, p: Pool, k: Key, c: ConnId, identity: Identity, generation: nat, r: Readings): Pool
    requires c < |p.owners|
  {
    p.(entries := p.entries[k := Schedule(cfg, Entry(p.made, c, identity, generation, r.now, r.now, 0, false, NoTimer),
                                          r)],
       made := p.made + 1,
       owners := p.owners[c := ByEntry(k, p.made)])
  }

  /** The critical section of `connectContext`; `(k, generation)` is the identity snapshot it takes. */
  function Commit(cfg: Config, p: Pool, a: nat, k: Key, generation: nat, r: Readings): Pool
    requires a < |p.attempts| && (p.attempts[a].phase.Dialed? || p.attempts[a].phase.DialFailed?)
    requires p.attempts[a].phase.Dialed? ==> p.attempts[a].phase.connection < |p.owners|
  {
    match p.attempts[a].phase
    case DialFailed => Finish(p, a, true)
    case Dialed(c) =>
      if p.stopping then Finish(p.(closed := p.closed + multiset{c}), a, true)
      else if k in p.entries then Finish(p.(closed := p.closed + multiset{c}), a, false)
      else Insert(cfg, Finish(p, a, false), k, c, p.attempts[a].identity, generation, r)
  }

  /** `release`, after the lease's `sync.Once` let it through. */
  function ReleaseEntry(cfg: Config, p: Pool, k: Key, id: EntryId, r: Readings): Pool {
    if !Pooled(p.entries, k, id) then p
    else
      var e := p.entries[k].(references := p.entries[k].references - 1, lastUsed := r.now);
      if e.references == 0 && (p.stopping || e.expired || r.since - e.created >= cfg.maxLifetime) then Remove(p, k)
      else p.(entries := p.entries[k := Schedule(cfg, e, r)])
  }

  function MarkReleased(p: Pool, l: nat): Pool
    requires l < |p.leases|
  {
    p.(leases := p.leases[l := p.leases[l].(released := true)])
  }

  /** One call of a lease's release function. */
  function Release(cfg: Config, p: Pool, l: nat, r: Readings): Pool
    requires l < |p.leases|
  {
    if p.leases[l].released then p
    else ReleaseEntry(cfg, MarkReleased(p, l), p.leases[l].key, p.leases[l].entry, r)
  }

  /** An armed timer becomes due and its callback is launched. */
  function Fire(p: Pool, k: Key): Pool
    requires k in p.entries
  {
    p.(entries := p.entries[k := p.entries[k].(timer := Spent)], pending := p.pending + multiset{(k, p.entries[k].id)})
  }

  /**
   `expire`.  An expired entry's timer is dropped without being stopped, so a
   callback that is still armed then counts as launched.
   */
  function ExpireEntry(cfg: Config, p: Pool, k: Key, id: EntryId, r: Readings): Pool {
    if !Pooled(p.entries, k, id) then p
    else
      var was := p.entries[k];
      var lifetimeExpired := r.now - was.created >= cfg.maxLifetime;
      var idleExpired := was.references == 0 && r.now - was.lastUsed >= cfg.idleTimeout;
      var e := was.(expired := was.expired || lifetimeExpired);
      if e.references == 0 && (lifetimeExpired || idleExpired) then Remove(p, k)
      else if e.expired then
        p.(entries := p.entries[k := e.(timer := NoTimer)],
           pending := if e.timer.Armed? then p.pending + multiset{(k, id)} else p.pending)
      else p.(entries := p.entries[k := Schedule(cfg, e, r)])
  }

  function Expire(cfg: Config, p: Pool, k: Key, id: EntryId, r: Readings): Pool {
    ExpireEntry(cfg, p.(pending := p.pending - multiset{(k, id)}), k, id, r)
  }

  function RemoveAll(p: Pool, order: seq<Key>): Pool {
    if order == [] then p
    else
      var q := RemoveAll(p, order[..|order| - 1]);
      if order[|order| - 1] in q.entries then Remove(q, order[|order| - 1]) else q
  }

  /** `close`, visiting the entries in `order`. */
  function ClosePool(p: Pool, order: seq<Key>): Pool {
    RemoveAll(p.(stopping := true), order)
  }
}
