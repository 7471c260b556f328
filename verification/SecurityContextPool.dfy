/**
 The pool as the source writes it: entries are objects shared by the map, the
 leases and the timer callbacks, and each critical section updates them in place.

 Every method is proved to take the ghost state `view` exactly through the
 function of `PoolModel` that stands for it.  Clock readings, tracker readings and
 the outcome of a dial are parameters.
 */
module SecurityContextPool {
  import opened PoolModel
  import opened PoolPreservation
  import opened PoolRuns
  import opened PoolGuarantees
  import opened PoolLookups

  /** One pooled connection.  `id` numbers the entries in the order they were made. */
  class SecurityContextEntry {
    ghost const id: nat
    const connection: ConnId
    const identity: Identity
    const generation: nat
    const created: int
    var lastUsed: int
    var references: int
    var expired: bool
    var timer: Timer

    constructor (ghost id: nat, connection: ConnId, identity: Identity, generation: nat, now: int)
      ensures Record() == Entry(id, connection, identity, generation, now, now, 0, false, NoTimer)
    {
      this.id, this.connection, this.identity, this.generation := id, connection, identity, generation;
      created, lastUsed, references, expired, timer := now, now, 0, false, NoTimer;
    }

    ghost function Record(): Entry
      reads this
    {
      Entry(id, connection, identity, generation, created, lastUsed, references, expired, timer)
    }

    method Expire()
      modifies this`expired
      ensures Record() == old(Record()).(expired := true)
    {
      expired := true;
    }

    method Use(delta: int, now: int)
      modifies this`references, this`lastUsed
      ensures Record() == old(Record()).(references := old(references) + delta, lastUsed := now)
    {
      references := references + delta;
      lastUsed := now;
    }

    method SetTimer(t: Timer)
      modifies this`timer
      ensures Record() == old(Record()).(timer := t)
    {
      timer := t;
    }

    method StopTimer()
      modifies this`timer
      ensures !timer.Armed? && Record() == old(Record()).(timer := if old(timer).Armed? then Spent else old(timer))
    {
      if timer.Armed? { timer := Spent; }
    }
  }

  /** A lease and what its release function captured; `released` is its `sync.Once`. */
  class SecurityContextLease {
    const key: Key
    const entry: SecurityContextEntry
    const connection: ConnId
    const expiresAt: int
    var released: bool

    constructor (key: Key, entry: SecurityContextEntry, connection: ConnId, expiresAt: int)
      ensures this.key == key && this.entry == entry && this.connection == connection && this.expiresAt == expiresAt
      ensures !released
    {
      this.key, this.entry, this.connection, this.expiresAt, released := key, entry, connection, expiresAt, false;
    }

    method Spend()
      modifies this`released
      ensures released
    {
      released := true;
    }
  }

  /** `records` is the value of the map of entry objects. */
  ghost predicate Mirrors(records: map<Key, Entry>, entries: map<Key, SecurityContextEntry>)
    reads entries.Values
  {
    records.Keys == entries.Keys && forall k <- entries :: records[k] == entries[k].Record()
  }

  /** No two keys share an entry. */
  ghost predicate Distinct(entries: map<Key, SecurityContextEntry>) {
    forall j, k :: j in entries && k in entries && j != k ==> entries[j] != entries[k]
  }

  /** Entry objects are identified by their numbers. */
  ghost predicate Rostered(entries: map<Key, SecurityContextEntry>, roster: seq<SecurityContextEntry>) {
    forall k <- entries :: entries[k].id < |roster| && roster[entries[k].id] == entries[k]
  }

  lemma WithoutKey(records: map<Key, Entry>, entries: map<Key, SecurityContextEntry>, roster: seq<SecurityContextEntry>,
                   key: Key)
    requires Mirrors(records, entries) && Distinct(entries) && Rostered(entries, roster) && key in entries
    ensures Mirrors(records - {key}, entries - {key}) && Distinct(entries - {key}) && Rostered(entries - {key}, roster)
    ensures entries[key] !in (entries - {key}).Values
  {
  }

  lemma WithKey(records: map<Key, Entry>, entries: map<Key, SecurityContextEntry>, roster: seq<SecurityContextEntry>,
                key: Key, entry: SecurityContextEntry)
    requires Mirrors(records, entries) && Distinct(entries) && Rostered(entries, roster)
    requires key !in entries && entry.id == |roster|
    ensures Mirrors(records[key := entry.Record()], entries[key := entry])
    ensures Distinct(entries[key := entry]) && Rostered(entries[key := entry], roster + [entry])
  {
  }

  /** Whether the entry that a lease captured is still the one pooled under the key. */
  lemma StillPooled(records: map<Key, Entry>, entries: map<Key, SecurityContextEntry>,
                    roster: seq<SecurityContextEntry>, key: Key, entry: SecurityContextEntry)
    requires Mirrors(records, entries) && Rostered(entries, roster) && entry.id < |roster| && roster[entry.id] == entry
    ensures Pooled(records, key, entry.id) <==> key in entries && entries[key] == entry
  {
  }

  lemma Rewritten(records: map<Key, Entry>, key: Key, e: Entry, f: Entry)
    requires key in records
    ensures records[key := e] - {key} == records - {key} && records[key := e][key := f] == records[key := f]
  {
  }

  /** The end of `release`: the entry is removed, or its timer is armed again. */
  ghost function DroppedOrRescheduled(cfg: Config, p: PoolModel.Pool, key: Key, r: Readings): PoolModel.Pool
    requires key in p.entries
  {
    var e := p.entries[key];
    if e.references == 0 && (p.stopping || e.expired || r.since - e.created >= cfg.maxLifetime) then Remove(p, key)
    else p.(entries := p.entries[key := Schedule(cfg, e, r)])
  }

  /** `release` counts the reference first. */
  lemma ReleaseParts(cfg: Config, p: PoolModel.Pool, counted: PoolModel.Pool, key: Key, r: Readings)
    requires key in p.entries
    requires var e := p.entries[key];
             counted == p.(entries := p.entries[key := e.(references := e.references - 1, lastUsed := r.now)])
    ensures ReleaseEntry(cfg, p, key, p.entries[key].id, r) == DroppedOrRescheduled(cfg, counted, key, r)
  {
    var e := counted.entries[key];
    Rewritten(p.entries, key, e, Schedule(cfg, e, r));
  }

  lemma GrantParts(cfg: Config, p: PoolModel.Pool, counted: PoolModel.Pool, key: Key, scanned: nat, r: Readings)
    requires key in p.entries
    requires var e := p.entries[key];
             counted == p.(entries := p.entries[key := e.(references := e.references + 1, lastUsed := r.now)])
    ensures p.(entries := Grant(cfg, p, key, scanned, r).entries)
         == counted.(entries := counted.entries[key := Schedule(cfg, counted.entries[key], r)])
  {
    var e := counted.entries[key];
    Rewritten(p.entries, key, e, Schedule(cfg, e, r));
  }

  lemma ReleaseLeases(cfg: Config, p: PoolModel.Pool, l: nat, r: Readings)
    requires l < |p.leases|
    ensures PoolModel.Release(cfg, p, l, r).leases == p.leases[l := p.leases[l].(released := true)]
  {
    if p.leases[l].released { assert p.leases[l].(released := true) == p.leases[l]; }
  }

  /** One more key of `all` was visited; `todo` are those still to come. */
  lemma VisitsMore(order: seq<Key>, all: set<Key>, todo: set<Key>, key: Key)
    requires Visits(order, all - todo) && key in todo && todo <= all
    ensures Visits(order + [key], all - (todo - {key}))
  {
    assert all - (todo - {key}) == (all - todo) + {key};
  }

  lemma EvictChangedSnoc(p: PoolModel.Pool, seen: map<Key, nat>, order: seq<Key>, key: Key)
    requires (forall k <- order :: k in seen) && key in seen
    ensures EvictChanged(p, seen, order + [key]) == EvictChangedOne(EvictChanged(p, seen, order), key, seen[key])
  {
    assert (order + [key])[..|order|] == order;
  }

  lemma EvictIdleSnoc(cfg: Config, p: PoolModel.Pool, now: int, order: seq<Key>, key: Key)
    ensures EvictIdle(cfg, p, now, order + [key]) == EvictIdleOne(cfg, EvictIdle(cfg, p, now, order), key, now)
  {
    assert (order + [key])[..|order|] == order;
  }

  lemma RemoveAllSnoc(p: PoolModel.Pool, order: seq<Key>, key: Key)
    requires key in RemoveAll(p, order).entries
    ensures RemoveAll(p, order + [key]) == Remove(RemoveAll(p, order), key)
  {
    assert (order + [key])[..|order|] == order;
  }

  /** An order in which a map with these keys may be iterated. */
  lemma SomeOrder(keys: set<Key>) returns (order: seq<Key>)
    ensures Visits(order, keys)
  {
    if keys == {} {
      order := [];
    } else {
      var key :| key in keys;
      var rest := SomeOrder(keys - {key});
      order := rest + [key];
      assert keys - (keys - {key}) == {key};
    }
  }

  class Pool {
    const config: Config
    var entries: map<Key, SecurityContextEntry>
    var inflight: map<Key, nat>
    var attempts: seq<Attempt>
    var closed: multiset<ConnId>  // the calls of Close
    var stopping: bool
    var dialled: nat  // connections opened so far; they are numbered in that order

    ghost var view: PoolModel.Pool
    ghost var roster: seq<SecurityContextEntry>  // every entry ever made

    ghost predicate Valid()
      reads this, entries.Values
    {
      && Distinct(entries) && Rostered(entries, roster)
      && Mirrors(view.entries, entries) && dialled == |view.owners|
      && view == view.(made := |roster|, inflight := inflight, attempts := attempts, closed := closed,
                       stopping := stopping)
    }

    /** Valid, except that the view may not show the entry under `key` as it is now. */
    ghost predicate ValidBut(key: Key)
      reads this, entries.Values - (if key in entries then {entries[key]} else {})
    {
      && Distinct(entries) && Rostered(entries, roster) && view.entries.Keys == entries.Keys
      && (forall k <- entries :: k != key ==> view.entries[k] == entries[k].Record()) && dialled == |view.owners|
      && view == view.(made := |roster|, inflight := inflight, attempts := attempts, closed := closed,
                       stopping := stopping)
    }

    /** The lease object is the pool's lease number `l`. */
    ghost predicate Handed(lease: SecurityContextLease, l: nat)
      reads this, lease
    {
      && l < |view.leases| && view.leases[l].entry < |roster|
      && lease.entry == roster[view.leases[l].entry] && lease.entry.id == view.leases[l].entry
      && lease.key == view.leases[l].key && lease.connection == view.leases[l].connection
      && lease.expiresAt == view.leases[l].expiresAt && lease.released == view.leases[l].released
    }

    constructor (config: Config, ghost trackers: seq<seq<Key>>, ghost now: int)
      ensures Ready() && this.config == config && view == NewPool(trackers, now) && roster == [] && entries == map[]
    {
      this.config := config;
      entries, inflight, attempts, closed, stopping, dialled := map[], map[], [], multiset{}, false, 0;
      view := NewPool(trackers, now);
      roster := [];
      ReachableNew(config, trackers, now);
    }

    ghost method SetView(v: PoolModel.Pool)
      modifies this`view
      ensures view == v
    {
      view := v;
    }

    /** The view shows the entry as it is now. */
    ghost method Refresh(key: Key, entry: SecurityContextEntry)
      requires ValidBut(key) && key in entries && entries[key] == entry
      modifies this`view
      ensures Valid() && view == old(view).(entries := old(view).entries[key := entry.Record()])
    {
      SetView(view.(entries := view.entries[key := entry.Record()]));
    }

    /** The entry leaves the map. */
    method Unlink(key: Key)
      requires Valid() && key in entries
      modifies this`entries, this`view
      ensures Valid() && entries == old(entries) - {key} && old(entries[key]) !in entries.Values
      ensures view == old(view).(entries := old(view).entries - {key})
    {
      WithoutKey(view.entries, entries, roster, key);
      entries := entries - {key};
      SetView(view.(entries := view.entries - {key}));
    }

    /** `connection.Close()`. */
    method CloseConnection(c: ConnId)
      requires Valid()
      modifies this`view, this`closed
      ensures Valid() && view == old(view).(closed := old(view).closed + multiset{c})
    {
      closed := closed + multiset{c};
      SetView(view.(closed := closed));
    }

    method RemoveLocked(key: Key, entry: SecurityContextEntry)
      requires Valid() && key in entries && entries[key] == entry
      modifies this, entry
      ensures Valid() && roster == old(roster) && entries == old(entries) - {key}
      ensures view == Remove(old(view), key) && !entry.timer.Armed?
    {
      Unlink(key);
      entry.StopTimer();
      CloseConnection(entry.connection);
    }

    method ScheduleLocked(entry: SecurityContextEntry, r: Readings)
      modifies entry
      ensures entry.Record() == Schedule(config, old(entry.Record()), r)
    {
      if entry.timer.Armed? { entry.timer := Spent; }
      if entry.expired {
        entry.timer := NoTimer;
        return;
      }
      var untilLifetime := entry.created + config.maxLifetime - r.life;
      var delay := untilLifetime;
      if entry.references == 0 {
        var untilIdle := entry.lastUsed + config.idleTimeout - r.idle;
        if untilIdle < delay { delay := untilIdle; }
      }
      if delay < 0 { delay := 0; }
      entry.timer := Armed(r.armed + delay, r.life, r.armed);
    }

    /** `entry.expired = true`, and removal when nothing references the entry. */
    method RetireLocked(key: Key, entry: SecurityContextEntry)
      requires Valid() && key in entries && entries[key] == entry
      modifies this, entry
      ensures Valid() && roster == old(roster)
      ensures entries == old(entries) || entries == old(entries) - {key}
      ensures view == Retire(old(view), key)
    {
      ghost var before := view;
      MarkExpired(key, entry);
      if entry.references == 0 {
        RemoveLocked(key, entry);
        assert view.entries == before.entries - {key};
      }
    }

    /** One iteration of `evictChangedLocked`. */
    method EvictIfChanged(key: Key, seen: nat)
      requires Valid() && key in entries
      modifies this, entries.Values
      ensures Valid() && roster == old(roster)
      ensures entries == old(entries) || entries == old(entries) - {key}
      ensures view == EvictChangedOne(old(view), key, seen)
    {
      var entry := entries[key];
      if entry.generation != seen {
        RetireLocked(key, entry);
      }
    }

    /** `order` is the order in which the map was iterated. */
    method EvictChangedLocked(seen: map<Key, nat>) returns (ghost order: seq<Key>)
      requires Valid() && entries.Keys <= seen.Keys
      modifies this, entries.Values
      ensures Valid() && roster == old(roster) && entries.Values <= old(entries.Values)
      ensures Visits(order, old(entries.Keys)) && view == EvictChanged(old(view), seen, order)
    {
      order := [];
      var todo := entries.Keys;
      while todo != {}
        invariant Valid() && roster == old(roster)
        invariant todo <= entries.Keys && entries.Values <= old(entries.Values)
        invariant todo <= old(entries.Keys) && Visits(order, old(entries.Keys) - todo)
        invariant view == EvictChanged(old(view), seen, order)
        decreases todo
      {
        var key :| key in todo;
        EvictChangedSnoc(old(view), seen, order, key);
        VisitsMore(order, old(entries.Keys), todo, key);
        EvictIfChanged(key, seen[key]);
        todo, order := todo - {key}, order + [key];
      }
      assert old(entries.Keys) - {} == old(entries.Keys);
    }

    /** One iteration of `evictIdleLocked`. */
    method EvictIfIdle(key: Key, now: int)
      requires Valid() && key in entries
      modifies this, entries.Values
      ensures Valid() && roster == old(roster)
      ensures entries == old(entries) || entries == old(entries) - {key}
      ensures view == EvictIdleOne(config, old(view), key, now)
    {
      var entry := entries[key];
      if entry.references == 0 && (entry.expired || now - entry.lastUsed >= config.idleTimeout) {
        RemoveLocked(key, entry);
      }
    }

    method EvictIdleLocked(now: int) returns (ghost order: seq<Key>)
      requires Valid()
      modifies this, entries.Values
      ensures Valid() && roster == old(roster) && entries.Values <= old(entries.Values)
      ensures Visits(order, old(entries.Keys)) && view == EvictIdle(config, old(view), now, order)
    {
      order := [];
      var todo := entries.Keys;
      while todo != {}
        invariant Valid() && roster == old(roster)
        invariant todo <= entries.Keys && entries.Values <= old(entries.Values)
        invariant todo <= old(entries.Keys) && Visits(order, old(entries.Keys) - todo)
        invariant view == EvictIdle(config, old(view), now, order)
        decreases todo
      {
        var key :| key in todo;
        EvictIdleSnoc(config, old(view), now, order, key);
        VisitsMore(order, old(entries.Keys), todo, key);
        EvictIfIdle(key, now);
        todo, order := todo - {key}, order + [key];
      }
    }

    /** `scheduleLocked` of a pooled entry. */
    method RescheduleLocked(key: Key, entry: SecurityContextEntry, r: Readings)
      requires Valid() && key in entries && entries[key] == entry
      modifies this`view, entry
      ensures Valid() && view == old(view).(entries :=
                                            old(view).entries[key := Schedule(config, old(entry.Record()), r)])
    {
      assert ValidBut(key);
      ScheduleLocked(entry, r);
      Refresh(key, entry);
    }

    /** `entry.references += delta` and `entry.lastUsed = time.Now()`. */
    method Count(key: Key, entry: SecurityContextEntry, delta: int, now: int)
      requires Valid() && key in entries && entries[key] == entry
      modifies this`view, entry
      ensures var e := old(entry.Record()).(references := old(entry.references) + delta, lastUsed := now);
              entry.Record() == e && Valid() && view == old(view).(entries := old(view).entries[key := e])
    {
      assert ValidBut(key);
      entry.Use(delta, now);
      Refresh(key, entry);
    }

    /** `references++`, `lastUsed = now`, `scheduleLocked`. */
    method UseEntry(key: Key, entry: SecurityContextEntry, ghost scanned: nat, r: Readings)
      requires Valid() && key in entries && entries[key] == entry
      modifies this`view, entry
      ensures Valid() && view == old(view).(entries := Grant(config, old(view), key, scanned, r).entries)
    {
      ghost var before := view;
      Count(key, entry, 1, r.now);
      GrantParts(config, before, view, key, scanned, r);
      RescheduleLocked(key, entry, r);
    }

    method GrantLocked(key: Key, ghost scanned: nat, r: Readings) returns (lease: SecurityContextLease)
      requires Valid() && key in entries
      modifies this`view, entries.Values
      ensures Valid() && view == Grant(config, old(view), key, scanned, r)
      ensures fresh(lease) && Handed(lease, |old(view).leases|) && lease.entry in old(entries.Values)
    {
      var entry := entries[key];
      ghost var granted := Grant(config, view, key, scanned, r);
      UseEntry(key, entry, scanned, r);
      SetView(view.(leases := granted.leases));
      lease := new SecurityContextLease(key, entry, entry.connection, entry.created + config.maxLifetime);
    }

    method StartLocked(key: Key, identity: Identity) returns (attempt: nat)
      requires Valid()
      modifies this`view, this`inflight, this`attempts
      ensures Valid() && view == StartAttempt(old(view), key, identity) && attempt == |old(view).attempts|
    {
      attempt := |attempts|;
      inflight := inflight[key := |attempts|];
      attempts := attempts + [Attempt(key, identity, Dialing, 0)];
      view := StartAttempt(view, key, identity);
    }

    method IsFull() returns (full: bool)
      requires Valid()
      ensures full == Full(config, view)
    {
      assert |entries.Keys| == |view.entries.Keys|;
      full := |entries| + |inflight| >= config.maxConnections;
    }

    /** The end of a lookup that found no usable entry. */
    method JoinLocked(key: Key, identity: Identity, now: int) returns (outcome: Outcome, ghost sweep: seq<Key>)
      requires Valid()
      modifies this, entries.Values
      ensures Valid() && roster == old(roster)
      ensures entries.Values <= old(entries.Values) && Visits(sweep, old(entries.Keys))
      ensures (view, outcome) == Join(config, old(view), key, identity, now, sweep) && !outcome.Granted?
    {
      sweep := SomeOrder(entries.Keys);
      if key in inflight {
        return Wait(inflight[key]), sweep;
      }
      var full := IsFull();
      if full { sweep := EvictIdleLocked(now); }
      full := IsFull();
      if full { return LimitReached, sweep; }
      var attempt := StartLocked(key, identity);
      outcome := Wait(attempt);
    }

    /** The lookup of an entry that must not be used any more: another connection is made once nothing references it. */
    method ReplaceLocked(key: Key, identity: Identity, now: int) returns (outcome: Outcome, ghost sweep: seq<Key>)
      requires Valid() && key in entries
      modifies this, entries.Values
      ensures Valid() && roster == old(roster) && entries.Values <= old(entries.Values) && !outcome.Granted?
      ensures Visits(sweep, old(entries.Keys) - {key})
      ensures var retired := Retire(old(view), key);
              (view, outcome) == if old(view).entries[key].references != 0 then (retired, Reconnecting)
                                 else Join(config, retired, key, identity, now, sweep)
    {
      var entry := entries[key];
      var idle := entry.references == 0;
      sweep := SomeOrder(entries.Keys - {key});
      RetireLocked(key, entry);
      if !idle {
        return Reconnecting, sweep;
      }
      outcome, sweep := JoinLocked(key, identity, now);
    }

    /** The lookup proper, after the rotation scan. */
    method UseLocked(key: Key, identity: Identity, ghost seen: map<Key, nat>, ghost scan: seq<Key>, connected: bool,
                     r: Readings)
      returns (outcome: Outcome, lease: SecurityContextLease?, ghost sweep: seq<Key>)
      requires Valid() && entries.Keys <= seen.Keys
      modifies this, entries.Values
      ensures Valid() && roster == old(roster)
      ensures entries.Values <= old(entries.Values) && Visits(sweep, old(entries.Keys) - {key})
      ensures (view, outcome) == Use(config, old(view), Lookup(key, identity, seen, scan, sweep, connected, r))
      ensures outcome.Granted? <==> lease != null
      ensures lease != null ==> fresh(lease) && Handed(lease, |old(view).leases|) && lease.entry in old(entries.Values)
    {
      lease := null;
      sweep := SomeOrder(entries.Keys - {key});
      if key in entries {
        var entry := entries[key];
        if entry.expired || r.now - entry.created >= config.maxLifetime {
          outcome, sweep := ReplaceLocked(key, identity, r.now);
          return outcome, null, sweep;
        } else if !connected {
          return Reconnecting, null, sweep;
        } else {
          lease := GrantLocked(key, seen[key], r);
          return Granted, lease, sweep;
        }
      }
      assert entries.Keys - {key} == entries.Keys;
      outcome, sweep := JoinLocked(key, identity, r.now);
    }

    /**
     The critical section of `acquire`.  `seen` is what the rotation scan reads
     from the entries' identities and `connected` what `IsConnected` answers; the
     ghost results are the orders in which the map was iterated.
     */
    method AcquireLocked(key: Key, identity: Identity, seen: map<Key, nat>, connected: bool, r: Readings)
      returns (outcome: Outcome, lease: SecurityContextLease?, ghost scan: seq<Key>, ghost sweep: seq<Key>)
      requires Valid() && entries.Keys <= seen.Keys
      modifies this, entries.Values
      ensures Valid() && roster == old(roster) && entries.Values <= old(entries.Values)
      ensures (forall k <- scan :: k in seen) && (if old(stopping) then scan == [] else Visits(scan, old(entries.Keys)))
      ensures Visits(sweep, Remaining(old(view).entries, seen) - {key})
      ensures (view, outcome) == PoolModel.Acquire(config, old(view),
                                                   Lookup(key, identity, seen, scan, sweep, connected, r))
      ensures outcome.Granted? <==> lease != null
      ensures lease != null ==> fresh(lease) && Handed(lease, |old(view).leases|) && lease.entry in old(entries.Values)
    {
      scan := [];
      sweep := SomeOrder(Remaining(view.entries, seen) - {key});
      if stopping {
        return ConnectionClosed, null, scan, sweep;
      }
      scan := EvictChangedLocked(seen);
      ScanResult(old(view), seen, scan);
      outcome, lease, sweep := UseLocked(key, identity, seen, scan, connected, r);
    }

    /** `delete(pool.inflight, key)` and `close(attempt.done)`. */
    method FinishLocked(a: nat, failed: bool)
      requires Valid() && a < |attempts|
      modifies this`view, this`inflight, this`attempts
      ensures Valid() && view == Finish(old(view), a, failed)
    {
      var t := attempts[a];
      inflight := inflight - {t.key};
      attempts := attempts[a := t.(phase := Finished(failed), doneCloses := t.doneCloses + 1)];
      view := Finish(view, a, failed);
    }

    /** A new entry, with its timer armed, outside the map. */
    method MakeEntry(c: ConnId, identity: Identity, generation: nat, r: Readings) returns (entry: SecurityContextEntry)
      ensures fresh(entry)
      ensures entry.Record() == Schedule(config,
                                         Entry(|roster|, c, identity, generation, r.now, r.now, 0, false, NoTimer), r)
    {
      entry := new SecurityContextEntry(|roster|, c, identity, generation, r.now);
      ScheduleLocked(entry, r);
    }

    /** `pool.entries[key] = entry`; the entry takes its connection over. */
    method AddEntry(key: Key, entry: SecurityContextEntry)
      requires Valid() && key !in entries && entry.id == |roster| && entry.connection < |view.owners|
      modifies this`view, this`entries, this`roster
      ensures Valid() && roster == old(roster) + [entry] && entries == old(entries)[key := entry]
      ensures view == old(view).(entries := old(view).entries[key := entry.Record()], made := entry.id + 1,
                                 owners := old(view).owners[entry.connection := ByEntry(key, entry.id)])
    {
      WithKey(view.entries, entries, roster, key, entry);
      entries := entries[key := entry];
      roster := roster + [entry];
      SetView(view.(entries := view.entries[key := entry.Record()], made := |roster|,
                    owners := view.owners[entry.connection := ByEntry(key, entry.id)]));
    }

    method InsertLocked(key: Key, c: ConnId, identity: Identity, generation: nat, r: Readings)
      requires Valid() && key !in entries && c < |view.owners|
      modifies this
      ensures Valid() && view == Insert(config, old(view), key, c, identity, generation, r)
      ensures old(roster) <= roster && fresh(entries.Values - old(entries.Values))
    {
      var entry := MakeEntry(c, identity, generation, r);
      assert entry.Record().id == |roster| && entry.Record().connection == c;
      AddEntry(key, entry);
    }

    /**
     The critical section of `connectContext`: attempt `a` has dialled or failed,
     and `(key, generation)` is the identity observed now.
     */
    method CommitLocked(a: nat, key: Key, generation: nat, r: Readings)
      requires Valid() && a < |attempts| && (attempts[a].phase.Dialed? || attempts[a].phase.DialFailed?)
      requires attempts[a].phase.Dialed? ==> attempts[a].phase.connection < |view.owners|
      modifies this
      ensures Valid() && view == PoolModel.Commit(config, old(view), a, key, generation, r)
      ensures old(roster) <= roster && fresh(entries.Values - old(entries.Values))
    {
      var t := attempts[a];
      if t.phase.DialFailed? {
        FinishLocked(a, true);
      } else if stopping {
        CloseConnection(t.phase.connection);
        FinishLocked(a, true);
      } else if key in entries {
        CloseConnection(t.phase.connection);
        FinishLocked(a, false);
      } else {
        FinishLocked(a, false);
        InsertLocked(key, t.phase.connection, t.identity, generation, r);
      }
    }

    /** `release` of an entry that is still pooled. */
    method ReleasePooled(key: Key, entry: SecurityContextEntry, r: Readings)
      requires Valid() && key in entries && entries[key] == entry
      modifies this, entry
      ensures Valid() && roster == old(roster) && entries.Values <= old(entries.Values)
      ensures view == ReleaseEntry(config, old(view), key, entry.id, r)
    {
      ghost var before := view;
      Count(key, entry, -1, r.now);
      ReleaseParts(config, before, view, key, r);
      DropOrReschedule(key, entry, r);
    }

    /** `release`; the entry is the one its lease captured. */
    method ReleaseLocked(key: Key, entry: SecurityContextEntry, r: Readings)
      requires Valid() && entry.id < |roster| && roster[entry.id] == entry
      modifies this, entry
      ensures Valid() && roster == old(roster) && entries.Values <= old(entries.Values)
      ensures view == ReleaseEntry(config, old(view), key, entry.id, r)
    {
      StillPooled(view.entries, entries, roster, key, entry);
      if key !in entries || entries[key] != entry {
        return;
      }
      ReleasePooled(key, entry, r);
    }

    /** The end of `release`, once the reference is counted. */
    method DropOrReschedule(key: Key, entry: SecurityContextEntry, r: Readings)
      requires Valid() && key in entries && entries[key] == entry
      modifies this, entry
      ensures Valid() && roster == old(roster) && entries.Values <= old(entries.Values)
      ensures view == DroppedOrRescheduled(config, old(view), key, r)
    {
      if entry.references == 0 && (stopping || entry.expired || r.since - entry.created >= config.maxLifetime) {
        RemoveLocked(key, entry);
      } else {
        RescheduleLocked(key, entry, r);
      }
    }

    /** A lease's release function: `once.Do(release)`; `l` is the lease's number. */
    method ReleaseOnce(lease: SecurityContextLease, ghost l: nat, r: Readings)
      requires Valid() && Handed(lease, l)
      modifies this, lease, lease.entry
      ensures Valid() && lease.released && roster == old(roster) && entries.Values <= old(entries.Values)
      ensures view == PoolModel.Release(config, old(view), l, r)
    {
      if !lease.released {
        lease.Spend();
        SetView(MarkReleased(view, l));
        ReleaseLocked(lease.key, lease.entry, r);
      }
    }

    /** `entry.expired = true`. */
    method MarkExpired(key: Key, entry: SecurityContextEntry)
      requires Valid() && key in entries && entries[key] == entry
      modifies this`view, entry
      ensures var e := old(entry.Record()).(expired := true);
              entry.Record() == e && Valid() && view == old(view).(entries := old(view).entries[key := e])
    {
      assert ValidBut(key);
      entry.Expire();
      Refresh(key, entry);
    }

    method WriteTimer(key: Key, entry: SecurityContextEntry, t: Timer)
      requires Valid() && key in entries && entries[key] == entry
      modifies this`view, entry
      ensures Valid() && view == old(view).(entries := old(view).entries[key := old(entry.Record()).(timer := t)])
    {
      assert ValidBut(key);
      entry.SetTimer(t);
      Refresh(key, entry);
    }

    /** A callback is launched. */
    ghost method Launch(key: Key, id: EntryId)
      requires Valid()
      modifies this`view
      ensures Valid() && view == old(view).(pending := old(view).pending + multiset{(key, id)})
    {
      SetView(view.(pending := view.pending + multiset{(key, id)}));
    }

    /** `entry.timer = nil`: an armed timer is dropped without being stopped. */
    method ForgetTimer(key: Key, entry: SecurityContextEntry)
      requires Valid() && key in entries && entries[key] == entry
      modifies this`view, entry
      ensures Valid()
      ensures var e := old(entry.Record());
              view == old(view).(
                entries := old(view).entries[key := e.(timer := NoTimer)],
                pending := if e.timer.Armed? then old(view).pending + multiset{(key, entry.id)} else old(view).pending)
    {
      ghost var dropped := entry.timer;
      WriteTimer(key, entry, NoTimer);
      if dropped.Armed? { Launch(key, entry.id); }
    }

    method ExpireLocked(key: Key, entry: SecurityContextEntry, r: Readings)
      requires Valid() && entry.id < |roster| && roster[entry.id] == entry
      modifies this, entry
      ensures Valid() && roster == old(roster) && entries.Values <= old(entries.Values)
      ensures view == ExpireEntry(config, old(view), key, entry.id, r)
    {
      if key !in entries || entries[key] != entry {
        return;
      }
      var lifetimeExpired := r.now - entry.created >= config.maxLifetime;
      var idleExpired := entry.references == 0 && r.now - entry.lastUsed >= config.idleTimeout;
      ghost var before, was := view.entries, entry.Record();
      assert was == before[key];
      if lifetimeExpired { MarkExpired(key, entry); }
      if entry.references == 0 && (lifetimeExpired || idleExpired) {
        RemoveLocked(key, entry);
        Rewritten(before, key, was.(expired := true), was);
      } else if entry.expired {
        Rewritten(before, key, was.(expired := true), was.(expired := true, timer := NoTimer));
        ForgetTimer(key, entry);
      } else {
        RescheduleLocked(key, entry, r);
      }
    }

    /** `expire`, run by a timer of the entry that was armed under `key`. */
    method RunCallback(key: Key, entry: SecurityContextEntry, r: Readings)
      requires Valid() && entry.id < |roster| && roster[entry.id] == entry
      modifies this, entry
      ensures Valid() && roster == old(roster) && entries.Values <= old(entries.Values)
      ensures view == PoolModel.Expire(config, old(view), key, entry.id, r)
    {
      view := view.(pending := view.pending - multiset{(key, entry.id)});
      ExpireLocked(key, entry, r);
    }

    /** One iteration of the loop of `close`. */
    method CloseOne(key: Key)
      requires Valid() && key in entries
      modifies this, entries.Values
      ensures Valid() && roster == old(roster) && entries == old(entries) - {key}
      ensures view == Remove(old(view), key)
    {
      RemoveLocked(key, entries[key]);
    }

    method RemoveAllLocked() returns (ghost order: seq<Key>)
      requires Valid()
      modifies this, entries.Values
      ensures Valid() && roster == old(roster) && entries == map[]
      ensures Visits(order, old(entries.Keys)) && view == RemoveAll(old(view), order)
    {
      order := [];
      var todo := entries.Keys;
      while todo != {}
        invariant Valid() && roster == old(roster)
        invariant todo == entries.Keys && entries.Values <= old(entries.Values)
        invariant todo <= old(entries.Keys) && Visits(order, old(entries.Keys) - todo)
        invariant view == RemoveAll(old(view), order)
        decreases todo
      {
        var key :| key in todo;
        RemoveAllSnoc(old(view), order, key);
        VisitsMore(order, old(entries.Keys), todo, key);
        CloseOne(key);
        todo, order := todo - {key}, order + [key];
      }
    }

    /** `close`. */
    method CloseLocked() returns (ghost order: seq<Key>)
      requires Valid()
      modifies this, entries.Values
      ensures Valid() && roster == old(roster) && entries == map[]
      ensures Visits(order, old(entries.Keys)) && view == ClosePool(old(view), order)
    {
      stopping := true;
      view := view.(stopping := true);
      order := RemoveAllLocked();
    }

    // ----- the pool's own methods -----------------------------------------------------------

    /**
     The object's state is one that a run of a new pool reaches, so everything that
     `PoolGuarantees` proves of such states holds of it before and after every call.
     */
    ghost predicate Ready()
      reads this, entries.Values
    {
      Valid() && Reachable(config, view)
    }

    /** Time passes, and trackers observe credentials. */
    ghost method Observe(trackers: seq<seq<Key>>, clock: int)
      requires Valid()
      modifies this`view
      ensures Valid() && view == old(view).(trackers := trackers, clock := clock)
    {
      SetView(view.(trackers := trackers, clock := clock));
    }

    method AcquireNow(key: Key, identity: Identity, seen: map<Key, nat>, connected: bool, r: Readings,
                      ghost trackers: seq<seq<Key>>)
      returns (outcome: Outcome, lease: SecurityContextLease?, ghost scan: seq<Key>, ghost sweep: seq<Key>)
      requires Valid() && entries.Keys <= seen.Keys && (stopping ==> entries == map[])
      modifies this, entries.Values
      ensures Valid() && roster == old(roster) && entries.Values <= old(entries.Values)
      ensures Visits(scan, old(entries.Keys)) && Visits(sweep, Remaining(old(view).entries, seen) - {key})
      ensures forall k <- scan :: k in seen
      ensures (view, outcome) == PoolModel.Acquire(config, old(view).(trackers := trackers, clock := r.armed),
                                                   Lookup(key, identity, seen, scan, sweep, connected, r))
      ensures outcome.Granted? <==> lease != null
      ensures lease != null ==> fresh(lease) && Handed(lease, |old(view).leases|) && lease.entry in old(entries.Values)
    {
      Observe(trackers, r.armed);
      outcome, lease, scan, sweep := AcquireLocked(key, identity, seen, connected, r);
    }

    /** The entry may be handed out: unexpired, of the generation the scan read, and young enough. */
    predicate Usable(entry: SecurityContextEntry, key: Key, seen: map<Key, nat>, now: int)
      reads entry
    {
      !entry.expired && key in seen && entry.generation == seen[key] && now - entry.created < config.maxLifetime
    }

    method AcquireStep(key: Key, identity: Identity, seen: map<Key, nat>, connected: bool, r: Readings,
                       ghost trackers: seq<seq<Key>>)
      returns (outcome: Outcome, lease: SecurityContextLease?, ghost a: Lookup)
      requires Ready() && Brings(view, key, identity, seen, r, trackers)
      modifies this, entries.Values
      ensures Ready() && roster == old(roster) && entries.Values <= old(entries.Values)
      ensures a == Lookup(key, identity, seen, a.scan, a.sweep, connected, r) && LookupEnabled(old(view), a, trackers)
      ensures (view, outcome) == LookUp(config, old(view), a, trackers) && old(view).leases <= view.leases
      ensures view.clock == r.armed && view.trackers == trackers
      ensures outcome.Granted? <==> lease != null
      ensures lease != null ==> fresh(lease) && Handed(lease, |old(view).leases|) && lease.entry in old(entries.Values)
    {
      ghost var before := view;
      if stopping { ClosedIsEmpty(config, view); }
      ghost var scan: seq<Key>, sweep: seq<Key>;
      outcome, lease, scan, sweep := AcquireNow(key, identity, seen, connected, r, trackers);
      a := Lookup(key, identity, seen, scan, sweep, connected, r);
      LookupReachable(config, before, a, trackers);
    }

    /**
     The critical section of `acquire`, as a step of the run.  It grants exactly
     when a usable, connected entry is pooled under the key.  A lease that it grants
     is a new object of that entry, which has one more reference and was used now;
     the leases handed out before stay.
     */
    method Acquire(key: Key, identity: Identity, seen: map<Key, nat>, connected: bool, r: Readings,
                   ghost trackers: seq<seq<Key>>)
      returns (outcome: Outcome, lease: SecurityContextLease?, ghost a: Lookup)
      requires Ready() && Brings(view, key, identity, seen, r, trackers)
      modifies this, entries.Values
      ensures Ready() && roster == old(roster) && entries.Values <= old(entries.Values)
      ensures a == Lookup(key, identity, seen, a.scan, a.sweep, connected, r) && LookupEnabled(old(view), a, trackers)
      ensures (view, outcome) == LookUp(config, old(view), a, trackers) && old(view).leases <= view.leases
      ensures view.clock == r.armed && view.trackers == trackers
      ensures outcome.Granted? <==>
                !old(stopping) && connected && key in old(entries) && old(Usable(entries[key], key, seen, r.now))
      ensures outcome.Granted? <==> lease != null
      ensures lease != null ==> fresh(lease) && Handed(lease, |old(view).leases|)
      ensures lease != null ==>
                && lease.entry == old(entries)[key] && lease.entry.lastUsed == r.now
                && lease.entry.references == old(entries[key].references) + 1
    {
      ghost var before := view;
      outcome, lease, a := AcquireStep(key, identity, seen, connected, r, trackers);
      LookupOutcome(config, before, a, trackers);
      if lease != null { GrantLeaves(config, before, a, trackers, view); }
    }

    /** `pool.connect` returns for attempt `a`. */
    method Dial(a: nat, ok: bool)
      requires Ready() && a < |attempts| && attempts[a].phase == Dialing
      modifies this`view, this`attempts, this`dialled
      ensures Ready() && view == PoolModel.Dial(old(view), a, ok)
    {
      ReachableStep(config, view, DialStep(a, ok));
      DialLocked(a, ok);
    }

    method DialLocked(a: nat, ok: bool)
      requires Valid() && a < |attempts|
      modifies this`view, this`attempts, this`dialled
      ensures Valid() && view == PoolModel.Dial(old(view), a, ok)
    {
      attempts := attempts[a := attempts[a].(phase := if ok then Dialed(dialled) else DialFailed)];
      if ok { dialled := dialled + 1; }
      SetView(PoolModel.Dial(view, a, ok));
    }

    /** The critical section of `connectContext`, as a step of the run; an entry it stores is a new object. */
    method Commit(a: nat, key: Key, generation: nat, r: Readings, ghost trackers: seq<seq<Key>>)
      requires Ready() && Enabled(view, CommitStep(a, key, generation, trackers, r))
      modifies this
      ensures Ready() && old(roster) <= roster && fresh(entries.Values - old(entries.Values))
      ensures view == Apply(config, old(view), CommitStep(a, key, generation, trackers, r))
              && view.leases == old(view).leases
    {
      ghost var before := view;
      Observe(trackers, r.armed);
      CommitLocked(a, key, generation, r);
      ReachableStep(config, before, CommitStep(a, key, generation, trackers, r));
    }

    /** A lease's release function, as a step of the run; every other lease stays as it is. */
    method Release(lease: SecurityContextLease, ghost l: nat, r: Readings)
      requires Ready() && Handed(lease, l) && Ordered(view.clock, r)
      modifies this, lease, lease.entry
      ensures Ready() && Handed(lease, l) && lease.released && roster == old(roster)
              && entries.Values <= old(entries.Values)
      ensures view == Apply(config, old(view), ReleaseStep(l, r))
      ensures view.leases == old(view).leases[l := old(view).leases[l].(released := true)]
    {
      ghost var before := view;
      Observe(view.trackers, r.armed);
      ReleaseOnce(lease, l, r);
      ReleaseLeases(config, before.(clock := r.armed), l, r);
      ReachableStep(config, before, ReleaseStep(l, r));
    }

    /** The timer of a pooled entry fires: its callback is launched. */
    method Fire(key: Key)
      requires Ready() && key in entries && entries[key].timer.Armed?
      modifies this`view, entries[key]
      ensures Ready() && view == PoolModel.Fire(old(view), key)
    {
      ReachableStep(config, view, FireStep(key));
      FireTimer(key, entries[key]);
    }

    method FireTimer(key: Key, entry: SecurityContextEntry)
      requires Valid() && key in entries && entries[key] == entry
      modifies this`view, entry
      ensures Valid() && view == PoolModel.Fire(old(view), key)
    {
      WriteTimer(key, entry, Spent);
      Launch(key, entry.id);
    }

    /** A launched callback runs `expire` on the entry it captured, as a step of the run. */
    method Expire(key: Key, entry: SecurityContextEntry, r: Readings)
      requires Ready() && entry.id < |roster| && roster[entry.id] == entry
      requires (key, entry.id) in view.pending && Ordered(view.clock, r)
      modifies this, entry
      ensures Ready() && roster == old(roster) && entries.Values <= old(entries.Values)
      ensures view == Apply(config, old(view), ExpireStep(key, entry.id, r)) && view.leases == old(view).leases
    {
      ghost var before := view;
      Observe(view.trackers, r.armed);
      RunCallback(key, entry, r);
      ReachableStep(config, before, ExpireStep(key, entry.id, r));
    }

    /** `close`, as a step of the run. */
    method Close() returns (ghost order: seq<Key>)
      requires Ready()
      modifies this, entries.Values
      ensures Ready() && roster == old(roster) && entries == map[] && stopping
      ensures Visits(order, old(entries.Keys)) && view == ClosePool(old(view), order) && view.leases == old(view).leases
    {
      ghost var before := view;
      order := CloseLocked();
      CloseReachable(config, before, order);
    }

    /** The environment moves on. */
    ghost method Pass(trackers: seq<seq<Key>>, clock: int)
      requires Ready() && Extends(view.trackers, trackers) && view.clock <= clock
      modifies this`view
      ensures Ready() && view == old(view).(trackers := trackers, clock := clock)
    {
      ReachableStep(config, view, EnvironmentStep(clock, trackers));
      Observe(trackers, clock);
    }
  }
}
