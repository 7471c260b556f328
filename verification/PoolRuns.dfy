/** Runs of the pool under every interleaving. */
module PoolRuns {
  import opened PoolModel
  import opened PoolInvariant
  import opened PoolPreservation

  /**
   One step of a run.  A critical section carries the trackers as they are when
   it ends: credentials are observed without the pool's lock, so they may move on
   while the section runs.  A timer may fire at any moment, also while a section
   runs whose first clock reading was before the timer was due; such a firing is
   the step before that section.
   */
  datatype Step =
    | AcquireStep(a: Lookup, trackers: seq<seq<Key>>)
    | DialStep(attempt: nat, ok: bool)
    | CommitStep(attempt: nat, key: Key, generation: nat, trackers: seq<seq<Key>>, r: Readings)
    | ReleaseStep(lease: nat, r: Readings)
    | FireStep(key: Key)
    | ExpireStep(key: Key, id: EntryId, r: Readings)
    | CloseStep(order: seq<Key>)
    | EnvironmentStep(clock: int, trackers: seq<seq<Key>>)

  /** A generation read during a section lies between those at its two ends. */
  ghost predicate ReadWithin(before: seq<seq<Key>>, after: seq<seq<Key>>, identity: Identity, g: nat) {
    && ValidIdentity(before, identity) && ValidIdentity(after, identity)
    && CurrentGeneration(before, identity) <= g <= CurrentGeneration(after, identity)
  }

  /** The keys that the rotation scan leaves pooled: an entry in use, or one whose identity did not move on. */
  ghost function Remaining(entries: map<Key, Entry>, seen: map<Key, nat>): set<Key> {
    set k | k in entries && (entries[k].references != 0 || (k in seen && entries[k].generation == seen[k]))
  }

  /**
   A caller whose refresh showed it `a.key` looks the key up; the section's
   rotation scan reads every pooled entry's generation, and an idle sweep, which
   runs only when nothing is pooled under `a.key`, would visit what the scan left.
   */
  ghost predicate LookupEnabled(p: Pool, a: Lookup, trackers: seq<seq<Key>>) {
    && Extends(p.trackers, trackers) && LookupOk(p, a, p.clock)
    && (exists g :: Showed(p.trackers, a.identity, g, a.key))
    && Visits(a.scan, p.entries.Keys) && Visits(a.sweep, Remaining(p.entries, a.seen) - {a.key})
    && forall k <- p.entries :: ReadWithin(p.trackers, trackers, p.entries[k].identity, a.seen[k])
  }

  ghost predicate Enabled(p: Pool, s: Step) {
    match s
    case AcquireStep(a, trackers) => LookupEnabled(p, a, trackers)
    case DialStep(t, _) => t < |p.attempts| && p.attempts[t].phase == Dialing
    case CommitStep(t, k, g, trackers, r) =>
      && Extends(p.trackers, trackers) && Ordered(p.clock, r)
      && t < |p.attempts| && (p.attempts[t].phase.Dialed? || p.attempts[t].phase.DialFailed?)
      && (p.attempts[t].phase.Dialed? ==> p.attempts[t].phase.connection < |p.owners|)
      && ReadWithin(p.trackers, trackers, p.attempts[t].identity, g)
      && Showed(trackers, p.attempts[t].identity, g, k)
    case ReleaseStep(l, r) => l < |p.leases| && Ordered(p.clock, r)
    case FireStep(k) => k in p.entries && p.entries[k].timer.Armed?
    case ExpireStep(k, id, r) => (k, id) in p.pending && Ordered(p.clock, r)
    case CloseStep(order) => Visits(order, p.entries.Keys)
    case EnvironmentStep(clock, trackers) => p.clock <= clock && Extends(p.trackers, trackers)
  }

  /** The lookup's section, by the end of which the trackers have moved on. */
  ghost function LookUp(cfg: Config, p: Pool, a: Lookup, trackers: seq<seq<Key>>): (Pool, Outcome)
    requires LookupEnabled(p, a, trackers)
  {
    Acquire(cfg, p.(trackers := trackers, clock := a.r.armed), a)
  }

  ghost function Apply(cfg: Config, p: Pool, s: Step): Pool
    requires Enabled(p, s)
  {
    match s
    case AcquireStep(a, trackers) => LookUp(cfg, p, a, trackers).0
    case DialStep(t, ok) => Dial(p, t, ok)
    case CommitStep(t, k, g, trackers, r) => Commit(cfg, p.(trackers := trackers, clock := r.armed), t, k, g, r)
    case ReleaseStep(l, r) => Release(cfg, p.(clock := r.armed), l, r)
    case FireStep(k) => Fire(p, k)
    case ExpireStep(k, id, r) => Expire(cfg, p.(clock := r.armed), k, id, r)
    case CloseStep(order) => ClosePool(p, order)
    case EnvironmentStep(clock, trackers) => p.(clock := clock, trackers := trackers)
  }

  /** A new pool: `newSecurityContextPool`. */
  function NewPool(trackers: seq<seq<Key>>, clock: int): Pool {
    Pool(map[], 0, map[], [], [], multiset{}, [], multiset{}, trackers, clock, false)
  }

  /** The run `ss` is possible from `p` and ends in `q`. */
  ghost predicate Reaches(cfg: Config, p: Pool, ss: seq<Step>, q: Pool)
    decreases |ss|
  {
    if ss == [] then p == q else Enabled(p, ss[0]) && Reaches(cfg, Apply(cfg, p, ss[0]), ss[1..], q)
  }

  lemma RunsCons(cfg: Config, p: Pool, s: Step, ss: seq<Step>, q: Pool)
    requires Enabled(p, s) && Reaches(cfg, Apply(cfg, p, s), ss, q)
    ensures Reaches(cfg, p, [s] + ss, q)
  {
    assert ([s] + ss)[0] == s && ([s] + ss)[1..] == ss;
  }

  lemma OneStep(cfg: Config, p: Pool, s: Step)
    requires Enabled(p, s)
    ensures Reaches(cfg, p, [s], Apply(cfg, p, s))
  {
    var q := Apply(cfg, p, s);
    RunsCons(cfg, p, s, [], q);
    assert [s] + [] == [s];
  }

  lemma FirstThenRest<T>(s: seq<T>, t: seq<T>)
    requires s != []
    ensures [s[0]] + (s[1..] + t) == s + t
  {
  }

  lemma {:induction false} RunsJoin(cfg: Config, p: Pool, ss: seq<Step>, q: Pool, ss': seq<Step>, q': Pool)
    requires Reaches(cfg, p, ss, q) && Reaches(cfg, q, ss', q')
    ensures Reaches(cfg, p, ss + ss', q')
    decreases |ss|
  {
    if ss == [] {
      assert ss + ss' == ss';
    } else {
      RunsJoin(cfg, Apply(cfg, p, ss[0]), ss[1..], q, ss', q');
      RunsCons(cfg, p, ss[0], ss[1..] + ss', q');
      FirstThenRest(ss, ss');
    }
  }

  lemma InvIgnoresClock(cfg: Config, p: Pool, clock: int)
    requires Inv(cfg, p)
    ensures Inv(cfg, p.(clock := clock))
  {
  }

  lemma StepKeepsInv(cfg: Config, p: Pool, s: Step)
    requires Inv(cfg, p) && Enabled(p, s)
    ensures Inv(cfg, Apply(cfg, p, s))
  {
    match s
    case AcquireStep(a, trackers) =>
      ObserveKeepsInv(cfg, p, trackers);
      InvIgnoresClock(cfg, p.(trackers := trackers), a.r.armed);
      AcquireKeepsInv(cfg, p.(trackers := trackers, clock := a.r.armed), a, p.clock);
    case DialStep(t, ok) => DialKeepsCore(cfg, p, t, ok);
    case CommitStep(t, k, g, trackers, r) =>
      ObserveKeepsInv(cfg, p, trackers);
      InvIgnoresClock(cfg, p.(trackers := trackers), r.armed);
      CommitKeepsInv(cfg, p.(trackers := trackers, clock := r.armed), t, k, g, r, p.clock);
    case ReleaseStep(l, r) =>
      InvIgnoresClock(cfg, p, r.armed);
      ReleaseKeepsInv(cfg, p.(clock := r.armed), l, r, p.clock);
    case FireStep(k) => FireKeepsInv(cfg, p, k);
    case ExpireStep(k, id, r) =>
      InvIgnoresClock(cfg, p, r.armed);
      ExpireKeepsInv(cfg, p.(clock := r.armed), k, id, r, p.clock);
    case CloseStep(order) => CloseKeepsInv(cfg, p, order);
    case EnvironmentStep(clock, trackers) =>
      ObserveKeepsInv(cfg, p, trackers);
      InvIgnoresClock(cfg, p.(trackers := trackers), clock);
  }

  lemma {:induction false} RunKeepsInv(cfg: Config, p: Pool, ss: seq<Step>, q: Pool)
    requires Inv(cfg, p) && Reaches(cfg, p, ss, q)
    ensures Inv(cfg, q)
    decreases |ss|
  {
    if ss != [] {
      StepKeepsInv(cfg, p, ss[0]);
      RunKeepsInv(cfg, Apply(cfg, p, ss[0]), ss[1..], q);
    }
  }

  /** The invariant holds in every state of every run of a new pool. */
  lemma ReachableInv(cfg: Config, trackers: seq<seq<Key>>, clock: int, ss: seq<Step>, q: Pool)
    requires Reaches(cfg, NewPool(trackers, clock), ss, q)
    ensures Inv(cfg, q)
  {
    RunKeepsInv(cfg, NewPool(trackers, clock), ss, q);
  }
}
