/** Profile inheritance as values: the chain of `extends` names and the fold of the merge along it. */
module ProfileChains {
  import opened Wrappers
  import opened ProfileModel

  datatype ProfileValue = ProfileValue(name: string, extends_: string, route: RouteValue)

  type Profiles = map<string, ProfileValue>

  /** Each profile extends the next, and the last extends none. */
  predicate IsChain(profiles: Profiles, chain: seq<string>) {
    && chain != [] && chain[0] in profiles
    && (if |chain| == 1 then profiles[chain[0]].extends_ == ""
        else profiles[chain[0]].extends_ == chain[1] && chain[1] != "" && IsChain(profiles, chain[1..]))
  }

  /** The merges down a chain, from the last ancestor to the first name. */
  function Fold(profiles: Profiles, chain: seq<string>): Result<RouteValue, MergeError>
    requires IsChain(profiles, chain)
  {
    var route := profiles[chain[0]].route;
    if |chain| == 1 then Merge(NoRoute(), route)
    else
      match Fold(profiles, chain[1..])
      case Err(e) => Err(e)
      case Ok(base) => Merge(base, route)
  }

  /** The profile has a finite chain of known ancestors, and merging down it gives `r`. */
  ghost predicate Inherits(profiles: Profiles, name: string, r: RouteValue) {
    exists chain :: IsChain(profiles, chain) && chain[0] == name && Fold(profiles, chain) == Ok(r)
  }

  ghost predicate Resolvable(profiles: Profiles, name: string) {
    exists r :: Inherits(profiles, name, r)
  }

  lemma {:induction false} ChainUnique(profiles: Profiles, a: seq<string>, b: seq<string>)
    requires IsChain(profiles, a) && IsChain(profiles, b) && a[0] == b[0]
    ensures a == b
  {
    if |a| > 1 && |b| > 1 {
      ChainUnique(profiles, a[1..], b[1..]);
      assert a == [a[0]] + a[1..] && b == [b[0]] + b[1..];
    }
  }

  /** What a profile inherits is determined. */
  lemma InheritsUnique(profiles: Profiles, name: string, r: RouteValue, r': RouteValue)
    requires Inherits(profiles, name, r) && Inherits(profiles, name, r')
    ensures r == r'
  {
    var a :| IsChain(profiles, a) && a[0] == name && Fold(profiles, a) == Ok(r);
    var b :| IsChain(profiles, b) && b[0] == name && Fold(profiles, b) == Ok(r');
    ChainUnique(profiles, a, b);
  }

  /** A profile without a parent is merged onto nothing. */
  lemma InheritsRoot(profiles: Profiles, name: string, r: RouteValue)
    requires name in profiles && profiles[name].extends_ == ""
    ensures Inherits(profiles, name, r) <==> Merge(NoRoute(), profiles[name].route) == Ok(r)
  {
    var chain := [name];
    assert IsChain(profiles, chain);
    if Inherits(profiles, name, r) {
      var a :| IsChain(profiles, a) && a[0] == name && Fold(profiles, a) == Ok(r);
      ChainUnique(profiles, a, chain);
    }
  }

  /** A profile with a parent is merged onto what the parent inherits. */
  lemma InheritsParent(profiles: Profiles, name: string, base: RouteValue, r: RouteValue)
    requires name in profiles && profiles[name].extends_ != "" && Inherits(profiles, profiles[name].extends_, base)
    ensures Inherits(profiles, name, r) <==> Merge(base, profiles[name].route) == Ok(r)
  {
    var a :| IsChain(profiles, a) && a[0] == profiles[name].extends_ && Fold(profiles, a) == Ok(base);
    var chain := [name] + a;
    assert chain[1..] == a;
    assert IsChain(profiles, chain);
    if Inherits(profiles, name, r) {
      var b :| IsChain(profiles, b) && b[0] == name && Fold(profiles, b) == Ok(r);
      ChainUnique(profiles, b, chain);
    }
  }

  /** A profile whose parent cannot be resolved cannot be resolved either. */
  lemma ParentNeeded(profiles: Profiles, name: string)
    requires name in profiles && profiles[name].extends_ != "" && Resolvable(profiles, name)
    ensures Resolvable(profiles, profiles[name].extends_)
  {
    var r :| Inherits(profiles, name, r);
    var chain :| IsChain(profiles, chain) && chain[0] == name && Fold(profiles, chain) == Ok(r);
    var rest := chain[1..];
    assert IsChain(profiles, rest) && rest[0] == profiles[name].extends_;
    assert Fold(profiles, rest).Ok?;
    assert Inherits(profiles, profiles[name].extends_, Fold(profiles, rest).value);
  }

  /** The names on the stack of a resolution: each extends the next, and the last extends `name`. */
  predicate Descends(profiles: Profiles, stack: seq<string>, name: string) {
    && (forall i :: 0 <= i < |stack| ==> stack[i] in profiles && profiles[stack[i]].extends_ != "")
    && (forall i :: 0 <= i < |stack| - 1 ==> profiles[stack[i]].extends_ == stack[i + 1])
    && (stack != [] ==> profiles[stack[|stack| - 1]].extends_ == name)
  }

  /** From a set of names that all extend one another there is no way out. */
  lemma {:induction false} NoWayOut(profiles: Profiles, names: set<string>, chain: seq<string>)
    requires IsChain(profiles, chain)
    requires forall n <- names :: n in profiles && profiles[n].extends_ != "" && profiles[n].extends_ in names
    ensures chain[0] !in names
  {
    if |chain| > 1 { NoWayOut(profiles, names, chain[1..]); }
  }

  /** A name that comes up again while it is being resolved is on a cycle, so it has no finite chain. */
  lemma CycleUnresolvable(profiles: Profiles, stack: seq<string>, name: string)
    requires Descends(profiles, stack, name) && name in stack
    ensures !Resolvable(profiles, name)
  {
    var i :| 0 <= i < |stack| && stack[i] == name;
    var names := set k | i <= k < |stack| :: stack[k];
    forall n | n in names ensures n in profiles && profiles[n].extends_ != "" && profiles[n].extends_ in names {
      var k :| i <= k < |stack| && stack[k] == n;
      if k + 1 < |stack| { assert stack[k + 1] in names; } else { assert stack[i] in names; }
    }
    assert stack[i] in names;
    if Resolvable(profiles, name) {
      var r :| Inherits(profiles, name, r);
      var chain :| IsChain(profiles, chain) && chain[0] == name && Fold(profiles, chain) == Ok(r);
      NoWayOut(profiles, names, chain);
    }
  }

  // ----- why a profile does not resolve -------------------------------------------------------

  datatype ResolveError =
    | UnknownProfile(name: string)
    | Cycle(name: string)
    | MergeFailed(name: string, error: MergeError)

  lemma Unknown(profiles: Profiles, name: string)
    requires name !in profiles
    ensures !Resolvable(profiles, name)
  {
  }

  lemma DescendsNext(profiles: Profiles, stack: seq<string>, name: string)
    requires Descends(profiles, stack, name) && name in profiles && profiles[name].extends_ != ""
    ensures Descends(profiles, stack + [name], profiles[name].extends_)
  {
  }

  function StackSet(stack: seq<string>): set<string> {
    set n | n in stack
  }

  lemma StackGrows(stack: seq<string>, name: string, known: set<string>)
    requires name !in stack && name in known
    ensures known - StackSet(stack + [name]) < known - StackSet(stack)
  {
    assert name in StackSet(stack + [name]);
    assert name in known - StackSet(stack);
  }

  /** A failed or successful merge onto what the parent inherits settles the profile. */
  lemma Settles(profiles: Profiles, name: string, base: RouteValue, merged: Result<RouteValue, MergeError>)
    requires name in profiles && merged == Merge(base, profiles[name].route)
    requires if profiles[name].extends_ == "" then base == NoRoute()
             else Inherits(profiles, profiles[name].extends_, base)
    ensures if merged.Ok? then Inherits(profiles, name, merged.value) else !Resolvable(profiles, name)
  {
    forall r ensures Inherits(profiles, name, r) <==> merged == Ok(r) {
      if profiles[name].extends_ == "" { InheritsRoot(profiles, name, r); }
        else { InheritsParent(profiles, name, base, r); }
    }
  }

  lemma Orphan(profiles: Profiles, name: string)
    requires name in profiles && profiles[name].extends_ != "" && !Resolvable(profiles, profiles[name].extends_)
    ensures !Resolvable(profiles, name)
  {
    if Resolvable(profiles, name) { ParentNeeded(profiles, name); }
  }

  /** Where a resolution began that has come to `name` by way of `stack`. */
  function Start(stack: seq<string>, name: string): string {
    if stack == [] then name else stack[0]
  }

  predicate Distinct(names: seq<string>) {
    forall i, j :: 0 <= i < j < |names| ==> names[i] != names[j]
  }

  /** Following `extends` from `from` through the different names on `path` leads to `to`. */
  predicate Leads(profiles: Profiles, from: string, path: seq<string>, to: string) {
    Descends(profiles, path, to) && Distinct(path) && Start(path, to) == from
  }

  /** What a profile's own route is merged onto. */
  ghost predicate Onto(profiles: Profiles, name: string, base: RouteValue)
    requires name in profiles
  {
    if profiles[name].extends_ == "" then base == NoRoute() else Inherits(profiles, profiles[name].extends_, base)
  }

  ghost predicate FailsOnto(profiles: Profiles, name: string, base: RouteValue, error: MergeError)
    requires name in profiles
  {
    Onto(profiles, name, base) && Merge(base, profiles[name].route) == Err(error)
  }

  /** What the error says is true of the name that it gives. */
  ghost predicate Met(profiles: Profiles, path: seq<string>, error: ResolveError) {
    match error
    case UnknownProfile(n) => n !in profiles
    case Cycle(n) => n in path
    case MergeFailed(n, e) => n in profiles && exists base :: FailsOnto(profiles, n, base, e)
  }

  /**
   The error is the cause why `name` does not resolve: following `extends` from it
   leads to an unknown name, back to a name already passed, or to a profile whose
   merge onto what it inherits fails.
   */
  ghost predicate Fault(profiles: Profiles, name: string, error: ResolveError) {
    exists path :: Leads(profiles, name, path, error.name) && Met(profiles, path, error)
  }

  lemma DescendsRest(profiles: Profiles, path: seq<string>, to: string)
    requires path != [] && Descends(profiles, path, to)
    ensures path[0] in profiles && profiles[path[0]].extends_ != ""
    ensures Descends(profiles, path[1..], to) && Start(path[1..], to) == profiles[path[0]].extends_
  {
  }

  /** What a resolvable profile leads to is resolvable. */
  lemma {:induction false} AncestorResolvable(profiles: Profiles, name: string, path: seq<string>, to: string)
    requires Descends(profiles, path, to) && Start(path, to) == name && Resolvable(profiles, name)
    ensures Resolvable(profiles, to)
    decreases |path|
  {
    if path != [] {
      DescendsRest(profiles, path, to);
      ParentNeeded(profiles, name);
      AncestorResolvable(profiles, profiles[name].extends_, path[1..], to);
    }
  }

  lemma MetUnresolvable(profiles: Profiles, path: seq<string>, error: ResolveError)
    requires Descends(profiles, path, error.name) && Met(profiles, path, error)
    ensures !Resolvable(profiles, error.name)
  {
    match error
    case UnknownProfile(n) => Unknown(profiles, n);
    case Cycle(n) => CycleUnresolvable(profiles, path, n);
    case MergeFailed(n, e) =>
      var base :| FailsOnto(profiles, n, base, e);
      Settles(profiles, n, base, Err(e));
  }

  /** A fault met at the end of a way is one of the name where the way starts. */
  lemma FaultHere(profiles: Profiles, stack: seq<string>, error: ResolveError)
    requires Descends(profiles, stack, error.name) && Distinct(stack) && Met(profiles, stack, error)
    ensures Fault(profiles, Start(stack, error.name), error) && !Resolvable(profiles, error.name)
  {
    assert Leads(profiles, Start(stack, error.name), stack, error.name);
    MetUnresolvable(profiles, stack, error);
  }

  lemma FaultUnresolvable(profiles: Profiles, name: string, error: ResolveError)
    requires Fault(profiles, name, error)
    ensures !Resolvable(profiles, name)
  {
    var path :| Leads(profiles, name, path, error.name) && Met(profiles, path, error);
    MetUnresolvable(profiles, path, error);
    if Resolvable(profiles, name) { AncestorResolvable(profiles, name, path, error.name); }
  }

  /** An unresolvable profile leads to a fault: the search that finds it. */
  lemma {:induction false} FindFault(profiles: Profiles, stack: seq<string>, name: string) returns (error: ResolveError)
    requires Descends(profiles, stack, name) && Distinct(stack) && !Resolvable(profiles, name)
    ensures Fault(profiles, Start(stack, name), error)
    decreases profiles.Keys - StackSet(stack)
  {
    if name !in profiles {
      error := UnknownProfile(name);
    } else if name in stack {
      error := Cycle(name);
    } else if profiles[name].extends_ != "" && !Resolvable(profiles, profiles[name].extends_) {
      DescendsNext(profiles, stack, name);
      StackGrows(stack, name, profiles.Keys);
      error := FindFault(profiles, stack + [name], profiles[name].extends_);
      return;
    } else {
      error := MergeFault(profiles, name);
    }
    assert Leads(profiles, Start(stack, name), stack, name) && Met(profiles, stack, error);
  }

  /** The merge of an unresolvable profile fails if its parent resolves. */
  lemma MergeFault(profiles: Profiles, name: string) returns (error: ResolveError)
    requires name in profiles && !Resolvable(profiles, name)
    requires profiles[name].extends_ != "" ==> Resolvable(profiles, profiles[name].extends_)
    ensures error.MergeFailed? && error.name == name && Met(profiles, [], error)
  {
    var base: RouteValue;
    if profiles[name].extends_ == "" {
      base := NoRoute();
    } else {
      base :| Inherits(profiles, profiles[name].extends_, base);
    }
    var merged := Merge(base, profiles[name].route);
    Settles(profiles, name, base, merged);
    error := MergeFailed(name, merged.error);
    assert FailsOnto(profiles, name, base, merged.error);
  }

  /** A profile does not resolve if and only if there is a cause. */
  lemma UnresolvableIff(profiles: Profiles, name: string)
    ensures !Resolvable(profiles, name) <==> exists error :: Fault(profiles, name, error)
  {
    if !Resolvable(profiles, name) { var error := FindFault(profiles, [], name); }
    if error :| Fault(profiles, name, error) { FaultUnresolvable(profiles, name, error); }
  }

  /** Of two ways that start alike, the shorter is the beginning of the longer. */
  lemma {:induction false} OneWay(profiles: Profiles, p: seq<string>, n: string, q: seq<string>, m: string)
    requires Descends(profiles, p, n) && Descends(profiles, q, m) && Start(p, n) == Start(q, m) && |p| <= |q|
    ensures p + [n] == (q + [m])[..|p| + 1]
    decreases |p|
  {
    if p == [] {
      assert (q + [m])[0] == n;
    } else {
      DescendsRest(profiles, p, n);
      DescendsRest(profiles, q, m);
      OneWay(profiles, p[1..], n, q[1..], m);
      assert p[0] == q[0] && p == [p[0]] + p[1..] && q == [q[0]] + q[1..];
      assert (q + [m])[..|p| + 1] == [q[0]] + (q[1..] + [m])[..|p|];
    }
  }

  /** A profile whose merge failed leads to no other fault: its parent resolves. */
  lemma MergeIsLast(profiles: Profiles, path: seq<string>, n: string, e: MergeError, rest: seq<string>,
                    error: ResolveError)
    requires Met(profiles, path, MergeFailed(n, e)) && rest != [] && rest[0] == n
    requires Descends(profiles, rest, error.name)
    ensures Resolvable(profiles, error.name)
  {
    var base :| FailsOnto(profiles, n, base, e);
    DescendsRest(profiles, rest, error.name);
    assert Inherits(profiles, profiles[n].extends_, base);
    AncestorResolvable(profiles, profiles[n].extends_, rest[1..], error.name);
  }

  lemma DescendsFrom(profiles: Profiles, path: seq<string>, k: nat, to: string)
    requires k < |path| && Descends(profiles, path, to)
    ensures Descends(profiles, path[k..], to) && path[k..] != [] && path[k..][0] == path[k]
    ensures path[k] in profiles
  {
  }

  /** A fault is met on a way that goes on only if it is a failed merge, and then what follows resolves. */
  lemma PassedFault(profiles: Profiles, a: ResolveError, way: seq<string>, k: nat, b: ResolveError)
    requires k < |way| && way[k] == a.name && Descends(profiles, way, b.name) && Distinct(way)
    requires Met(profiles, way[..k], a)
    ensures Resolvable(profiles, b.name)
  {
    DescendsFrom(profiles, way, k, b.name);
    assert a.name !in way[..k];
    if a.MergeFailed? { MergeIsLast(profiles, way[..k], a.name, a.error, way[k..], b); }
  }

  /** The first fault met ends every resolution: two ways from one name to a fault are the same. */
  lemma FaultIsLast(profiles: Profiles, name: string, p: seq<string>, a: ResolveError, q: seq<string>, b: ResolveError)
    requires Leads(profiles, name, p, a.name) && Met(profiles, p, a) && Leads(profiles, name, q, b.name)
    requires Met(profiles, q, b) && |p| <= |q|
    ensures p == q && a.name == b.name
  {
    OneWay(profiles, p, a.name, q, b.name);
    FrontOf(p, a.name, q, b.name);
    MetUnresolvable(profiles, q, b);
    if |p| < |q| { PassedFault(profiles, a, q, |p|, b); }
  }

  lemma FrontOf(p: seq<string>, n: string, q: seq<string>, m: string)
    requires |p| <= |q| && p + [n] == (q + [m])[..|p| + 1]
    ensures p == q[..|p|] && n == if |p| < |q| then q[|p|] else m
  {
    assert (p + [n])[|p|] == n && (p + [n])[..|p|] == p;
    assert (q + [m])[..|p| + 1][..|p|] == q[..|p|] && (q + [m])[..|p| + 1][|p|] == (q + [m])[|p|];
  }

  /** The cause is determined by the profile: no other error is true of it. */
  lemma FaultUnique(profiles: Profiles, name: string, a: ResolveError, b: ResolveError)
    requires Fault(profiles, name, a) && Fault(profiles, name, b)
    ensures a == b
  {
    var p :| Leads(profiles, name, p, a.name) && Met(profiles, p, a);
    var q :| Leads(profiles, name, q, b.name) && Met(profiles, q, b);
    if |p| <= |q| { FaultIsLast(profiles, name, p, a, q, b); } else { FaultIsLast(profiles, name, q, b, p, a); }
    SamePlace(profiles, p, a, b);
  }

  lemma SamePlace(profiles: Profiles, path: seq<string>, a: ResolveError, b: ResolveError)
    requires Descends(profiles, path, a.name) && a.name == b.name && Met(profiles, path, a) && Met(profiles, path, b)
    ensures a == b
  {
    if a.Cycle? && b.MergeFailed? { CycleMerges(profiles, path, a.name, b.error); }
    if b.Cycle? && a.MergeFailed? { CycleMerges(profiles, path, a.name, a.error); }
    if a.MergeFailed? && b.MergeFailed? {
      var x :| FailsOnto(profiles, a.name, x, a.error);
      var y :| FailsOnto(profiles, a.name, y, b.error);
      if profiles[a.name].extends_ != "" { InheritsUnique(profiles, profiles[a.name].extends_, x, y); }
    }
  }

  /** No merge takes place on a cycle. */
  lemma CycleMerges(profiles: Profiles, path: seq<string>, n: string, e: MergeError)
    requires Descends(profiles, path, n) && n in path
    ensures !Met(profiles, path, MergeFailed(n, e))
  {
    var i :| 0 <= i < |path| && path[i] == n;
    CycleUnresolvable(profiles, path, n);
    if Met(profiles, path, MergeFailed(n, e)) { MergeIsLast(profiles, path, n, e, path[i..], Cycle(n)); }
  }

  // ----- declared routes ----------------------------------------------------------------------

  /** The profiles have acceptable, distinct names and set nothing that is route-specific. */
  ghost predicate ProfilesOk(list: seq<ProfileValue>, validName: string -> bool) {
    && (forall i :: 0 <= i < |list| ==> validName(list[i].name) && Shareable(list[i].route))
    && (forall i, j :: 0 <= i < j < |list| ==> list[i].name != list[j].name)
  }

  predicate Shareable(r: RouteValue) {
    r.name == "" && r.path == "" && GetOr(r.methods, []) == [] && r.profile == ""
  }

  function ByName(list: seq<ProfileValue>): Profiles {
    if list == [] then map[] else ByName(list[..|list| - 1])[list[|list| - 1].name := list[|list| - 1]]
  }

  /** The profiles of a list with distinct names are found by their names, and nothing else is. */
  lemma {:induction false} ByNameIs(list: seq<ProfileValue>)
    requires forall i, j :: 0 <= i < j < |list| ==> list[i].name != list[j].name
    ensures forall i :: 0 <= i < |list| ==> list[i].name in ByName(list) && ByName(list)[list[i].name] == list[i]
    ensures forall name <- ByName(list) :: exists i :: 0 <= i < |list| && list[i].name == name
  {
    if list != [] {
      var front := list[..|list| - 1];
      ByNameIs(front);
      forall i | 0 <= i < |list|
        ensures list[i].name in ByName(list) && ByName(list)[list[i].name] == list[i]
      {
        if i < |front| { assert front[i] == list[i]; }
      }
    }
  }

  /** What a declared route is merged onto. */
  ghost predicate BaseOf(profiles: Profiles, route: RouteValue, base: RouteValue) {
    if route.profile == "" then base == NoRoute() else Inherits(profiles, route.profile, base)
  }

  ghost predicate ResolvesTo(profiles: Profiles, route: RouteValue, out: RouteValue) {
    exists base :: BaseOf(profiles, route, base) && ResolveRoute(base, route) == Ok(out)
  }

  /** The routes a configuration resolves to. */
  ghost predicate ConfigResolvesTo(list: seq<ProfileValue>, routes: seq<RouteValue>, validName: string -> bool,
                                   out: seq<RouteValue>) {
    && ProfilesOk(list, validName)
    && (forall name <- ByName(list) :: Resolvable(ByName(list), name))
    && |out| == |routes|
    && forall i :: 0 <= i < |routes| ==> ResolvesTo(ByName(list), routes[i], out[i])
  }

  lemma ResolvesToUnique(profiles: Profiles, route: RouteValue, a: RouteValue, b: RouteValue)
    requires ResolvesTo(profiles, route, a) && ResolvesTo(profiles, route, b)
    ensures a == b
  {
    var x :| BaseOf(profiles, route, x) && ResolveRoute(x, route) == Ok(a);
    var y :| BaseOf(profiles, route, y) && ResolveRoute(y, route) == Ok(b);
    if route.profile != "" { InheritsUnique(profiles, route.profile, x, y); }
  }

  /** A configuration resolves to one list of routes, whatever order its profiles are resolved in. */
  lemma ConfigUnique(list: seq<ProfileValue>, routes: seq<RouteValue>, validName: string -> bool, a: seq<RouteValue>,
                     b: seq<RouteValue>)
    requires ConfigResolvesTo(list, routes, validName, a) && ConfigResolvesTo(list, routes, validName, b)
    ensures a == b
  {
    forall i | 0 <= i < |routes| ensures a[i] == b[i] { ResolvesToUnique(ByName(list), routes[i], a[i], b[i]); }
  }

  lemma EmittedAgain(profiles: Profiles, route: RouteValue, out: RouteValue)
    requires ResolvesTo(profiles, route, out)
    ensures ResolvesTo(ByName([]), out, out)
  {
    var base :| BaseOf(profiles, route, base) && ResolveRoute(base, route) == Ok(out);
    ResolvedAgain(base, route);
    assert BaseOf(ByName([]), out, NoRoute());
  }

  /** The emitted routes resolve, without any profile, to themselves. */
  lemma EmittedResolveToThemselves(list: seq<ProfileValue>, routes: seq<RouteValue>, validName: string -> bool,
                                   out: seq<RouteValue>)
    requires ConfigResolvesTo(list, routes, validName, out)
    ensures ConfigResolvesTo([], out, validName, out)
  {
    forall i | 0 <= i < |out| ensures ResolvesTo(ByName([]), out[i], out[i]) {
      EmittedAgain(ByName(list), routes[i], out[i]);
    }
  }

  // ----- what is inherited, field by field ----------------------------------------------------

  /** A profile sets, clears and extends what its parent inherits; without a parent, the empty route. */
  lemma ProfileFields(profiles: Profiles, name: string, base: RouteValue, r: RouteValue)
    requires name in profiles && Inherits(profiles, name, r)
    requires if profiles[name].extends_ == "" then base == NoRoute()
             else Inherits(profiles, profiles[name].extends_, base)
    ensures MergedInto(r, base, profiles[name].route)
  {
    if profiles[name].extends_ == "" {
      InheritsRoot(profiles, name, r);
    } else {
      InheritsParent(profiles, name, base, r);
    }
    MergedFields(base, profiles[name].route);
  }

  /** A declared route inherits from the profile that it names, and from that only. */
  lemma RouteFields(profiles: Profiles, route: RouteValue, out: RouteValue, base: RouteValue)
    requires ResolvesTo(profiles, route, out) && route.profile != "" && Inherits(profiles, route.profile, base)
    ensures InheritedFrom(out, base, route)
  {
    var b :| BaseOf(profiles, route, b) && ResolveRoute(b, route) == Ok(out);
    InheritsUnique(profiles, route.profile, b, base);
    ResolvedFields(base, route);
  }

  /** A declared route that names no profile inherits nothing. */
  lemma PlainRouteFields(profiles: Profiles, route: RouteValue, out: RouteValue)
    requires ResolvesTo(profiles, route, out) && route.profile == ""
    ensures InheritedFrom(out, NoRoute(), route)
  {
    ResolvedFields(NoRoute(), route);
  }

  /** The route is the declared one on what its profile, if it names one, inherits. */
  ghost predicate InheritsAs(profiles: Profiles, route: RouteValue, out: RouteValue) {
    if route.profile == "" then InheritedFrom(out, NoRoute(), route)
    else exists base :: Inherits(profiles, route.profile, base) && InheritedFrom(out, base, route)
  }

  lemma ResolvesInherits(profiles: Profiles, route: RouteValue, out: RouteValue)
    requires ResolvesTo(profiles, route, out)
    ensures InheritsAs(profiles, route, out)
  {
    if route.profile == "" {
      PlainRouteFields(profiles, route, out);
    } else {
      var base :| BaseOf(profiles, route, base) && ResolveRoute(base, route) == Ok(out);
      RouteFields(profiles, route, out, base);
    }
  }

  /** On what its profile inherits, a declared route resolves exactly if it can be merged onto it. */
  lemma RouteResolvesIff(profiles: Profiles, route: RouteValue, base: RouteValue)
    requires if route.profile == "" then base == NoRoute() else Inherits(profiles, route.profile, base)
    ensures (exists out :: ResolvesTo(profiles, route, out)) <==> Mergeable(base, route)
  {
    ResolveOkIff(base, route);
    assert BaseOf(profiles, route, base);
    if Mergeable(base, route) {
      assert ResolvesTo(profiles, route, ResolveRoute(base, route).value);
    } else if out :| ResolvesTo(profiles, route, out) {
      var b :| BaseOf(profiles, route, b) && ResolveRoute(b, route) == Ok(out);
      if route.profile != "" { InheritsUnique(profiles, route.profile, b, base); }
    }
  }

  /** A declared route whose profile does not resolve does not resolve. */
  lemma RouteNeedsProfile(profiles: Profiles, route: RouteValue, out: RouteValue)
    requires ResolvesTo(profiles, route, out) && route.profile != ""
    ensures Resolvable(profiles, route.profile)
  {
    var base :| BaseOf(profiles, route, base) && ResolveRoute(base, route) == Ok(out);
    assert Inherits(profiles, route.profile, base);
  }
}
