/** The memoised, cycle-detecting resolution of route profiles. */
module RouteProfiles {
  import opened Wrappers
  import opened ProfileModel
  import opened ProfileChains
  import opened RouteShapes
  import opened RouteMerge

  datatype Profile = Profile(name: string, extends_: string, route: Route)

  function ProfileOf(p: Profile): ProfileValue
    reads p.route.tables.methods.store, p.route.tables.requestHeaders.store, p.route.tables.parameters
    reads p.route.tables.response.headers.store, p.route.tables.response.representations.store,
    p.route.tables.response.statuses
    reads p.route.coreSse, p.route.security, if p.route.security == null then null else p.route.security.identity
  {
    ProfileValue(p.name, p.extends_, ValueOf(p.route))
  }

  /** `Route{}`. */
  function EmptyRoute(): Route {
    var none := Slice(null, 0);
    Route.Route(Settings("", "", "", 0, 0, 0, "", "", None, None),
                Tables(none, none, null, Response("", none, "", none, false, null)), null, null)
  }

  lemma EmptyRouteValue()
    ensures ValueOf(EmptyRoute()) == NoRoute()
  {
  }

  predicate Within(o: object?, repr: set<object>) {
    o == null || o in repr
  }

  /** Everything the route refers to is in `repr`. */
  ghost predicate RefsIn(r: Route, repr: set<object>)
    reads repr
  {
    var t, x := r.tables, r.tables.response;
    && Within(t.methods.store, repr) && Within(t.requestHeaders.store, repr) && Within(t.parameters, repr)
    && Within(x.headers.store, repr) && Within(x.representations.store, repr) && Within(x.statuses, repr)
    && Within(r.coreSse, repr) && (r.security != null ==> r.security in repr && Within(r.security.identity, repr))
  }

  /** The profiles hold the values `view`, in storage within `repr`. */
  ghost predicate Holds(profiles: map<string, Profile>, view: Profiles, repr: set<object>)
    reads repr
  {
    && profiles.Keys == view.Keys
    && forall n {:trigger profiles[n]} | n in profiles ::
         RefsIn(profiles[n].route, repr) && ProfileOf(profiles[n]) == view[n]
  }

  /** Every cached route is what its profile inherits, in storage within `repr`. */
  ghost predicate Cached(cache: map<string, Route>, view: Profiles, repr: set<object>)
    reads repr
  {
    forall n <- cache :: RefsIn(cache[n], repr) && Inherits(view, n, ValueOf(cache[n]))
  }

  lemma CachedMore(cache: map<string, Route>, view: Profiles, repr: set<object>, name: string, r: Route,
                   more: set<object>)
    requires Cached(cache, view, repr) && Inherits(view, name, ValueOf(r)) && RefsIn(r, more)
    ensures Cached(cache[name := r], view, repr + more)
  {
  }

  lemma HoldsMore(profiles: map<string, Profile>, view: Profiles, repr: set<object>, more: set<object>)
    requires Holds(profiles, view, repr)
    ensures Holds(profiles, view, repr + more)
  {
  }

  predicate IsVisiting(visiting: map<string, bool>, name: string) {
    name in visiting && visiting[name]
  }

  /** The names marked as being visited are those on the stack. */
  ghost predicate Marks(visiting: map<string, bool>, stack: seq<string>) {
    forall n :: IsVisiting(visiting, n) <==> n in stack
  }

  lemma MarksNext(visiting: map<string, bool>, stack: seq<string>, name: string)
    requires Marks(visiting, stack) && name !in stack
    ensures Marks(visiting[name := true], stack + [name])
    ensures forall n <- stack :: n in stack + [name]
  {
  }

  lemma MarksBack(visiting: map<string, bool>, stack: seq<string>, name: string)
    requires Marks(visiting, stack + [name]) && name !in stack
    ensures Marks(visiting[name := false], stack)
  {
    assert forall n :: n in stack + [name] <==> n in stack || n == name;
  }

  class Resolver {
    const profiles: map<string, Profile>
    var cache: map<string, Route>
    var visiting: map<string, bool>
    ghost const view: Profiles
    ghost var repr: set<object>

    ghost predicate Valid()
      reads this, repr
    {
      this !in repr && Holds(profiles, view, repr) && Cached(cache, view, repr)
    }

    constructor (profiles: map<string, Profile>, ghost view: Profiles, ghost repr: set<object>)
      requires Holds(profiles, view, repr)
      ensures Valid() && this.profiles == profiles && this.view == view && this.repr == repr && cache == map[]
              && visiting == map[]
    {
      this.profiles, this.view, this.repr := profiles, view, repr;
      cache, visiting := map[], map[];
    }

    /**
     `resolveProfile`: what the profile inherits, or an error exactly when it does
     not resolve.  The error is the cause why the profile at which the resolution
     started does not: an unknown name, a cycle or a failing merge that its
     `extends` leads to.
     */
    method ResolveProfile(name: string, ghost stack: seq<string>) returns (r: Result<Route, ResolveError>)
      requires Valid() && Descends(view, stack, name) && Distinct(stack) && Marks(visiting, stack)
      modifies this
      ensures Valid()
      ensures r.Ok? ==> Marks(visiting, stack) && Inherits(view, name, ValueOf(r.value))
      ensures r.Err? ==> !Resolvable(view, name) && Fault(view, Start(stack, name), r.error)
      decreases profiles.Keys - StackSet(stack), 0
    {
      if name in cache { return Ok(cache[name]); }
      if name !in profiles {
        FaultHere(view, stack, UnknownProfile(name));
        return Err(UnknownProfile(name));
      }
      if IsVisiting(visiting, name) {
        FaultHere(view, stack, Cycle(name));
        return Err(Cycle(name));
      }
      MarksNext(visiting, stack, name);
      StackGrows(stack, name, profiles.Keys);
      Mark(name, true);
      r := ResolveNew(name, stack);
    }

    /** What a profile that is not cached is merged onto: nothing, or what its parent inherits. */
    method ResolveBase(name: string, ghost stack: seq<string>) returns (r: Result<Route, ResolveError>)
      requires Valid() && name in profiles && Descends(view, stack, name) && name !in stack && Distinct(stack)
      requires Marks(visiting, stack + [name])
      modifies this
      ensures Valid()
      ensures r.Ok? ==> Marks(visiting, stack + [name]) && Onto(view, name, ValueOf(r.value))
      ensures r.Err? ==> !Resolvable(view, name) && Fault(view, Start(stack, name), r.error)
      decreases profiles.Keys - StackSet(stack + [name]), 1
    {
      assert view[name] == ProfileOf(profiles[name]);
      var extends_ := profiles[name].extends_;
      EmptyRouteValue();
      if extends_ == "" { return Ok(EmptyRoute()); }
      DescendsNext(view, stack, name);
      r := ResolveProfile(extends_, stack + [name]);
      if r.Err? { Orphan(view, name); }
    }

    /** The part of `resolveProfile` for a profile that is not cached: its parent first, then the merge. */
    method ResolveNew(name: string, ghost stack: seq<string>) returns (r: Result<Route, ResolveError>)
      requires Valid() && name in profiles && Descends(view, stack, name) && name !in stack && Distinct(stack)
      requires Marks(visiting, stack + [name])
      modifies this
      ensures Valid()
      ensures r.Ok? ==> Marks(visiting, stack) && Inherits(view, name, ValueOf(r.value))
      ensures r.Err? ==> !Resolvable(view, name) && Fault(view, Start(stack, name), r.error)
      decreases profiles.Keys - StackSet(stack + [name]), 2
    {
      var base := ResolveBase(name, stack);
      if base.Err? { return base; }
      r := Finish(name, base.value, stack);
      if r.Err? { FaultHere(view, stack, r.error); }
    }

    /** The merge of `resolveProfile`; it writes nothing, so the cache still holds what it held. */
    method MergeProfile(name: string, base: Route) returns (r: Result<Route, ResolveError>)
      requires Valid() && name in profiles
      requires Onto(view, name, ValueOf(base))
      ensures r.Ok? ==> Inherits(view, name, ValueOf(r.value)) && fresh(Footprint(r.value))
      ensures r.Err? ==> r.error.MergeFailed? && r.error.name == name && Met(view, [], r.error)
    {
      ghost var b := ValueOf(base);
      assert ProfileOf(profiles[name]) == view[name];
      Settles(view, name, b, Merge(b, view[name].route));
      var merged := MergeRoute(base, profiles[name].route);
      assert merged.Err? ==> FailsOnto(view, name, b, merged.error);
      r := match merged case Ok(v) => Ok(v) case Err(e) => Err(MergeFailed(name, e));
    }

    method Finish(name: string, base: Route, ghost stack: seq<string>) returns (r: Result<Route, ResolveError>)
      requires Valid() && name in profiles && name !in stack && Marks(visiting, stack + [name])
      requires Onto(view, name, ValueOf(base))
      modifies this
      ensures Valid()
      ensures r.Ok? ==> Marks(visiting, stack) && Inherits(view, name, ValueOf(r.value))
      ensures r.Err? ==> r.error.MergeFailed? && r.error.name == name && Met(view, [], r.error)
    {
      r := MergeProfile(name, base);
      if r.Ok? {
        Conclude(name, r.value, stack);
        r := Ok(cache[name]);
      }
    }

    method Conclude(name: string, route: Route, ghost stack: seq<string>)
      requires Valid() && name !in stack && Marks(visiting, stack + [name])
      requires Inherits(view, name, ValueOf(route)) && this !in Footprint(route)
      modifies this
      ensures Valid() && Marks(visiting, stack) && name in cache
    {
      Remember(name, route);
      Unmark(name, stack);
    }

    method Unmark(name: string, ghost stack: seq<string>)
      requires Valid() && name !in stack && Marks(visiting, stack + [name])
      modifies this`visiting
      ensures Valid() && Marks(visiting, stack) && cache == old(cache)
    {
      MarksBack(visiting, stack, name);
      Mark(name, false);
    }

    method Remember(name: string, route: Route)
      requires Valid() && Inherits(view, name, ValueOf(route)) && this !in Footprint(route)
      modifies this`cache, this`repr
      ensures Valid() && cache == old(cache)[name := route] && visiting == old(visiting)
    {
      ghost var more := Footprint(route);
      HoldsMore(profiles, view, repr, more);
      CachedMore(cache, view, repr, name, route, more);
      Commit(name, route, repr + more);
    }

    method Commit(name: string, route: Route, ghost all: set<object>)
      requires Holds(profiles, view, all) && Cached(cache[name := route], view, all) && this !in all
      modifies this`cache, this`repr
      ensures Valid() && cache == old(cache)[name := route] && visiting == old(visiting)
    {
      Store(name, route, all);
    }

    method Set(name: string, on: bool)
      modifies this`visiting
      ensures visiting == old(visiting)[name := on]
    {
      visiting := visiting[name := on];
    }

    method Mark(name: string, on: bool)
      requires Valid()
      modifies this`visiting
      ensures Valid() && visiting == old(visiting)[name := on]
    {
      Set(name, on);
    }

    method Store(name: string, route: Route, ghost all: set<object>)
      modifies this`cache, this`repr
      ensures cache == old(cache)[name := route] && repr == all
    {
      cache := cache[name := route];
      repr := all;
    }
  }

  // ----- the whole configuration --------------------------------------------------------------

  /** The listed profiles hold `values`, in storage within `repr`. */
  ghost predicate ListHolds(list: seq<Profile>, values: seq<ProfileValue>, repr: set<object>)
    reads repr
  {
    |list| == |values| && forall i {:trigger list[i]} :: 0 <= i < |list| ==>
        RefsIn(list[i].route, repr) && ProfileOf(list[i]) == values[i]
  }

  /** The route holds the value, in storage within `repr`. */
  ghost predicate RouteHolds(r: Route, v: RouteValue, repr: set<object>)
    reads repr
  {
    RefsIn(r, repr) && ValueOf(r) == v
  }

  ghost predicate RoutesHold(routes: seq<Route>, values: seq<RouteValue>, repr: set<object>)
    reads repr
  {
    |routes| == |values| && forall i {:trigger RouteHolds(routes[i], values[i], repr)} :: 0 <= i < |routes| ==>
        RouteHolds(routes[i], values[i], repr)
  }

  lemma {:induction false} ByNameHas(values: seq<ProfileValue>, name: string)
    ensures name in ByName(values) <==> exists i :: 0 <= i < |values| && values[i].name == name
  {
    if values != [] {
      var n := |values| - 1;
      ByNameHas(values[..n], name);
      assert forall i :: 0 <= i < n ==> values[..n][i] == values[i];
    }
  }

  method CheckProfile(profile: Profile, validName: string -> bool) returns (ok: bool)
    ensures ok <==> validName(profile.name) && Shareable(ValueOf(profile.route))
  {
    var s := profile.route.settings;
    ok := validName(profile.name) && s.name == "" && s.path == ""
      && GetOr(Items(profile.route.tables.methods), []) == [] && s.profile == "";
  }

  ghost predicate ProfileAccepted(values: seq<ProfileValue>, i: nat, validName: string -> bool)
    requires i < |values|
  {
    validName(values[i].name) && Shareable(values[i].route)
      && forall j :: 0 <= j < i ==> values[j].name != values[i].name
  }

  ghost predicate AcceptedUpTo(values: seq<ProfileValue>, n: nat, validName: string -> bool)
    requires n <= |values|
  {
    forall i :: 0 <= i < n ==> ProfileAccepted(values, i, validName)
  }

  lemma AcceptedNext(values: seq<ProfileValue>, n: nat, validName: string -> bool)
    requires n < |values|
    ensures AcceptedUpTo(values, n + 1, validName)
            <==> AcceptedUpTo(values, n, validName) && ProfileAccepted(values, n, validName)
    ensures !ProfileAccepted(values, n, validName) ==> !AcceptedUpTo(values, |values|, validName)
  {
  }

  lemma ProfilesOkIff(values: seq<ProfileValue>, validName: string -> bool)
    ensures ProfilesOk(values, validName) <==> AcceptedUpTo(values, |values|, validName)
  {
    if AcceptedUpTo(values, |values|, validName) {
      forall i | 0 <= i < |values| ensures validName(values[i].name) && Shareable(values[i].route) {
        assert ProfileAccepted(values, i, validName);
      }
      forall i, j | 0 <= i < j < |values| ensures values[i].name != values[j].name {
        assert ProfileAccepted(values, j, validName);
      }
    }
    if ProfilesOk(values, validName) {
      forall i | 0 <= i < |values| ensures ProfileAccepted(values, i, validName) {
        assert forall j :: 0 <= j < i ==> values[j].name != values[i].name;
      }
    }
  }

  lemma HoldsNext(profiles: map<string, Profile>, view: Profiles, repr: set<object>, p: Profile)
    requires Holds(profiles, view, repr) && RefsIn(p.route, repr)
    ensures Holds(profiles[p.name := p], view[p.name := ProfileOf(p)], repr)
  {
  }

  lemma ByNameNext(values: seq<ProfileValue>, i: nat)
    requires i < |values|
    ensures ByName(values[..i + 1]) == ByName(values[..i])[values[i].name := values[i]]
  {
    assert values[..i + 1][..i] == values[..i];
  }

  lemma NameTaken(values: seq<ProfileValue>, i: nat)
    requires i < |values|
    ensures values[i].name in ByName(values[..i]) <==> !forall j :: 0 <= j < i ==> values[j].name != values[i].name
  {
    ByNameHas(values[..i], values[i].name);
    assert forall k :: 0 <= k < i ==> values[..i][k] == values[k];
  }

  /** The tests of one round: the profile's own shape, and that its name is new. */
  method AcceptProfile(profiles: map<string, Profile>, p: Profile, validName: string -> bool,
                       ghost values: seq<ProfileValue>, ghost i: nat) returns (ok: bool)
    requires i < |values| && profiles.Keys == ByName(values[..i]).Keys && ProfileOf(p) == values[i]
    ensures ok <==> ProfileAccepted(values, i, validName)
  {
    var fine := CheckProfile(p, validName);
    NameTaken(values, i);
    ok := fine && p.name !in profiles;
  }

  lemma AddedHolds(profiles: map<string, Profile>, p: Profile, values: seq<ProfileValue>, i: nat, repr: set<object>)
    requires i < |values| && Holds(profiles, ByName(values[..i]), repr) && RefsIn(p.route, repr)
    requires ProfileOf(p) == values[i]
    ensures Holds(profiles[p.name := p], ByName(values[..i + 1]), repr)
  {
    HoldsNext(profiles, ByName(values[..i]), repr, p);
    ByNameNext(values, i);
  }

  /** One round of the first loop of `resolvedRoutes`. */
  method AddProfile(profiles: map<string, Profile>, p: Profile, validName: string -> bool,
                    ghost values: seq<ProfileValue>, ghost i: nat, ghost repr: set<object>)
    returns (r: Option<map<string, Profile>>)
    requires i < |values| && Holds(profiles, ByName(values[..i]), repr) && RefsIn(p.route, repr)
             && ProfileOf(p) == values[i]
    ensures r.Some? <==> ProfileAccepted(values, i, validName)
    ensures r.Some? ==> Holds(r.value, ByName(values[..i + 1]), repr)
  {
    var ok := AcceptProfile(profiles, p, validName, values, i);
    if !ok { return None; }
    AddedHolds(profiles, p, values, i, repr);
    r := Some(profiles[p.name := p]);
  }

  /** The first loop of `resolvedRoutes`: the profiles by name. */
  method CollectProfiles(list: seq<Profile>, validName: string -> bool, ghost values: seq<ProfileValue>,
                         ghost repr: set<object>)
    returns (r: Option<map<string, Profile>>)
    requires ListHolds(list, values, repr)
    ensures r.Some? <==> ProfilesOk(values, validName)
    ensures r.Some? ==> Holds(r.value, ByName(values), repr)
  {
    ProfilesOkIff(values, validName);
    var profiles: map<string, Profile> := map[];
    for i := 0 to |list|
      invariant Holds(profiles, ByName(values[..i]), repr) && AcceptedUpTo(values, i, validName)
    {
      AcceptedNext(values, i, validName);
      var next := AddProfile(profiles, list[i], validName, values, i, repr);
      if next.None? { return None; }
      profiles := next.value;
    }
    assert values[..|list|] == values;
    r := Some(profiles);
  }

  ghost predicate AllResolvable(view: Profiles, names: set<string>) {
    forall n <- names :: Resolvable(view, n)
  }

  lemma OneMoreResolvable(view: Profiles, all: set<string>, left: set<string>, name: string)
    requires name in left && left <= all && AllResolvable(view, all - left)
    ensures Resolvable(view, name) ==> AllResolvable(view, all - (left - {name}))
    ensures !Resolvable(view, name) ==> !AllResolvable(view, all)
    ensures |left - {name}| < |left|
  {
  }

  lemma NoneLeft(all: set<string>, left: set<string>)
    requires left == {}
    ensures all - left == all
  {
  }

  /** Some profile does not resolve for the cause that the error names. */
  ghost predicate SomeFault(view: Profiles, error: ResolveError) {
    exists name <- view :: Fault(view, name, error)
  }

  lemma FaultOf(view: Profiles, name: string, error: ResolveError)
    requires name in view && Fault(view, Start([], name), error)
    ensures SomeFault(view, error)
  {
  }

  /** The second loop of `resolvedRoutes`: every profile, in any order, or the error of the first that fails. */
  method ResolveProfiles(resolver: Resolver) returns (failed: Option<ResolveError>)
    requires resolver.Valid() && Marks(resolver.visiting, [])
    modifies resolver
    ensures resolver.Valid() && (failed.None? ==> Marks(resolver.visiting, []))
    ensures failed.None? <==> AllResolvable(resolver.view, resolver.profiles.Keys)
    ensures failed.Some? ==> SomeFault(resolver.view, failed.value)
  {
    assert resolver.profiles.Keys == resolver.view.Keys;
    var left := resolver.profiles.Keys;
    while left != {}
      invariant left <= resolver.profiles.Keys && resolver.Valid() && Marks(resolver.visiting, [])
      invariant AllResolvable(resolver.view, resolver.profiles.Keys - left)
      decreases |left|
    {
      var name :| name in left;
      OneMoreResolvable(resolver.view, resolver.profiles.Keys, left, name);
      var r := resolver.ResolveProfile(name, []);
      if r.Err? {
        FaultOf(resolver.view, name, r.error);
        return Some(r.error);
      }
      left := left - {name};
    }
    NoneLeft(resolver.profiles.Keys, left);
    failed := None;
  }

  ghost predicate Unresolved(view: Profiles, v: RouteValue) {
    forall out :: !ResolvesTo(view, v, out)
  }

  /** What a declared route is laid over. */
  method BaseFor(resolver: Resolver, route: Route, ghost v: RouteValue, ghost repr: set<object>)
    returns (r: Option<Route>)
    requires resolver.Valid() && Marks(resolver.visiting, []) && resolver !in repr && RouteHolds(route, v, repr)
    modifies resolver
    ensures resolver.Valid() && RouteHolds(route, v, repr) == old(RouteHolds(route, v, repr))
    ensures r.Some? ==> Marks(resolver.visiting, []) && BaseOf(resolver.view, v, ValueOf(r.value))
    ensures r.None? ==> Unresolved(resolver.view, v)
  {
    if route.settings.profile == "" {
      EmptyRouteValue();
      return Some(EmptyRoute());
    }
    r := ParentFor(resolver, route.settings.profile);
  }

  method ParentFor(resolver: Resolver, name: string) returns (r: Option<Route>)
    requires resolver.Valid() && Marks(resolver.visiting, [])
    modifies resolver
    ensures resolver.Valid()
    ensures r.Some? ==> Marks(resolver.visiting, []) && Inherits(resolver.view, name, ValueOf(r.value))
    ensures r.None? ==> !Resolvable(resolver.view, name)
  {
    var parent := resolver.ResolveProfile(name, []);
    r := if parent.Ok? then Some(parent.value) else None;
  }

  lemma OnlyBase(view: Profiles, v: RouteValue, base: RouteValue, out: RouteValue)
    requires BaseOf(view, v, base)
    ensures ResolvesTo(view, v, out) <==> ResolveRoute(base, v) == Ok(out)
  {
    if ResolvesTo(view, v, out) {
      var other :| BaseOf(view, v, other) && ResolveRoute(other, v) == Ok(out);
      if v.profile != "" { InheritsUnique(view, v.profile, base, other); }
    }
  }

  /** The declared route's own name, path and methods, on what it inherits. */
  method Named(base: Route, route: Route) returns (named: Route)
    ensures ValueOf(named) == var v := old(ValueOf(route)); old(ValueOf(base)).(name := v.name, path := v.path,
                                                                                methods := v.methods)
  {
    var methods := CloneSlice(route.tables.methods);
    named := base.(settings := base.settings.(name := route.settings.name, path := route.settings.path),
                   tables := base.tables.(methods := methods));
  }

  /** A declared route laid over its base; its storage is its own. */
  method LayOver(base: Route, route: Route, ghost view: Profiles) returns (r: Option<Route>)
    requires BaseOf(view, ValueOf(route), ValueOf(base))
    ensures r.Some? ==> ResolvesTo(view, old(ValueOf(route)), ValueOf(r.value)) && fresh(Footprint(r.value))
    ensures r.None? ==> Unresolved(view, old(ValueOf(route)))
  {
    ghost var b, v := ValueOf(base), ValueOf(route);
    forall out ensures ResolvesTo(view, v, out) <==> ResolveRoute(b, v) == Ok(out) { OnlyBase(view, v, b, out); }
    var named := Named(base, route);
    assert ValueOf(route) == v;
    var merged := MergeRoute(named, route);
    if merged.Err? { return None; }
    r := Some(merged.value.(settings := merged.value.settings.(profile := "", clear := None, extend := None)));
  }

  method ResolveOne(resolver: Resolver, route: Route, ghost v: RouteValue, ghost repr: set<object>)
    returns (r: Option<Route>)
    requires resolver.Valid() && Marks(resolver.visiting, []) && resolver !in repr && RouteHolds(route, v, repr)
    modifies resolver
    ensures resolver.Valid()
    ensures r.Some? ==> Marks(resolver.visiting, []) && fresh(Footprint(r.value))
    ensures r.Some? ==> ResolvesTo(resolver.view, v, ValueOf(r.value))
    ensures r.None? ==> Unresolved(resolver.view, v)
  {
    var base := BaseFor(resolver, route, v, repr);
    if base.None? { return None; }
    r := LayOver(base.value, route, resolver.view);
  }

  /** The route is what `v` resolves to, and `foot` is its storage, within `out`. */
  ghost predicate ResolvedAt(view: Profiles, v: RouteValue, r: Route, foot: set<object>, out: set<object>)
    reads out
  {
    RefsIn(r, out) && Footprint(r) == foot && ResolvesTo(view, v, ValueOf(r))
  }

  lemma TablesWithin(t: Tables, repr: set<object>)
    requires Within(t.methods.store, repr) && Within(t.requestHeaders.store, repr) && Within(t.parameters, repr)
    requires Within(t.response.headers.store, repr) && Within(t.response.representations.store, repr)
    requires Within(t.response.statuses, repr)
    ensures TablesFootprint(t) <= repr
  {
  }

  lemma FootprintWithin(r: Route, repr: set<object>)
    requires RefsIn(r, repr)
    ensures Footprint(r) <= repr
  {
    TablesWithin(r.tables, repr);
  }

  lemma RefsInMore(r: Route, repr: set<object>, more: set<object>)
    requires RefsIn(r, repr)
    ensures RefsIn(r, repr + more)
  {
  }

  lemma ResolvedAtMore(view: Profiles, v: RouteValue, r: Route, foot: set<object>, out: set<object>, more: set<object>)
    requires ResolvedAt(view, v, r, foot, out)
    ensures ResolvedAt(view, v, r, foot, out + more) && foot <= out
  {
    RefsInMore(r, out, more);
    FootprintWithin(r, out);
  }

  ghost predicate Disjoint(feet: seq<set<object>>) {
    forall i, j :: 0 <= i < j < |feet| ==> feet[i] !! feet[j]
  }

  /** The routes resolved so far; no two share storage. */
  ghost predicate Resolved(view: Profiles, values: seq<RouteValue>, resolved: seq<Route>, feet: seq<set<object>>,
                           out: set<object>)
    reads out
  {
    && |resolved| == |feet| <= |values| && Disjoint(feet)
    && forall k {:trigger ResolvedAt(view, values[k], resolved[k], feet[k], out)} :: 0 <= k < |resolved| ==>
         ResolvedAt(view, values[k], resolved[k], feet[k], out)
  }

  lemma DisjointNext(feet: seq<set<object>>, foot: set<object>, out: set<object>)
    requires Disjoint(feet) && foot !! out && forall k :: 0 <= k < |feet| ==> feet[k] <= out
    ensures Disjoint(feet + [foot])
  {
  }

  lemma ResolvedLast(view: Profiles, v: RouteValue, r: Route, out: set<object>)
    requires ResolvesTo(view, v, ValueOf(r))
    ensures ResolvedAt(view, v, r, Footprint(r), out + Footprint(r))
  {
  }

  lemma ResolvedNext(view: Profiles, values: seq<RouteValue>, resolved: seq<Route>, feet: seq<set<object>>,
                     out: set<object>, r: Route, foot: set<object>)
    requires Resolved(view, values, resolved, feet, out) && |resolved| < |values|
    requires ResolvedAt(view, values[|resolved|], r, foot, out + foot) && foot !! out
    ensures Resolved(view, values, resolved + [r], feet + [foot], out + foot)
  {
    forall k | 0 <= k < |resolved|
      ensures feet[k] <= out && ResolvedAt(view, values[k], resolved[k], feet[k], out + foot)
    {
      ResolvedAtMore(view, values[k], resolved[k], feet[k], out, foot);
    }
    DisjointNext(feet, foot, out);
  }

  /** Every route returned is its declared one on what its profile inherits. */
  ghost predicate AllInherit(view: Profiles, values: seq<RouteValue>, resolved: seq<Route>, out: set<object>)
    requires |resolved| <= |values|
    reads out
  {
    forall k :: 0 <= k < |resolved| ==> RefsIn(resolved[k], out) && InheritsAs(view, values[k], ValueOf(resolved[k]))
  }

  lemma ResolvedInherit(view: Profiles, values: seq<RouteValue>, resolved: seq<Route>, feet: seq<set<object>>,
                        out: set<object>)
    requires Resolved(view, values, resolved, feet, out)
    ensures AllInherit(view, values, resolved, out)
  {
    forall k | 0 <= k < |resolved|
      ensures RefsIn(resolved[k], out) && InheritsAs(view, values[k], ValueOf(resolved[k]))
    {
      assert ResolvedAt(view, values[k], resolved[k], feet[k], out);
      ResolvesInherits(view, values[k], ValueOf(resolved[k]));
    }
  }

  lemma RouteAt(routes: seq<Route>, values: seq<RouteValue>, repr: set<object>, i: nat)
    requires RoutesHold(routes, values, repr) && i < |routes|
    ensures RouteHolds(routes[i], values[i], repr)
  {
  }

  /** Resolving a route leaves the configured routes alone. */
  method ResolveKept(resolver: Resolver, route: Route, ghost v: RouteValue, ghost repr: set<object>,
                     ghost routes: seq<Route>, ghost values: seq<RouteValue>)
    returns (r: Option<Route>)
    requires resolver.Valid() && Marks(resolver.visiting, []) && resolver !in repr && RouteHolds(route, v, repr)
    modifies resolver
    ensures resolver.Valid() && RoutesHold(routes, values, repr) == old(RoutesHold(routes, values, repr))
    ensures r.Some? ==> Marks(resolver.visiting, []) && fresh(Footprint(r.value))
    ensures r.Some? ==> ResolvesTo(resolver.view, v, ValueOf(r.value))
    ensures r.None? ==> Unresolved(resolver.view, v)
  {
    r := ResolveOne(resolver, route, v, repr);
  }

  /** One round of the last loop of `resolvedRoutes`; what was resolved before stays so. */
  method ResolveNext(resolver: Resolver, route: Route, ghost v: RouteValue, ghost repr: set<object>,
                     ghost routes: seq<Route>, ghost values: seq<RouteValue>, ghost resolved: seq<Route>,
                     ghost feet: seq<set<object>>, ghost out: set<object>)
    returns (r: Option<Route>)
    requires resolver.Valid() && Marks(resolver.visiting, []) && resolver !in repr && RouteHolds(route, v, repr)
    requires resolver !in out
    modifies resolver
    ensures resolver.Valid() && RoutesHold(routes, values, repr) == old(RoutesHold(routes, values, repr))
    ensures Resolved(resolver.view, values, resolved, feet, out) ==
              old(Resolved(resolver.view, values, resolved, feet, out))
    ensures r.Some? ==> Marks(resolver.visiting, []) && fresh(Footprint(r.value))
    ensures r.Some? ==> ResolvesTo(resolver.view, v, ValueOf(r.value))
    ensures r.None? ==> Unresolved(resolver.view, v)
  {
    r := ResolveKept(resolver, route, v, repr, routes, values);
  }

  lemma ResolvedStep(view: Profiles, values: seq<RouteValue>, resolved: seq<Route>, feet: seq<set<object>>,
                     out: set<object>, r: Route)
    requires Resolved(view, values, resolved, feet, out) && |resolved| < |values|
    requires ResolvesTo(view, values[|resolved|], ValueOf(r)) && Footprint(r) !! out
    ensures Resolved(view, values, resolved + [r], feet + [Footprint(r)], out + Footprint(r))
  {
    ResolvedLast(view, values[|resolved|], r, out);
    ResolvedNext(view, values, resolved, feet, out, r, Footprint(r));
  }

  /** One more route is resolved, in storage of its own. */
  method ResolveMore(resolver: Resolver, routes: seq<Route>, resolved: seq<Route>, ghost values: seq<RouteValue>,
                     ghost repr: set<object>, ghost feet: seq<set<object>>, ghost out: set<object>)
    returns (r: Option<Route>)
    requires resolver.Valid() && Marks(resolver.visiting, []) && resolver !in repr && RoutesHold(routes, values, repr)
    requires resolver !in out && |resolved| < |routes| && Resolved(resolver.view, values, resolved, feet, out)
    modifies resolver
    ensures resolver.Valid() && RoutesHold(routes, values, repr) == old(RoutesHold(routes, values, repr))
    ensures r.Some? ==> Marks(resolver.visiting, []) && fresh(Footprint(r.value))
    ensures r.Some? ==> var foot := Footprint(r.value);
                        Resolved(resolver.view, values, resolved + [r.value], feet + [foot], out + foot)
    ensures r.None? ==> Unresolved(resolver.view, values[|resolved|])
  {
    var i := |resolved|;
    RouteAt(routes, values, repr, i);
    r := ResolveNext(resolver, routes[i], values[i], repr, routes, values, resolved, feet, out);
    if r.Some? { ResolvedStep(resolver.view, values, resolved, feet, out, r.value); }
  }

  /** The last loop of `resolvedRoutes`: each declared route, in storage of its own. */
  method ResolveRoutes(resolver: Resolver, routes: seq<Route>, ghost values: seq<RouteValue>, ghost repr: set<object>)
    returns (r: Option<seq<Route>>, ghost feet: seq<set<object>>, ghost out: set<object>)
    requires resolver.Valid() && Marks(resolver.visiting, []) && resolver !in repr && RoutesHold(routes, values, repr)
    modifies resolver
    ensures r.Some? ==> fresh(out) && |r.value| == |routes| && Resolved(resolver.view, values, r.value, feet, out)
    ensures r.Some? ==> AllInherit(resolver.view, values, r.value, out)
    ensures r.None? ==> exists i :: 0 <= i < |values| && Unresolved(resolver.view, values[i])
  {
    var resolved: seq<Route> := [];
    feet, out := [], {};
    for i := 0 to |routes|
      invariant resolver.Valid() && Marks(resolver.visiting, []) && RoutesHold(routes, values, repr)
      invariant fresh(out) && resolver !in out && |resolved| == i
      invariant Resolved(resolver.view, values, resolved, feet, out)
    {
      var next := ResolveMore(resolver, routes, resolved, values, repr, feet, out);
      if next.None? { return None, feet, out; }
      ghost var foot := Footprint(next.value);
      resolved, feet, out := resolved + [next.value], feet + [foot], out + foot;
    }
    ResolvedInherit(resolver.view, values, resolved, feet, out);
    r := Some(resolved);
  }

  lemma NotConfigured(values: seq<ProfileValue>, routeValues: seq<RouteValue>, validName: string -> bool)
    requires || !ProfilesOk(values, validName) || !AllResolvable(ByName(values), ByName(values).Keys)
             || exists i :: 0 <= i < |routeValues| && Unresolved(ByName(values), routeValues[i])
    ensures forall result :: !ConfigResolvesTo(values, routeValues, validName, result)
  {
    if i :| 0 <= i < |routeValues| && Unresolved(ByName(values), routeValues[i]) {
      forall result | |result| == |routeValues| ensures !ConfigResolvesTo(values, routeValues, validName, result) {
        assert !ResolvesTo(ByName(values), routeValues[i], result[i]);
      }
    }
  }

  /**
   `resolvedRoutes`.  It succeeds exactly when the configuration resolves, with
   what it resolves to: each declared route on what its profile inherits.  The
   routes returned share no storage with each other, and nothing that was
   configured is written.
   */
  method ResolvedRoutes(list: seq<Profile>, routes: seq<Route>, validName: string -> bool,
                        ghost values: seq<ProfileValue>, ghost routeValues: seq<RouteValue>, ghost repr: set<object>)
    returns (r: Option<seq<Route>>, ghost feet: seq<set<object>>, ghost out: set<object>)
    requires ListHolds(list, values, repr) && RoutesHold(routes, routeValues, repr)
    ensures r.Some? ==> |r.value| == |routes| && fresh(out) && Resolved(ByName(values), routeValues, r.value, feet, out)
    ensures r.Some? ==> AllInherit(ByName(values), routeValues, r.value, out)
    ensures r.Some? ==> ProfilesOk(values, validName) && AllResolvable(ByName(values), ByName(values).Keys)
    ensures r.None? ==> forall result :: !ConfigResolvesTo(values, routeValues, validName, result)
  {
    feet, out := [], {};
    var profiles := CollectProfiles(list, validName, values, repr);
    if profiles.None? {
      NotConfigured(values, routeValues, validName);
      return None, feet, out;
    }
    var resolver := new Resolver(profiles.value, ByName(values), repr);
    var failed := ResolveProfiles(resolver);
    if failed.Some? {
      NotConfigured(values, routeValues, validName);
      return None, feet, out;
    }
    r, feet, out := ResolveRoutes(resolver, routes, routeValues, repr);
    if r.None? { NotConfigured(values, routeValues, validName); }
  }
}
