/** When the order of an accepted list of routes can matter at all, told from the routes alone. */
module RouteOrder {
  import opened Wrappers
  import opened Text
  import opened Regexp
  import opened Templates
  import opened RouteConfig
  import opened Routes
  import opened RouteTheorems

  // ----- what one segment of a route takes ----------------------------------------------------

  /**
   Segment `i` of the route's path takes the decoded value `v`: a literal itself, a placeholder what
   its grammar spans.
   */
  predicate Takes(find: Engine, route: Route, i: nat, v: string)
    requires i < |PathSegments(route.path)|
  {
    var want := PathSegments(route.path)[i];
    if !IsPlaceholder(want) then want == v
    else ParamOf(want) in route.parameters && EntireValue(find, route.parameters[ParamOf(want)], v)
  }

  /** `v` is acceptable for every query parameter that reads the source name `source`. */
  predicate SuitsSource(find: Engine, parameters: map<string, Parameter>, source: string, v: string) {
    forall name <- parameters :: parameters[name].source == "query" && parameters[name].name == source ==>
        EntireValue(find, parameters[name], v)
  }

  /** Every query parameter of the route can be supplied. */
  ghost predicate Suppliable(find: Engine, parameters: map<string, Parameter>) {
    forall name <- parameters :: parameters[name].source == "query" ==>
        exists v :: SuitsSource(find, parameters, parameters[name].name, v)
  }

  /** Some value is taken by segment `i` of both routes. */
  ghost predicate Common(find: Engine, a: Route, b: Route, i: nat)
    requires i < |PathSegments(a.path)| == |PathSegments(b.path)|
  {
    exists v :: Takes(find, a, i, v) && Takes(find, b, i, v)
  }

  ghost predicate TakesSome(find: Engine, a: Route, i: nat)
    requires i < |PathSegments(a.path)|
  {
    exists v :: Takes(find, a, i, v)
  }

  /** Some value is taken by segment `k` of `a` and not by segment `k` of `b`. */
  ghost predicate Parts(find: Engine, a: Route, b: Route, k: nat)
    requires k < |PathSegments(a.path)| == |PathSegments(b.path)|
  {
    exists v :: Takes(find, a, k, v) && !Takes(find, b, k, v)
  }

  /**
   At position `k`, a placeholder of `b`, some request of `a` can fail `b`'s
   grammar: until `k` the two agree on some values, at `k` some value is `a`'s
   only, and the rest of `a` can be satisfied.
   */
  ghost predicate Conflict(find: Engine, a: Route, b: Route, k: nat) {
    && MethodsOverlap(a.methods, b.methods)
    && k < |PathSegments(a.path)| == |PathSegments(b.path)| && IsPlaceholder(PathSegments(b.path)[k])
    && (forall i :: 0 <= i < k ==> Common(find, a, b, i))
    && Parts(find, a, b, k)
    && (forall i :: k < i < |PathSegments(a.path)| ==> TakesSome(find, a, i))
    && Suppliable(find, a.parameters)
  }

  /** Some two routes of the list conflict somewhere. */
  ghost predicate SomeConflict(find: Engine, routes: seq<Route>) {
    exists i, j, k: nat :: 0 <= i < |routes| && 0 <= j < |routes| && Conflict(find, routes[i], routes[j], k)
  }

  /** No request is answered differently in another order of the routes. */
  ghost predicate OrderNeverMatters(find: Engine, routes: seq<Route>) {
    forall method_, path, query :: OrderIrrelevant(find, routes, method_, path, query)
  }

  // ----- a request that one route accepts and another refuses shows a conflict ------------------

  lemma FineTakes(find: Engine, route: Route, path: string, i: nat)
    requires |PathSegments(route.path)| == |PathSegments(path)| && i < |PathSegments(path)|
    requires Judge(find, route.parameters, PathSegments(route.path)[i], PathSegments(path)[i]) == Fine
    ensures Takes(find, route, i, Decoded(PathSegments(path)[i])) && PathUnescape(PathSegments(path)[i]).Some?
  {
  }

  lemma FineFits(find: Engine, route: Route, path: string, segments: seq<string>)
    requires |PathSegments(route.path)| == |PathSegments(path)| == |segments|
    requires FineUpTo(find, route.parameters, PathSegments(route.path), PathSegments(path), |segments|)
    requires forall i :: 0 <= i < |segments| ==> segments[i] == Decoded(PathSegments(path)[i])
    ensures Fits(route.path, segments)
  {
    var want, got := PathSegments(route.path), PathSegments(path);
    forall i | 0 <= i < |want| && !IsPlaceholder(want[i]) ensures want[i] == segments[i] {
      assert Judge(find, route.parameters, want[i], got[i]) == Fine;
    }
  }

  lemma BothFit(find: Engine, a: Route, b: Route, method_: string, path: string, query: Query)
    requires Passes(find, a, method_, path, query)
    requires |PathSegments(b.path)| == |PathSegments(path)|
    requires FineUpTo(find, b.parameters, PathSegments(b.path), PathSegments(path), |PathSegments(path)|)
    ensures SomethingFitsBoth(a.path, b.path)
  {
    var got := PathSegments(path);
    var segments := seq(|got|, i requires 0 <= i < |got| => Decoded(got[i]));
    PassesFits(find, a, method_, path, query, segments);
    FineFits(find, b, path, segments);
  }

  /** Of two routes with no common path, only a bad segment of the one can refuse a request of the other. */
  lemma RefusedBySegment(find: Engine, a: Route, b: Route, method_: string, path: string, query: Query) returns (k: nat)
    requires Passes(find, a, method_, path, query) && Refuses(find, b, method_, path, query)
    requires !SomethingFitsBoth(a.path, b.path)
    ensures |PathSegments(a.path)| == |PathSegments(b.path)| == |PathSegments(path)|
    ensures k < |PathSegments(path)| && RejectedAt(find, b, path, k)
  {
    var got := PathSegments(path);
    if FineUpTo(find, b.parameters, PathSegments(b.path), got, |got|) { BothFit(find, a, b, method_, path, query); }
    k :| k < |got| && RejectedAt(find, b, path, k);
  }

  lemma QuerySupplied(find: Engine, parameters: map<string, Parameter>, query: Query)
    requires QueriesOk(find, parameters, query)
    ensures Suppliable(find, parameters)
  {
    forall name | name in parameters && parameters[name].source == "query"
      ensures exists v :: SuitsSource(find, parameters, parameters[name].name, v)
    {
      assert QueryOk(find, parameters[name], query);
      var v := query[parameters[name].name][0];
      forall other | other in parameters && parameters[other].source == "query"
        && parameters[other].name == parameters[name].name
        ensures EntireValue(find, parameters[other], v)
      {
        assert QueryOk(find, parameters[other], query);
      }
      assert SuitsSource(find, parameters, parameters[name].name, v);
    }
  }

  lemma ConflictShown(find: Engine, a: Route, b: Route, method_: string, path: string, query: Query, k: nat)
    requires Passes(find, a, method_, path, query) && Refuses(find, b, method_, path, query)
    requires k < |PathSegments(path)| && RejectedAt(find, b, path, k)
    ensures Conflict(find, a, b, k)
  {
    var as_, bs, got := PathSegments(a.path), PathSegments(b.path), PathSegments(path);
    forall i | 0 <= i < |got| ensures Takes(find, a, i, Decoded(got[i])) && PathUnescape(got[i]).Some? {
      assert Judge(find, a.parameters, as_[i], got[i]) == Fine;
      FineTakes(find, a, path, i);
    }
    forall i | 0 <= i < k ensures Common(find, a, b, i) {
      assert Judge(find, b.parameters, bs[i], got[i]) == Fine;
      FineTakes(find, b, path, i);
    }
    assert IsPlaceholder(bs[k]) && !Takes(find, b, k, Decoded(got[k]));
    assert Parts(find, a, b, k);
    forall i | k < i < |got| ensures TakesSome(find, a, i) {
      assert Takes(find, a, i, Decoded(got[i]));
    }
    QuerySupplied(find, a.parameters, query);
    assert method_ in a.methods && method_ in b.methods;
  }

  // ----- a conflict gives such a request --------------------------------------------------------

  /** A value as a path segment: only the percent sign needs escaping. */
  function Escape(v: string): string {
    if v == "" then "" else (if v[0] == '%' then "%25" else [v[0]]) + Escape(v[1..])
  }

  lemma {:induction false} EscapeDecodes(v: string)
    ensures PathUnescape(Escape(v)) == Some(v)
  {
    if v != "" {
      EscapeDecodes(v[1..]);
      var s := Escape(v);
      assert v == [v[0]] + v[1..];
      if v[0] == '%' {
        assert s == "%25" + Escape(v[1..]) && s[3..] == Escape(v[1..]);
        assert HexDigit(s[1]) == Some(2) && HexDigit(s[2]) == Some(5) && (16 * 2 + 5) as char == '%';
      } else {
        assert s[1..] == Escape(v[1..]);
      }
    }
  }

  lemma {:induction false} EscapeFree(v: string)
    requires Free(v, '/')
    ensures Free(Escape(v), '/') && (v != "" ==> Escape(v) != "")
  {
    if v != "" { EscapeFree(v[1..]); }
  }

  /** The path whose segments are the values. */
  function PathTo(values: seq<string>): string {
    "/" + Join(Escaped(values), '/')
  }

  function Escaped(values: seq<string>): (escaped: seq<string>)
    ensures |escaped| == |values| && forall i :: 0 <= i < |values| ==> escaped[i] == Escape(values[i])
  {
    seq(|values|, i requires 0 <= i < |values| => Escape(values[i]))
  }

  lemma PathToSegments(values: seq<string>)
    requires values != [] && forall i :: 0 <= i < |values| ==> values[i] != "" && Free(values[i], '/')
    ensures PathSegments(PathTo(values)) == Escaped(values)
  {
    var parts := Escaped(values);
    forall i | 0 <= i < |values| ensures Free(parts[i], '/') && parts[i] != "" { EscapeFree(values[i]); }
    SplitJoin(parts, '/');
    assert PathTo(values)[1..] == Join(parts, '/');
    assert |Join(parts, '/')| >= |parts[0]|;
  }

  /** What a segment of an accepted route takes is not empty and holds no slash. */
  lemma TakenIsPlain(find: Engine, route: Route, i: nat, v: string)
    requires Sound(find) && Compiled(route) && i < |PathSegments(route.path)| && Takes(find, route, i, v)
    ensures v != "" && Free(v, '/')
  {
    PathSegmentsOk(route.path);
    var want := PathSegments(route.path)[i];
    if IsPlaceholder(want) {
      ParameterDeclared(route, ParamOf(want));
      EntireValueSafe(find, route.parameters[ParamOf(want)], v);
      assert forall j :: 0 <= j < |v| ==> Safe(v[j]);
    }
  }

  lemma TakesFine(find: Engine, route: Route, i: nat, v: string)
    requires i < |PathSegments(route.path)|
    ensures var verdict := Judge(find, route.parameters, PathSegments(route.path)[i], Escape(v));
            && (Takes(find, route, i, v) <==> verdict == Fine)
            && (IsPlaceholder(PathSegments(route.path)[i]) && !Takes(find, route, i, v) ==> verdict == Bad)
  {
    EscapeDecodes(v);
  }

  /** `v` can be the request's segment `i`: a common value, then the one that parts the routes, then any of `a`'s. */
  predicate ChosenAt(find: Engine, a: Route, b: Route, k: nat, i: nat, v: string)
    requires i < |PathSegments(a.path)| == |PathSegments(b.path)|
  {
    Takes(find, a, i, v) && (i < k ==> Takes(find, b, i, v)) && (i == k ==> !Takes(find, b, i, v))
  }

  ghost predicate ChosenUpTo(find: Engine, a: Route, b: Route, k: nat, values: seq<string>) {
    && |values| <= |PathSegments(a.path)| == |PathSegments(b.path)|
    && forall i :: 0 <= i < |values| ==> ChosenAt(find, a, b, k, i, values[i])
  }

  lemma OneMoreChosen(find: Engine, a: Route, b: Route, k: nat, values: seq<string>, v: string)
    requires |values| < |PathSegments(a.path)| == |PathSegments(b.path)|
    requires ChosenUpTo(find, a, b, k, values) && ChosenAt(find, a, b, k, |values|, v)
    ensures ChosenUpTo(find, a, b, k, values + [v])
  {
  }

  lemma {:induction false} ChooseUpTo(find: Engine, a: Route, b: Route, k: nat, n: nat) returns (values: seq<string>)
    requires Conflict(find, a, b, k) && n <= |PathSegments(a.path)|
    ensures |values| == n && ChosenUpTo(find, a, b, k, values)
  {
    if n == 0 {
      values := [];
    } else {
      var rest := ChooseUpTo(find, a, b, k, n - 1);
      var v := ChooseAt(find, a, b, k, n - 1);
      values := rest + [v];
      OneMoreChosen(find, a, b, k, rest, v);
    }
  }

  lemma ChooseAt(find: Engine, a: Route, b: Route, k: nat, i: nat) returns (v: string)
    requires Conflict(find, a, b, k) && i < |PathSegments(a.path)|
    ensures ChosenAt(find, a, b, k, i, v)
  {
    if i < k {
      assert Common(find, a, b, i);
      v :| Takes(find, a, i, v) && Takes(find, b, i, v);
    } else if i == k {
      v :| Takes(find, a, k, v) && !Takes(find, b, k, v);
    } else {
      assert TakesSome(find, a, i);
      v :| Takes(find, a, i, v);
    }
  }

  function Sources(parameters: map<string, Parameter>): set<string> {
    set name | name in parameters && parameters[name].source == "query" :: parameters[name].name
  }

  lemma Supply(find: Engine, parameters: map<string, Parameter>) returns (query: Query)
    requires Suppliable(find, parameters)
    ensures QueriesOk(find, parameters, query)
  {
    query := SupplyAll(find, parameters, Sources(parameters));
    forall name | name in parameters ensures QueryOk(find, parameters[name], query) {
      if parameters[name].source == "query" {
        assert parameters[name].name in Sources(parameters);
        assert SuitsSource(find, parameters, parameters[name].name, query[parameters[name].name][0]);
      }
    }
  }

  lemma {:induction false} SupplyAll(find: Engine, parameters: map<string, Parameter>, sources: set<string>)
    returns (query: Query)
    requires Suppliable(find, parameters) && sources <= Sources(parameters)
    ensures query.Keys == sources
    ensures forall s <- sources :: |query[s]| == 1 && SuitsSource(find, parameters, s, query[s][0])
    decreases |sources|
  {
    if sources == {} {
      query := map[];
    } else {
      var s :| s in sources;
      var name :| name in parameters && parameters[name].source == "query" && parameters[name].name == s;
      var v :| SuitsSource(find, parameters, s, v);
      var rest := SupplyAll(find, parameters, sources - {s});
      query := rest[s := [v]];
    }
  }

  lemma ChosenRequest(find: Engine, a: Route, b: Route, k: nat, values: seq<string>, method_: string, query: Query)
    requires Sound(find) && Compiled(a) && Compiled(b) && ChosenUpTo(find, a, b, k, values)
    requires k < |values| == |PathSegments(a.path)| && IsPlaceholder(PathSegments(b.path)[k])
    requires method_ in a.methods && method_ in b.methods && QueriesOk(find, a.parameters, query)
    ensures Passes(find, a, method_, PathTo(values), query) && Refuses(find, b, method_, PathTo(values), query)
  {
    assert forall i :: 0 <= i < |values| ==> ChosenAt(find, a, b, k, i, values[i]);
    forall i | 0 <= i < |values| ensures values[i] != "" && Free(values[i], '/') {
      TakenIsPlain(find, a, i, values[i]);
    }
    PathToSegments(values);
    forall i | 0 <= i < |values|
      ensures Judge(find, a.parameters, PathSegments(a.path)[i], PathSegments(PathTo(values))[i]) == Fine
    {
      TakesFine(find, a, i, values[i]);
    }
    forall i | 0 <= i < k
      ensures Judge(find, b.parameters, PathSegments(b.path)[i], PathSegments(PathTo(values))[i]) == Fine
    {
      TakesFine(find, b, i, values[i]);
    }
    TakesFine(find, b, k, values[k]);
    assert RejectedAt(find, b, PathTo(values), k);
  }

  lemma ConflictRequest(find: Engine, a: Route, b: Route, k: nat) returns (method_: string, path: string, query: Query)
    requires Sound(find) && Compiled(a) && Compiled(b) && Conflict(find, a, b, k)
    ensures Passes(find, a, method_, path, query) && Refuses(find, b, method_, path, query)
  {
    var values := ChooseUpTo(find, a, b, k, |PathSegments(a.path)|);
    method_ :| method_ in a.methods && method_ in b.methods;
    query := Supply(find, a.parameters);
    path := PathTo(values);
    ChosenRequest(find, a, b, k, values, method_, query);
  }

  // ----- the theorem --------------------------------------------------------------------------

  /**
   The order of an accepted list never matters to any request if and only if no two
   of its routes conflict: a property of the routes' methods, segments and grammars.
   */
  lemma OrderNeverMattersIff(find: Engine, routes: seq<Route>)
    requires Sound(find) && RoutesOk(routes) && AllCompiled(routes)
    ensures OrderNeverMatters(find, routes) <==> !SomeConflict(find, routes)
  {
    if SomeConflict(find, routes) { ConflictMatters(find, routes); }
    if !SomeConflict(find, routes) {
      forall method_, path, query ensures OrderIrrelevant(find, routes, method_, path, query) {
        NoConflictNoMatter(find, routes, method_, path, query);
      }
    }
  }

  lemma ConflictMatters(find: Engine, routes: seq<Route>)
    requires Sound(find) && RoutesOk(routes) && AllCompiled(routes) && SomeConflict(find, routes)
    ensures !OrderNeverMatters(find, routes)
  {
    var i, j, k: nat :| 0 <= i < |routes| && 0 <= j < |routes| && Conflict(find, routes[i], routes[j], k);
    var method_, path, query := ConflictRequest(find, routes[i], routes[j], k);
    OrderIrrelevantIff(find, routes, method_, path, query);
  }

  lemma NoConflictNoMatter(find: Engine, routes: seq<Route>, method_: string, path: string, query: Query)
    requires RoutesOk(routes) && !SomeConflict(find, routes)
    ensures OrderIrrelevant(find, routes, method_, path, query)
  {
    OrderIrrelevantIff(find, routes, method_, path, query);
    if SomePasses(find, routes, method_, path, query) && SomeRefuses(find, routes, method_, path, query) {
      var i :| 0 <= i < |routes| && Passes(find, routes[i], method_, path, query);
      var j :| 0 <= j < |routes| && Refuses(find, routes[j], method_, path, query);
      if i == j { PassesOrRefuses(find, routes[i], method_, path, query); }
      PairwiseDisjoint(routes, i, j);
      var k := RefusedBySegment(find, routes[i], routes[j], method_, path, query);
      ConflictShown(find, routes[i], routes[j], method_, path, query, k);
    }
  }

  // ----- a check by eye -----------------------------------------------------------------------

  /** Up to and including position `p`, where both hold different literals, neither route has a placeholder. */
  predicate LiteralsPart(a: Route, b: Route, p: nat) {
    var as_, bs := PathSegments(a.path), PathSegments(b.path);
    && p < |as_| == |bs| && as_[p] != bs[p]
    && forall i :: 0 <= i <= p ==> !IsPlaceholder(as_[i]) && !IsPlaceholder(bs[i])
  }

  /** Two routes share no method, have different lengths, or part in their literals before any placeholder. */
  ghost predicate PlainlyApart(a: Route, b: Route) {
    || !MethodsOverlap(a.methods, b.methods) || |PathSegments(a.path)| != |PathSegments(b.path)|
    || exists p: nat :: LiteralsPart(a, b, p)
  }

  /** A list whose routes are plainly apart can be declared in any order. */
  lemma PlainlyApartNeverMatters(find: Engine, routes: seq<Route>)
    requires Sound(find) && RoutesOk(routes) && AllCompiled(routes)
    requires forall i, j :: 0 <= i < |routes| && 0 <= j < |routes| && i != j ==> PlainlyApart(routes[i], routes[j])
    ensures OrderNeverMatters(find, routes)
  {
    forall i, j, k: nat | 0 <= i < |routes| && 0 <= j < |routes| ensures !Conflict(find, routes[i], routes[j], k) {
      if i != j { ApartNoConflict(find, routes[i], routes[j], k); }
    }
    OrderNeverMattersIff(find, routes);
  }

  lemma NothingCommon(find: Engine, a: Route, b: Route, p: nat)
    requires LiteralsPart(a, b, p)
    ensures !Common(find, a, b, p)
  {
  }

  lemma ApartNoConflict(find: Engine, a: Route, b: Route, k: nat)
    requires PlainlyApart(a, b)
    ensures !Conflict(find, a, b, k)
  {
    if p: nat :| LiteralsPart(a, b, p) { NothingCommon(find, a, b, p); }
  }
}
