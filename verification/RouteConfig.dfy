/** Validation of declared routes: paths, subjects, parameters and overlap. */
module RouteConfig {
  import opened Wrappers
  import opened Text
  import opened Regexp
  import opened Templates

  /** A declared parameter; `parsed` is the syntax tree of its pattern, if it parses. */
  datatype Parameter = Parameter(source: string, name: string, pattern: string, parsed: Option<Regexp>)

  /** The parts of a route that decide what it matches and where it publishes. */
  datatype Route = Route(name: string, path: string, methods: seq<string>, subject: string,
                         parameters: map<string, Parameter>)

  // ----- paths --------------------------------------------------------------------------------

  predicate ContainsAny(s: string, chars: string) {
    exists i :: 0 <= i < |s| && s[i] in chars
  }

  /** `c` occurs twice in a row. */
  predicate Doubled(s: string, c: char) {
    exists i :: 0 <= i < |s| - 1 && s[i] == c && s[i + 1] == c
  }

  predicate StartsWith(s: string, c: char) {
    s != "" && s[0] == c
  }

  predicate EndsWith(s: string, c: char) {
    s != "" && s[|s| - 1] == c
  }

  predicate PathShape(path: string) {
    && StartsWith(path, '/') && !ContainsAny(path, "?#")
    && (path == "/" || !EndsWith(path, '/'))
    && !Doubled(path, '/') && !ContainsAny(path, "*\\ \t\r\n")
  }

  predicate PathOk(path: string) {
    PathShape(path) && WellFormed(Split(path, '/'))
  }

  /** `validatePath`: the parameters of an acceptable path. */
  method ValidatePath(path: string) returns (params: Option<seq<string>>)
    ensures params.Some? <==> PathOk(path)
    ensures params.Some? ==> params.value == ParamsOf(Split(path, '/'))
  {
    if path == "" || path[0] != '/' || ContainsAny(path, "?#") { return None; }
    if path != "/" && EndsWith(path, '/') { return None; }
    if Doubled(path, '/') || ContainsAny(path, "*\\ \t\r\n") { return None; }
    params := ValidateTemplate(path, '/');
  }

  /** `pathSegments` and the matcher's `segments`. */
  function PathSegments(path: string): seq<string> {
    if path == "/" then [] else Split(if StartsWith(path, '/') then path[1..] else path, '/')
  }

  /** The segments of a path that starts with a slash are the slash-free texts that join to the rest of it. */
  lemma PathSegmentsJoin(path: string)
    requires StartsWith(path, '/') && path != "/"
    ensures PathSegments(path) != [] && Join(PathSegments(path), '/') == path[1..]
    ensures forall k :: 0 <= k < |PathSegments(path)| ==> Free(PathSegments(path)[k], '/')
  {
    SplitParts(path[1..], '/', 0);
    assert path[1..][0..] == path[1..];
  }

  /** No other list of slash-free texts joins to it, so nothing of the path is dropped or added. */
  lemma PathSegmentsAre(path: string, segments: seq<string>)
    requires StartsWith(path, '/') && path != "/" && segments != []
    requires Join(segments, '/') == path[1..] && forall k :: 0 <= k < |segments| ==> Free(segments[k], '/')
    ensures PathSegments(path) == segments
  {
    SplitJoin(segments, '/');
  }

  /** Split whole, the path has an empty part before its first slash, and its segments after it. */
  lemma PathSplits(path: string)
    requires StartsWith(path, '/')
    ensures Split(path, '/') == [""] + if path == "/" then [""] else PathSegments(path)
  {
    assert IndexFrom(path, '/', 0) == 0 && path[0..0] == "";
    SplitSuffix(path, '/', 1);
    if path == "/" { assert SplitFrom(path, '/', 1) == [""]; }
  }

  /** Two such paths with equally many segments have equally many slashes. */
  lemma EquallySplit(path: string, other: string)
    requires StartsWith(path, '/') && StartsWith(other, '/') && |PathSegments(path)| == |PathSegments(other)|
    ensures |Split(path, '/')| == |Split(other, '/')| && (path == "/" <==> other == "/")
  {
    PathSplits(path);
    PathSplits(other);
  }

  lemma {:induction false} PartsNonEmpty(s: string, c: char, i: nat)
    requires 0 < i <= |s| && s[i - 1] == c && !Doubled(s, c) && !EndsWith(s, c)
    ensures forall k :: 0 <= k < |SplitFrom(s, c, i)| ==> SplitFrom(s, c, i)[k] != ""
    decreases |s| - i
  {
    var e := IndexFrom(s, c, i);
    assert i < |s| && s[i] != c;
    if e < |s| { PartsNonEmpty(s, c, e + 1); }
  }

  /** The segments of an acceptable path are non-empty placeholders or plain text, with distinct names. */
  lemma PathSegmentsOk(path: string)
    requires PathOk(path)
    ensures var segments := PathSegments(path);
            && WellFormed(segments) && ParamsOf(segments) == ParamsOf(Split(path, '/'))
            && forall k :: 0 <= k < |segments| ==> segments[k] != "" && Free(segments[k], '/')
  {
    var segments, all := PathSegments(path), Split(path, '/');
    assert IndexFrom(path, '/', 0) == 0 && path[0..0] == "";
    assert all == [""] + SplitFrom(path, '/', 1);
    assert all[1..] == SplitFrom(path, '/', 1);
    assert !IsPlaceholder(all[0]);
    assert ParamsOf(all) == ParamsOf(SplitFrom(path, '/', 1));
    if path != "/" {
      SplitSuffix(path, '/', 1);
      PartsNonEmpty(path, '/', 1);
      SplitParts(path, '/', 1);
      assert forall k :: 0 <= k < |segments| ==> segments[k] == all[k + 1];
    } else {
      assert SplitFrom(path, '/', 1) == [""];
    }
  }

  // ----- subjects -----------------------------------------------------------------------------

  predicate SubjectShape(subject: string) {
    && subject != "" && !StartsWith(subject, '.') && !EndsWith(subject, '.') && !Doubled(subject, '.')
    && !ContainsAny(subject, "*> \t\r\n")
  }

  predicate SubjectOk(subject: string) {
    SubjectShape(subject) && WellFormed(Split(subject, '.'))
  }

  /** `validateSubject`: the parameters of an acceptable subject. */
  method ValidateSubject(subject: string) returns (params: Option<seq<string>>)
    ensures params.Some? <==> SubjectOk(subject)
    ensures params.Some? ==> params.value == ParamsOf(Split(subject, '.'))
  {
    if subject == "" || StartsWith(subject, '.') || EndsWith(subject, '.') || Doubled(subject, '.') { return None; }
    if ContainsAny(subject, "*> \t\r\n") { return None; }
    params := ValidateTemplate(subject, '.');
  }

  /** The tokens of an acceptable subject are non-empty. */
  lemma SubjectTokensNonEmpty(subject: string)
    requires SubjectOk(subject)
    ensures forall k :: 0 <= k < |Split(subject, '.')| ==>
              Split(subject, '.')[k] != "" && Free(Split(subject, '.')[k], '.')
  {
    SplitParts(subject, '.', 0);
    var e := IndexFrom(subject, '.', 0);
    if e < |subject| { PartsNonEmpty(subject, '.', e + 1); }
  }

  // ----- parameters ---------------------------------------------------------------------------

  predicate QueryName(name: string) {
    name != "" && IsLetter(name[0])
    && forall i :: 0 <= i < |name| ==>
         IsNameChar(name[i]) || name[i] == '.' || name[i] == '-'
  }

  predicate PatternOk(pattern: string, parsed: Option<Regexp>) {
    && StartsWith(pattern, '^') && EndsWith(pattern, '$')
    && parsed.Some? && Analyse(parsed.value).Ok? && Analyse(parsed.value).value != 0
  }

  predicate ParameterOk(name: string, p: Parameter, pathParams: seq<string>) {
    && (p.source == "path" || p.source == "query")
    && p.name != ""
    && (p.source == "query" ==> QueryName(p.name) && name !in pathParams)
    && (p.source == "path" ==> name in pathParams && p.name == name)
    && PatternOk(p.pattern, p.parsed)
  }

  /** Every used name is declared and acceptable, and every declared one is used. */
  predicate ParametersOk(parameters: map<string, Parameter>, pathParams: seq<string>, used: seq<string>) {
    && (forall k :: 0 <= k < |used| ==> used[k] in parameters && ParameterOk(used[k], parameters[used[k]], pathParams))
    && (forall name <- parameters :: name in used)
  }

  /** `validateSafeParameterPattern`. */
  method ValidatePattern(parsed: Option<Regexp>) returns (ok: bool)
    ensures ok <==> parsed.Some? && Analyse(parsed.value).Ok? && Analyse(parsed.value).value != 0
  {
    if parsed.None? { return false; }
    var minimum := SafePatternMinimumLength(parsed.value);
    ok := minimum.Ok? && minimum.value != 0;
  }

  method ValidateParameter(name: string, p: Parameter, pathParams: seq<string>) returns (ok: bool)
    ensures ok <==> ParameterOk(name, p, pathParams)
  {
    if p.source != "path" && p.source != "query" { return false; }
    if p.name == "" { return false; }
    if p.source == "query" && !QueryName(p.name) { return false; }
    if p.source == "path" && (name !in pathParams || p.name != name) { return false; }
    if p.source == "query" && name in pathParams { return false; }
    if p.pattern == "" || p.pattern[0] != '^' || p.pattern[|p.pattern| - 1] != '$' { return false; }
    ok := ValidatePattern(p.parsed);
  }

  /** `validateParameters`. */
  method ValidateParameters(parameters: map<string, Parameter>, pathParams: seq<string>, used: seq<string>)
    returns (ok: bool)
    ensures ok <==> ParametersOk(parameters, pathParams, used)
  {
    for i := 0 to |used|
      invariant forall k :: 0 <= k < i ==>
                  used[k] in parameters && ParameterOk(used[k], parameters[used[k]], pathParams)
    {
      if used[i] !in parameters { return false; }
      var fine := ValidateParameter(used[i], parameters[used[i]], pathParams);
      if !fine { return false; }
    }
    ok := forall name <- parameters :: name in used;
  }

  // ----- routes -------------------------------------------------------------------------------

  predicate MethodsOk(methods: seq<string>) {
    methods != [] && "" !in methods && Unique(methods)
  }

  predicate RouteOk(route: Route) {
    && PathOk(route.path) && MethodsOk(route.methods) && SubjectOk(route.subject)
    && var pathParams := ParamsOf(Split(route.path, '/'));
       ParametersOk(route.parameters, pathParams, pathParams + ParamsOf(Split(route.subject, '.')))
  }

  method ValidateRoute(route: Route) returns (ok: bool)
    ensures ok <==> RouteOk(route)
  {
    var pathParams := ValidatePath(route.path);
    if pathParams.None? || !MethodsOk(route.methods) { return false; }
    var subjectParams := ValidateSubject(route.subject);
    if subjectParams.None? { return false; }
    ok := ValidateParameters(route.parameters, pathParams.value, pathParams.value + subjectParams.value);
  }

  /** The decoded segments fit the path template, whatever the parameters' grammars. */
  predicate Fits(path: string, segments: seq<string>) {
    var want := PathSegments(path);
    && |want| == |segments|
    && forall i :: 0 <= i < |want| ==> IsPlaceholder(want[i]) || want[i] == segments[i]
  }

  /** `placeholderPattern.MatchString`: a placeholder occurs somewhere. */
  predicate HasPlaceholder(segment: string) {
    FindAll(segment, 0) != []
  }

  lemma {:induction false} BraceFreeFindsNothing(s: string, i: nat)
    requires i <= |s| && BraceFree(s)
    ensures FindAll(s, i) == []
    decreases |s| - i
  {
    if i < |s| { BraceFreeFindsNothing(s, i + 1); }
  }

  /** On segments of acceptable templates the unanchored test and the whole-segment test agree. */
  lemma HasPlaceholderIffIs(segment: string)
    requires SegmentOk(segment)
    ensures HasPlaceholder(segment) <==> IsPlaceholder(segment)
  {
    if IsPlaceholder(segment) {
      assert segment[0..|segment|] == segment;
      PlaceholderIffPlaceEnd(segment, 0, |segment|);
    } else {
      BraceFreeFindsNothing(segment, 0);
    }
  }

  ghost predicate SomethingFitsBoth(left: string, right: string) {
    exists segments :: Fits(left, segments) && Fits(right, segments)
  }

  /** The values fit the first segments of both paths. */
  predicate FitBoth(ls: seq<string>, rs: seq<string>, common: seq<string>) {
    && |common| <= |ls| == |rs|
    && forall k :: 0 <= k < |common| ==>
         (IsPlaceholder(ls[k]) || ls[k] == common[k]) && (IsPlaceholder(rs[k]) || rs[k] == common[k])
  }

  lemma FitBothNext(ls: seq<string>, rs: seq<string>, common: seq<string>)
    requires FitBoth(ls, rs, common) && |common| < |ls|
    requires var i := |common|; IsPlaceholder(ls[i]) || IsPlaceholder(rs[i]) || ls[i] == rs[i]
    ensures var i := |common|; FitBoth(ls, rs, common + [if IsPlaceholder(ls[i]) then rs[i] else ls[i]])
  {
  }

  /** `pathsOverlap` is exact on acceptable paths: true if and only if some segments fit both. */
  method PathsOverlap(left: string, right: string) returns (overlap: bool)
    requires PathOk(left) && PathOk(right)
    ensures overlap <==> SomethingFitsBoth(left, right)
  {
    var ls, rs := PathSegments(left), PathSegments(right);
    PathSegmentsOk(left);
    PathSegmentsOk(right);
    if |ls| != |rs| { return false; }
    ghost var common := [];
    for i := 0 to |ls|
      invariant |common| == i && FitBoth(ls, rs, common)
    {
      HasPlaceholderIffIs(ls[i]);
      HasPlaceholderIffIs(rs[i]);
      if !HasPlaceholder(ls[i]) && !HasPlaceholder(rs[i]) && ls[i] != rs[i] { return false; }
      FitBothNext(ls, rs, common);
      common := common + [if IsPlaceholder(ls[i]) then rs[i] else ls[i]];
    }
    assert Fits(left, common) && Fits(right, common);
    overlap := true;
  }

  predicate MethodsOverlap(left: seq<string>, right: seq<string>) {
    exists m <- left :: m in right
  }

  ghost predicate Disjoint(a: Route, b: Route) {
    !MethodsOverlap(a.methods, b.methods) || !SomethingFitsBoth(a.path, b.path)
  }

  /** The route has another name than each earlier one, and shares no request with it. */
  ghost predicate Separate(route: Route, earlier: seq<Route>) {
    forall j :: 0 <= j < |earlier| ==> route.name != earlier[j].name && Disjoint(route, earlier[j])
  }

  ghost predicate EachOk(routes: seq<Route>, n: nat)
    requires n <= |routes|
  {
    forall i :: 0 <= i < n ==> RouteOk(routes[i]) && Separate(routes[i], routes[..i])
  }

  ghost predicate RoutesOk(routes: seq<Route>) {
    routes != [] && EachOk(routes, |routes|)
  }

  /** Any two different routes of an acceptable list are disjoint. */
  lemma PairwiseDisjoint(routes: seq<Route>, i: nat, j: nat)
    requires RoutesOk(routes) && i < |routes| && j < |routes| && i != j
    ensures Disjoint(routes[i], routes[j]) && routes[i].name != routes[j].name
  {
    var lo, hi := if i < j then i else j, if i < j then j else i;
    assert Separate(routes[hi], routes[..hi]) && routes[..hi][lo] == routes[lo];
    DisjointSymmetric(routes[hi], routes[lo]);
  }

  lemma DisjointSymmetric(a: Route, b: Route)
    ensures Disjoint(a, b) <==> Disjoint(b, a)
  {
  }

  method PairDisjoint(a: Route, b: Route) returns (disjoint: bool)
    requires PathOk(a.path) && PathOk(b.path)
    ensures disjoint <==> Disjoint(a, b)
  {
    if !MethodsOverlap(a.methods, b.methods) { return true; }
    var overlap := PathsOverlap(a.path, b.path);
    disjoint := !overlap;
  }

  ghost predicate Apart(route: Route, earlier: seq<Route>, n: nat)
    requires n <= |earlier|
  {
    forall j :: 0 <= j < n ==> Disjoint(route, earlier[j])
  }

  lemma ApartNext(route: Route, earlier: seq<Route>, n: nat)
    requires n < |earlier| && Apart(route, earlier, n)
    ensures Apart(route, earlier, n + 1) <==> Disjoint(route, earlier[n])
    ensures !Disjoint(route, earlier[n]) ==> !Separate(route, earlier)
  {
  }

  method CheckSeparate(route: Route, earlier: seq<Route>) returns (ok: bool)
    requires PathOk(route.path) && forall j :: 0 <= j < |earlier| ==> PathOk(earlier[j].path)
    requires forall j :: 0 <= j < |earlier| ==> route.name != earlier[j].name
    ensures ok <==> Separate(route, earlier)
  {
    for j := 0 to |earlier|
      invariant Apart(route, earlier, j)
    {
      ApartNext(route, earlier, j);
      var disjoint := PairDisjoint(route, earlier[j]);
      if !disjoint { return false; }
    }
    ok := true;
  }

  /** One round of `validateRoutes`. */
  method CheckRoute(route: Route, earlier: seq<Route>, seen: set<string>) returns (ok: bool)
    requires forall j :: 0 <= j < |earlier| ==> PathOk(earlier[j].path)
    requires seen == set r <- earlier :: r.name
    ensures ok <==> RouteOk(route) && Separate(route, earlier)
  {
    ok := ValidateRoute(route);
    if !ok { return; }
    if route.name in seen {
      var r :| r in earlier && r.name == route.name;
      var j :| 0 <= j < |earlier| && earlier[j] == r;
      return false;
    }
    ok := CheckSeparate(route, earlier);
  }

  lemma EachOkNext(routes: seq<Route>, i: nat)
    requires i < |routes|
    ensures EachOk(routes, i + 1) <==> EachOk(routes, i) && RouteOk(routes[i]) && Separate(routes[i], routes[..i])
  {
  }

  lemma EachOkFails(routes: seq<Route>, i: nat)
    requires i < |routes| && !(RouteOk(routes[i]) && Separate(routes[i], routes[..i]))
    ensures !EachOk(routes, |routes|)
  {
  }

  lemma EachPathOk(routes: seq<Route>, i: nat)
    requires i <= |routes| && EachOk(routes, i)
    ensures forall j :: 0 <= j < i ==> PathOk(routes[j].path)
  {
  }

  /** `validateRoutes`. */
  method ValidateRoutes(routes: seq<Route>) returns (ok: bool)
    ensures ok <==> RoutesOk(routes)
  {
    if routes == [] { return false; }
    var seen := {};
    for i := 0 to |routes|
      invariant EachOk(routes, i) && seen == set r <- routes[..i] :: r.name
    {
      EachPathOk(routes, i);
      EachOkNext(routes, i);
      ok := CheckRoute(routes[i], routes[..i], seen);
      if !ok {
        EachOkFails(routes, i);
        return;
      }
      seen := seen + {routes[i].name};
      assert routes[..i + 1] == routes[..i] + [routes[i]];
    }
    ok := true;
  }
}
