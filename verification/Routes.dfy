/** Declared-route enforcement and subject construction for one request. */
module Routes {
  import opened Wrappers
  import opened Text
  import opened Regexp
  import opened Templates
  import opened RouteConfig

  /** `FindStringIndex` of a compiled pattern: where it matches first, if anywhere. */
  type Engine = (Regexp, string) -> Option<(nat, nat)>

  /** What the engine reports is a match of the expression. */
  ghost predicate Sound(find: Engine) {
    forall re, w :: find(re, w).Some? ==>
      find(re, w).value.0 <= find(re, w).value.1 <= |w| && Matches(re, w, find(re, w).value.0, find(re, w).value.1)
  }

  type Query = map<string, seq<string>>

  datatype MatchResult = Missed | Rejected | Accepted(subject: string)

  // ----- percent decoding ---------------------------------------------------------------------

  function HexDigit(c: char): (d: Option<nat>)
    ensures d.Some? ==> d.value < 16
  {
    if '0' <= c <= '9' then Some(c as nat - '0' as nat)
    else if 'a' <= c <= 'f' then Some(c as nat - 'a' as nat + 10)
    else if 'A' <= c <= 'F' then Some(c as nat - 'A' as nat + 10)
    else None
  }

  /** `url.PathUnescape`. */
  function PathUnescape(s: string): Option<string> {
    if s == "" then Some("")
    else if s[0] != '%' then
      (match PathUnescape(s[1..]) case Some(rest) => Some([s[0]] + rest) case None => None)
    else if |s| < 3 then None
    else
      match (HexDigit(s[1]), HexDigit(s[2]), PathUnescape(s[3..]))
      case (Some(hi), Some(lo), Some(rest)) => Some([(16 * hi + lo) as char] + rest)
      case _ => None
  }

  // ----- what a request must satisfy ----------------------------------------------------------

  /** `matchesEntireValue`. */
  predicate EntireValue(find: Engine, p: Parameter, value: string) {
    p.parsed.Some? && find(p.parsed.value, value) == Some((0, |value|))
  }

  datatype Verdict = Fine | Differs | Bad

  /** One declared segment against one segment of the request. */
  function Judge(find: Engine, parameters: map<string, Parameter>, want: string, got: string): Verdict {
    match PathUnescape(got)
    case None => Bad
    case Some(value) =>
      if !IsPlaceholder(want) then (if want == value then Fine else Differs)
      else if ParamOf(want) in parameters && EntireValue(find, parameters[ParamOf(want)], value) then Fine
      else Bad
  }

  /** All segments before `k` are fine. */
  predicate FineUpTo(find: Engine, parameters: map<string, Parameter>, want: seq<string>, got: seq<string>, k: nat)
    requires |want| == |got| && k <= |want|
  {
    forall i :: 0 <= i < k ==> Judge(find, parameters, want[i], got[i]) == Fine
  }

  /** The first segment that is not fine is `k`, and it is judged `v`. */
  predicate FailsFirst(find: Engine, parameters: map<string, Parameter>, want: seq<string>, got: seq<string>, k: nat,
                       v: Verdict)
    requires |want| == |got|
  {
    k < |want| && FineUpTo(find, parameters, want, got, k) && Judge(find, parameters, want[k], got[k]) == v && v != Fine
  }

  predicate QueryOk(find: Engine, p: Parameter, query: Query) {
    p.source == "query" ==> p.name in query && |query[p.name]| == 1 && EntireValue(find, p, query[p.name][0])
  }

  predicate QueriesOk(find: Engine, parameters: map<string, Parameter>, query: Query) {
    forall name <- parameters :: QueryOk(find, parameters[name], query)
  }

  /** The method is declared and the request has as many segments as the path. */
  predicate Applies(route: Route, method_: string, path: string) {
    method_ in route.methods && |PathSegments(route.path)| == |PathSegments(path)|
  }

  function Decoded(got: string): string {
    match PathUnescape(got) case Some(value) => value case None => ""
  }

  /** The values of the path placeholders. */
  function PathValues(want: seq<string>, got: seq<string>): map<string, string>
    requires |want| == |got|
  {
    if want == [] then map[]
    else
      var n := |want| - 1;
      var rest := PathValues(want[..n], got[..n]);
      if IsPlaceholder(want[n]) then rest[ParamOf(want[n]) := Decoded(got[n])] else rest
  }

  predicate FromQuery(parameters: map<string, Parameter>, query: Query, name: string) {
    && name in parameters && parameters[name].source == "query"
    && parameters[name].name in query && |query[parameters[name].name]| == 1
  }

  /** The values of the query parameters. */
  function QueryValues(parameters: map<string, Parameter>, query: Query): map<string, string> {
    map name | name in parameters && FromQuery(parameters, query, name) :: query[parameters[name].name][0]
  }

  function Values(route: Route, path: string, query: Query): map<string, string>
    requires |PathSegments(route.path)| == |PathSegments(path)|
  {
    PathValues(PathSegments(route.path), PathSegments(path)) + QueryValues(route.parameters, query)
  }

  // ----- substitution -------------------------------------------------------------------------

  function FillToken(token: string, values: map<string, string>): string {
    if IsPlaceholder(token) && ParamOf(token) in values then values[ParamOf(token)] else token
  }

  /** All placeholders that have a value replaced at once. */
  function Fill(tokens: seq<string>, values: map<string, string>): (filled: seq<string>)
    ensures |filled| == |tokens|
    ensures forall i :: 0 <= i < |tokens| ==> filled[i] == FillToken(tokens[i], values)
  {
    seq(|tokens|, i requires 0 <= i < |tokens| => FillToken(tokens[i], values))
  }

  predicate TokensOk(tokens: seq<string>) {
    forall i :: 0 <= i < |tokens| ==> SegmentOk(tokens[i])
  }

  lemma PlaceholderOf(token: string)
    requires IsPlaceholder(token)
    ensures token == Placeholder(ParamOf(token))
  {
  }

  /** One placeholder text begins another's only if they are the same. */
  lemma PlaceholderNotPrefix(name: string, other: string, b: string)
    requires ValidParam(name) && ValidParam(other) && Placeholder(name) <= Placeholder(other) + b
    ensures name == other
  {
    var s := Placeholder(other) + b;
    assert forall i :: 0 <= i < |name| ==> Placeholder(name)[i + 1] == name[i];
    assert forall i :: 0 <= i < |other| ==> s[i + 1] == other[i];
    assert s[|other| + 1] == '}' && Placeholder(name)[|name| + 1] == '}';
    assert forall i :: 0 <= i < |name| + 2 ==> s[i] == Placeholder(name)[i];
  }

  /** Replacing one placeholder in front of some text. */
  lemma ReplaceToken(token: string, b: string, name: string, value: string)
    requires SegmentOk(token) && ValidParam(name)
    ensures ReplaceAll(token + b, Placeholder(name), value) ==
              FillToken(token, map[name := value]) + ReplaceAll(b, Placeholder(name), value)
  {
    if IsPlaceholder(token) {
      PlaceholderOf(token);
      if ParamOf(token) == name {
        ReplaceHits(b, Placeholder(name), value);
      } else {
        ReplaceOther(ParamOf(token), b, name, value);
      }
    } else {
      ReplaceSkips(token, b, Placeholder(name), value);
    }
  }

  lemma ReplaceOther(other: string, b: string, name: string, value: string)
    requires ValidParam(name) && ValidParam(other) && name != other
    ensures ReplaceAll(Placeholder(other) + b, Placeholder(name), value) ==
              Placeholder(other) + ReplaceAll(b, Placeholder(name), value)
  {
    var tail := other + "}";
    if Placeholder(name) <= Placeholder(other) + b { PlaceholderNotPrefix(name, other, b); }
    assert Placeholder(other) + b == "{" + (tail + b);
    assert (Placeholder(other) + b)[1..] == tail + b;
    ReplaceSkips(tail, b, Placeholder(name), value);
    assert Placeholder(other) == "{" + tail;
  }

  /** `strings.ReplaceAll` on the whole subject replaces exactly the tokens that are that placeholder. */
  lemma {:induction false} ReplaceInSubject(tokens: seq<string>, name: string, value: string)
    requires TokensOk(tokens) && ValidParam(name)
    ensures ReplaceAll(Join(tokens, '.'), Placeholder(name), value) == Join(Fill(tokens, map[name := value]), '.')
  {
    var one := map[name := value];
    if tokens == [] {
      assert Fill(tokens, one) == [];
    } else if |tokens| == 1 {
      ReplaceToken(tokens[0], "", name, value);
      assert tokens[0] + "" == tokens[0];
      assert Fill(tokens, one) == [FillToken(tokens[0], one)];
    } else {
      ReplaceInSubject(tokens[1..], name, value);
      ReplaceInFront(tokens[0], Join(tokens[1..], '.'), name, value);
      assert Fill(tokens, one) == [FillToken(tokens[0], one)] + Fill(tokens[1..], one);
      JoinCons(FillToken(tokens[0], one), Fill(tokens[1..], one), '.');
    }
  }

  /** One token, the separator and the rest of the subject. */
  lemma ReplaceInFront(token: string, rest: string, name: string, value: string)
    requires SegmentOk(token) && ValidParam(name)
    ensures ReplaceAll(token + ['.'] + rest, Placeholder(name), value) ==
              FillToken(token, map[name := value]) + ['.'] + ReplaceAll(rest, Placeholder(name), value)
  {
    assert token + ['.'] + rest == token + ("." + rest);
    ReplaceToken(token, "." + rest, name, value);
    ReplaceSkips(".", rest, Placeholder(name), value);
  }

  predicate ValuesSafe(values: map<string, string>) {
    forall name <- values :: values[name] != "" && forall i :: 0 <= i < |values[name]| ==> Safe(values[name][i])
  }

  lemma SafeIsPlain(value: string)
    requires forall i :: 0 <= i < |value| ==> Safe(value[i])
    ensures BraceFree(value) && Free(value, '.') && !ContainsAny(value, "*> \t\r\n")
  {
  }

  /** After filling some names, filling one more is filling them all. */
  lemma FillMore(tokens: seq<string>, done: map<string, string>, name: string, value: string)
    requires TokensOk(tokens) && ValuesSafe(done) && name !in done
    ensures TokensOk(Fill(tokens, done)) && Fill(Fill(tokens, done), map[name := value]) ==
              Fill(tokens, done[name := value])
  {
    forall i | 0 <= i < |tokens|
      ensures SegmentOk(Fill(tokens, done)[i])
      ensures FillToken(Fill(tokens, done)[i], map[name := value]) == FillToken(tokens[i], done[name := value])
    {
      if IsPlaceholder(tokens[i]) && ParamOf(tokens[i]) in done {
        SafeIsPlain(done[ParamOf(tokens[i])]);
        assert BraceFree(FillToken(tokens[i], done));
        assert !IsPlaceholder(FillToken(tokens[i], done));
      }
    }
  }

  lemma FillNothing(tokens: seq<string>)
    ensures Fill(tokens, map[]) == tokens
  {
  }

  /** The loop of `Match` over the values, in any order, fills all placeholders at once. */
  method Substitute(template: string, values: map<string, string>) returns (subject: string)
    requires TokensOk(Split(template, '.')) && ValuesSafe(values) && forall name <- values :: ValidParam(name)
    ensures subject == Join(Fill(Split(template, '.'), values), '.')
  {
    ghost var tokens := Split(template, '.');
    subject := template;
    var left, done := values.Keys, map[];
    FillNothing(tokens);
    SplitParts(template, '.', 0);
    while left != {}
      invariant left <= values.Keys && done.Keys == values.Keys - left
                && forall name <- done :: done[name] == values[name]
      invariant subject == Join(Fill(tokens, done), '.')
      decreases |left|
    {
      var name :| name in left;
      FillMore(tokens, done, name, values[name]);
      ReplaceInSubject(Fill(tokens, done), name, values[name]);
      subject := ReplaceAll(subject, Placeholder(name), values[name]);
      left, done := left - {name}, done[name := values[name]];
    }
    assert done == values;
  }

  // ----- facts about the values ---------------------------------------------------------------

  /** What validation guarantees about a route, as the matcher uses it. */
  ghost predicate Compiled(route: Route) {
    RouteOk(route) && forall name <- route.parameters :: route.parameters[name].parsed.Some? ==>
        Parsed(route.parameters[name].parsed.value)
  }

  /** A value that spans the whole match of an acceptable grammar is safe and not empty. */
  lemma EntireValueSafe(find: Engine, p: Parameter, value: string)
    requires Sound(find) && PatternOk(p.pattern, p.parsed) && Parsed(p.parsed.value) && EntireValue(find, p, value)
    ensures value != "" && forall i :: 0 <= i < |value| ==> Safe(value[i])
  {
    assert find(p.parsed.value, value).Some?;
    AnalysisSound(p.parsed.value, value, 0, |value|);
  }

  lemma {:induction false} ParamsOfAt(segments: seq<string>, i: nat)
    requires i < |segments| && IsPlaceholder(segments[i])
    ensures ParamOf(segments[i]) in ParamsOf(segments)
  {
    if i > 0 { ParamsOfAt(segments[1..], i - 1); }
  }

  lemma {:induction false} ParamsOfFrom(segments: seq<string>, name: string) returns (i: nat)
    requires name in ParamsOf(segments)
    ensures i < |segments| && IsPlaceholder(segments[i]) && ParamOf(segments[i]) == name
  {
    if IsPlaceholder(segments[0]) && ParamOf(segments[0]) == name {
      i := 0;
    } else {
      var k := ParamsOfFrom(segments[1..], name);
      i := k + 1;
    }
  }

  /** A name stands in one segment only. */
  lemma {:induction false} OnePlace(segments: seq<string>, i: nat, j: nat)
    requires Unique(ParamsOf(segments)) && i < j < |segments| && IsPlaceholder(segments[i])
             && IsPlaceholder(segments[j])
    ensures ParamOf(segments[i]) != ParamOf(segments[j])
  {
    var rest := ParamsOf(segments[1..]);
    if i == 0 {
      ParamsOfAt(segments[1..], j - 1);
      assert ParamsOf(segments) == [ParamOf(segments[0])] + rest;
      var k :| 0 <= k < |rest| && rest[k] == ParamOf(segments[j]);
      assert ParamsOf(segments)[0] != ParamsOf(segments)[k + 1];
    } else {
      UniqueTail(segments);
      OnePlace(segments[1..], i - 1, j - 1);
    }
  }

  lemma UniqueTail(segments: seq<string>)
    requires Unique(ParamsOf(segments)) && segments != []
    ensures Unique(ParamsOf(segments[1..]))
  {
    if IsPlaceholder(segments[0]) {
      var all, rest := ParamsOf(segments), ParamsOf(segments[1..]);
      assert all == [ParamOf(segments[0])] + rest;
      forall i, j | 0 <= i < j < |rest| ensures rest[i] != rest[j] { assert all[i + 1] != all[j + 1]; }
    } else {
      assert [] + ParamsOf(segments[1..]) == ParamsOf(segments[1..]);
    }
  }

  /** Which names have a path value, and where it comes from. */
  lemma {:induction false} PathValueFrom(want: seq<string>, got: seq<string>, name: string) returns (i: nat)
    requires |want| == |got| && name in PathValues(want, got)
    ensures i < |want| && IsPlaceholder(want[i]) && ParamOf(want[i]) == name
            && PathValues(want, got)[name] == Decoded(got[i])
  {
    var n := |want| - 1;
    if IsPlaceholder(want[n]) && ParamOf(want[n]) == name {
      i := n;
    } else {
      i := PathValueFrom(want[..n], got[..n], name);
    }
  }

  lemma {:induction false} PathValueAt(want: seq<string>, got: seq<string>, i: nat)
    requires |want| == |got| && i < |want| && IsPlaceholder(want[i])
    ensures ParamOf(want[i]) in PathValues(want, got)
  {
    if i < |want| - 1 { PathValueAt(want[..|want| - 1], got[..|want| - 1], i); }
  }

  /** Each path placeholder has the decoded segment in its place as its value. */
  lemma PathValueIs(want: seq<string>, got: seq<string>, i: nat)
    requires |want| == |got| && i < |want| && IsPlaceholder(want[i]) && Unique(ParamsOf(want))
    ensures ParamOf(want[i]) in PathValues(want, got) && PathValues(want, got)[ParamOf(want[i])] == Decoded(got[i])
  {
    PathValueAt(want, got, i);
    var k := PathValueFrom(want, got, ParamOf(want[i]));
    if k < i { OnePlace(want, k, i); }
    if i < k { OnePlace(want, i, k); }
  }

  /** The request passes every check of the route. */
  predicate Passes(find: Engine, route: Route, method_: string, path: string, query: Query) {
    && Applies(route, method_, path)
    && var want, got := PathSegments(route.path), PathSegments(path);
       FineUpTo(find, route.parameters, want, got, |want|) && QueriesOk(find, route.parameters, query)
  }

  predicate RejectedAt(find: Engine, route: Route, path: string, k: nat)
    requires |PathSegments(route.path)| == |PathSegments(path)|
  {
    FailsFirst(find, route.parameters, PathSegments(route.path), PathSegments(path), k, Bad)
  }

  /** The request is the route's but its values are not acceptable. */
  predicate Refuses(find: Engine, route: Route, method_: string, path: string, query: Query) {
    && Applies(route, method_, path)
    && var want, got := PathSegments(route.path), PathSegments(path);
       || (exists k: nat :: k < |want| && RejectedAt(find, route, path, k))
       || (FineUpTo(find, route.parameters, want, got, |want|) && !QueriesOk(find, route.parameters, query))
  }

  // ----- matching -----------------------------------------------------------------------------

  /** `placeholderName`: on segments of acceptable templates it finds exactly the placeholders. */
  function PlaceholderName(segment: string): (name: Option<string>)
    requires SegmentOk(segment)
    ensures name == if IsPlaceholder(segment) then Some(ParamOf(segment)) else None
  {
    if |segment| > 2 && segment[0] == '{' && segment[|segment| - 1] == '}' then
      assert !BraceFree(segment);
      Some(segment[1..|segment| - 1])
    else None
  }

  lemma PathValuesNext(want: seq<string>, got: seq<string>, i: nat)
    requires |want| == |got| && i < |want|
    ensures PathValues(want[..i + 1], got[..i + 1]) ==
              if IsPlaceholder(want[i]) then PathValues(want[..i], got[..i])[ParamOf(want[i]) := Decoded(got[i])]
              else PathValues(want[..i], got[..i])
  {
    assert want[..i + 1][..i] == want[..i] && got[..i + 1][..i] == got[..i];
  }

  /** The loop of `Match` over the path: the first segment that is not fine decides. */
  method MatchSegments(find: Engine, parameters: map<string, Parameter>, want: seq<string>, got: seq<string>)
    returns (verdict: Verdict, values: map<string, string>)
    requires |want| == |got| && TokensOk(want)
    requires forall i :: 0 <= i < |want| && IsPlaceholder(want[i]) ==> ParamOf(want[i]) in parameters
    ensures verdict == Fine ==> FineUpTo(find, parameters, want, got, |want|) && values == PathValues(want, got)
    ensures verdict != Fine ==> exists k: nat :: FailsFirst(find, parameters, want, got, k, verdict)
  {
    values := map[];
    for i := 0 to |want|
      invariant FineUpTo(find, parameters, want, got, i) && values == PathValues(want[..i], got[..i])
    {
      PathValuesNext(want, got, i);
      var value := PathUnescape(got[i]);
      if value.None? {
        assert FailsFirst(find, parameters, want, got, i, Bad);
        return Bad, values;
      }
      var name := PlaceholderName(want[i]);
      if name.None? {
        if want[i] != value.value {
          assert FailsFirst(find, parameters, want, got, i, Differs);
          return Differs, values;
        }
      } else {
        if !EntireValue(find, parameters[name.value], value.value) {
          assert FailsFirst(find, parameters, want, got, i, Bad);
          return Bad, values;
        }
        values := values[name.value := value.value];
      }
    }
    assert want[..|want|] == want && got[..|got|] == got;
    verdict := Fine;
  }

  /** The loop of `Match` over the parameters, in any order. */
  method MatchQuery(find: Engine, parameters: map<string, Parameter>, query: Query)
    returns (ok: bool, values: map<string, string>)
    ensures ok <==> QueriesOk(find, parameters, query)
    ensures ok ==> values == QueryValues(parameters, query)
  {
    values := map[];
    var left := parameters.Keys;
    while left != {}
      invariant left <= parameters.Keys
      invariant forall name <- parameters :: name !in left ==> QueryOk(find, parameters[name], query)
      invariant forall name ::
                  name in values <==> name in parameters && name !in left && FromQuery(parameters, query, name)
      invariant forall name <- values :: values[name] == query[parameters[name].name][0]
      decreases |left|
    {
      var name :| name in left;
      left := left - {name};
      var p := parameters[name];
      if p.source == "query" {
        if p.name !in query || |query[p.name]| != 1 || !EntireValue(find, p, query[p.name][0]) { return false, values; }
        values := values[name := query[p.name][0]];
      }
    }
    ok := true;
  }

  function Subject(route: Route, path: string, query: Query): string
    requires |PathSegments(route.path)| == |PathSegments(path)|
  {
    Join(Fill(Split(route.subject, '.'), Values(route, path, query)), '.')
  }

  /** The parameters of an acceptable route: every placeholder is declared, and every declared one is acceptable. */
  lemma RouteParameters(route: Route)
    requires RouteOk(route)
    ensures WellFormed(PathSegments(route.path)) && TokensOk(Split(route.subject, '.'))
    ensures var want := PathSegments(route.path);
            forall i :: 0 <= i < |want| && IsPlaceholder(want[i]) ==> ParamOf(want[i]) in route.parameters
    ensures var tokens := Split(route.subject, '.');
            forall i :: 0 <= i < |tokens| && IsPlaceholder(tokens[i]) ==> ParamOf(tokens[i]) in route.parameters
  {
    var want, tokens := PathSegments(route.path), Split(route.subject, '.');
    PathSegmentsOk(route.path);
    var used := ParamsOf(want) + ParamsOf(tokens);
    assert forall k :: 0 <= k < |used| ==> used[k] in route.parameters;
    forall i | 0 <= i < |want| && IsPlaceholder(want[i]) ensures ParamOf(want[i]) in route.parameters {
      ParamsOfAt(want, i);
      assert ParamOf(want[i]) in used;
    }
    forall i | 0 <= i < |tokens| && IsPlaceholder(tokens[i]) ensures ParamOf(tokens[i]) in route.parameters {
      ParamsOfAt(tokens, i);
      assert ParamOf(tokens[i]) in used;
    }
  }

  lemma ParameterDeclared(route: Route, name: string)
    requires RouteOk(route) && name in route.parameters
    ensures ParameterOk(name, route.parameters[name], ParamsOf(PathSegments(route.path))) && ValidParam(name)
  {
    var want, tokens := PathSegments(route.path), Split(route.subject, '.');
    PathSegmentsOk(route.path);
    var used := ParamsOf(want) + ParamsOf(tokens);
    assert name in used;
    if name in ParamsOf(want) { var i := ParamsOfFrom(want, name); } else { var i := ParamsOfFrom(tokens, name); }
  }

  /** The value of a path parameter of a request that passes. */
  lemma PathValueGood(find: Engine, route: Route, method_: string, path: string, query: Query, name: string)
    requires Sound(find) && Compiled(route) && Passes(find, route, method_, path, query)
    requires name in PathValues(PathSegments(route.path), PathSegments(path))
    ensures name in route.parameters && name in ParamsOf(PathSegments(route.path))
    ensures var value := PathValues(PathSegments(route.path), PathSegments(path))[name];
            value != "" && (forall i :: 0 <= i < |value| ==> Safe(value[i]))
              && EntireValue(find, route.parameters[name], value)
  {
    var want, got := PathSegments(route.path), PathSegments(path);
    RouteParameters(route);
    var i := PathValueFrom(want, got, name);
    ParamsOfAt(want, i);
    assert Judge(find, route.parameters, want[i], got[i]) == Fine;
    ParameterDeclared(route, name);
    EntireValueSafe(find, route.parameters[name], Decoded(got[i]));
  }

  lemma QueryValueGood(find: Engine, route: Route, method_: string, path: string, query: Query, name: string)
    requires Sound(find) && Compiled(route) && Passes(find, route, method_, path, query)
    requires name in QueryValues(route.parameters, query)
    ensures name !in ParamsOf(PathSegments(route.path))
    ensures var value := QueryValues(route.parameters, query)[name];
            value != "" && (forall i :: 0 <= i < |value| ==> Safe(value[i]))
              && EntireValue(find, route.parameters[name], value)
  {
    ParameterDeclared(route, name);
    assert QueryOk(find, route.parameters[name], query);
    EntireValueSafe(find, route.parameters[name], query[route.parameters[name].name][0]);
  }

  /** Exactly the declared parameters have values, and all values are safe. */
  lemma ValuesGood(find: Engine, route: Route, method_: string, path: string, query: Query)
    requires Sound(find) && Compiled(route) && Passes(find, route, method_, path, query)
    ensures ValuesSafe(Values(route, path, query))
    ensures Values(route, path, query).Keys == route.parameters.Keys
    ensures forall name <- Values(route, path, query) :: ValidParam(name)
  {
    var want, got := PathSegments(route.path), PathSegments(path);
    var values := Values(route, path, query);
    forall name | name in values
      ensures name in route.parameters && ValidParam(name)
      ensures values[name] != "" && forall i :: 0 <= i < |values[name]| ==> Safe(values[name][i])
    {
      if name in QueryValues(route.parameters, query) {
        QueryValueGood(find, route, method_, path, query, name);
      } else {
        PathValueGood(find, route, method_, path, query, name);
      }
      ParameterDeclared(route, name);
    }
    forall name | name in route.parameters ensures name in values {
      ParameterHasValue(find, route, method_, path, query, name);
    }
  }

  lemma ParameterHasValue(find: Engine, route: Route, method_: string, path: string, query: Query, name: string)
    requires RouteOk(route) && Passes(find, route, method_, path, query) && name in route.parameters
    ensures name in Values(route, path, query)
  {
    ParameterDeclared(route, name);
    if route.parameters[name].source == "query" {
      assert QueryOk(find, route.parameters[name], query);
      assert FromQuery(route.parameters, query, name);
    } else {
      var i := ParamsOfFrom(PathSegments(route.path), name);
      PathValueAt(PathSegments(route.path), PathSegments(path), i);
    }
  }

  /**
   `Match`: accepted exactly when the request passes every check, with all
   placeholders filled at once; refused when the first segment that is not fine
   is a bad one, or a query value is not acceptable.
   */
  method Match(find: Engine, route: Route, method_: string, path: string, query: Query) returns (r: MatchResult)
    requires Sound(find) && Compiled(route)
    ensures r.Accepted? <==> Passes(find, route, method_, path, query)
    ensures r.Rejected? <==> Refuses(find, route, method_, path, query)
    ensures r.Accepted? ==> r.subject == Subject(route, path, query)
    ensures !r.Missed? && StartsWith(path, '/') ==> |Split(path, '/')| == |Split(route.path, '/')|
  {
    if method_ !in route.methods { return Missed; }
    var want, got := PathSegments(route.path), PathSegments(path);
    if |want| != |got| { return Missed; }
    if StartsWith(path, '/') { EquallySplit(route.path, path); }
    RouteParameters(route);
    var verdict, values := MatchSegments(find, route.parameters, want, got);
    if verdict != Fine {
      ghost var k: nat :| FailsFirst(find, route.parameters, want, got, k, verdict);
      FirstFailureDecides(find, route, method_, path, query, k, verdict);
      return if verdict == Bad then Rejected else Missed;
    }
    AllFine(find, route, path);
    var ok, more := MatchQuery(find, route.parameters, query);
    if !ok { return Rejected; }
    ValuesGood(find, route, method_, path, query);
    var subject := Substitute(route.subject, values + more);
    r := Accepted(subject);
  }

  lemma FirstFailureDecides(find: Engine, route: Route, method_: string, path: string, query: Query, k: nat,
                            verdict: Verdict)
    requires Applies(route, method_, path)
    requires FailsFirst(find, route.parameters, PathSegments(route.path), PathSegments(path), k, verdict)
    ensures !Passes(find, route, method_, path, query)
    ensures Refuses(find, route, method_, path, query) <==> verdict == Bad
  {
    var want, got := PathSegments(route.path), PathSegments(path);
    if verdict == Bad { assert RejectedAt(find, route, path, k); }
    if Refuses(find, route, method_, path, query) {
      var j: nat :| j < |want| && RejectedAt(find, route, path, j);
      assert j == k;
    }
  }

  lemma AllFine(find: Engine, route: Route, path: string)
    requires |PathSegments(route.path)| == |PathSegments(path)|
    requires FineUpTo(find, route.parameters, PathSegments(route.path), PathSegments(path), |PathSegments(path)|)
    ensures forall k: nat :: k < |PathSegments(path)| ==> !RejectedAt(find, route, path, k)
  {
  }
}
