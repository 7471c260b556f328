/** What validation of the declared routes guarantees about every request the matcher answers. */
module RouteTheorems {
  import opened Text
  import opened Regexp
  import opened Templates
  import opened RouteConfig
  import opened Routes

  // ----- the subject --------------------------------------------------------------------------

  /** A token that can be published to: not empty, and no separator, wildcard, brace or whitespace. */
  predicate Publishable(token: string) {
    token != "" && Free(token, '.') && BraceFree(token) && !ContainsAny(token, "*> \t\r\n")
  }

  lemma SliceContains(s: string, i: nat, e: nat, chars: string)
    requires i <= e <= |s| && !ContainsAny(s, chars)
    ensures !ContainsAny(s[i..e], chars)
  {
    forall k | 0 <= k < e - i ensures s[i..e][k] !in chars { assert s[i..e][k] == s[i + k]; }
  }

  /** Splitting introduces no character. */
  lemma {:induction false} PartsContain(s: string, c: char, i: nat, chars: string)
    requires i <= |s| && !ContainsAny(s, chars)
    ensures forall k :: 0 <= k < |SplitFrom(s, c, i)| ==> !ContainsAny(SplitFrom(s, c, i)[k], chars)
    decreases |s| - i
  {
    var e := IndexFrom(s, c, i);
    SliceContains(s, i, e, chars);
    if e < |s| { PartsContain(s, c, e + 1, chars); } else { assert s[i..] == s[i..e]; }
  }

  /** The literal tokens of an acceptable subject can be published to. */
  lemma LiteralPublishable(subject: string, i: nat)
    requires SubjectOk(subject) && i < |Split(subject, '.')| && !IsPlaceholder(Split(subject, '.')[i])
    ensures Publishable(Split(subject, '.')[i])
  {
    SubjectTokensNonEmpty(subject);
    PartsContain(subject, '.', 0, "*> \t\r\n");
    assert SegmentOk(Split(subject, '.')[i]);
  }

  lemma FilledPublishable(find: Engine, route: Route, method_: string, path: string, query: Query, i: nat)
    requires Sound(find) && Compiled(route) && Passes(find, route, method_, path, query)
    requires i < |Split(route.subject, '.')|
    ensures Publishable(FillToken(Split(route.subject, '.')[i], Values(route, path, query)))
  {
    var token, values := Split(route.subject, '.')[i], Values(route, path, query);
    ValuesGood(find, route, method_, path, query);
    RouteParameters(route);
    if IsPlaceholder(token) {
      SafeIsPlain(values[ParamOf(token)]);
    } else {
      LiteralPublishable(route.subject, i);
    }
  }

  /** The tokens of the published subject are the template's, each filled in its place. */
  lemma SubjectTokens(find: Engine, route: Route, method_: string, path: string, query: Query)
    requires Sound(find) && Compiled(route) && Passes(find, route, method_, path, query)
    ensures Split(Subject(route, path, query), '.') == Fill(Split(route.subject, '.'), Values(route, path, query))
  {
    var filled := Fill(Split(route.subject, '.'), Values(route, path, query));
    forall i | 0 <= i < |filled| ensures Free(filled[i], '.') {
      FilledPublishable(find, route, method_, path, query, i);
    }
    SplitJoin(filled, '.');
  }

  /**
   The subject of an accepted request has as many tokens as the template, all of
   them publishable; literal tokens are unchanged and every placeholder has
   become the non-empty safe value the request supplied for it.
   */
  lemma SubjectSound(find: Engine, route: Route, method_: string, path: string, query: Query)
    requires Sound(find) && Compiled(route) && Passes(find, route, method_, path, query)
    ensures var tokens, out := Split(route.subject, '.'), Split(Subject(route, path, query), '.');
            && |out| == |tokens|
            && (forall i :: 0 <= i < |tokens| ==> Publishable(out[i]))
            && (forall i :: 0 <= i < |tokens| && !IsPlaceholder(tokens[i]) ==> out[i] == tokens[i])
            && (forall i :: 0 <= i < |tokens| && IsPlaceholder(tokens[i]) ==>
                  && ParamOf(tokens[i]) in Values(route, path, query)
                  && out[i] == Values(route, path, query)[ParamOf(tokens[i])]
                  && (forall k :: 0 <= k < |out[i]| ==> Safe(out[i][k])))
  {
    var tokens, values := Split(route.subject, '.'), Values(route, path, query);
    SubjectTokens(find, route, method_, path, query);
    forall i | 0 <= i < |tokens| ensures Publishable(FillToken(tokens[i], values)) {
      FilledPublishable(find, route, method_, path, query, i);
    }
    ValuesGood(find, route, method_, path, query);
    RouteParameters(route);
  }

  /** Two accepted requests with the same subject agree on every parameter that stands in the subject. */
  lemma SubjectInjective(find: Engine, route: Route,
                         method_: string, path: string, query: Query, method2: string, path2: string, query2: Query,
                         name: string)
    requires Sound(find) && Compiled(route)
    requires Passes(find, route, method_, path, query) && Passes(find, route, method2, path2, query2)
    requires Subject(route, path, query) == Subject(route, path2, query2)
    requires name in ParamsOf(Split(route.subject, '.'))
    ensures name in Values(route, path, query) && name in Values(route, path2, query2)
    ensures Values(route, path, query)[name] == Values(route, path2, query2)[name]
  {
    var tokens := Split(route.subject, '.');
    SubjectTokens(find, route, method_, path, query);
    SubjectTokens(find, route, method2, path2, query2);
    ValuesGood(find, route, method_, path, query);
    ValuesGood(find, route, method2, path2, query2);
    var i := ParamsOfFrom(tokens, name);
    RouteParameters(route);
    assert FillToken(tokens[i], Values(route, path, query)) == FillToken(tokens[i], Values(route, path2, query2));
  }

  // ----- the choice of a route ----------------------------------------------------------------

  /** The decoded segments of an accepted request fit the path template. */
  lemma PassesFits(find: Engine, route: Route, method_: string, path: string, query: Query, segments: seq<string>)
    requires Passes(find, route, method_, path, query)
    requires |segments| == |PathSegments(path)|
    requires forall i :: 0 <= i < |segments| ==> segments[i] == Decoded(PathSegments(path)[i])
    ensures Fits(route.path, segments)
  {
    var want, got := PathSegments(route.path), PathSegments(path);
    forall i | 0 <= i < |want| && !IsPlaceholder(want[i]) ensures want[i] == segments[i] {
      assert Judge(find, route.parameters, want[i], got[i]) == Fine;
    }
  }

  /** For any request at most one route of an acceptable list gives a subject. */
  lemma AtMostOnePasses(find: Engine, routes: seq<Route>, i: nat, j: nat, method_: string, path: string, query: Query)
    requires RoutesOk(routes) && i < |routes| && j < |routes|
    requires Passes(find, routes[i], method_, path, query) && Passes(find, routes[j], method_, path, query)
    ensures i == j
  {
    var got := PathSegments(path);
    var segments := seq(|got|, k requires 0 <= k < |got| => Decoded(got[k]));
    PassesFits(find, routes[i], method_, path, query, segments);
    PassesFits(find, routes[j], method_, path, query, segments);
    assert SomethingFitsBoth(routes[i].path, routes[j].path);
    assert MethodsOverlap(routes[i].methods, routes[j].methods);
    if i != j { PairwiseDisjoint(routes, i, j); }
  }

  datatype Served = NotServed | BadRequest | Publish(route: string, subject: string)

  ghost predicate AllCompiled(routes: seq<Route>) {
    forall i :: 0 <= i < |routes| ==> Compiled(routes[i])
  }

  /** The answer of the first route that has one. */
  function Outcome(find: Engine, routes: seq<Route>, method_: string, path: string, query: Query): Served {
    if routes == [] then NotServed
    else if Passes(find, routes[0], method_, path, query) then Publish(routes[0].name, Subject(routes[0], path, query))
    else if Refuses(find, routes[0], method_, path, query) then BadRequest
    else Outcome(find, routes[1..], method_, path, query)
  }

  /** The routes that the loop of `ServeHTTP` answers from: it passes over those that stream from JetStream. */
  function Answering(routes: seq<Route>, jetStream: Route -> bool): seq<Route> {
    if routes == [] then []
    else (if jetStream(routes[0]) then [] else [routes[0]]) + Answering(routes[1..], jetStream)
  }

  /** The route loop of `ServeHTTP`. */
  method Dispatch(find: Engine, routes: seq<Route>, jetStream: Route -> bool, method_: string, path: string,
                  query: Query)
    returns (served: Served)
    requires Sound(find) && AllCompiled(routes)
    ensures served == Outcome(find, Answering(routes, jetStream), method_, path, query)
  {
    for i := 0 to |routes|
      invariant Outcome(find, Answering(routes, jetStream), method_, path, query) ==
                  Outcome(find, Answering(routes[i..], jetStream), method_, path, query)
    {
      AnsweringFrom(routes, jetStream, i);
      if jetStream(routes[i]) { continue; }
      var r := Match(find, routes[i], method_, path, query);
      match r
      case Missed =>
      case Rejected => return BadRequest;
      case Accepted(subject) => return Publish(routes[i].name, subject);
    }
    served := NotServed;
  }

  lemma AnsweringFrom(routes: seq<Route>, jetStream: Route -> bool, i: nat)
    requires i < |routes|
    ensures var all, rest := Answering(routes[i..], jetStream), Answering(routes[i + 1..], jetStream);
            if jetStream(routes[i]) then all == rest else all != [] && all[0] == routes[i] && all[1..] == rest
  {
    assert routes[i..][1..] == routes[i + 1..];
  }

  lemma {:induction false} AnsweringIn(routes: seq<Route>, jetStream: Route -> bool, j: nat) returns (p: nat)
    requires j < |Answering(routes, jetStream)|
    ensures p < |routes| && routes[p] == Answering(routes, jetStream)[j]
  {
    if jetStream(routes[0]) {
      p := AnsweringIn(routes[1..], jetStream, j);
      p := p + 1;
    } else if j == 0 {
      p := 0;
    } else {
      p := AnsweringIn(routes[1..], jetStream, j - 1);
      p := p + 1;
    }
  }

  lemma TailOk(routes: seq<Route>)
    requires routes != [] && EachOk(routes, |routes|)
    ensures EachOk(routes[1..], |routes| - 1)
    ensures forall p :: 0 < p < |routes| ==> routes[p].name != routes[0].name && Disjoint(routes[p], routes[0])
  {
    var rest := routes[1..];
    forall i | 0 <= i < |rest| ensures RouteOk(rest[i]) && Separate(rest[i], rest[..i]) {
      assert Separate(routes[i + 1], routes[..i + 1]);
      assert forall j :: 0 <= j < i ==> rest[..i][j] == routes[..i + 1][j + 1];
    }
    forall p | 0 < p < |routes| ensures routes[p].name != routes[0].name && Disjoint(routes[p], routes[0]) {
      assert Separate(routes[p], routes[..p]) && routes[..p][0] == routes[0];
    }
  }

  /** What holds of every accepted list holds of the routes that the loop answers from, if there are any. */
  lemma {:induction false} AnsweringOk(routes: seq<Route>, jetStream: Route -> bool)
    requires EachOk(routes, |routes|)
    ensures EachOk(Answering(routes, jetStream), |Answering(routes, jetStream)|)
  {
    if routes != [] {
      TailOk(routes);
      AnsweringOk(routes[1..], jetStream);
      if !jetStream(routes[0]) { InFront(routes, jetStream); }
    }
  }

  lemma SeparateBehind(x: Route, b: seq<Route>, j: nat)
    requires j < |b| && Separate(b[j], b[..j]) && b[j].name != x.name && Disjoint(b[j], x)
    ensures Separate(([x] + b)[j + 1], ([x] + b)[..j + 1])
  {
    assert ([x] + b)[..j + 1] == [x] + b[..j];
  }

  lemma InFront(routes: seq<Route>, jetStream: Route -> bool)
    requires routes != [] && EachOk(routes, |routes|) && !jetStream(routes[0])
    requires EachOk(Answering(routes[1..], jetStream), |Answering(routes[1..], jetStream)|)
    ensures EachOk(Answering(routes, jetStream), |Answering(routes, jetStream)|)
  {
    var b := Answering(routes[1..], jetStream);
    var a := [routes[0]] + b;
    TailOk(routes);
    FirstOk(routes);
    forall j | 0 <= j < |b| ensures RouteOk(b[j]) && Separate(a[j + 1], a[..j + 1]) {
      var p := AnsweringIn(routes[1..], jetStream, j);
      SeparateBehind(routes[0], b, j);
    }
    assert forall j :: 1 <= j < |a| ==> a[j] == b[j - 1];
  }

  lemma FirstOk(routes: seq<Route>)
    requires routes != [] && EachOk(routes, |routes|)
    ensures RouteOk(routes[0]) && Separate(routes[0], [])
  {
    assert RouteOk(routes[0]) && Separate(routes[0], routes[..0]);
  }

  predicate SomePasses(find: Engine, routes: seq<Route>, method_: string, path: string, query: Query) {
    exists i :: 0 <= i < |routes| && Passes(find, routes[i], method_, path, query)
  }

  predicate SomeRefuses(find: Engine, routes: seq<Route>, method_: string, path: string, query: Query) {
    exists i :: 0 <= i < |routes| && Refuses(find, routes[i], method_, path, query)
  }

  /** Where the answer comes from. */
  lemma {:induction false} OutcomeFrom(find: Engine, routes: seq<Route>, method_: string, path: string, query: Query)
    ensures var out := Outcome(find, routes, method_, path, query);
            && (out.BadRequest? ==> SomeRefuses(find, routes, method_, path, query))
            && (out.NotServed? ==> !SomePasses(find, routes, method_, path, query))
            && (out.NotServed? ==> !SomeRefuses(find, routes, method_, path, query))
            && (out.Publish? ==> exists i :: 0 <= i < |routes| && Passes(find, routes[i], method_, path, query)
                                             && out == Publish(routes[i].name, Subject(routes[i], path, query)))
  {
    if routes != [] && !Passes(find, routes[0], method_, path, query)
      && !Refuses(find, routes[0], method_, path, query) {
      OutcomeFrom(find, routes[1..], method_, path, query);
      assert forall i :: 1 <= i < |routes| ==> routes[i] == routes[1..][i - 1];
      assert forall i :: 0 <= i < |routes| - 1 ==> routes[i + 1] == routes[1..][i];
    }
  }

  lemma SameElements(p: seq<Route>, routes: seq<Route>, i: nat) returns (j: nat)
    requires multiset(p) == multiset(routes) && i < |p|
    ensures j < |routes| && routes[j] == p[i]
  {
    assert p[i] in multiset(p);
    j :| 0 <= j < |routes| && routes[j] == p[i];
  }

  /** Reordering keeps whether some route passes and whether some route refuses. */
  lemma SomeSame(find: Engine, p: seq<Route>, routes: seq<Route>, method_: string, path: string, query: Query)
    requires multiset(p) == multiset(routes)
    ensures SomePasses(find, p, method_, path, query) ==> SomePasses(find, routes, method_, path, query)
    ensures SomeRefuses(find, p, method_, path, query) ==> SomeRefuses(find, routes, method_, path, query)
  {
    if SomePasses(find, p, method_, path, query) {
      var i :| 0 <= i < |p| && Passes(find, p[i], method_, path, query);
      var j := SameElements(p, routes, i);
    }
    if SomeRefuses(find, p, method_, path, query) {
      var i :| 0 <= i < |p| && Refuses(find, p[i], method_, path, query);
      var j := SameElements(p, routes, i);
    }
  }

  /** Without both a passing and a refusing route, every order gives the same answer. */
  lemma SameOutcome(find: Engine, p: seq<Route>, routes: seq<Route>, method_: string, path: string, query: Query)
    requires RoutesOk(routes) && multiset(p) == multiset(routes)
    requires !(SomePasses(find, routes, method_, path, query) && SomeRefuses(find, routes, method_, path, query))
    ensures Outcome(find, p, method_, path, query) == Outcome(find, routes, method_, path, query)
  {
    var out, out' := Outcome(find, routes, method_, path, query), Outcome(find, p, method_, path, query);
    OutcomeFrom(find, routes, method_, path, query);
    OutcomeFrom(find, p, method_, path, query);
    SomeSame(find, p, routes, method_, path, query);
    SomeSame(find, routes, p, method_, path, query);
    if out.Publish? && out'.Publish? {
      var i :| 0 <= i < |routes| && Passes(find, routes[i], method_, path, query)
               && out == Publish(routes[i].name, Subject(routes[i], path, query));
      var k :| 0 <= k < |p| && Passes(find, p[k], method_, path, query)
               && out' == Publish(p[k].name, Subject(p[k], path, query));
      var j := SameElements(p, routes, k);
      AtMostOnePasses(find, routes, i, j, method_, path, query);
    }
  }

  function ToFront(routes: seq<Route>, i: nat): (p: seq<Route>)
    requires i < |routes|
    ensures p != [] && p[0] == routes[i] && multiset(p) == multiset(routes)
  {
    assert routes == routes[..i] + [routes[i]] + routes[i + 1..];
    [routes[i]] + routes[..i] + routes[i + 1..]
  }

  /** Every order of the routes gives the request the same answer. */
  ghost predicate OrderIrrelevant(find: Engine, routes: seq<Route>, method_: string, path: string, query: Query) {
    forall p :: multiset(p) == multiset(routes) ==>
        Outcome(find, p, method_, path, query) == Outcome(find, routes, method_, path, query)
  }

  lemma PassesOrRefuses(find: Engine, route: Route, method_: string, path: string, query: Query)
    requires Passes(find, route, method_, path, query)
    ensures !Refuses(find, route, method_, path, query)
  {
    AllFine(find, route, path);
  }

  /** The declared order matters to a request exactly when one route accepts it and another refuses it. */
  lemma OrderIrrelevantIff(find: Engine, routes: seq<Route>, method_: string, path: string, query: Query)
    requires RoutesOk(routes)
    ensures OrderIrrelevant(find, routes, method_, path, query) <==>
              !(SomePasses(find, routes, method_, path, query) && SomeRefuses(find, routes, method_, path, query))
  {
    if SomePasses(find, routes, method_, path, query) && SomeRefuses(find, routes, method_, path, query) {
      var i :| 0 <= i < |routes| && Passes(find, routes[i], method_, path, query);
      var j :| 0 <= j < |routes| && Refuses(find, routes[j], method_, path, query);
      var p, q := ToFront(routes, i), ToFront(routes, j);
      if Passes(find, routes[j], method_, path, query) { PassesOrRefuses(find, routes[j], method_, path, query); }
      assert Outcome(find, p, method_, path, query).Publish? && Outcome(find, q, method_, path, query).BadRequest?;
    } else {
      forall p | multiset(p) == multiset(routes)
        ensures Outcome(find, p, method_, path, query) == Outcome(find, routes, method_, path, query)
      {
        SameOutcome(find, p, routes, method_, path, query);
      }
    }
  }
}
