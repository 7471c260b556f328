/** A declared list for which the order of the routes matters. */
module RouteOrderExample {
  import opened Wrappers
  import opened Text
  import opened Regexp
  import opened Templates
  import opened RouteConfig
  import opened Routes
  import opened RouteTheorems

  /** `^[lo-hi]+$`. */
  function OneOrMore(lo: char, hi: char): Regexp {
    Concat([Assert(BeginText), Plus(CharClass([(lo as int, hi as int)])), Assert(EndText)])
  }

  function Numbered(name: string, last: string, lo: char, hi: char): Route {
    Route(name, "/{id}/" + last, ["GET"], last + ".{id}",
          map["id" := Parameter("path", "id", "^[" + [lo] + "-" + [hi] + "]+$", Some(OneOrMore(lo, hi)))])
  }

  /** `/{id}/a` with letters before `/{id}/b` with digits. */
  function TwoRoutes(): seq<Route> {
    [Numbered("first", "a", 'a', 'z'), Numbered("second", "b", '0', '9')]
  }

  predicate PlainName(last: string) {
    |last| == 1 && IsLetter(last[0])
  }

  /** An engine that reports exactly the matches that span the whole value. */
  ghost function WholeMatch(): Engine {
    (re: Regexp, w: string) => if Matches(re, w, 0, |w|) then Some((0, |w|)) else None
  }

  lemma SegmentsOfPath(last: string)
    requires PlainName(last)
    ensures Split("/{id}/" + last, '/') == ["", "{id}", last] && PathSegments("/{id}/" + last) == ["{id}", last]
  {
    var parts, path := ["", "{id}", last], "/{id}/" + last;
    JoinCons("{id}", [last], '/');
    JoinCons("", ["{id}", last], '/');
    assert [""] + ["{id}", last] == parts && ["{id}"] + [last] == parts[1..];
    assert Join(parts, '/') == path;
    SplitJoin(parts, '/');
    assert Join(parts[1..], '/') == path[1..];
    SplitJoin(parts[1..], '/');
  }

  lemma TokensOfSubject(last: string)
    requires PlainName(last)
    ensures Split(last + ".{id}", '.') == [last, "{id}"]
  {
    var parts := [last, "{id}"];
    JoinCons(last, ["{id}"], '.');
    assert [last] + ["{id}"] == parts;
    assert Join(parts, '.') == last + ".{id}";
    SplitJoin(parts, '.');
  }

  lemma IdPlaceholder()
    ensures IsPlaceholder("{id}") && ParamOf("{id}") == "id"
  {
    assert "{id}"[1..3] == "id";
  }

  lemma NamesOnce(last: string)
    requires PlainName(last)
    ensures ParamsOf(["", "{id}", last]) == ["id"] && ParamsOf([last, "{id}"]) == ["id"]
    ensures SegmentOk("") && SegmentOk("{id}") && SegmentOk(last)
  {
    IdPlaceholder();
    assert ["", "{id}", last][1..] == ["{id}", last] && ["{id}", last][1..] == [last] && [last][1..] == [];
    assert [last, "{id}"][1..] == ["{id}"] && ["{id}"][1..] == [];
    assert ParamsOf([last]) == [] && ParamsOf(["{id}"]) == ["id"];
    assert ParamsOf(["{id}", last]) == ["id"];
  }

  lemma ExamplePathOk(last: string)
    requires PlainName(last)
    ensures PathOk("/{id}/" + last)
  {
    SegmentsOfPath(last);
    NamesOnce(last);
  }

  lemma ExampleSubjectOk(last: string)
    requires PlainName(last)
    ensures SubjectOk(last + ".{id}")
  {
    TokensOfSubject(last);
    NamesOnce(last);
  }

  lemma AnalyseOneOrMore(lo: char, hi: char)
    requires (lo == 'a' && hi == 'z') || (lo == '0' && hi == '9')
    ensures Analyse(OneOrMore(lo, hi)) == Ok(1)
  {
    AllSafe(lo as int, hi as int);
    var ranges := [(lo as int, hi as int)];
    assert ranges[1..] == [];
    assert FirstUnsafeRange(ranges) == None;
    var subs := [Assert(BeginText), Plus(CharClass(ranges)), Assert(EndText)];
    assert forall k :: 0 <= k < 3 ==> Analyse(subs[k]).Ok?;
    AllOk(subs);
    var ms := AnalyseAll(subs).value;
    forall n | 0 <= n < 3 ensures Analyse(subs[n]) == Ok(ms[n]) { AllAnalysed(subs, n); }
    assert ms == [0, 1, 0];
    SumFront(ms);
    SumFront(ms[1..]);
    SumFront(ms[2..]);
    assert ms[1..] == [1, 0] && ms[1..][1..] == [0] && ms[2..] == [0] && ms[2..][1..] == [];
  }

  lemma {:induction false} AllSafe(lo: int, hi: int)
    requires forall r :: lo <= r <= hi ==> SafeRune(r)
    ensures FirstUnsafeIn(lo, hi) == None
    decreases hi - lo
  {
    if lo <= hi { AllSafe(lo + 1, hi); }
  }

  lemma ExampleRouteOk(name: string, last: string, lo: char, hi: char)
    requires PlainName(last) && ((lo == 'a' && hi == 'z') || (lo == '0' && hi == '9'))
    ensures Compiled(Numbered(name, last, lo, hi))
  {
    ExamplePathOk(last);
    ExampleSubjectOk(last);
    SegmentsOfPath(last);
    TokensOfSubject(last);
    NamesOnce(last);
    AnalyseOneOrMore(lo, hi);
    ParsedOneOrMore(lo, hi);
    var p := Numbered(name, last, lo, hi).parameters["id"];
    assert ParameterOk("id", p, ["id"]);
  }

  lemma ParsedOneOrMore(lo: char, hi: char)
    ensures Parsed(OneOrMore(lo, hi))
  {
    var plus := Plus(CharClass([(lo as int, hi as int)]));
    assert Parsed(plus.sub) && Parsed(plus);
  }

  lemma LastSegmentDecides(a: string, b: string)
    requires PlainName(a) && PlainName(b) && a != b
    ensures !SomethingFitsBoth("/{id}/" + a, "/{id}/" + b)
  {
    SegmentsOfPath(a);
    SegmentsOfPath(b);
    assert PathSegments("/{id}/" + a)[1] == a && PathSegments("/{id}/" + b)[1] == b;
    assert !IsPlaceholder(a) && !IsPlaceholder(b);
  }

  lemma EachOkOfTwo(a: Route, b: Route)
    requires RouteOk(a) && RouteOk(b) && b.name != a.name && Disjoint(b, a)
    ensures RoutesOk([a, b])
  {
    var routes := [a, b];
    assert routes[..1] == [a] && routes[..0] == [];
    assert Separate(b, [a]) && Separate(a, []);
    EachOkNext(routes, 0);
    EachOkNext(routes, 1);
  }

  lemma TwoRoutesOk()
    ensures RoutesOk(TwoRoutes()) && AllCompiled(TwoRoutes())
  {
    ExampleRouteOk("first", "a", 'a', 'z');
    ExampleRouteOk("second", "b", '0', '9');
    LastSegmentDecides("b", "a");
    EachOkOfTwo(Numbered("first", "a", 'a', 'z'), Numbered("second", "b", '0', '9'));
  }

  /** Where the first of several matches in a row ends. */
  lemma {:induction false} FirstEnd(subs: seq<Regexp>, w: string, i: nat, j: nat) returns (k: nat)
    requires subs != [] && i <= j <= |w| && InOrder(subs, w, i, j)
    ensures i <= k <= j && Matches(subs[0], w, i, k) && InOrder(subs[1..], w, k, j)
  {
    k :| i <= k <= j && Matches(subs[0], w, i, k) && InOrder(subs[1..], w, k, j);
  }

  lemma {:induction false} AnchoredIs(subs: seq<Regexp>, w: string)
    requires |subs| == 3 && subs[0] == Assert(BeginText) && subs[2] == Assert(EndText)
    ensures Matches(Concat(subs), w, 0, |w|) <==> Matches(subs[1], w, 0, |w|)
  {
    var two, one := subs[1..], subs[1..][1..];
    assert two[0] == subs[1] && one[0] == subs[2] && one[1..] == [];
    if InOrder(subs, w, 0, |w|) {
      var k := FirstEnd(subs, w, 0, |w|);
      var j := FirstEnd(two, w, k, |w|);
      var m := FirstEnd(one, w, j, |w|);
    }
    if Matches(subs[1], w, 0, |w|) {
      assert Matches(one[0], w, |w|, |w|) && InOrder(one[1..], w, |w|, |w|);
      assert InOrder(one, w, |w|, |w|);
      assert InOrder(two, w, 0, |w|);
      assert Matches(subs[0], w, 0, 0);
      assert InOrder(subs, w, 0, |w|);
    }
  }

  lemma AnchoredParts(body: Regexp, w: string)
    ensures Matches(Concat([Assert(BeginText), body, Assert(EndText)]), w, 0, |w|) <==> Matches(body, w, 0, |w|)
  {
    AnchoredIs([Assert(BeginText), body, Assert(EndText)], w);
  }

  lemma PlusStarts(ranges: seq<(int, int)>, w: string)
    requires w != "" && !InClass(ranges, w[0])
    ensures !Matches(Plus(CharClass(ranges)), w, 0, |w|)
  {
    var re := CharClass(ranges);
    forall n: nat | n >= 1 ensures !Times(re, w, 0, |w|, n) {
      assert forall k :: 0 <= k <= |w| ==> !Matches(re, w, 0, k);
    }
  }

  lemma PlusTwo(ranges: seq<(int, int)>, w: string)
    requires |w| == 2 && InClass(ranges, w[0]) && InClass(ranges, w[1])
    ensures Matches(Plus(CharClass(ranges)), w, 0, 2)
  {
    var re := CharClass(ranges);
    assert Matches(re, w, 1, 2) && Times(re, w, 2, 2, 0);
    assert Times(re, w, 1, 2, 1);
    assert Matches(re, w, 0, 1);
    assert Times(re, w, 0, 2, 2);
  }

  /** Digits are no letters. */
  lemma Grammars(w: string)
    requires |w| == 2 && '0' <= w[0] <= '9' && '0' <= w[1] <= '9'
    ensures Matches(OneOrMore('0', '9'), w, 0, 2) && !Matches(OneOrMore('a', 'z'), w, 0, 2)
  {
    var digits, letters := [('0' as int, '9' as int)], [('a' as int, 'z' as int)];
    AnchoredParts(Plus(CharClass(digits)), w);
    AnchoredParts(Plus(CharClass(letters)), w);
    assert ('0' as int, '9' as int) in digits;
    PlusTwo(digits, w);
    PlusStarts(letters, w);
  }

  lemma {:induction false} UnescapePlain(s: string)
    requires Free(s, '%')
    ensures PathUnescape(s) == Some(s)
  {
    if s != "" {
      UnescapePlain(s[1..]);
      assert [s[0]] + s[1..] == s;
    }
  }

  lemma RequestSegments()
    ensures PathSegments("/42/b") == ["42", "b"] && PathUnescape("42") == Some("42") && PathUnescape("b") == Some("b")
  {
    JoinCons("42", ["b"], '/');
    assert ["42"] + ["b"] == ["42", "b"];
    assert Join(["42", "b"], '/') == "/42/b"[1..];
    SplitJoin(["42", "b"], '/');
    UnescapePlain("42");
    UnescapePlain("b");
  }

  lemma FirstRefuses(route: Route, path: string)
    requires route == Numbered("first", "a", 'a', 'z') && path == "/42/b"
    ensures Refuses(WholeMatch(), route, "GET", path, map[])
  {
    RequestSegments();
    SegmentsOfPath("a");
    IdPlaceholder();
    Grammars("42");
    assert Judge(WholeMatch(), route.parameters, "{id}", "42") == Bad;
    assert RejectedAt(WholeMatch(), route, path, 0);
  }

  lemma SecondPasses(route: Route, path: string)
    requires route == Numbered("second", "b", '0', '9') && path == "/42/b"
    ensures Passes(WholeMatch(), route, "GET", path, map[])
  {
    RequestSegments();
    SegmentsOfPath("b");
    SecondFine(route);
    assert route.parameters["id"].source == "path";
  }

  lemma SecondFine(route: Route)
    requires route == Numbered("second", "b", '0', '9')
    ensures Judge(WholeMatch(), route.parameters, "{id}", "42") == Fine
    ensures Judge(WholeMatch(), route.parameters, "b", "b") == Fine
  {
    RequestSegments();
    IdPlaceholder();
    Grammars("42");
  }

  lemma WholeMatchSound()
    ensures Sound(WholeMatch())
  {
  }

  lemma SomeOfTwo(find: Engine, routes: seq<Route>, method_: string, path: string, query: Query)
    requires |routes| == 2 && Refuses(find, routes[0], method_, path, query)
             && Passes(find, routes[1], method_, path, query)
    ensures SomePasses(find, routes, method_, path, query) && SomeRefuses(find, routes, method_, path, query)
  {
  }

  /** `GET /42/b` is refused by the first route and accepted by the second, so the order decides. */
  lemma OrderMatters(find: Engine, routes: seq<Route>, path: string, query: Query)
    requires find == WholeMatch() && routes == TwoRoutes() && path == "/42/b" && query == map[]
    ensures Sound(find) && RoutesOk(routes) && AllCompiled(routes) && !OrderIrrelevant(find, routes, "GET", path, query)
  {
    WholeMatchSound();
    TwoRoutesOk();
    FirstRefuses(routes[0], path);
    SecondPasses(routes[1], path);
    SomeOfTwo(find, routes, "GET", path, query);
    OrderIrrelevantIff(find, routes, "GET", path, query);
  }
}
