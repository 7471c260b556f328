/** Which requests a declared route accepts and which it refuses, read off the request itself. */
module RouteRequests {
  import opened Wrappers
  import opened Text
  import opened Regexp
  import opened Templates
  import opened RouteConfig
  import opened Routes

  // ----- percent decoding ---------------------------------------------------------------------

  /** A hexadecimal digit is one of these characters, and stands for its place among them. */
  lemma HexDigitIs(c: char)
    ensures match HexDigit(c)
            case Some(d) => "0123456789abcdef"[d] == c || "0123456789ABCDEF"[d] == c
            case None => c !in "0123456789abcdef" && c !in "0123456789ABCDEF"
  {
  }

  /** The percent sign at `i` has two hexadecimal digits after it. */
  predicate Encodes(s: string, i: nat) {
    i + 2 < |s| && HexDigit(s[i + 1]).Some? && HexDigit(s[i + 2]).Some?
  }

  predicate AllEncode(s: string) {
    forall i :: 0 <= i < |s| && s[i] == '%' ==> Encodes(s, i)
  }

  /** The first character, or the character it encodes, can be looked at on its own. */
  lemma AllEncodeAfter(s: string, n: nat)
    requires n <= |s| && forall i :: 0 <= i < n && s[i] == '%' ==> Encodes(s, i)
    ensures AllEncode(s) <==> AllEncode(s[n..])
  {
    assert forall i :: 0 <= i < |s| - n ==> s[n..][i] == s[n + i] && (Encodes(s[n..], i) <==> Encodes(s, n + i));
    if AllEncode(s[n..]) {
      forall i | 0 <= i < |s| && s[i] == '%' ensures Encodes(s, i) {
        if i >= n { assert s[n..][i - n] == '%'; }
      }
    }
  }

  /** Text can be decoded exactly if every percent sign in it encodes a character. */
  lemma {:induction false} UnescapeIff(s: string)
    ensures PathUnescape(s).Some? <==> AllEncode(s)
  {
    if s != "" {
      if s[0] != '%' {
        UnescapeIff(s[1..]);
        AllEncodeAfter(s, 1);
      } else if Encodes(s, 0) {
        UnescapeIff(s[3..]);
        AllEncodeAfter(s, 3);
      }
    }
  }

  /** In text that decodes, a character other than the percent sign stands for itself. */
  lemma UnescapePlain(c: char, rest: string)
    requires c != '%' && PathUnescape(rest).Some?
    ensures PathUnescape([c] + rest) == Some([c] + PathUnescape(rest).value)
  {
    assert ([c] + rest)[1..] == rest;
  }

  /** A percent sign and two digits stand for the character with that code. */
  lemma UnescapeEncoded(hi: char, lo: char, rest: string)
    requires HexDigit(hi).Some? && HexDigit(lo).Some? && PathUnescape(rest).Some?
    ensures PathUnescape(['%', hi, lo] + rest)
         == Some([(16 * HexDigit(hi).value + HexDigit(lo).value) as char] + PathUnescape(rest).value)
  {
    assert (['%', hi, lo] + rest)[3..] == rest;
  }

  // ----- what is accepted and refused ---------------------------------------------------------

  /** The expression's first match in the value is the whole value. */
  predicate Spans(find: Engine, parsed: Option<Regexp>, value: string) {
    parsed.Some? && find(parsed.value, value) == Some((0, |value|))
  }

  /** A segment that takes the decoded value: the same literal, or a placeholder whose grammar spans it. */
  predicate Accepts(find: Engine, parameters: map<string, Parameter>, want: string, value: string) {
    if IsPlaceholder(want) then ParamOf(want) in parameters && Spans(find, parameters[ParamOf(want)].parsed, value)
    else want == value
  }

  /** Part `i` of the request's path decodes to something that the declared part accepts. */
  predicate PartFits(find: Engine, parameters: map<string, Parameter>, want: string, got: string) {
    PathUnescape(got).Some? && Accepts(find, parameters, want, PathUnescape(got).value)
  }

  /** Every query parameter occurs exactly once, with a value that its grammar spans. */
  predicate QueryFits(find: Engine, parameters: map<string, Parameter>, query: Query) {
    forall name <- parameters :: parameters[name].source == "query" ==>
        && parameters[name].name in query && |query[parameters[name].name]| == 1
        && Spans(find, parameters[name].parsed, query[parameters[name].name][0])
  }

  /** The parts after the first one and before `k` fit. */
  predicate AllFit(find: Engine, parameters: map<string, Parameter>, want: seq<string>, got: seq<string>, k: nat)
    requires k <= |want| == |got|
  {
    forall i :: 1 <= i < k ==> PartFits(find, parameters, want[i], got[i])
  }

  /** Part `k` is the first that does not fit: it is badly encoded, or outside the grammar of its placeholder. */
  predicate FirstBad(find: Engine, parameters: map<string, Parameter>, want: seq<string>, got: seq<string>, k: nat)
    requires k < |want| == |got|
  {
    && AllFit(find, parameters, want, got, k) && !PartFits(find, parameters, want[k], got[k])
    && (PathUnescape(got[k]).None? || IsPlaceholder(want[k]))
  }

  /** Some part of the request is the first that does not fit, and a bad one. */
  predicate SomeBad(find: Engine, parameters: map<string, Parameter>, want: seq<string>, got: seq<string>)
    requires |want| == |got|
  {
    exists k :: 1 <= k < |want| && FirstBad(find, parameters, want, got, k)
  }

  lemma FineIff(find: Engine, parameters: map<string, Parameter>, want: string, got: string)
    ensures Judge(find, parameters, want, got) == Fine <==> PartFits(find, parameters, want, got)
    ensures Judge(find, parameters, want, got) == Differs <==>
              PathUnescape(got).Some? && !IsPlaceholder(want) && PathUnescape(got).value != want
  {
  }

  lemma QueryIff(find: Engine, parameters: map<string, Parameter>, query: Query)
    ensures QueriesOk(find, parameters, query) <==> QueryFits(find, parameters, query)
  {
    if QueryFits(find, parameters, query) {
      forall name | name in parameters ensures QueryOk(find, parameters[name], query) {
      }
    } else {
      assert !(forall name <- parameters :: QueryOk(find, parameters[name], query));
    }
  }

  /** The parts of two paths of one shape, from the segments' point of view. */
  lemma FitsUpTo(find: Engine, parameters: map<string, Parameter>, declared: string, path: string, k: nat)
    requires StartsWith(declared, '/') && StartsWith(path, '/') && declared != "/" && path != "/"
    requires |PathSegments(declared)| == |PathSegments(path)| && k <= |PathSegments(path)|
    ensures |Split(declared, '/')| == |Split(path, '/')| == |PathSegments(path)| + 1
    ensures FineUpTo(find, parameters, PathSegments(declared), PathSegments(path), k) <==>
              AllFit(find, parameters, Split(declared, '/'), Split(path, '/'), k + 1)
  {
    PathSplits(declared);
    PathSplits(path);
    var want, got := PathSegments(declared), PathSegments(path);
    forall i | 0 <= i < k
      ensures Judge(find, parameters, want[i], got[i]) == Fine <==>
                PartFits(find, parameters, Split(declared, '/')[i + 1], Split(path, '/')[i + 1])
    {
      FineIff(find, parameters, want[i], got[i]);
    }
    if FineUpTo(find, parameters, want, got, k) {
      forall i | 1 <= i < k + 1 ensures PartFits(find, parameters, Split(declared, '/')[i], Split(path, '/')[i]) {
        assert Judge(find, parameters, want[i - 1], got[i - 1]) == Fine;
      }
    }
  }

  lemma BadIff(find: Engine, parameters: map<string, Parameter>, declared: string, path: string, k: nat)
    requires StartsWith(declared, '/') && StartsWith(path, '/') && declared != "/" && path != "/"
    requires |PathSegments(declared)| == |PathSegments(path)| && k < |PathSegments(path)|
    ensures |Split(declared, '/')| == |Split(path, '/')| == |PathSegments(path)| + 1
    ensures FailsFirst(find, parameters, PathSegments(declared), PathSegments(path), k, Bad) <==>
              FirstBad(find, parameters, Split(declared, '/'), Split(path, '/'), k + 1)
  {
    PathSplits(declared);
    PathSplits(path);
    FitsUpTo(find, parameters, declared, path, k);
    FineIff(find, parameters, PathSegments(declared)[k], PathSegments(path)[k]);
  }

  /** By method and slashes the request is the route's. */
  predicate Addressed(route: Route, method_: string, path: string) {
    && method_ in route.methods && |Split(route.path, '/')| == |Split(path, '/')|
    && (path == "/" <==> route.path == "/")
  }

  lemma AppliesIff(route: Route, method_: string, path: string)
    requires RouteOk(route) && StartsWith(path, '/')
    ensures Applies(route, method_, path) <==> Addressed(route, method_, path)
  {
    PathSplits(route.path);
    PathSplits(path);
  }

  /**
   A request whose path starts with a slash is accepted exactly if its method is
   declared, its path has as many slashes as the declared one with fitting text
   between them, and its query fits; only `/` itself has no text to fit.
   */
  lemma PassesIff(find: Engine, route: Route, method_: string, path: string, query: Query)
    requires RouteOk(route) && StartsWith(path, '/')
    ensures Passes(find, route, method_, path, query) <==>
              && Addressed(route, method_, path)
              && var want, got := Split(route.path, '/'), Split(path, '/');
              && (path != "/" ==> AllFit(find, route.parameters, want, got, |want|))
              && QueryFits(find, route.parameters, query)
  {
    AppliesIff(route, method_, path);
    QueryIff(find, route.parameters, query);
    if Addressed(route, method_, path) && path != "/" {
      FitsUpTo(find, route.parameters, route.path, path, |PathSegments(path)|);
    }
  }

  /**
   It is refused exactly if it is the route's by method and slashes, and the first
   text that does not fit is no differing literal but badly encoded or outside its
   placeholder's grammar; or all texts fit and the query does not.
   */
  lemma RefusesIff(find: Engine, route: Route, method_: string, path: string, query: Query)
    requires RouteOk(route) && StartsWith(path, '/')
    ensures Refuses(find, route, method_, path, query) <==>
              && Addressed(route, method_, path)
              && var want, got := Split(route.path, '/'), Split(path, '/');
              || (path != "/" && SomeBad(find, route.parameters, want, got))
              || ((path != "/" ==> AllFit(find, route.parameters, want, got, |want|))
                  && !QueryFits(find, route.parameters, query))
  {
    AppliesIff(route, method_, path);
    QueryIff(find, route.parameters, query);
    if Addressed(route, method_, path) && path != "/" {
      FitsUpTo(find, route.parameters, route.path, path, |PathSegments(path)|);
      if k: nat :| k < |PathSegments(path)| && RejectedAt(find, route, path, k) {
        BadShown(find, route, path, k);
      } else if SomeBad(find, route.parameters, Split(route.path, '/'), Split(path, '/')) {
        var k := BadFound(find, route, path);
      }
    }
  }

  lemma BadShown(find: Engine, route: Route, path: string, k: nat)
    requires RouteOk(route) && StartsWith(path, '/') && path != "/" && route.path != "/"
    requires |PathSegments(route.path)| == |PathSegments(path)| && k < |PathSegments(path)|
    requires RejectedAt(find, route, path, k)
    ensures |Split(route.path, '/')| == |Split(path, '/')|
    ensures SomeBad(find, route.parameters, Split(route.path, '/'), Split(path, '/'))
  {
    BadIff(find, route.parameters, route.path, path, k);
    assert FirstBad(find, route.parameters, Split(route.path, '/'), Split(path, '/'), k + 1);
  }

  lemma BadFound(find: Engine, route: Route, path: string) returns (k: nat)
    requires RouteOk(route) && StartsWith(path, '/') && path != "/" && route.path != "/"
    requires |PathSegments(route.path)| == |PathSegments(path)| && |Split(route.path, '/')| == |Split(path, '/')|
    requires SomeBad(find, route.parameters, Split(route.path, '/'), Split(path, '/'))
    ensures k < |PathSegments(path)| && RejectedAt(find, route, path, k)
  {
    PathSplits(path);
    var want, got := Split(route.path, '/'), Split(path, '/');
    var i :| 1 <= i < |want| && FirstBad(find, route.parameters, want, got, i);
    k := i - 1;
    BadIff(find, route.parameters, route.path, path, k);
  }

  lemma PassesAt(find: Engine, route: Route, method_: string, path: string, query: Query, k: nat)
    requires Passes(find, route, method_, path, query) && k < |PathSegments(path)|
    ensures k < |PathSegments(route.path)|
    ensures Judge(find, route.parameters, PathSegments(route.path)[k], PathSegments(path)[k]) == Fine
  {
  }

  // ----- what is substituted ------------------------------------------------------------------

  /** A query parameter of an accepted request has the one value of the query parameter that it reads. */
  lemma QueryValueIs(find: Engine, route: Route, method_: string, path: string, query: Query, name: string)
    requires Sound(find) && Compiled(route) && Passes(find, route, method_, path, query)
    requires name in route.parameters && route.parameters[name].source == "query"
    ensures var source := route.parameters[name].name;
            && name in Values(route, path, query) && source in query
            && query[source] == [Values(route, path, query)[name]]
  {
    assert QueryOk(find, route.parameters[name], query);
    assert FromQuery(route.parameters, query, name);
  }

  /** A path parameter has the decoded text that stands where its placeholder stands in the declared path. */
  lemma PathParameterIs(find: Engine, route: Route, method_: string, path: string, query: Query, k: nat)
    requires Sound(find) && Compiled(route) && Passes(find, route, method_, path, query) && StartsWith(path, '/')
    requires 1 <= k < |Split(route.path, '/')| && IsPlaceholder(Split(route.path, '/')[k])
    ensures k < |Split(path, '/')| && PathUnescape(Split(path, '/')[k]).Some?
    ensures ParamOf(Split(route.path, '/')[k]) in Values(route, path, query)
    ensures Values(route, path, query)[ParamOf(Split(route.path, '/')[k])] == PathUnescape(Split(path, '/')[k]).value
  {
    var want, got := PathSegments(route.path), PathSegments(path);
    PathSplits(route.path);
    PathSplits(path);
    PathSegmentsOk(route.path);
    PathValueIs(want, got, k - 1);
    PassesAt(find, route, method_, path, query, k - 1);
    NotFromQuery(find, route, method_, path, query, k - 1);
  }

  lemma NotFromQuery(find: Engine, route: Route, method_: string, path: string, query: Query, k: nat)
    requires Sound(find) && Compiled(route) && Passes(find, route, method_, path, query)
    requires k < |PathSegments(route.path)| && IsPlaceholder(PathSegments(route.path)[k])
    ensures ParamOf(PathSegments(route.path)[k]) !in QueryValues(route.parameters, query)
  {
    var name := ParamOf(PathSegments(route.path)[k]);
    ParamsOfAt(PathSegments(route.path), k);
    if name in QueryValues(route.parameters, query) {
      QueryValueGood(find, route, method_, path, query, name);
    }
  }

  // ----- trailing slashes ---------------------------------------------------------------------

  lemma {:induction false} LastPartEmpty(parts: seq<string>, c: char)
    requires parts != [] && (forall k :: 0 <= k < |parts| ==> Free(parts[k], c)) && EndsWith(Join(parts, c), c)
    ensures parts[|parts| - 1] == ""
  {
    var all, rest := Join(parts, c), Join(parts[1..], c);
    if |parts| > 1 && rest != "" {
      assert all[|all| - 1] == rest[|rest| - 1];
      LastPartEmpty(parts[1..], c);
    }
  }

  lemma LastSegmentEmpty(path: string)
    requires StartsWith(path, '/') && path != "/" && EndsWith(path, '/')
    ensures PathSegments(path) != [] && PathSegments(path)[|PathSegments(path)| - 1] == ""
  {
    PathSegmentsJoin(path);
    LastPartEmpty(PathSegments(path), '/');
  }

  /** No segment of an accepted route takes an empty text. */
  lemma EmptyFitsNothing(find: Engine, route: Route, k: nat)
    requires Sound(find) && Compiled(route) && k < |PathSegments(route.path)|
    ensures Judge(find, route.parameters, PathSegments(route.path)[k], "") != Fine
  {
    var want := PathSegments(route.path)[k];
    PathSegmentsOk(route.path);
    if IsPlaceholder(want) && ParamOf(want) in route.parameters {
      ParameterDeclared(route, ParamOf(want));
      if EntireValue(find, route.parameters[ParamOf(want)], "") {
        EntireValueSafe(find, route.parameters[ParamOf(want)], "");
      }
    }
  }

  /** No request with a trailing slash is accepted, unless its path is just `/`. */
  lemma NoTrailingSlash(find: Engine, route: Route, method_: string, path: string, query: Query)
    requires Sound(find) && Compiled(route) && StartsWith(path, '/') && path != "/" && EndsWith(path, '/')
    ensures !Passes(find, route, method_, path, query)
  {
    LastSegmentEmpty(path);
    if Passes(find, route, method_, path, query) {
      var k := |PathSegments(path)| - 1;
      PassesAt(find, route, method_, path, query, k);
      EmptyFitsNothing(find, route, k);
    }
  }
}
