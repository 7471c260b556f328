/**
 Regular expression syntax trees, what they match, and the abstract interpreter
 that decides whether a parameter grammar is safe to put into a subject.
 */
module Regexp {
  import opened Wrappers

  datatype Assertion = BeginLine | EndLine | BeginText | EndText | WordBoundary | NoWordBoundary

  /** A syntax tree; a class is a list of inclusive code point ranges and `max < 0` means unbounded. */
  datatype Regexp =
    | NoMatch
    | EmptyMatch
    | Assert(kind: Assertion)
    | Literal(runes: string, foldCase: bool)
    | CharClass(ranges: seq<(int, int)>)
    | AnyChar
    | AnyCharNotNL
    | Capture(sub: Regexp)
    | Star(sub: Regexp)
    | Plus(sub: Regexp)
    | Quest(sub: Regexp)
    | Repeat(sub: Regexp, min: nat, max: int)
    | Concat(subs: seq<Regexp>)
    | Alternate(subs: seq<Regexp>)

  // ----- what an expression matches -----------------------------------------------------------

  predicate WordChar(c: char) {
    'A' <= c <= 'Z' || 'a' <= c <= 'z' || '0' <= c <= '9' || c == '_'
  }

  predicate Holds(a: Assertion, w: string, i: nat)
    requires i <= |w|
  {
    var boundary := (i > 0 && WordChar(w[i - 1])) != (i < |w| && WordChar(w[i]));
    match a
    case BeginText => i == 0
    case EndText => i == |w|
    case BeginLine => i == 0 || w[i - 1] == '\n'
    case EndLine => i == |w| || w[i] == '\n'
    case WordBoundary => boundary
    case NoWordBoundary => !boundary
  }

  function Lower(c: char): char {
    if 'A' <= c <= 'Z' then (c as int + 32) as char else c
  }

  predicate InClass(ranges: seq<(int, int)>, c: char) {
    exists r <- ranges :: r.0 <= c as int <= r.1
  }

  /** `re` matches the stretch `w[i..j]` of the input `w`. */
  ghost predicate Matches(re: Regexp, w: string, i: nat, j: nat)
    requires i <= j <= |w|
    decreases re, 0, 0
  {
    match re
    case NoMatch => false
    case EmptyMatch => i == j
    case Assert(kind) => i == j && Holds(kind, w, i)
    case Literal(runes, foldCase) =>
      j == i + |runes| && forall k :: 0 <= k < |runes| ==>
        w[i + k] == runes[k] || (foldCase && Lower(w[i + k]) == Lower(runes[k]))
    case CharClass(ranges) => j == i + 1 && InClass(ranges, w[i])
    case AnyChar => j == i + 1
    case AnyCharNotNL => j == i + 1 && w[i] != '\n'
    case Capture(sub) => Matches(sub, w, i, j)
    case Star(sub) => exists n: nat :: Times(sub, w, i, j, n)
    case Plus(sub) => exists n: nat :: n >= 1 && Times(sub, w, i, j, n)
    case Quest(sub) => i == j || Matches(sub, w, i, j)
    case Repeat(sub, min, max) => exists n: nat :: min <= n && (max < 0 || n <= max) && Times(sub, w, i, j, n)
    case Concat(subs) => InOrder(subs, w, i, j)
    case Alternate(subs) => exists k :: 0 <= k < |subs| && Matches(subs[k], w, i, j)
  }

  /** `n` consecutive matches of `re` cover `w[i..j]`. */
  ghost predicate Times(re: Regexp, w: string, i: nat, j: nat, n: nat)
    requires i <= j <= |w|
    decreases re, 1, n
  {
    if n == 0 then i == j
    else exists k :: i <= k <= j && Matches(re, w, i, k) && Times(re, w, k, j, n - 1)
  }

  /** Matches of the expressions, one after another, cover `w[i..j]`. */
  ghost predicate InOrder(subs: seq<Regexp>, w: string, i: nat, j: nat)
    requires i <= j <= |w|
    decreases subs, 0, 0
  {
    if subs == [] then i == j
    else exists k :: i <= k <= j && Matches(subs[0], w, i, k) && InOrder(subs[1..], w, k, j)
  }

  // ----- the analysis -------------------------------------------------------------------------

  datatype PatternError = MatchesNothing | FoldedLiteral | UnsafeRune(rune: int) | Unsupported

  predicate SafeRune(r: int) {
    'A' as int <= r <= 'Z' as int || 'a' as int <= r <= 'z' as int || '0' as int <= r <= '9' as int
    || r == '_' as int || r == '-' as int
  }

  predicate Safe(c: char) {
    SafeRune(c as int)
  }

  /** The characters a value may hold are the word characters of the pattern language and the hyphen. */
  lemma SafeIs(c: char)
    ensures Safe(c) <==> WordChar(c) || c == '-'
  {
  }

  /** Every alternation has an alternative, as the parser guarantees. */
  predicate Parsed(re: Regexp) {
    match re
    case Alternate(subs) => subs != [] && forall s <- subs :: Parsed(s)
    case Concat(subs) => forall s <- subs :: Parsed(s)
    case Capture(sub) => Parsed(sub)
    case Star(sub) => Parsed(sub)
    case Plus(sub) => Parsed(sub)
    case Quest(sub) => Parsed(sub)
    case Repeat(sub, _, _) => Parsed(sub)
    case _ => true
  }

  function FirstUnsafe(runes: string): Option<int> {
    if runes == "" then None
    else if !Safe(runes[0]) then Some(runes[0] as int)
    else FirstUnsafe(runes[1..])
  }

  function FirstUnsafeIn(lo: int, hi: int): Option<int>
    decreases hi - lo
  {
    if hi < lo then None else if !SafeRune(lo) then Some(lo) else FirstUnsafeIn(lo + 1, hi)
  }

  function FirstUnsafeRange(ranges: seq<(int, int)>): Option<int> {
    if ranges == [] then None
    else match FirstUnsafeIn(ranges[0].0, ranges[0].1)
         case Some(r) => Some(r)
         case None => FirstUnsafeRange(ranges[1..])
  }

  function Sum(ms: seq<int>): int {
    if ms == [] then 0 else Sum(ms[..|ms| - 1]) + ms[|ms| - 1]
  }

  /** The least element, or -1 for an empty list. */
  function Least(ms: seq<int>): int {
    if ms == [] then -1
    else
      var rest := Least(ms[..|ms| - 1]);
      if rest == -1 || ms[|ms| - 1] < rest then ms[|ms| - 1] else rest
  }

  /** `safePatternMinimumLength`. */
  function Analyse(re: Regexp): Result<int, PatternError>
    decreases re, 0, 0
  {
    match re
    case NoMatch => Err(MatchesNothing)
    case EmptyMatch => Ok(0)
    case Assert(_) => Ok(0)
    case Literal(runes, foldCase) =>
      if foldCase then Err(FoldedLiteral)
      else (match FirstUnsafe(runes) case Some(r) => Err(UnsafeRune(r)) case None => Ok(|runes|))
    case CharClass(ranges) => (match FirstUnsafeRange(ranges) case Some(r) => Err(UnsafeRune(r)) case None => Ok(1))
    case Capture(sub) => Analyse(sub)
    case Concat(subs) => (match AnalyseAll(subs) case Err(e) => Err(e) case Ok(ms) => Ok(Sum(ms)))
    case Alternate(subs) => (match AnalyseAll(subs) case Err(e) => Err(e) case Ok(ms) => Ok(Least(ms)))
    case Quest(sub) => (match Analyse(sub) case Err(e) => Err(e) case Ok(_) => Ok(0))
    case Star(sub) => (match Analyse(sub) case Err(e) => Err(e) case Ok(_) => Ok(0))
    case Plus(sub) => Analyse(sub)
    case Repeat(sub, min, _) => (match Analyse(sub) case Err(e) => Err(e) case Ok(m) => Ok(min * m))
    case AnyChar => Err(Unsupported)
    case AnyCharNotNL => Err(Unsupported)
  }

  /** The children's minima, or the first child's error. */
  function AnalyseAll(subs: seq<Regexp>): (r: Result<seq<int>, PatternError>)
    ensures r.Ok? ==> |r.value| == |subs|
    decreases subs, 0, |subs|
  {
    if subs == [] then Ok([])
    else
      match AnalyseAll(subs[..|subs| - 1])
      case Err(e) => Err(e)
      case Ok(ms) =>
        match Analyse(subs[|subs| - 1])
        case Err(e) => Err(e)
        case Ok(m) => Ok(ms + [m])
  }

  // ----- the analysis as the source runs it ---------------------------------------------------

  method CheckLiteral(runes: string) returns (r: Option<int>)
    ensures r == FirstUnsafe(runes)
  {
    for i := 0 to |runes|
      invariant FirstUnsafe(runes) == FirstUnsafe(runes[i..])
    {
      assert runes[i..][1..] == runes[i + 1..];
      if !Safe(runes[i]) { return Some(runes[i] as int); }
    }
    r := None;
  }

  method CheckRange(lo: int, hi: int) returns (r: Option<int>)
    ensures r == FirstUnsafeIn(lo, hi)
  {
    var value := lo;
    while value <= hi
      invariant FirstUnsafeIn(lo, hi) == FirstUnsafeIn(value, hi)
    {
      if !SafeRune(value) { return Some(value); }
      value := value + 1;
    }
    r := None;
  }

  method CheckClass(ranges: seq<(int, int)>) returns (r: Option<int>)
    ensures r == FirstUnsafeRange(ranges)
  {
    for i := 0 to |ranges|
      invariant FirstUnsafeRange(ranges) == FirstUnsafeRange(ranges[i..])
    {
      assert ranges[i..][1..] == ranges[i + 1..];
      r := CheckRange(ranges[i].0, ranges[i].1);
      if r.Some? { return; }
    }
    r := None;
  }

  method ConcatMinimum(subs: seq<Regexp>) returns (r: Result<int, PatternError>)
    ensures r == Analyse(Concat(subs))
    decreases subs, 0
  {
    var minimum := 0;
    for i := 0 to |subs|
      invariant AnalyseAll(subs[..i]).Ok? && minimum == Sum(AnalyseAll(subs[..i]).value)
    {
      AllSnoc(subs, i);
      var child := SafePatternMinimumLength(subs[i]);
      if child.Err? { AllFails(subs, i + 1); return child; }
      minimum := minimum + child.value;
    }
    assert subs[..|subs|] == subs;
    r := Ok(minimum);
  }

  method AlternateMinimum(subs: seq<Regexp>) returns (r: Result<int, PatternError>)
    ensures r == Analyse(Alternate(subs))
    decreases subs, 0
  {
    var minimum := -1;
    for i := 0 to |subs|
      invariant AnalyseAll(subs[..i]).Ok? && minimum == Least(AnalyseAll(subs[..i]).value)
    {
      AllSnoc(subs, i);
      var child := SafePatternMinimumLength(subs[i]);
      if child.Err? { AllFails(subs, i + 1); return child; }
      if minimum == -1 || child.value < minimum { minimum := child.value; }
    }
    assert subs[..|subs|] == subs;
    r := Ok(minimum);
  }

  method SafePatternMinimumLength(re: Regexp) returns (r: Result<int, PatternError>)
    ensures r == Analyse(re)
    decreases re, 1
  {
    match re
    case NoMatch => r := Err(MatchesNothing);
    case EmptyMatch => r := Ok(0);
    case Assert(_) => r := Ok(0);
    case Literal(runes, foldCase) =>
      if foldCase { return Err(FoldedLiteral); }
      var bad := CheckLiteral(runes);
      r := if bad.Some? then Err(UnsafeRune(bad.value)) else Ok(|runes|);
    case CharClass(ranges) =>
      var bad := CheckClass(ranges);
      r := if bad.Some? then Err(UnsafeRune(bad.value)) else Ok(1);
    case Capture(sub) => r := SafePatternMinimumLength(sub);
    case Concat(subs) => r := ConcatMinimum(subs);
    case Alternate(subs) => r := AlternateMinimum(subs);
    case Quest(sub) =>
      r := SafePatternMinimumLength(sub);
      if r.Ok? { r := Ok(0); }
    case Star(sub) =>
      r := SafePatternMinimumLength(sub);
      if r.Ok? { r := Ok(0); }
    case Plus(sub) => r := SafePatternMinimumLength(sub);
    case Repeat(sub, min, _) =>
      r := SafePatternMinimumLength(sub);
      if r.Ok? { r := Ok(min * r.value); }
    case AnyChar => r := Err(Unsupported);
    case AnyCharNotNL => r := Err(Unsupported);
  }

  lemma AllSnoc(subs: seq<Regexp>, i: nat)
    requires i < |subs|
    ensures subs[..i + 1][..i] == subs[..i] && subs[..i + 1][i] == subs[i]
    ensures AnalyseAll(subs[..i]).Ok? && Analyse(subs[i]).Ok? ==>
              AnalyseAll(subs[..i + 1]) == Ok(AnalyseAll(subs[..i]).value + [Analyse(subs[i]).value])
    ensures AnalyseAll(subs[..i]).Ok? && Analyse(subs[i]).Err? ==>
              AnalyseAll(subs[..i + 1]) == Err(Analyse(subs[i]).error)
  {
    assert subs[..i + 1][..|subs[..i + 1]| - 1] == subs[..i];
  }

  /** Once a child fails, the whole list fails with its error. */
  lemma {:induction false} AllFails(subs: seq<Regexp>, i: nat)
    requires i <= |subs| && AnalyseAll(subs[..i]).Err?
    ensures AnalyseAll(subs) == AnalyseAll(subs[..i])
    decreases |subs|
  {
    if i == |subs| {
      assert subs[..i] == subs;
    } else {
      assert subs[..|subs| - 1][..i] == subs[..i];
      AllFails(subs[..|subs| - 1], i);
    }
  }

  // ----- soundness ----------------------------------------------------------------------------

  predicate SafeSpan(w: string, i: nat, j: nat)
    requires i <= j <= |w|
  {
    forall k :: i <= k < j ==> Safe(w[k])
  }

  lemma {:induction false} LiteralSafe(runes: string)
    requires FirstUnsafe(runes) == None
    ensures forall k :: 0 <= k < |runes| ==> Safe(runes[k])
  {
    if runes != "" {
      LiteralSafe(runes[1..]);
      assert forall k :: 1 <= k < |runes| ==> runes[k] == runes[1..][k - 1];
    }
  }

  lemma {:induction false} RangeSafe(lo: int, hi: int, r: int)
    requires FirstUnsafeIn(lo, hi) == None && lo <= r <= hi
    ensures SafeRune(r)
    decreases hi - lo
  {
    if lo < r { RangeSafe(lo + 1, hi, r); }
  }

  lemma {:induction false} RangesSafe(ranges: seq<(int, int)>, r: (int, int), v: int)
    requires FirstUnsafeRange(ranges) == None && r in ranges && r.0 <= v <= r.1
    ensures SafeRune(v)
  {
    if r == ranges[0] { RangeSafe(r.0, r.1, v); } else { RangesSafe(ranges[1..], r, v); }
  }

  lemma ClassSafe(ranges: seq<(int, int)>, c: char)
    requires FirstUnsafeRange(ranges) == None && InClass(ranges, c)
    ensures Safe(c)
  {
    var r :| r in ranges && r.0 <= c as int <= r.1;
    RangesSafe(ranges, r, c as int);
  }

  lemma {:induction false} AllAnalysed(subs: seq<Regexp>, k: nat)
    requires AnalyseAll(subs).Ok? && k < |subs|
    ensures Analyse(subs[k]) == Ok(AnalyseAll(subs).value[k])
    decreases |subs|
  {
    if k < |subs| - 1 { AllAnalysed(subs[..|subs| - 1], k); }
  }

  lemma {:induction false} AllOk(subs: seq<Regexp>)
    requires forall k :: 0 <= k < |subs| ==> Analyse(subs[k]).Ok?
    ensures AnalyseAll(subs).Ok?
    decreases |subs|
  {
    if subs != [] { AllOk(subs[..|subs| - 1]); }
  }

  lemma {:induction false} SumFront(ms: seq<int>)
    requires ms != []
    ensures Sum(ms) == ms[0] + Sum(ms[1..])
  {
    if |ms| > 1 {
      SumFront(ms[..|ms| - 1]);
      assert ms[..|ms| - 1][1..] == ms[1..][..|ms| - 2];
    }
  }

  lemma {:induction false} LeastBelow(ms: seq<int>, k: nat)
    requires k < |ms| && forall n :: 0 <= n < |ms| ==> ms[n] >= 0
    ensures 0 <= Least(ms) <= ms[k]
  {
    if |ms| > 1 { LeastBelow(ms[..|ms| - 1], if k < |ms| - 1 then k else 0); }
  }

  lemma Monotone(a: int, b: int, m: int)
    requires a <= b && m >= 0
    ensures a * m <= b * m
  {
  }

  lemma {:induction false} SumNonNegative(ms: seq<int>)
    requires forall n :: 0 <= n < |ms| ==> ms[n] >= 0
    ensures Sum(ms) >= 0
  {
    if ms != [] { SumNonNegative(ms[..|ms| - 1]); }
  }

  lemma {:induction false} NonNegative(re: Regexp)
    requires Parsed(re) && Analyse(re).Ok?
    ensures Analyse(re).value >= 0
    decreases re, 0
  {
    match re
    case Capture(sub) => NonNegative(sub);
    case Plus(sub) => NonNegative(sub);
    case Repeat(sub, min, _) => NonNegative(sub); Monotone(0, min, Analyse(sub).value);
    case Concat(subs) => AllNonNegative(subs); SumNonNegative(AnalyseAll(subs).value);
    case Alternate(subs) => AllNonNegative(subs); LeastBelow(AnalyseAll(subs).value, 0);
    case _ =>
  }

  lemma {:induction false} AllNonNegative(subs: seq<Regexp>)
    requires (forall s <- subs :: Parsed(s)) && AnalyseAll(subs).Ok?
    ensures forall n :: 0 <= n < |subs| ==> AnalyseAll(subs).value[n] >= 0
    decreases subs, 0
  {
    forall k | 0 <= k < |subs| ensures AnalyseAll(subs).value[k] >= 0 {
      AllAnalysed(subs, k);
      NonNegative(subs[k]);
    }
  }

  /**
   If the analysis returns `m`, whatever the expression matches is made of safe
   characters only and is at least `m` long.
   */
  lemma {:induction false} AnalysisSound(re: Regexp, w: string, i: nat, j: nat)
    requires i <= j <= |w| && Parsed(re) && Analyse(re).Ok? && Matches(re, w, i, j)
    ensures 0 <= Analyse(re).value <= j - i && SafeSpan(w, i, j)
    decreases re, 0, 0
  {
    NonNegative(re);
    match re
    case Literal(runes, _) =>
      LiteralSafe(runes);
      forall k | i <= k < j ensures Safe(w[k]) { assert w[i + (k - i)] == runes[k - i]; }
    case CharClass(ranges) => ClassSafe(ranges, w[i]);
    case Capture(sub) => AnalysisSound(sub, w, i, j);
    case Star(sub) => var n: nat :| Times(sub, w, i, j, n); TimesSound(sub, w, i, j, n);
    case Plus(sub) =>
      var n: nat :| n >= 1 && Times(sub, w, i, j, n);
      TimesSound(sub, w, i, j, n);
      Monotone(1, n, Analyse(sub).value);
    case Quest(sub) => if i != j { AnalysisSound(sub, w, i, j); }
    case Repeat(sub, min, max) =>
      var n: nat :| min <= n && (max < 0 || n <= max) && Times(sub, w, i, j, n);
      TimesSound(sub, w, i, j, n);
      Monotone(min, n, Analyse(sub).value);
    case Concat(subs) => InOrderSound(subs, w, i, j);
    case Alternate(subs) =>
      var k :| 0 <= k < |subs| && Matches(subs[k], w, i, j);
      AllAnalysed(subs, k);
      AnalysisSound(subs[k], w, i, j);
      AllNonNegative(subs);
      LeastBelow(AnalyseAll(subs).value, k);
    case _ =>
  }

  lemma {:induction false} TimesSound(re: Regexp, w: string, i: nat, j: nat, n: nat)
    requires i <= j <= |w| && Parsed(re) && Analyse(re).Ok? && Times(re, w, i, j, n)
    ensures Analyse(re).value >= 0 && n * Analyse(re).value <= j - i && SafeSpan(w, i, j)
    decreases re, 1, n
  {
    NonNegative(re);
    if n > 0 {
      var k :| i <= k <= j && Matches(re, w, i, k) && Times(re, w, k, j, n - 1);
      AnalysisSound(re, w, i, k);
      TimesSound(re, w, k, j, n - 1);
      assert n * Analyse(re).value == Analyse(re).value + (n - 1) * Analyse(re).value;
    }
  }

  lemma {:induction false} InOrderSound(subs: seq<Regexp>, w: string, i: nat, j: nat)
    requires i <= j <= |w| && (forall s <- subs :: Parsed(s)) && AnalyseAll(subs).Ok? && InOrder(subs, w, i, j)
    ensures Sum(AnalyseAll(subs).value) <= j - i && SafeSpan(w, i, j)
    decreases subs, 0, 0
  {
    if subs != [] {
      var k :| i <= k <= j && Matches(subs[0], w, i, k) && InOrder(subs[1..], w, k, j);
      FirstMinimum(subs);
      AnalysisSound(subs[0], w, i, k);
      InOrderSound(subs[1..], w, k, j);
    }
  }

  // ----- exactness ----------------------------------------------------------------------------

  /**
   Some string of the minimal length is matched: at the start of the input if
   `first`, at its end if `last`.  Parts that the minimum leaves out do not count,
   and an anchor may stand where everything between it and the input's edge can be
   empty.
   */
  ghost predicate Attains(re: Regexp, first: bool, last: bool)
    decreases re, 0, 0
  {
    match re
    case NoMatch => false
    case EmptyMatch => true
    case Assert(kind) =>
      (match kind
       case BeginText => first
       case BeginLine => first
       case EndText => last
       case EndLine => last
       case WordBoundary => false
       case NoWordBoundary => first && last)
    case Literal(_, _) => true
    case CharClass(ranges) => exists r <- ranges :: r.0 <= r.1
    case AnyChar => false
    case AnyCharNotNL => false
    case Capture(sub) => Attains(sub, first, last)
    case Star(_) => true
    case Quest(_) => true
    case Plus(sub) => Attains(sub, first, last)
    case Repeat(sub, min, max) =>
      var once := min <= 1 || Analyse(sub) == Ok(0);
      (max < 0 || min <= max) && (min == 0 || Attains(sub, first && once, last && once))
    case Concat(subs) => AttainsInOrder(subs, first, last)
    case Alternate(subs) =>
      exists k :: 0 <= k < |subs| && Analyse(subs[k]) == Analyse(re) && Attains(subs[k], first, last)
  }

  ghost predicate AttainsInOrder(subs: seq<Regexp>, first: bool, last: bool)
    decreases subs, 0, 0
  {
    subs != [] ==>
      && Attains(subs[0], first, last && Analyse(Concat(subs[1..])) == Ok(0))
      && AttainsInOrder(subs[1..], first && Analyse(subs[0]) == Ok(0), last)
  }

  /** `u` stands at position `i` of `w`. */
  predicate At(u: string, w: string, i: nat) {
    i + |u| <= |w| && w[i..i + |u|] == u
  }

  /** The stretch of `w` from `i` to `j` begins and ends where it has to. */
  predicate Placed(w: string, i: nat, j: nat, first: bool, last: bool) {
    (first ==> i == 0) && (last ==> j == |w|)
  }

  /** `re` matches `u` wherever it stands, at the start or the end of the input if asked for. */
  ghost predicate MatchedIn(re: Regexp, u: string, first: bool, last: bool) {
    forall w: string, i: nat :: At(u, w, i) && Placed(w, i, i + |u|, first, last) ==> Matches(re, w, i, i + |u|)
  }

  ghost predicate TimesIn(re: Regexp, u: string, n: nat, first: bool, last: bool) {
    forall w: string, i: nat :: At(u, w, i) && Placed(w, i, i + |u|, first, last) ==> Times(re, w, i, i + |u|, n)
  }

  ghost predicate InOrderIn(subs: seq<Regexp>, u: string, first: bool, last: bool) {
    forall w: string, i: nat :: At(u, w, i) && Placed(w, i, i + |u|, first, last) ==> InOrder(subs, w, i, i + |u|)
  }

  lemma AtParts(u: string, v: string, w: string, i: nat)
    requires At(u + v, w, i)
    ensures At(u, w, i) && At(v, w, i + |u|)
  {
    assert w[i..i + |u|] == w[i..i + |u + v|][..|u|];
    assert w[i + |u|..i + |u| + |v|] == w[i..i + |u + v|][|u|..];
  }

  lemma SafeChar(r: int) returns (c: char)
    requires SafeRune(r)
    ensures c as int == r
  {
    c := r as char;
  }

  lemma LeastIsOne(ms: seq<int>) returns (k: nat)
    requires ms != [] && forall n :: 0 <= n < |ms| ==> ms[n] >= 0
    ensures k < |ms| && ms[k] == Least(ms)
  {
    if |ms| == 1 {
      k := 0;
    } else {
      LeastBelow(ms[..|ms| - 1], 0);
      if ms[|ms| - 1] < Least(ms[..|ms| - 1]) { k := |ms| - 1; } else { k := LeastIsOne(ms[..|ms| - 1]); }
    }
  }

  lemma RangeIsSafe(ranges: seq<(int, int)>, r: (int, int))
    requires FirstUnsafeRange(ranges) == None && r in ranges && r.0 <= r.1
    ensures SafeRune(r.0)
  {
    if r == ranges[0] {
      RangeSafe(r.0, r.1, r.0);
    } else {
      assert r in ranges[1..];
      RangeIsSafe(ranges[1..], r);
    }
  }

  lemma LiteralMatched(runes: string, first: bool, last: bool)
    ensures MatchedIn(Literal(runes, false), runes, first, last)
  {
    forall w: string, i: nat | At(runes, w, i) ensures Matches(Literal(runes, false), w, i, i + |runes|) {
      forall k | 0 <= k < |runes| ensures w[i + k] == runes[k] { assert w[i..i + |runes|][k] == w[i + k]; }
    }
  }

  lemma ClassMatched(ranges: seq<(int, int)>, first: bool, last: bool) returns (u: string)
    requires FirstUnsafeRange(ranges) == None && exists r <- ranges :: r.0 <= r.1
    ensures |u| == 1 && MatchedIn(CharClass(ranges), u, first, last)
  {
    var r :| r in ranges && r.0 <= r.1;
    RangeIsSafe(ranges, r);
    var c := SafeChar(r.0);
    u := [c];
    forall w: string, i: nat | At(u, w, i) ensures Matches(CharClass(ranges), w, i, i + 1) {
      assert w[i..i + |u|][0] == w[i];
    }
  }

  lemma NothingMatched(re: Regexp, first: bool, last: bool)
    requires re.Star? || re.Quest? || (re.Repeat? && re.min == 0)
    ensures MatchedIn(re, "", first, last)
  {
    forall w: string, i: nat | At("", w, i) ensures Matches(re, w, i, i) {
      if !re.Quest? { assert Times(re.sub, w, i, i, 0); }
    }
  }

  /**
   The minimum is attained: where `Attains` holds, some string of exactly that
   length is matched wherever it stands, within the demands on its place.
   */
  lemma {:induction false} MinimumAttained(re: Regexp, first: bool, last: bool) returns (u: string)
    requires Attains(re, first, last) && Parsed(re) && Analyse(re).Ok?
    ensures |u| == Analyse(re).value && MatchedIn(re, u, first, last)
    decreases re, 0, 0
  {
    match re
    case EmptyMatch => u := "";
    case Assert(kind) => u := "";
    case Literal(runes, _) => u := runes; LiteralMatched(runes, first, last);
    case CharClass(ranges) => u := ClassMatched(ranges, first, last);
    case Capture(sub) => u := MinimumAttained(sub, first, last);
    case Star(sub) => u := ""; NothingMatched(re, first, last);
    case Quest(sub) => u := ""; NothingMatched(re, first, last);
    case Plus(sub) =>
      var v := MinimumAttained(sub, first, last);
      u := Repeated(sub, v, 1, first, last);
      TimesMatched(re, u, 1, first, last);
    case Repeat(sub, min, max) => u := RepeatAttained(sub, min, max, first, last);
    case Concat(subs) => u := InOrderAttained(subs, first, last);
    case Alternate(subs) =>
      var k :| 0 <= k < |subs| && Analyse(subs[k]) == Analyse(re) && Attains(subs[k], first, last);
      u := MinimumAttained(subs[k], first, last);
  }

  lemma TimesMatched(re: Regexp, u: string, n: nat, first: bool, last: bool)
    requires (re.Plus? && n >= 1) || (re.Repeat? && re.min <= n && (re.max < 0 || n <= re.max))
    requires TimesIn(re.sub, u, n, first, last)
    ensures MatchedIn(re, u, first, last)
  {
    forall w: string, i: nat | At(u, w, i) && Placed(w, i, i + |u|, first, last) ensures Matches(re, w, i, i + |u|) {
      assert Times(re.sub, w, i, i + |u|, n);
    }
  }

  lemma {:induction false} RepeatAttained(sub: Regexp, min: nat, max: int, first: bool, last: bool) returns (u: string)
    requires Attains(Repeat(sub, min, max), first, last) && Parsed(sub) && Analyse(sub).Ok?
    ensures |u| == min * Analyse(sub).value && MatchedIn(Repeat(sub, min, max), u, first, last)
    decreases sub, 1, 0
  {
    var re := Repeat(sub, min, max);
    if min == 0 {
      u := "";
      NothingMatched(re, first, last);
    } else {
      var once := min <= 1 || Analyse(sub) == Ok(0);
      var v := MinimumAttained(sub, first && once, last && once);
      u := Repeated(sub, v, min, first && once, last && once);
      TimesMatched(re, u, min, first && once, last && once);
      Anywhere(re, u, once, first, last);
    }
  }

  /** What is matched with fewer demands on its place is matched with more. */
  lemma Anywhere(re: Regexp, u: string, once: bool, first: bool, last: bool)
    requires MatchedIn(re, u, first && once, last && once)
    ensures MatchedIn(re, u, first, last)
  {
    forall w: string, i: nat | At(u, w, i) && Placed(w, i, i + |u|, first, last) ensures Matches(re, w, i, i + |u|) {
      assert Placed(w, i, i + |u|, first && once, last && once);
    }
  }

  /** A string that is matched can be repeated, away from the edges unless it is empty. */
  lemma {:induction false} Repeated(re: Regexp, v: string, n: nat, first: bool, last: bool) returns (u: string)
    requires MatchedIn(re, v, first, last) && (n <= 1 || v == "" || (!first && !last))
    ensures |u| == n * |v| && TimesIn(re, u, n, first, last)
  {
    if n == 0 {
      u := "";
    } else {
      var rest := Repeated(re, v, n - 1, first, last);
      u := v + rest;
      assert n * |v| == |v| + (n - 1) * |v|;
      OneMoreTime(re, v, rest, n, first, last);
    }
  }

  lemma OneMoreTime(re: Regexp, v: string, rest: string, n: nat, first: bool, last: bool)
    requires n >= 1 && MatchedIn(re, v, first, last) && TimesIn(re, rest, n - 1, first, last)
    requires |rest| == (n - 1) * |v| && (n == 1 || v == "" || (!first && !last))
    ensures TimesIn(re, v + rest, n, first, last)
  {
    var u := v + rest;
    forall w: string, i: nat | At(u, w, i) && Placed(w, i, i + |u|, first, last) ensures Times(re, w, i, i + |u|, n) {
      AtParts(v, rest, w, i);
      var k := i + |v|;
      assert (first || last) ==> |rest| == 0;
      assert Matches(re, w, i, k);
      if n == 1 {
        assert Times(re, w, k, k, 0);
      } else {
        assert Times(re, w, k, k + |rest|, n - 1);
      }
    }
  }

  /** The sum of the minima, with the first one taken off. */
  lemma {:induction false} FirstMinimum(subs: seq<Regexp>)
    requires subs != [] && AnalyseAll(subs).Ok?
    ensures Analyse(subs[0]).Ok? && AnalyseAll(subs[1..]).Ok?
    ensures Sum(AnalyseAll(subs).value) == Analyse(subs[0]).value + Sum(AnalyseAll(subs[1..]).value)
  {
    var ms := AnalyseAll(subs).value;
    forall n | 0 <= n < |subs| ensures Analyse(subs[n]) == Ok(ms[n]) { AllAnalysed(subs, n); }
    AllOk(subs[1..]);
    forall n | 0 <= n < |subs| - 1 ensures AnalyseAll(subs[1..]).value[n] == ms[n + 1] { AllAnalysed(subs[1..], n); }
    assert AnalyseAll(subs[1..]).value == ms[1..];
    SumFront(ms);
  }

  lemma {:induction false} InOrderAttained(subs: seq<Regexp>, first: bool, last: bool) returns (u: string)
    requires AttainsInOrder(subs, first, last) && (forall s <- subs :: Parsed(s)) && AnalyseAll(subs).Ok?
    ensures |u| == Sum(AnalyseAll(subs).value) && InOrderIn(subs, u, first, last)
    ensures MatchedIn(Concat(subs), u, first, last)
    decreases subs, 0, 0
  {
    if subs == [] {
      u := "";
    } else {
      FirstMinimum(subs);
      var v := MinimumAttained(subs[0], first, last && Analyse(Concat(subs[1..])) == Ok(0));
      var rest := InOrderAttained(subs[1..], first && Analyse(subs[0]) == Ok(0), last);
      u := v + rest;
      InOrderJoined(subs, v, rest, first, last);
    }
  }

  lemma {:induction false} InOrderJoined(subs: seq<Regexp>, v: string, rest: string, first: bool, last: bool)
    requires subs != [] && MatchedIn(subs[0], v, first, last && rest == "")
    requires InOrderIn(subs[1..], rest, first && v == "", last)
    ensures InOrderIn(subs, v + rest, first, last)
  {
    var u := v + rest;
    forall w: string, i: nat | At(u, w, i) && Placed(w, i, i + |u|, first, last) ensures InOrder(subs, w, i, i + |u|) {
      AtParts(v, rest, w, i);
      assert Matches(subs[0], w, i, i + |v|) && InOrder(subs[1..], w, i + |v|, i + |v| + |rest|);
    }
  }

  /** The minimum of a whole grammar: where `Attains` holds at both edges, some value of that very length is matched. */
  lemma WholeMinimumAttained(re: Regexp) returns (u: string)
    requires Attains(re, true, true) && Parsed(re) && Analyse(re).Ok?
    ensures |u| == Analyse(re).value && Matches(re, u, 0, |u|)
  {
    u := MinimumAttained(re, true, true);
    assert At(u, u, 0) && Placed(u, 0, |u|, true, true);
  }

  // ----- grammars whose minimum is attained ---------------------------------------------------

  /** No assertion and no dead part: every subexpression can match somewhere, whatever surrounds it. */
  predicate Plain(re: Regexp) {
    match re
    case NoMatch => false
    case Assert(_) => false
    case CharClass(ranges) => exists r <- ranges :: r.0 <= r.1
    case Capture(sub) => Plain(sub)
    case Star(sub) => Plain(sub)
    case Plus(sub) => Plain(sub)
    case Quest(sub) => Plain(sub)
    case Repeat(sub, min, max) => Plain(sub) && (max < 0 || min <= max)
    case Concat(subs) => forall s <- subs :: Plain(s)
    case Alternate(subs) => subs != [] && forall s <- subs :: Plain(s)
    case _ => true
  }

  lemma {:induction false} PlainAttains(re: Regexp, first: bool, last: bool)
    requires Plain(re) && Parsed(re) && Analyse(re).Ok?
    ensures Attains(re, first, last)
    decreases re, 0, 0
  {
    match re
    case Capture(sub) => PlainAttains(sub, first, last);
    case Plus(sub) => PlainAttains(sub, first, last);
    case Repeat(sub, min, _) =>
      var once := min <= 1 || Analyse(sub) == Ok(0);
      PlainAttains(sub, first && once, last && once);
    case Concat(subs) => PlainInOrder(subs, [], first, last); assert subs + [] == subs;
    case Alternate(subs) =>
      AllNonNegative(subs);
      var k := LeastIsOne(AnalyseAll(subs).value);
      AllAnalysed(subs, k);
      PlainAttains(subs[k], first, last);
    case _ =>
  }

  /** Plain parts attain their minimum whatever follows them. */
  lemma {:induction false} PlainInOrder(subs: seq<Regexp>, more: seq<Regexp>, first: bool, last: bool)
    requires (forall s <- subs :: Plain(s) && Parsed(s)) && AnalyseAll(subs).Ok?
    requires forall f :: AttainsInOrder(more, f, last)
    ensures AttainsInOrder(subs + more, first, last)
    decreases subs, 0, 0
  {
    if subs == [] {
      assert subs + more == more;
    } else {
      assert (subs + more)[0] == subs[0] && (subs + more)[1..] == subs[1..] + more;
      FirstMinimum(subs);
      PlainAttains(subs[0], first, last && Analyse(Concat(subs[1..] + more)) == Ok(0));
      PlainInOrder(subs[1..], more, first && Analyse(subs[0]) == Ok(0), last);
    }
  }

  /** `^...$` as the parser builds it: one concatenation, with the anchors at its ends. */
  function Anchored(subs: seq<Regexp>): Regexp {
    Concat([Assert(BeginText)] + subs + [Assert(EndText)])
  }

  /** The usual shape of an accepted grammar: plain parts between the two anchors. */
  lemma AnchoredAttains(subs: seq<Regexp>)
    requires (forall s <- subs :: Plain(s) && Parsed(s)) && AnalyseAll(subs).Ok?
    ensures Attains(Anchored(subs), true, true)
  {
    var end := [Assert(EndText)];
    forall f ensures AttainsInOrder(end, f, true) {
      assert end[1..] == [] && AnalyseAll([]) == Ok([]) && Analyse(Concat(end[1..])) == Ok(0);
    }
    PlainInOrder(subs, end, true, true);
    var all := [Assert(BeginText)] + subs + end;
    assert all[0] == Assert(BeginText) && all[1..] == subs + end;
  }

  // ----- the empty value ----------------------------------------------------------------------

  /** Whether the expression matches the empty value, read off its tree. */
  predicate EmptyOk(re: Regexp) {
    match re
    case NoMatch => false
    case EmptyMatch => true
    case Assert(kind) => kind != WordBoundary
    case Literal(runes, _) => runes == ""
    case CharClass(_) => false
    case AnyChar => false
    case AnyCharNotNL => false
    case Capture(sub) => EmptyOk(sub)
    case Star(_) => true
    case Quest(_) => true
    case Plus(sub) => EmptyOk(sub)
    case Repeat(sub, min, max) => (max < 0 || min <= max) && (min == 0 || EmptyOk(sub))
    case Concat(subs) => forall s <- subs :: EmptyOk(s)
    case Alternate(subs) => exists s <- subs :: EmptyOk(s)
  }

  lemma {:induction false} EmptyOkIff(re: Regexp)
    ensures Matches(re, "", 0, 0) <==> EmptyOk(re)
    decreases re, 0, 0
  {
    match re
    case Capture(sub) => EmptyOkIff(sub);
    case Star(sub) => EmptyTimes(sub, 0);
    case Plus(sub) =>
      forall n: nat ensures Times(sub, "", 0, 0, n) <==> n == 0 || EmptyOk(sub) { EmptyTimes(sub, n); }
      if EmptyOk(re) { assert Times(sub, "", 0, 0, 1); }
    case Repeat(sub, min, max) =>
      forall n: nat ensures Times(sub, "", 0, 0, n) <==> n == 0 || EmptyOk(sub) { EmptyTimes(sub, n); }
      if EmptyOk(re) { assert Times(sub, "", 0, 0, min); }
    case Concat(subs) => EmptyInOrder(subs);
    case Alternate(subs) =>
      forall k | 0 <= k < |subs| ensures Matches(subs[k], "", 0, 0) <==> EmptyOk(subs[k]) { EmptyOkIff(subs[k]); }
    case _ =>
  }

  lemma {:induction false} EmptyTimes(re: Regexp, n: nat)
    ensures Times(re, "", 0, 0, n) <==> n == 0 || EmptyOk(re)
    decreases re, 1, n
  {
    if n > 0 {
      EmptyOkIff(re);
      EmptyTimes(re, n - 1);
    }
  }

  lemma {:induction false} EmptyInOrder(subs: seq<Regexp>)
    ensures InOrder(subs, "", 0, 0) <==> forall s <- subs :: EmptyOk(s)
    decreases subs, 0, 0
  {
    if subs != [] {
      EmptyOkIff(subs[0]);
      EmptyInOrder(subs[1..]);
      assert subs == [subs[0]] + subs[1..];
    }
  }

  /** A grammar that matches the empty value, whatever it is made of, has the minimum zero and is rejected. */
  lemma EmptyGivesZero(re: Regexp)
    requires Parsed(re) && Analyse(re).Ok? && Matches(re, "", 0, 0)
    ensures Analyse(re) == Ok(0)
  {
    AnalysisSound(re, "", 0, 0);
  }

  /**
   For every analysed grammar: the zero test rejects exactly the grammars that match
   the empty value, if and only if a zero minimum comes with a tree that `EmptyOk`
   accepts.
   */
  lemma ZeroTestExactIff(re: Regexp)
    requires Parsed(re) && Analyse(re).Ok?
    ensures (Analyse(re) == Ok(0) <==> Matches(re, "", 0, 0)) <==> (Analyse(re) == Ok(0) ==> EmptyOk(re))
  {
    EmptyOkIff(re);
    if Matches(re, "", 0, 0) { EmptyGivesZero(re); }
  }

  /** No word boundary that has to hold, and no repetition with its bounds the wrong way round. */
  predicate NoBoundary(re: Regexp) {
    match re
    case Assert(kind) => kind != WordBoundary
    case Capture(sub) => NoBoundary(sub)
    case Plus(sub) => NoBoundary(sub)
    case Repeat(sub, min, max) => (max < 0 || min <= max) && (min == 0 || NoBoundary(sub))
    case Concat(subs) => forall s <- subs :: NoBoundary(s)
    case Alternate(subs) => forall s <- subs :: NoBoundary(s)
    case _ => true
  }

  lemma {:induction false} ZeroMeansEmpty(re: Regexp)
    requires Parsed(re) && NoBoundary(re) && Analyse(re) == Ok(0)
    ensures EmptyOk(re)
    decreases re, 0
  {
    match re
    case Capture(sub) => ZeroMeansEmpty(sub);
    case Plus(sub) => ZeroMeansEmpty(sub);
    case Repeat(sub, min, _) => if min > 0 { ProductZero(min, Analyse(sub).value); ZeroMeansEmpty(sub); }
    case Concat(subs) =>
      AllNonNegative(subs);
      forall k | 0 <= k < |subs| ensures EmptyOk(subs[k]) {
        SumZero(AnalyseAll(subs).value, k);
        AllAnalysed(subs, k);
        ZeroMeansEmpty(subs[k]);
      }
    case Alternate(subs) =>
      AllNonNegative(subs);
      var k := LeastIsOne(AnalyseAll(subs).value);
      AllAnalysed(subs, k);
      ZeroMeansEmpty(subs[k]);
    case _ =>
  }

  lemma ProductZero(a: nat, b: int)
    requires a > 0 && a * b == 0
    ensures b == 0
  {
  }

  lemma {:induction false} SumZero(ms: seq<int>, k: nat)
    requires k < |ms| && (forall n :: 0 <= n < |ms| ==> ms[n] >= 0) && Sum(ms) == 0
    ensures ms[k] == 0
  {
    SumNonNegative(ms[..|ms| - 1]);
    if k < |ms| - 1 { SumZero(ms[..|ms| - 1], k); }
  }

  /** Without a word boundary outside optional parts the zero test is exact, for trees of every shape. */
  lemma ZeroTestExact(re: Regexp)
    requires Parsed(re) && NoBoundary(re) && Analyse(re).Ok?
    ensures Analyse(re) == Ok(0) <==> Matches(re, "", 0, 0)
  {
    ZeroTestExactIff(re);
    if Analyse(re) == Ok(0) { ZeroMeansEmpty(re); }
  }

  lemma SumOfThree(ms: seq<int>)
    requires |ms| == 3
    ensures Sum(ms) == ms[0] + ms[1] + ms[2]
  {
    SumFront(ms);
    SumFront(ms[1..]);
    SumFront(ms[2..]);
    assert ms[1..][1..] == ms[2..] && ms[2..][1..] == [];
  }

  lemma MinimumOfThree(subs: seq<Regexp>)
    requires |subs| == 3 && subs[0] == Assert(BeginText) && subs[2] == Assert(EndText) && Analyse(subs[1]).Ok?
    ensures Analyse(Concat(subs)) == Analyse(subs[1])
  {
    AllOk(subs);
    var ms := AnalyseAll(subs).value;
    forall n | 0 <= n < 3 ensures Analyse(subs[n]) == Ok(ms[n]) { AllAnalysed(subs, n); }
    SumOfThree(ms);
  }

  /** With one it need not be: `^\b$` is rejected although it matches no value, not even the empty one. */
  lemma ZeroWithoutEmpty(re: Regexp)
    requires re == Anchored([Assert(WordBoundary)])
    ensures Analyse(re) == Ok(0) && !Matches(re, "", 0, 0)
  {
    assert re.subs[1] == Assert(WordBoundary) && !EmptyOk(re.subs[1]);
    EmptyOkIff(re);
    MinimumOfThree(re.subs);
  }
}
