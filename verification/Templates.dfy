/**
 Templates of paths and subjects: `{name}` placeholders that fill whole segments.

 The validator finds placeholders with a regular expression over the whole
 string and looks at the characters around them; the matcher splits the string
 and looks at each segment.  `ScanIffSegments` is why the two agree.
 */
module Templates {
  import opened Wrappers
  import opened Text

  predicate IsLetter(c: char) {
    'A' <= c <= 'Z' || 'a' <= c <= 'z'
  }

  predicate IsNameChar(c: char) {
    IsLetter(c) || '0' <= c <= '9' || c == '_'
  }

  predicate IsBrace(c: char) {
    c == '{' || c == '}'
  }

  /** A parameter name as `placeholderPattern` captures it. */
  predicate ValidParam(name: string) {
    name != "" && IsLetter(name[0]) && forall i :: 0 <= i < |name| ==> IsNameChar(name[i])
  }

  function Placeholder(name: string): string {
    "{" + name + "}"
  }

  predicate BraceFree(s: string) {
    forall i :: 0 <= i < |s| ==> !IsBrace(s[i])
  }

  // ----- the scan over the whole string -------------------------------------------------------

  function NameEnd(s: string, i: nat): (e: nat)
    requires i <= |s|
    ensures i <= e <= |s| && (forall k :: i <= k < e ==> IsNameChar(s[k])) && (e < |s| ==> !IsNameChar(s[e]))
    decreases |s| - i
  {
    if i < |s| && IsNameChar(s[i]) then NameEnd(s, i + 1) else i
  }

  /** Where a match of `placeholderPattern` that starts at `i` ends. */
  function PlaceEnd(s: string, i: nat): (e: Option<nat>)
    requires i <= |s|
    ensures e.Some? ==>
              i + 3 <= e.value <= |s| && s[i] == '{' && s[e.value - 1] == '}' && ValidParam(s[i + 1..e.value - 1])
  {
    if i + 1 < |s| && s[i] == '{' && IsLetter(s[i + 1]) then
      var e := NameEnd(s, i + 1);
      if e < |s| && s[e] == '}' then Some(e + 1) else None
    else None
  }

  /** `FindAllStringSubmatchIndex`: the placeholders from `i` on, as start and end. */
  function FindAll(s: string, i: nat): (ms: seq<(nat, nat)>)
    requires i <= |s|
    ensures forall m <- ms :: m.0 + 3 <= m.1 <= |s|
    decreases |s| - i
  {
    if i == |s| then []
    else match PlaceEnd(s, i)
         case Some(e) => [(i, e)] + FindAll(s, e)
         case None => FindAll(s, i + 1)
  }

  /** `ReplaceAllString(s, "")`: what is left from `i` on without the placeholders. */
  function Without(s: string, i: nat): string
    requires i <= |s|
    decreases |s| - i
  {
    if i == |s| then ""
    else match PlaceEnd(s, i)
         case Some(e) => Without(s, e)
         case None => [s[i]] + Without(s, i + 1)
  }

  /** The placeholder touches only separators or the ends of the string. */
  predicate FillsSegment(s: string, sep: char, m: (nat, nat)) {
    m.0 <= m.1 <= |s| && (m.0 > 0 ==> s[m.0 - 1] == sep) && (m.1 < |s| ==> s[m.1] == sep)
  }

  function NameAt(s: string, m: (nat, nat)): string {
    if m.0 + 2 <= m.1 <= |s| then s[m.0 + 1..m.1 - 1] else ""
  }

  function NamesAt(s: string, ms: seq<(nat, nat)>): (names: seq<string>)
    ensures |names| == |ms| && forall k :: 0 <= k < |ms| ==> names[k] == NameAt(s, ms[k])
  {
    seq(|ms|, k requires 0 <= k < |ms| => NameAt(s, ms[k]))
  }

  predicate Unique(names: seq<string>) {
    forall i, j :: 0 <= i < j < |names| ==> names[i] != names[j]
  }

  // ----- what is meant: segment by segment ----------------------------------------------------

  predicate IsPlaceholder(segment: string) {
    |segment| >= 3 && segment[0] == '{' && segment[|segment| - 1] == '}' && ValidParam(segment[1..|segment| - 1])
  }

  predicate SegmentOk(segment: string) {
    IsPlaceholder(segment) || BraceFree(segment)
  }

  function ParamOf(segment: string): string
    requires IsPlaceholder(segment)
  {
    segment[1..|segment| - 1]
  }

  /** The names of the placeholders among the segments, in order. */
  function ParamsOf(segments: seq<string>): seq<string> {
    if segments == [] then []
    else (if IsPlaceholder(segments[0]) then [ParamOf(segments[0])] else []) + ParamsOf(segments[1..])
  }

  /** Every segment is a placeholder or plain text, and no placeholder repeats. */
  predicate WellFormed(segments: seq<string>) {
    (forall i :: 0 <= i < |segments| ==> SegmentOk(segments[i])) && Unique(ParamsOf(segments))
  }

  // ----- the two agree ------------------------------------------------------------------------

  /** The scan from `i` on finds only segment-filling placeholders and leaves no brace. */
  predicate ScanOk(s: string, sep: char, i: nat)
    requires i <= |s|
  {
    (forall m <- FindAll(s, i) :: FillsSegment(s, sep, m)) && BraceFree(Without(s, i))
  }

  predicate Separator(c: char) {
    !IsNameChar(c) && !IsBrace(c)
  }

  lemma {:induction false} NameEndIs(s: string, i: nat, e: nat)
    requires i <= e <= |s| && (forall k :: i <= k < e ==> IsNameChar(s[k])) && (e < |s| ==> !IsNameChar(s[e]))
    ensures NameEnd(s, i) == e
    decreases e - i
  {
    if i < e { NameEndIs(s, i + 1, e); }
  }

  /** A whole segment is a placeholder exactly when the scan matches it from its start to its end. */
  lemma PlaceholderIffPlaceEnd(s: string, i: nat, e: nat)
    requires i <= e <= |s|
    ensures IsPlaceholder(s[i..e]) <==> PlaceEnd(s, i) == Some(e)
  {
    if IsPlaceholder(s[i..e]) {
      SliceSlice(s, i, e, 1, e - i - 1);
      forall k | i + 1 <= k < e - 1 ensures IsNameChar(s[k]) { assert s[k] == s[i + 1..e - 1][k - i - 1]; }
      assert s[i + 1] == s[i + 1..e - 1][0];
      assert s[i] == s[i..e][0] && s[e - 1] == s[i..e][e - i - 1];
      NameEndIs(s, i + 1, e - 1);
    }
    if PlaceEnd(s, i) == Some(e) {
      SliceSlice(s, i, e, 1, e - i - 1);
    }
  }

  /** A placeholder stays within its segment. */
  lemma PlaceWithinSegment(s: string, sep: char, i: nat, e: nat)
    requires Separator(sep) && i <= e <= |s| && (e < |s| ==> s[e] == sep) && PlaceEnd(s, i).Some?
    requires i < e
    ensures PlaceEnd(s, i).value <= e
  {
    var p := PlaceEnd(s, i).value;
    forall k | i < k < p - 1 ensures IsNameChar(s[k]) { assert s[k] == s[i + 1..p - 1][k - i - 1]; }
  }

  /** In the middle of a segment a scan succeeds only over plain text. */
  lemma {:induction false} ScanInside(s: string, sep: char, i: nat, e: nat)
    requires Separator(sep) && 0 < i <= e <= |s| && (e < |s| ==> s[e] == sep)
    requires s[i - 1] != sep
    requires forall k :: i <= k < e ==> s[k] != sep
    ensures ScanOk(s, sep, i) <==> BraceFree(s[i..e]) && ScanOk(s, sep, e)
    ensures BraceFree(s[i..e]) ==> FindAll(s, i) == FindAll(s, e)
    decreases e - i
  {
    if i < e {
      match PlaceEnd(s, i)
      case Some(p) =>
        assert (i, p) in FindAll(s, i) && !FillsSegment(s, sep, (i, p));
        assert s[i..e][0] == '{';
      case None =>
        ScanInside(s, sep, i + 1, e);
        assert s[i..e] == [s[i]] + s[i + 1..e];
        assert Without(s, i) == [s[i]] + Without(s, i + 1);
        BraceFreeCons(s[i], s[i + 1..e]);
        BraceFreeCons(s[i], Without(s, i + 1));
    }
  }

  lemma BraceFreeCons(c: char, s: string)
    ensures BraceFree([c] + s) <==> !IsBrace(c) && BraceFree(s)
  {
    if BraceFree([c] + s) {
      assert ([c] + s)[0] == c;
      forall k | 0 <= k < |s| ensures !IsBrace(s[k]) { assert ([c] + s)[k + 1] == s[k]; }
    }
  }

  /** One segment of the scan, from its start to the next separator. */
  lemma ScanSegment(s: string, sep: char, i: nat, e: nat)
    requires Separator(sep) && i <= e <= |s| && (e < |s| ==> s[e] == sep) && (i > 0 ==> s[i - 1] == sep)
    requires forall k :: i <= k < e ==> s[k] != sep
    ensures ScanOk(s, sep, i) <==> SegmentOk(s[i..e]) && ScanOk(s, sep, e)
    ensures ScanOk(s, sep, i) ==>
              FindAll(s, i) == (if IsPlaceholder(s[i..e]) then [(i, e)] else []) + FindAll(s, e)
  {
    PlaceholderIffPlaceEnd(s, i, e);
    if i < e {
      match PlaceEnd(s, i)
      case Some(p) =>
        PlaceWithinSegment(s, sep, i, e);
        assert (i, p) in FindAll(s, i);
        assert s[i..e][0] == '{';
        if p < e { assert !FillsSegment(s, sep, (i, p)); }
      case None =>
        ScanPlain(s, sep, i, e);
    }
  }

  /** A segment that does not begin with a placeholder. */
  lemma ScanPlain(s: string, sep: char, i: nat, e: nat)
    requires Separator(sep) && i < e <= |s| && (e < |s| ==> s[e] == sep) && PlaceEnd(s, i) == None
    requires forall k :: i <= k < e ==> s[k] != sep
    ensures ScanOk(s, sep, i) <==> BraceFree(s[i..e]) && ScanOk(s, sep, e)
    ensures BraceFree(s[i..e]) ==> FindAll(s, i) == FindAll(s, e)
  {
    ScanInside(s, sep, i + 1, e);
    assert s[i..e] == [s[i]] + s[i + 1..e];
    assert Without(s, i) == [s[i]] + Without(s, i + 1);
    BraceFreeCons(s[i], s[i + 1..e]);
    BraceFreeCons(s[i], Without(s, i + 1));
  }

  /** A separator is passed over. */
  lemma ScanSeparator(s: string, sep: char, e: nat)
    requires Separator(sep) && e < |s| && s[e] == sep
    ensures ScanOk(s, sep, e) <==> ScanOk(s, sep, e + 1)
    ensures FindAll(s, e) == FindAll(s, e + 1)
  {
    assert PlaceEnd(s, e) == None;
    BraceFreeCons(s[e], Without(s, e + 1));
  }

  /** The last segment. */
  lemma ScanLast(s: string, sep: char, i: nat)
    requires Separator(sep) && i <= |s| && (i > 0 ==> s[i - 1] == sep) && IndexFrom(s, sep, i) == |s|
    ensures ScanOk(s, sep, i) <==> forall p <- [s[i..]] :: SegmentOk(p)
    ensures ScanOk(s, sep, i) ==> NamesAt(s, FindAll(s, i)) == ParamsOf([s[i..]])
  {
    ScanSegment(s, sep, i, |s|);
    assert s[i..|s|] == s[i..];
    ScanCombine(s, sep, i, |s|, []);
  }

  /**
   The scan of the whole string accepts exactly the templates whose every segment
   is a placeholder or plain text, and finds their parameters in order.
   */
  lemma {:induction false} ScanIffSegments(s: string, sep: char, i: nat)
    requires Separator(sep) && i <= |s| && (i > 0 ==> s[i - 1] == sep)
    ensures ScanOk(s, sep, i) <==> forall p <- SplitFrom(s, sep, i) :: SegmentOk(p)
    ensures ScanOk(s, sep, i) ==> NamesAt(s, FindAll(s, i)) == ParamsOf(SplitFrom(s, sep, i))
    decreases |s| - i
  {
    var e := IndexFrom(s, sep, i);
    if e == |s| {
      ScanLast(s, sep, i);
      assert SplitFrom(s, sep, i) == [s[i..]];
    } else {
      ScanSegment(s, sep, i, e);
      ScanSeparator(s, sep, e);
      var rest := SplitFrom(s, sep, e + 1);
      ScanIffSegments(s, sep, e + 1);
      ScanCombine(s, sep, i, e, rest);
      assert SplitFrom(s, sep, i) == [s[i..e]] + rest;
    }
  }

  /** The facts about one segment and about the rest make those about both. */
  lemma ScanCombine(s: string, sep: char, i: nat, e: nat, rest: seq<string>)
    requires i <= e <= |s|
    requires ScanOk(s, sep, i) <==> SegmentOk(s[i..e]) && ScanOk(s, sep, e)
    requires ScanOk(s, sep, i) ==> FindAll(s, i) == (if IsPlaceholder(s[i..e]) then [(i, e)] else []) + FindAll(s, e)
    requires ScanOk(s, sep, e) <==> forall p <- rest :: SegmentOk(p)
    requires ScanOk(s, sep, e) ==> NamesAt(s, FindAll(s, e)) == ParamsOf(rest)
    ensures ScanOk(s, sep, i) <==> forall p <- [s[i..e]] + rest :: SegmentOk(p)
    ensures ScanOk(s, sep, i) ==> NamesAt(s, FindAll(s, i)) == ParamsOf([s[i..e]] + rest)
  {
    OneSegment(s, sep, i, e, rest);
    NamesAppend(s, if IsPlaceholder(s[i..e]) then [(i, e)] else [], FindAll(s, e));
  }

  lemma NamesAppend(s: string, ms: seq<(nat, nat)>, ms': seq<(nat, nat)>)
    ensures NamesAt(s, ms + ms') == NamesAt(s, ms) + NamesAt(s, ms')
  {
  }

  /** Adding one segment in front, on both sides. */
  lemma OneSegment(s: string, sep: char, i: nat, e: nat, rest: seq<string>)
    requires i <= e <= |s|
    ensures (forall p <- [s[i..e]] + rest :: SegmentOk(p)) <==> SegmentOk(s[i..e]) && forall p <- rest :: SegmentOk(p)
    ensures var found := if IsPlaceholder(s[i..e]) then [(i, e)] else [];
            ParamsOf([s[i..e]] + rest) == NamesAt(s, found) + ParamsOf(rest)
  {
    var segments := [s[i..e]] + rest;
    assert segments[0] == s[i..e] && segments[1..] == rest;
    if IsPlaceholder(s[i..e]) {
      SliceSlice(s, i, e, 1, e - i - 1);
      assert NamesAt(s, [(i, e)]) == [ParamOf(s[i..e])];
    }
  }

  // ----- validation ---------------------------------------------------------------------------

  /** What the loop of `validateTemplate` requires of the matches. */
  predicate MatchesOk(value: string, sep: char, ms: seq<(nat, nat)>) {
    (forall n :: 0 <= n < |ms| ==> FillsSegment(value, sep, ms[n])) && Unique(NamesAt(value, ms))
  }

  lemma MatchesOkPrefix(value: string, sep: char, ms: seq<(nat, nat)>, k: nat)
    requires k < |ms|
    ensures MatchesOk(value, sep, ms[..k + 1]) <==>
              MatchesOk(value, sep, ms[..k]) && FillsSegment(value, sep, ms[k])
                && NameAt(value, ms[k]) !in NamesAt(value, ms[..k])
    ensures NamesAt(value, ms[..k + 1]) == NamesAt(value, ms[..k]) + [NameAt(value, ms[k])]
  {
    var names, more := NamesAt(value, ms[..k]), NamesAt(value, ms[..k + 1]);
    assert more == names + [NameAt(value, ms[k])];
    if MatchesOk(value, sep, ms[..k + 1]) {
      assert forall n :: 0 <= n < k ==> more[n] == names[n] && ms[..k + 1][n] == ms[..k][n];
      assert ms[..k + 1][k] == ms[k] && more[k] == NameAt(value, ms[k]);
    }
  }

  lemma {:induction false} MatchesFail(value: string, sep: char, ms: seq<(nat, nat)>, k: nat)
    requires k <= |ms| && !MatchesOk(value, sep, ms[..k])
    ensures !MatchesOk(value, sep, ms)
    decreases |ms| - k
  {
    if k < |ms| {
      MatchesOkPrefix(value, sep, ms, k);
      MatchesFail(value, sep, ms, k + 1);
    } else {
      assert ms[..k] == ms;
    }
  }

  /** The loop of `validateTemplate` over the placeholders found. */
  method CheckMatches(value: string, sep: char, matches: seq<(nat, nat)>) returns (params: Option<seq<string>>)
    requires forall n :: 0 <= n < |matches| ==> matches[n].0 <= matches[n].1 <= |value|
    ensures params.Some? <==> MatchesOk(value, sep, matches)
    ensures params.Some? ==> params.value == NamesAt(value, matches)
  {
    var names := [];
    for k := 0 to |matches|
      invariant names == NamesAt(value, matches[..k]) && MatchesOk(value, sep, matches[..k])
    {
      MatchesOkPrefix(value, sep, matches, k);
      var start, end := matches[k].0, matches[k].1;
      var name := NameAt(value, matches[k]);
      if name in names || (start > 0 && value[start - 1] != sep) || (end < |value| && value[end] != sep) {
        MatchesFail(value, sep, matches, k + 1);
        return None;
      }
      names := names + [name];
    }
    assert matches[..|matches|] == matches;
    params := Some(names);
  }

  /** `validateTemplate`; `sep` is '/' for paths and '.' for subjects. */
  method ValidateTemplate(value: string, sep: char) returns (params: Option<seq<string>>)
    requires Separator(sep)
    ensures params.Some? <==> WellFormed(Split(value, sep))
    ensures params.Some? ==> params.value == ParamsOf(Split(value, sep))
  {
    TemplateOkIff(value, sep);
    if !BraceFree(Without(value, 0)) { return None; }
    params := CheckMatches(value, sep, FindAll(value, 0));
  }

  /** The checks of `validateTemplate` together are the segment-wise notion. */
  lemma TemplateOkIff(value: string, sep: char)
    requires Separator(sep)
    ensures MatchesOk(value, sep, FindAll(value, 0)) && BraceFree(Without(value, 0)) <==> WellFormed(Split(value, sep))
    ensures WellFormed(Split(value, sep)) ==> NamesAt(value, FindAll(value, 0)) == ParamsOf(Split(value, sep))
  {
    var ms := FindAll(value, 0);
    ScanIffSegments(value, sep, 0);
    assert (forall m <- ms :: FillsSegment(value, sep, m))
           <==> (forall n :: 0 <= n < |ms| ==> FillsSegment(value, sep, ms[n]));
    var segments := Split(value, sep);
    assert (forall p <- segments :: SegmentOk(p)) <==> (forall i :: 0 <= i < |segments| ==> SegmentOk(segments[i]));
  }
}
