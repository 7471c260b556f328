/** Accept negotiation: parsing the header and choosing a declared representation (section 12.5.1 of RFC 9110). */
module Accept {
  import opened Wrappers
  import opened Text
  import opened HeaderValues

  // ----- media types and ranges ---------------------------------------------------------------

  datatype Media = Media(typeName: string, subtype: string, parameters: map<string, string>)

  /** A media range of an Accept header; `quality` counts thousandths. */
  datatype Range = Range(typeName: string, subtype: string, parameters: map<string, string>,
                         quality: nat, specificity: int, parameterCount: nat, order: nat)

  function ValueOr(parameters: map<string, string>, name: string): string {
    if name in parameters then parameters[name] else ""
  }

  /** `matches`: an absent parameter of the media type reads as empty. */
  predicate Matches(r: Range, m: Media) {
    && (r.typeName == "*" || r.typeName == m.typeName)
    && (r.subtype == "*" || r.subtype == m.subtype)
    && forall name <- r.parameters :: ValueOr(m.parameters, name) == r.parameters[name]
  }

  /**
   Without parameters a range matches every type, the types of one main type, or one
   type; and each of its parameters narrows it to the types that agree on it.
   */
  lemma MatchesCases(r: Range, m: Media)
    requires r.typeName == "*" ==> r.subtype == "*"
    ensures r.parameters == map[] ==>
              (Matches(r, m) <==> r.typeName == "*" || (r.typeName == m.typeName && r.subtype in {"*", m.subtype}))
    ensures forall name <- r.parameters ::
              Matches(r, m) <==>
                && Matches(r.(parameters := r.parameters - {name}), m)
                && (if name in m.parameters then m.parameters[name] else "") == r.parameters[name]
  {
  }

  /** `a` takes precedence over `b`: more specific, then more parameters, then earlier. */
  predicate Precedes(a: Range, b: Range) {
    || a.specificity > b.specificity
    || (a.specificity == b.specificity && a.parameterCount > b.parameterCount)
    || (a.specificity == b.specificity && a.parameterCount == b.parameterCount && a.order < b.order)
  }

  /** The ranges as the parser numbers them. */
  predicate Numbered(ranges: seq<Range>) {
    forall k :: 0 <= k < |ranges| ==> ranges[k].order == k && ranges[k].specificity >= 0
  }

  // ----- the declarative choice ---------------------------------------------------------------

  /** Range `k` decides the quality of `m`: it matches, and no other matching range precedes it. */
  predicate Decides(ranges: seq<Range>, m: Media, k: nat) {
    && k < |ranges| && Matches(ranges[k], m)
    && forall j :: 0 <= j < |ranges| && Matches(ranges[j], m) ==> !Precedes(ranges[j], ranges[k])
  }

  /** `m` is given quality `q`, in thousandths: that of its deciding range, or 0 if none matches. */
  ghost predicate HasQuality(ranges: seq<Range>, m: Media, q: nat) {
    if exists k: nat :: Decides(ranges, m, k) then exists k: nat :: Decides(ranges, m, k) && ranges[k].quality == q
    else q == 0 && forall j :: 0 <= j < |ranges| ==> !Matches(ranges[j], m)
  }

  /** A media type's quality is determined. */
  lemma QualityUnique(ranges: seq<Range>, m: Media, p: nat, q: nat)
    requires Numbered(ranges) && HasQuality(ranges, m, p) && HasQuality(ranges, m, q)
    ensures p == q
  {
    if exists k: nat :: Decides(ranges, m, k) {
      var j: nat :| Decides(ranges, m, j) && ranges[j].quality == p;
      var k: nat :| Decides(ranges, m, k) && ranges[k].quality == q;
      assert !Precedes(ranges[j], ranges[k]) && !Precedes(ranges[k], ranges[j]);
      assert ranges[j].order == j && ranges[k].order == k;
    }
  }

  /** The chosen representation: the first of those with the greatest positive quality. */
  ghost predicate Chosen(ranges: seq<Range>, declared: seq<Media>, i: nat) {
    && i < |declared|
    && exists q: nat :: q > 0 && HasQuality(ranges, declared[i], q) && BestFrom(ranges, declared, i, q)
  }

  ghost predicate BestFrom(ranges: seq<Range>, declared: seq<Media>, i: nat, q: nat) {
    && (forall j, p: nat :: 0 <= j < |declared| && HasQuality(ranges, declared[j], p) ==> p <= q)
    && (forall j, p: nat :: 0 <= j < i && j < |declared| && HasQuality(ranges, declared[j], p) ==> p < q)
  }

  /** No declared representation has a positive quality. */
  ghost predicate NonePositive(ranges: seq<Range>, declared: seq<Media>) {
    forall j, p: nat :: 0 <= j < |declared| && HasQuality(ranges, declared[j], p) ==> p == 0
  }

  /** At most one representation is chosen. */
  lemma ChosenUnique(ranges: seq<Range>, declared: seq<Media>, i: nat, j: nat)
    requires Numbered(ranges) && Chosen(ranges, declared, i) && Chosen(ranges, declared, j)
    ensures i == j
  {
    var p: nat :| p > 0 && HasQuality(ranges, declared[i], p) && BestFrom(ranges, declared, i, p);
    var q: nat :| q > 0 && HasQuality(ranges, declared[j], q) && BestFrom(ranges, declared, j, q);
    assert p == q;
  }

  // ----- the loops ----------------------------------------------------------------------------

  /** Among the first `n` ranges, `best` decides; -1 if none matches. */
  predicate BestOf(ranges: seq<Range>, m: Media, n: nat, best: int)
    requires n <= |ranges|
  {
    if best == -1 then forall j :: 0 <= j < n ==> !Matches(ranges[j], m)
    else
      && 0 <= best < n && Matches(ranges[best], m)
      && forall j :: 0 <= j < n && Matches(ranges[j], m) ==> !Precedes(ranges[j], ranges[best])
  }

  lemma BestOfNext(ranges: seq<Range>, m: Media, n: nat, best: int)
    requires Numbered(ranges) && n < |ranges| && BestOf(ranges, m, n, best)
    ensures !Matches(ranges[n], m) ==> BestOf(ranges, m, n + 1, best)
    ensures Matches(ranges[n], m) && (best == -1 || Precedes(ranges[n], ranges[best])) ==> BestOf(ranges, m, n + 1, n)
    ensures Matches(ranges[n], m) && best != -1 && !Precedes(ranges[n], ranges[best]) ==> BestOf(ranges, m, n + 1, best)
  {
  }

  /** The inner loop of `selectRepresentation`; -1 when no range matches. */
  method QualityFor(ranges: seq<Range>, m: Media) returns (quality: int)
    requires Numbered(ranges)
    ensures quality == -1 ==> HasQuality(ranges, m, 0)
    ensures quality != -1 ==> quality >= 0 && HasQuality(ranges, m, quality)
  {
    var specificity: int, parameterCount: int, rangeOrder: int := -1, -1, |ranges|;
    quality := -1;
    ghost var best := -1;
    for n := 0 to |ranges|
      invariant -1 <= best < n && BestOf(ranges, m, n, best)
      invariant best == -1 ==> quality == -1 && specificity == -1 && parameterCount == -1 && rangeOrder == |ranges|
      invariant best != -1 ==> quality == ranges[best].quality && specificity == ranges[best].specificity
                               && parameterCount == ranges[best].parameterCount && rangeOrder == ranges[best].order
    {
      var candidate := ranges[n];
      BestOfNext(ranges, m, n, best);
      if Matches(candidate, m) {
        if candidate.specificity > specificity
           || (candidate.specificity == specificity && candidate.parameterCount > parameterCount)
           || (candidate.specificity == specificity && candidate.parameterCount == parameterCount
               && candidate.order < rangeOrder) {
          quality, specificity, parameterCount, rangeOrder :=
            candidate.quality, candidate.specificity, candidate.parameterCount, candidate.order;
          best := n;
        }
      }
    }
    if best == -1 {
      assert forall k: nat :: !Decides(ranges, m, k);
    } else {
      assert Decides(ranges, m, best);
    }
  }

  /** Among the first `n` representations, `best` is chosen with quality `q`; -1 and -1 if none is positive. */
  ghost predicate ChosenOf(ranges: seq<Range>, declared: seq<Media>, n: nat, best: int, q: int)
    requires n <= |declared|
  {
    if best == -1 then q == -1 && forall j, p: nat :: 0 <= j < n && HasQuality(ranges, declared[j], p) ==> p == 0
    else
      && 0 <= best < n && q > 0 && HasQuality(ranges, declared[best], q)
      && (forall j, p: nat :: 0 <= j < n && HasQuality(ranges, declared[j], p) ==> p <= q)
      && (forall j, p: nat :: 0 <= j < best && HasQuality(ranges, declared[j], p) ==> p < q)
  }

  /** One more representation of better quality. */
  lemma BetterNext(ranges: seq<Range>, declared: seq<Media>, n: nat, best: int, q: int, quality: nat)
    requires n < |declared| && ChosenOf(ranges, declared, n, best, q) && quality > 0 && quality > q
    requires HasQuality(ranges, declared[n], quality)
    requires forall p: nat :: HasQuality(ranges, declared[n], p) ==> p == quality
    ensures ChosenOf(ranges, declared, n + 1, n, quality)
  {
  }

  /** One more representation of no better quality. */
  lemma WorseNext(ranges: seq<Range>, declared: seq<Media>, n: nat, best: int, q: int, quality: nat)
    requires n < |declared| && ChosenOf(ranges, declared, n, best, q) && !(quality > 0 && quality > q)
    requires forall p: nat :: HasQuality(ranges, declared[n], p) ==> p == quality
    ensures ChosenOf(ranges, declared, n + 1, best, q)
  {
  }

  lemma ChosenOfNext(ranges: seq<Range>, declared: seq<Media>, n: nat, best: int, q: int, quality: nat)
    requires Numbered(ranges) && n < |declared| && ChosenOf(ranges, declared, n, best, q)
             && HasQuality(ranges, declared[n], quality)
    ensures if quality > 0 && quality > q then ChosenOf(ranges, declared, n + 1, n, quality)
            else ChosenOf(ranges, declared, n + 1, best, q)
  {
    forall p: nat | HasQuality(ranges, declared[n], p) ensures p == quality {
      QualityUnique(ranges, declared[n], p, quality);
    }
    if quality > 0 && quality > q {
      BetterNext(ranges, declared, n, best, q, quality);
    } else {
      WorseNext(ranges, declared, n, best, q, quality);
    }
  }

  /**
   The loops of `selectRepresentation`: the index chosen, which is the first
   declared representation of the greatest positive quality, or -1 exactly when
   none is positive.
   */
  method SelectIndex(ranges: seq<Range>, declared: seq<Media>) returns (bestIndex: int)
    requires Numbered(ranges)
    ensures bestIndex == -1 <==> NonePositive(ranges, declared)
    ensures bestIndex != -1 ==> bestIndex >= 0 && Chosen(ranges, declared, bestIndex)
  {
    var bestQuality := -1;
    bestIndex := -1;
    for index := 0 to |declared|
      invariant -1 <= bestIndex < index && ChosenOf(ranges, declared, index, bestIndex, bestQuality)
    {
      var quality := QualityFor(ranges, declared[index]);
      ChosenOfNext(ranges, declared, index, bestIndex, bestQuality, if quality == -1 then 0 else quality);
      if quality > 0 && quality > bestQuality { bestIndex, bestQuality := index, quality; }
    }
    if bestIndex != -1 {
      assert BestFrom(ranges, declared, bestIndex, bestQuality);
      assert HasQuality(ranges, declared[bestIndex], bestQuality);
    }
  }

  // ----- quality values -----------------------------------------------------------------------

  predicate IsDigit(c: char) {
    '0' <= c <= '9'
  }

  function DigitValue(c: char): nat
    requires IsDigit(c)
  {
    c as nat - '0' as nat
  }

  /** `qualityPattern`: 0 with up to three decimals, or 1 with up to three zeros. */
  predicate QualityOk(s: string) {
    && 1 <= |s| <= 5 && (s[0] == '0' || s[0] == '1')
    && (|s| >= 2 ==> s[1] == '.')
    && (forall i :: 2 <= i < |s| ==> IsDigit(s[i]) && (s[0] == '1' ==> s[i] == '0'))
  }

  /** A quality value is a bare 0 or 1, or has up to three digits after a point: any after 0, zeros after 1. */
  lemma QualityIs(s: string)
    ensures QualityOk(s) <==>
              || s == "0" || s == "1"
              || exists digits :: |digits| <= 3 && (forall i :: 0 <= i < |digits| ==> IsDigit(digits[i]))
                   && (s == "0." + digits || (s == "1." + digits && forall i :: 0 <= i < |digits| ==> digits[i] == '0'))
  {
    if QualityOk(s) && |s| >= 2 {
      var digits := s[2..];
      assert s == [s[0], '.'] + digits;
    }
  }

  function Decimal(s: string, i: nat): nat
    requires QualityOk(s)
  {
    if i < |s| && i >= 2 then DigitValue(s[i]) else 0
  }

  /** The quality in thousandths. */
  function Thousandths(s: string): nat
    requires QualityOk(s)
  {
    1000 * DigitValue(s[0]) + 100 * Decimal(s, 2) + 10 * Decimal(s, 3) + Decimal(s, 4)
  }

  /** The number a decimal numeral denotes, digit by digit. */
  function Fraction(s: string, i: nat): real
    requires i <= |s| && forall k :: i <= k < |s| ==> IsDigit(s[k])
    decreases |s| - i
  {
    if i == |s| then 0.0 else (DigitValue(s[i]) as real + Fraction(s, i + 1)) / 10.0
  }

  function Denotes(s: string): real
    requires QualityOk(s)
  {
    DigitValue(s[0]) as real + (if |s| >= 2 then Fraction(s, 2) else 0.0)
  }

  /** Counting thousandths loses nothing: they are the number denoted, between 0 and 1. */
  lemma ThousandthsExact(s: string)
    requires QualityOk(s)
    ensures Denotes(s) * 1000.0 == Thousandths(s) as real && 0 <= Thousandths(s) <= 1000
  {
    if |s| >= 3 {
      assert Fraction(s, 2) == (DigitValue(s[2]) as real + Fraction(s, 3)) / 10.0;
      if |s| >= 4 {
        assert Fraction(s, 3) == (DigitValue(s[3]) as real + Fraction(s, 4)) / 10.0;
        if |s| == 5 { assert Fraction(s, 5) == 0.0; }
      }
    }
  }

  // ----- parsing ------------------------------------------------------------------------------

  /** The library calls of the parser: `mime.ParseMediaType`, and the token test for extension names. */
  datatype Library = Library(mediaType: string -> Option<(string, map<string, string>)>, token: string -> bool)

  function NameOf(segment: string): string {
    TrimSpace(segment[..IndexFrom(segment, '=', 0)])
  }

  predicate HasValue(segment: string) {
    IndexFrom(segment, '=', 0) < |segment|
  }

  function RawValue(segment: string): string {
    if HasValue(segment) then TrimSpace(segment[IndexFrom(segment, '=', 0) + 1..]) else ""
  }

  /** A text that white space may stand around without becoming part of it. */
  predicate Bare(s: string) {
    s != "" && !IsSpace(s[0]) && !IsSpace(s[|s| - 1])
  }

  lemma BlankFree(s: string)
    requires Blank(s)
    ensures Free(s, '=')
  {
  }

  /** A parameter is its name, an equals sign and its value, with any white space around either. */
  lemma ParameterIs(a: string, name: string, b: string, c: string, value: string, d: string)
    requires Blank(a) && Blank(b) && Blank(c) && Blank(d) && Bare(name) && Free(name, '=') && Bare(value)
    ensures var segment := (a + name + b) + "=" + (c + value + d);
            NameOf(segment) == name && HasValue(segment) && RawValue(segment) == value
  {
    var before, after := a + name + b, c + value + d;
    var segment := before + "=" + after;
    BlankFree(a);
    BlankFree(b);
    IndexFromIs(segment, '=', 0, |before|);
    assert segment[..|before|] == before && segment[|before| + 1..] == after;
    TrimAround(a, name, b);
    TrimAround(c, value, d);
  }

  /** Without an equals sign it is a name with no value. */
  lemma FlagIs(a: string, name: string, b: string)
    requires Blank(a) && Blank(b) && Bare(name) && Free(name, '=')
    ensures NameOf(a + name + b) == name && !HasValue(a + name + b)
  {
    var segment := a + name + b;
    BlankFree(a);
    BlankFree(b);
    IndexFromIs(segment, '=', 0, |segment|);
    assert segment[..|segment|] == segment;
    TrimAround(a, name, b);
  }

  predicate IsQ(segment: string) {
    NameOf(segment) == "q" || NameOf(segment) == "Q"
  }

  /** `validateAcceptExtension`. */
  predicate ExtensionOk(lib: Library, segment: string) {
    && lib.token(NameOf(segment)) && !IsQ(segment)
    && (HasValue(segment) ==> RawValue(segment) != "" && lib.mediaType("application/octet-stream;" + segment).Some?)
  }

  /** `k` is the position of the first quality parameter, or the number of segments. */
  predicate FirstQ(segments: seq<string>, k: nat) {
    1 <= k <= |segments| && (forall j :: 1 <= j < k ==> !IsQ(segments[j])) && (k < |segments| ==> IsQ(segments[k]))
  }

  predicate WeightOk(lib: Library, segments: seq<string>, k: nat) {
    k < |segments| ==>
      HasValue(segments[k]) && QualityOk(RawValue(segments[k]))
        && forall j :: k < j < |segments| ==> ExtensionOk(lib, segments[j])
  }

  function WeightOf(segments: seq<string>, k: nat): nat {
    if k < |segments| && QualityOk(RawValue(segments[k])) then Thousandths(RawValue(segments[k])) else 1000
  }

  /** The range that a media type with its parameters denotes. */
  function RangeOf(media: (string, map<string, string>), quality: nat, order: nat): Option<Range> {
    var slash := IndexFrom(media.0, '/', 0);
    if slash == |media.0| then None
    else
      var typeName, subtype := media.0[..slash], media.0[slash + 1..];
      if typeName == "" || subtype == "" || (typeName == "*" && subtype != "*") then None
      else
        var specificity := if typeName == "*" then 0 else if subtype == "*" then 1 else 2;
        Some(Range(typeName, subtype, media.1, quality, specificity, |media.1|, order))
  }

  /** How many wildcards the range holds. */
  function Stars(r: Range): nat {
    (if r.typeName == "*" then 1 else 0) + (if r.subtype == "*" then 1 else 0)
  }

  /**
   A media type with parameters denotes exactly the range whose two names, neither
   empty, make up the type around its first slash; `*` as type needs `*` as subtype.
   */
  lemma RangeOfIff(media: (string, map<string, string>), quality: nat, order: nat, r: Range)
    ensures RangeOf(media, quality, order) == Some(r) <==>
              && media.0 == r.typeName + "/" + r.subtype && Free(r.typeName, '/') && r.typeName != "" && r.subtype != ""
              && (r.typeName == "*" ==> r.subtype == "*")
              && r.parameters == media.1 && r.parameterCount == |media.1| && r.quality == quality && r.order == order
              && r.specificity == 2 - Stars(r)
  {
    var slash := IndexFrom(media.0, '/', 0);
    if media.0 == r.typeName + "/" + r.subtype && Free(r.typeName, '/') {
      IndexFromIs(media.0, '/', 0, |r.typeName|);
      assert media.0[..slash] == r.typeName && media.0[slash + 1..] == r.subtype;
    }
    if slash < |media.0| {
      assert media.0 == media.0[..slash] + "/" + media.0[slash + 1..];
      assert Free(media.0[..slash], '/');
    }
  }

  /** Item `order` of the header denotes the range `r`. */
  ghost predicate ItemIs(lib: Library, item: string, order: nat, r: Range) {
    exists segments, k: nat ::
      && IsSplit(TrimSpace(item), ';', segments) && FirstQ(segments, k) && WeightOk(lib, segments, k)
      && lib.mediaType(Join(segments[..k], ';')).Some?
      && RangeOf(lib.mediaType(Join(segments[..k], ';')).value, WeightOf(segments, k), order) == Some(r)
  }

  /** The thousandths that the weight at `k` stands for; without a weight it is one. */
  predicate WeightIs(segments: seq<string>, k: nat, quality: nat) {
    if k >= |segments| then quality == 1000
    else QualityOk(RawValue(segments[k])) && quality as real == Denotes(RawValue(segments[k])) * 1000.0
  }

  /** What a range has from its item: the names and parameters before the weight, the weight and the place. */
  lemma ItemMeans(lib: Library, item: string, order: nat, r: Range) returns (segments: seq<string>, k: nat)
    requires ItemIs(lib, item, order, r)
    ensures IsSplit(TrimSpace(item), ';', segments) && FirstQ(segments, k) && WeightIs(segments, k, r.quality)
    ensures lib.mediaType(Join(segments[..k], ';')) == Some((r.typeName + "/" + r.subtype, r.parameters))
    ensures Free(r.typeName, '/') && r.typeName != "" && r.subtype != "" && (r.typeName == "*" ==> r.subtype == "*")
    ensures forall j :: k < j < |segments| ==>
              && lib.token(NameOf(segments[j])) && NameOf(segments[j]) !in {"q", "Q"}
              && (HasValue(segments[j]) ==> RawValue(segments[j]) != "")
    ensures r.order == order && r.parameterCount == |r.parameters| && r.specificity == 2 - Stars(r)
  {
    segments, k :|
      && IsSplit(TrimSpace(item), ';', segments) && FirstQ(segments, k) && WeightOk(lib, segments, k)
      && lib.mediaType(Join(segments[..k], ';')).Some?
      && RangeOf(lib.mediaType(Join(segments[..k], ';')).value, WeightOf(segments, k), order) == Some(r);
    RangeOfIff(lib.mediaType(Join(segments[..k], ';')).value, WeightOf(segments, k), order, r);
    if k < |segments| { ThousandthsExact(RawValue(segments[k])); }
  }

  method FindQ(segments: seq<string>) returns (k: nat)
    requires segments != []
    ensures FirstQ(segments, k)
  {
    k := 1;
    while k < |segments|
      invariant 1 <= k <= |segments| && forall j :: 1 <= j < k ==> !IsQ(segments[j])
    {
      if IsQ(segments[k]) { return; }
      k := k + 1;
    }
  }

  method CheckWeight(lib: Library, segments: seq<string>, k: nat) returns (ok: bool)
    ensures ok <==> WeightOk(lib, segments, k)
  {
    if k >= |segments| { return true; }
    if !HasValue(segments[k]) || !QualityOk(RawValue(segments[k])) { return false; }
    for j := k + 1 to |segments|
      invariant forall i :: k < i < j ==> ExtensionOk(lib, segments[i])
    {
      if !ExtensionOk(lib, segments[j]) { return false; }
    }
    ok := true;
  }

  lemma ItemDetermined(lib: Library, item: string, order: nat, segments: seq<string>, k: nat, r: Range)
    requires IsSplit(TrimSpace(item), ';', segments) && FirstQ(segments, k)
    ensures ItemIs(lib, item, order, r) <==>
              && WeightOk(lib, segments, k) && lib.mediaType(Join(segments[..k], ';')).Some?
              && RangeOf(lib.mediaType(Join(segments[..k], ';')).value, WeightOf(segments, k), order) == Some(r)
  {
    if ItemIs(lib, item, order, r) {
      var segments', k': nat :|
        && IsSplit(TrimSpace(item), ';', segments') && FirstQ(segments', k') && WeightOk(lib, segments', k')
        && lib.mediaType(Join(segments'[..k'], ';')).Some?
        && RangeOf(lib.mediaType(Join(segments'[..k'], ';')).value, WeightOf(segments', k'), order) == Some(r);
      SplitIff(TrimSpace(item), ';', segments);
      SplitIff(TrimSpace(item), ';', segments');
      assert k == k';
    }
  }

  /** One round of `parseAccept`. */
  method ParseItem(lib: Library, item: string, order: nat) returns (r: Option<Range>)
    ensures r.Some? ==> ItemIs(lib, item, order, r.value) && r.value.order == order && r.value.specificity >= 0
    ensures r.None? ==> forall v :: !ItemIs(lib, item, order, v)
  {
    var segments := SplitHeaderValue(TrimSpace(item), ';');
    if segments.Err? { return None; }
    var k := FindQ(segments.value);
    forall v ensures ItemIs(lib, item, order, v) <==>
        && WeightOk(lib, segments.value, k) && lib.mediaType(Join(segments.value[..k], ';')).Some?
        && RangeOf(lib.mediaType(Join(segments.value[..k], ';')).value, WeightOf(segments.value, k), order) == Some(v)
    {
      ItemDetermined(lib, item, order, segments.value, k, v);
    }
    var ok := CheckWeight(lib, segments.value, k);
    if !ok { return None; }
    var media := lib.mediaType(Join(segments.value[..k], ';'));
    if media.None? { return None; }
    r := RangeOf(media.value, WeightOf(segments.value, k), order);
  }

  const MAX_ACCEPT_BYTES := 8192
  const MAX_ACCEPT_RANGES := 64

  /** The header denotes the ranges, item by item. */
  ghost predicate HeaderIs(lib: Library, header: string, ranges: seq<Range>) {
    exists items :: IsSplit(header, ',', items) && |items| == |ranges| <= MAX_ACCEPT_RANGES
      && ItemsAre(lib, items, ranges)
  }

  ghost predicate ItemsAre(lib: Library, items: seq<string>, ranges: seq<Range>) {
    |ranges| <= |items| && forall i :: 0 <= i < |ranges| ==> ItemIs(lib, items[i], i, ranges[i])
  }

  lemma NotHeader(lib: Library, header: string, items: seq<string>, i: nat)
    requires IsSplit(header, ',', items) && i < |items| && forall v :: !ItemIs(lib, items[i], i, v)
    ensures forall ranges :: !HeaderIs(lib, header, ranges)
  {
    forall ranges ensures !HeaderIs(lib, header, ranges) {
      forall others | IsSplit(header, ',', others) && |others| == |ranges| <= MAX_ACCEPT_RANGES
        ensures !ItemsAre(lib, others, ranges)
      {
        SplitIff(header, ',', items);
        SplitIff(header, ',', others);
        assert !ItemIs(lib, items[i], i, ranges[i]);
      }
    }
  }

  lemma ItemUnique(lib: Library, item: string, order: nat, a: Range, b: Range)
    requires ItemIs(lib, item, order, a) && ItemIs(lib, item, order, b)
    ensures a == b
  {
    var segments, k: nat :|
      && IsSplit(TrimSpace(item), ';', segments) && FirstQ(segments, k) && WeightOk(lib, segments, k)
      && lib.mediaType(Join(segments[..k], ';')).Some?
      && RangeOf(lib.mediaType(Join(segments[..k], ';')).value, WeightOf(segments, k), order) == Some(a);
    ItemDetermined(lib, item, order, segments, k, b);
  }

  /** A header denotes at most one list of ranges. */
  lemma HeaderUnique(lib: Library, header: string, a: seq<Range>, b: seq<Range>)
    requires HeaderIs(lib, header, a) && HeaderIs(lib, header, b)
    ensures a == b
  {
    var x :| IsSplit(header, ',', x) && |x| == |a| <= MAX_ACCEPT_RANGES && ItemsAre(lib, x, a);
    var y :| IsSplit(header, ',', y) && |y| == |b| <= MAX_ACCEPT_RANGES && ItemsAre(lib, y, b);
    SplitIff(header, ',', x);
    SplitIff(header, ',', y);
    forall i | 0 <= i < |a| ensures a[i] == b[i] { ItemUnique(lib, x[i], i, a[i], b[i]); }
  }

  /** `a` comes before `b` in a list: fewer wildcards, then more parameters, then the earlier place. */
  predicate Outranks(ranges: seq<Range>, i: nat, j: nat)
    requires i < |ranges| && j < |ranges|
  {
    var a, b := ranges[i], ranges[j];
    || Stars(a) < Stars(b)
    || (Stars(a) == Stars(b) && |a.parameters| > |b.parameters|)
    || (Stars(a) == Stars(b) && |a.parameters| == |b.parameters| && i < j)
  }

  lemma RangeMeans(lib: Library, header: string, ranges: seq<Range>, i: nat)
    requires HeaderIs(lib, header, ranges) && i < |ranges|
    ensures var r := ranges[i];
            r.order == i && r.parameterCount == |r.parameters| && r.specificity == 2 - Stars(r)
  {
    var items :| IsSplit(header, ',', items) && |items| == |ranges| <= MAX_ACCEPT_RANGES
                 && ItemsAre(lib, items, ranges);
    var segments, k := ItemMeans(lib, items[i], i, ranges[i]);
  }

  /** The ranges of a header take precedence by their wildcards, parameters and places alone. */
  lemma PrecedenceIs(lib: Library, header: string, ranges: seq<Range>, i: nat, j: nat)
    requires HeaderIs(lib, header, ranges) && i < |ranges| && j < |ranges|
    ensures Precedes(ranges[i], ranges[j]) <==> Outranks(ranges, i, j)
  {
    RangeMeans(lib, header, ranges, i);
    RangeMeans(lib, header, ranges, j);
  }

  /** Precedence in the list is by wildcards, parameters and places. */
  predicate Ranked(ranges: seq<Range>) {
    forall i, j :: 0 <= i < |ranges| && 0 <= j < |ranges| ==>
        (Precedes(ranges[i], ranges[j]) <==> Outranks(ranges, i, j))
  }

  lemma HeaderRanked(lib: Library, header: string, ranges: seq<Range>)
    requires HeaderIs(lib, header, ranges)
    ensures Ranked(ranges)
  {
    forall i, j | 0 <= i < |ranges| && 0 <= j < |ranges|
      ensures Precedes(ranges[i], ranges[j]) <==> Outranks(ranges, i, j)
    {
      PrecedenceIs(lib, header, ranges, i, j);
    }
  }

  /** The range that decides a media type's quality has no more wildcards than any other that matches it. */
  ghost predicate FewestStars(ranges: seq<Range>, m: Media) {
    forall k: nat, j :: Decides(ranges, m, k) && 0 <= j < |ranges| && Matches(ranges[j], m) ==>
        Stars(ranges[k]) <= Stars(ranges[j])
  }

  /** So a range without wildcards that matches keeps every wildcard range from deciding. */
  lemma ExactDecides(lib: Library, header: string, ranges: seq<Range>, m: Media)
    requires HeaderIs(lib, header, ranges)
    ensures FewestStars(ranges, m)
  {
    forall k: nat, j | Decides(ranges, m, k) && 0 <= j < |ranges| && Matches(ranges[j], m)
      ensures Stars(ranges[k]) <= Stars(ranges[j])
    {
      PrecedenceIs(lib, header, ranges, j, k);
    }
  }

  /** A type that every matching range without wildcards excludes is excluded, whatever the wildcard ranges allow. */
  lemma ExcludedStays(lib: Library, header: string, ranges: seq<Range>, declared: seq<Media>, i: nat, j: nat)
    requires HeaderIs(lib, header, ranges) && Numbered(ranges) && i < |declared|
    requires j < |ranges| && Matches(ranges[j], declared[i]) && Stars(ranges[j]) == 0
    requires forall k :: 0 <= k < |ranges| && Matches(ranges[k], declared[i]) && Stars(ranges[k]) == 0 ==>
                           ranges[k].quality == 0
    ensures !Chosen(ranges, declared, i)
  {
    ExactDecides(lib, header, ranges, declared[i]);
    forall q: nat | HasQuality(ranges, declared[i], q) ensures q == 0 {
    }
  }

  /** `parseAccept`. */
  method ParseAccept(lib: Library, header: string) returns (r: Option<seq<Range>>)
    ensures r.Some? ==> HeaderIs(lib, header, r.value) && Numbered(r.value)
    ensures r.Some? ==> Ranked(r.value)
    ensures r.None? ==> forall ranges :: !HeaderIs(lib, header, ranges)
  {
    var items := SplitHeaderValue(header, ',');
    if items.Err? { return None; }
    if |items.value| > MAX_ACCEPT_RANGES {
      TooMany(lib, header, items.value);
      return None;
    }
    var ranges: seq<Range> := [];
    for i := 0 to |items.value|
      invariant |ranges| == i && Numbered(ranges) && ItemsAre(lib, items.value, ranges)
    {
      var next := ParseItem(lib, items.value[i], i);
      if next.None? {
        NotHeader(lib, header, items.value, i);
        return None;
      }
      ranges := ranges + [next.value];
    }
    HeaderRanked(lib, header, ranges);
    r := Some(ranges);
  }

  lemma TooMany(lib: Library, header: string, items: seq<string>)
    requires IsSplit(header, ',', items) && |items| > MAX_ACCEPT_RANGES
    ensures forall ranges :: !HeaderIs(lib, header, ranges)
  {
    forall others | IsSplit(header, ',', others) ensures |others| > MAX_ACCEPT_RANGES {
      SplitIff(header, ',', items);
      SplitIff(header, ',', others);
    }
  }

  /** The header is acceptable and denotes ranges. */
  ghost predicate Negotiates(lib: Library, header: string, ranges: seq<Range>) {
    |header| <= MAX_ACCEPT_BYTES && HeaderIs(lib, header, ranges)
  }

  /**
   `selectRepresentation`: without negotiation or header the first declared type;
   else the first declared type of the greatest positive quality, which the range
   with the fewest wildcards decides, and nothing exactly when the header does not
   parse or no declared type is acceptable.
   */
  method SelectRepresentation(lib: Library, negotiate: bool, header: string, declared: seq<string>, media: seq<Media>)
    returns (r: Option<string>)
    requires |declared| == |media| > 0
    ensures !negotiate || Blank(header) ==> r == Some(declared[0])
    ensures negotiate && !Blank(header) && r.Some? ==>
              exists ranges, i: nat :: Negotiates(lib, header, ranges) && Chosen(ranges, media, i)
                && FewestStars(ranges, media[i]) && r.value == declared[i]
    ensures negotiate && !Blank(header) && r.None? ==>
              (forall ranges :: !Negotiates(lib, header, ranges))
                || (exists ranges :: Negotiates(lib, header, ranges) && NonePositive(ranges, media))
  {
    var blank := IsBlank(header);
    if !negotiate || blank { return Some(declared[0]); }
    if |header| > MAX_ACCEPT_BYTES { return None; }
    var ranges := ParseAccept(lib, header);
    if ranges.None? { return None; }
    assert Negotiates(lib, header, ranges.value);
    var index := SelectIndex(ranges.value, media);
    if index == -1 { return None; }
    assert Chosen(ranges.value, media, index);
    ExactDecides(lib, header, ranges.value, media[index]);
    r := Some(declared[index]);
  }
}
