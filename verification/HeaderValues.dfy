/** Splitting a header value at delimiters outside quoted strings (section 5.6.4 of RFC 9110). */
module HeaderValues {
  import opened Wrappers
  import opened Text

  // ----- quoting ------------------------------------------------------------------------------

  /** Outside a quoted string, inside one, or inside one just after a backslash. */
  datatype Quoting = Outside | Inside | Escaped

  function Read(q: Quoting, c: char): Quoting {
    match q
    case Escaped => Inside
    case Inside => if c == '\\' then Escaped else if c == '"' then Outside else Inside
    case Outside => if c == '"' then Inside else Outside
  }

  /** The state after reading `s[i..j]`. */
  function ReadAll(s: string, i: nat, j: nat, q: Quoting): Quoting
    requires i <= j <= |s|
    decreases j - i
  {
    if i == j then q else ReadAll(s, i + 1, j, Read(q, s[i]))
  }

  /** Every quoted string of `s` is closed. */
  predicate Balanced(s: string) {
    ReadAll(s, 0, |s|, Outside) == Outside
  }

  predicate IsSpace(c: char) {
    '\t' <= c <= '\r' || c == ' ' || c == '\U{0085}' || c == '\U{00A0}' || c == '\U{1680}'
      || '\U{2000}' <= c <= '\U{200A}'
    || c == '\U{2028}' || c == '\U{2029}' || c == '\U{202F}' || c == '\U{205F}' || c == '\U{3000}'
  }

  predicate Blank(s: string) {
    forall i :: 0 <= i < |s| ==> IsSpace(s[i])
  }

  /** `strings.TrimSpace`. */
  function TrimSpace(s: string): string {
    if s != "" && IsSpace(s[0]) then TrimSpace(s[1..])
    else if s != "" && IsSpace(s[|s| - 1]) then TrimSpace(s[..|s| - 1])
    else s
  }

  /** A delimiter that has no meaning for quoting. */
  predicate Delimiter(d: char) {
    d != '"' && d != '\\'
  }

  // ----- cutting ------------------------------------------------------------------------------

  /** The first position from `i` on where `d` stands outside quoted strings, or the end. */
  function TopLevel(s: string, d: char, i: nat, q: Quoting): (e: nat)
    requires i <= |s|
    ensures i <= e <= |s|
    decreases |s| - i
  {
    if i == |s| then i
    else if q == Outside && s[i] == d then i
    else TopLevel(s, d, i + 1, Read(q, s[i]))
  }

  function CutFrom(s: string, d: char, start: nat): (pieces: seq<string>)
    requires start <= |s|
    ensures pieces != []
    decreases |s| - start
  {
    var e := TopLevel(s, d, start, Outside);
    if e == |s| then [s[start..]] else [s[start..e]] + CutFrom(s, d, e + 1)
  }

  /** The value cut at every delimiter outside quoted strings. */
  function Cut(s: string, d: char): (pieces: seq<string>)
    ensures pieces != []
  {
    CutFrom(s, d, 0)
  }

  predicate NoneBlank(pieces: seq<string>) {
    forall i :: 0 <= i < |pieces| ==> !Blank(pieces[i])
  }

  predicate AllBalanced(pieces: seq<string>) {
    forall i :: 0 <= i < |pieces| ==> Balanced(pieces[i])
  }

  /** `d` stands nowhere in `s` outside quoted strings. */
  predicate Whole(s: string, d: char) {
    TopLevel(s, d, 0, Outside) == |s|
  }

  /**
   What a split is: non-blank pieces with closed quoted strings, with the
   delimiter only inside quoted strings, that rejoin to the value.
   */
  predicate IsSplit(value: string, d: char, pieces: seq<string>) {
    && pieces != [] && Join(pieces, d) == value && NoneBlank(pieces) && AllBalanced(pieces)
    && forall i :: 0 <= i < |pieces| ==> Whole(pieces[i], d)
  }

  // ----- slices -------------------------------------------------------------------------------

  lemma {:induction false} ReadSlice(s: string, a: nat, b: nat, i: nat, j: nat, q: Quoting)
    requires a <= b <= |s| && i <= j <= b - a
    ensures ReadAll(s[a..b], i, j, q) == ReadAll(s, a + i, a + j, q)
    decreases j - i
  {
    if i < j { ReadSlice(s, a, b, i + 1, j, Read(q, s[a + i])); }
  }

  lemma {:induction false} ReadSplit(s: string, i: nat, k: nat, j: nat, q: Quoting)
    requires i <= k <= j <= |s|
    ensures ReadAll(s, i, j, q) == ReadAll(s, k, j, ReadAll(s, i, k, q))
    decreases k - i
  {
    if i < k { ReadSplit(s, i + 1, k, j, Read(q, s[i])); }
  }

  /** A top-level delimiter stands outside quoted strings, and no earlier one does. */
  lemma {:induction false} TopLevelOutside(s: string, d: char, i: nat, q: Quoting)
    requires i <= |s|
    ensures var e := TopLevel(s, d, i, q); e < |s| ==> s[e] == d && ReadAll(s, i, e, q) == Outside
    decreases |s| - i
  {
    if i < |s| && !(q == Outside && s[i] == d) { TopLevelOutside(s, d, i + 1, Read(q, s[i])); }
  }

  /** Within the first piece there is no top-level delimiter. */
  lemma {:induction false} TopLevelSlice(s: string, d: char, a: nat, b: nat, i: nat, q: Quoting)
    requires a <= b <= |s| && i <= b - a && b <= TopLevel(s, d, a + i, q)
    ensures TopLevel(s[a..b], d, i, q) == b - a
    decreases b - a - i
  {
    if i < b - a { TopLevelSlice(s, d, a, b, i + 1, Read(q, s[a + i])); }
  }

  /** The converse: a piece without one, ending outside quoted strings before `d` or at the end. */
  lemma {:induction false} TopLevelIs(s: string, d: char, a: nat, b: nat, i: nat, q: Quoting)
    requires Delimiter(d) && a <= b <= |s| && i <= b - a && TopLevel(s[a..b], d, i, q) == b - a
    requires ReadAll(s[a..b], i, b - a, q) == Outside && (b < |s| ==> s[b] == d)
    ensures TopLevel(s, d, a + i, q) == b
    decreases b - a - i
  {
    if i < b - a { TopLevelIs(s, d, a, b, i + 1, Read(q, s[a + i])); }
  }

  // ----- a split is the cut -------------------------------------------------------------------

  /** The pieces rejoin to `s[start..]`, each is whole, and all but the last are balanced. */
  predicate CutOk(s: string, d: char, start: nat, pieces: seq<string>)
    requires start <= |s|
  {
    && pieces != [] && Join(pieces, d) == s[start..]
    && (forall i :: 0 <= i < |pieces| ==> Whole(pieces[i], d))
    && (forall i :: 0 <= i < |pieces| - 1 ==> Balanced(pieces[i]))
    && (Balanced(pieces[|pieces| - 1]) <==> ReadAll(s, start, |s|, Outside) == Outside)
  }

  /** One more piece in front. */
  lemma CutMore(s: string, d: char, start: nat, e: nat, rest: seq<string>)
    requires Delimiter(d) && start <= e < |s| && s[e] == d && ReadAll(s, start, e, Outside) == Outside
    requires Whole(s[start..e], d) && Balanced(s[start..e]) && CutOk(s, d, e + 1, rest)
    ensures CutOk(s, d, start, [s[start..e]] + rest)
  {
    JoinCons(s[start..e], rest, d);
    CutAt(s, start, e);
    ReadSplit(s, start, e, |s|, Outside);
    var pieces := [s[start..e]] + rest;
    assert pieces[|pieces| - 1] == rest[|rest| - 1];
  }

  lemma {:induction false} CutPieces(s: string, d: char, start: nat)
    requires Delimiter(d) && start <= |s|
    ensures CutOk(s, d, start, CutFrom(s, d, start))
    decreases |s| - start
  {
    var e := TopLevel(s, d, start, Outside);
    TopLevelOutside(s, d, start, Outside);
    TopLevelSlice(s, d, start, e, 0, Outside);
    ReadSlice(s, start, e, 0, e - start, Outside);
    if e == |s| {
      assert s[start..] == s[start..e];
    } else {
      CutPieces(s, d, e + 1);
      CutMore(s, d, start, e, CutFrom(s, d, e + 1));
    }
  }

  lemma {:induction false} SplitIsCutFrom(s: string, d: char, pieces: seq<string>, start: nat)
    requires Delimiter(d) && start <= |s| && pieces != [] && s[start..] == Join(pieces, d) && AllBalanced(pieces)
    requires forall i :: 0 <= i < |pieces| ==> Whole(pieces[i], d)
    ensures pieces == CutFrom(s, d, start)
    decreases |pieces|
  {
    var e := start + |pieces[0]|;
    HeadOfJoin(s, pieces, d, start);
    assert Balanced(pieces[0]) && Whole(pieces[0], d);
    TopLevelIs(s, d, start, e, 0, Outside);
    if |pieces| > 1 {
      SplitIsCutFrom(s, d, pieces[1..], e + 1);
      assert pieces == [pieces[0]] + pieces[1..];
    } else {
      assert s[start..] == s[start..e];
    }
  }

  /** A value has at most one split, its cut; it has one when no piece is blank and every quoted string is closed. */
  lemma SplitIff(value: string, d: char, pieces: seq<string>)
    requires Delimiter(d)
    ensures IsSplit(value, d, pieces) <==> pieces == Cut(value, d) && NoneBlank(pieces) && Balanced(value)
  {
    assert value[0..] == value;
    CutPieces(value, d, 0);
    if IsSplit(value, d, pieces) {
      SplitIsCutFrom(value, d, pieces, 0);
      assert Balanced(pieces[|pieces| - 1]);
    }
  }

  // ----- the splitter -------------------------------------------------------------------------

  datatype SplitError = EmptyPiece | InvalidRange

  function QuotingOf(quoted: bool, escaped: bool): Quoting {
    if escaped then Escaped else if quoted then Inside else Outside
  }

  lemma CutStep(value: string, d: char, start: nat, index: nat, result: seq<string>)
    requires start <= index < |value| && value[index] == d && TopLevel(value, d, start, Outside) == index
    ensures result + CutFrom(value, d, start) == result + [value[start..index]] + CutFrom(value, d, index + 1)
    ensures (result + CutFrom(value, d, start))[|result|] == value[start..index]
  {
  }

  lemma CutLast(value: string, d: char, start: nat, result: seq<string>)
    requires start <= |value| && TopLevel(value, d, start, Outside) == |value|
    ensures result + CutFrom(value, d, start) == result + [value[start..]]
    ensures (result + CutFrom(value, d, start))[|result|] == value[start..]
  {
  }

  lemma BlankAt(pieces: seq<string>, i: nat)
    requires i < |pieces| && Blank(pieces[i])
    ensures !NoneBlank(pieces)
  {
  }

  method IsBlank(piece: string) returns (blank: bool)
    ensures blank <==> Blank(piece)
  {
    TrimBlank(piece);
    blank := TrimSpace(piece) == "";
  }

  /** The loop of `splitHeaderValue`, against the cut of the value. */
  method CutHeaderValue(value: string, d: char) returns (r: Result<seq<string>, SplitError>)
    requires Delimiter(d)
    ensures r.Ok? ==> r.value == Cut(value, d)
    ensures r.Ok? <==> NoneBlank(Cut(value, d)) && Balanced(value)
  {
    var result: seq<string> := [];
    var start, quoted, escaped := 0, false, false;
    for index := 0 to |value|
      invariant start <= index && (escaped ==> quoted)
      invariant Cut(value, d) == result + CutFrom(value, d, start) && NoneBlank(result)
      invariant TopLevel(value, d, start, Outside) == TopLevel(value, d, index, QuotingOf(quoted, escaped))
      invariant ReadAll(value, 0, |value|, Outside) == ReadAll(value, index, |value|, QuotingOf(quoted, escaped))
    {
      var character := value[index];
      if escaped {
        escaped := false;
      } else if quoted && character == '\\' {
        escaped := true;
      } else if character == '"' {
        quoted := !quoted;
      } else if character == d && !quoted {
        CutStep(value, d, start, index, result);
        var blank := IsBlank(value[start..index]);
        if blank {
          BlankAt(Cut(value, d), |result|);
          return Err(EmptyPiece);
        }
        result := result + [value[start..index]];
        start := index + 1;
      }
    }
    CutLast(value, d, start, result);
    var blank := IsBlank(value[start..]);
    if quoted || escaped || blank {
      if blank { BlankAt(Cut(value, d), |result|); }
      return Err(InvalidRange);
    }
    r := Ok(result + [value[start..]]);
  }

  /** `splitHeaderValue`: it succeeds exactly with the one split of the value, if there is one. */
  method SplitHeaderValue(value: string, d: char) returns (r: Result<seq<string>, SplitError>)
    requires Delimiter(d)
    ensures r.Ok? ==> IsSplit(value, d, r.value)
    ensures r.Err? ==> forall pieces :: !IsSplit(value, d, pieces)
  {
    r := CutHeaderValue(value, d);
    forall pieces
      ensures IsSplit(value, d, pieces) <==> pieces == Cut(value, d) && NoneBlank(pieces) && Balanced(value)
    {
      SplitIff(value, d, pieces);
    }
  }

  /** Trimming leaves nothing exactly of blank text. */
  lemma {:induction false} TrimBlank(s: string)
    ensures TrimSpace(s) == "" <==> Blank(s)
    decreases |s|
  {
    if s != "" && IsSpace(s[0]) {
      TrimBlank(s[1..]);
      assert forall i :: 1 <= i < |s| ==> s[i] == s[1..][i - 1];
      assert forall i :: 0 <= i < |s| - 1 ==> s[1..][i] == s[i + 1];
    } else if s != "" && IsSpace(s[|s| - 1]) {
      TrimBlank(s[..|s| - 1]);
      assert s[..|s| - 1][0] == s[0];
    }
  }

  /** Around `s[i..j]` there is only white space, and at its ends there is none. */
  predicate Bares(s: string, i: nat, j: nat) {
    && i <= j <= |s| && (forall k :: 0 <= k < i ==> IsSpace(s[k])) && (forall k :: j <= k < |s| ==> IsSpace(s[k]))
    && (i < j ==> !IsSpace(s[i]) && !IsSpace(s[j - 1]))
  }

  lemma BaresMore(s: string, i: nat, j: nat)
    requires s != "" && IsSpace(s[0]) && Bares(s[1..], i, j)
    ensures Bares(s, i + 1, j + 1)
  {
    var t := s[1..];
    assert forall k :: 1 <= k < |s| ==> s[k] == t[k - 1];
  }

  lemma BaresFewer(s: string, i: nat, j: nat)
    requires s != "" && IsSpace(s[|s| - 1]) && Bares(s[..|s| - 1], i, j)
    ensures Bares(s, i, j)
  {
    var t := s[..|s| - 1];
    assert forall k :: 0 <= k < |s| - 1 ==> s[k] == t[k];
  }

  /** Trimming takes off the white space on both sides, and all of it. */
  lemma {:induction false} TrimIs(s: string) returns (i: nat, j: nat)
    ensures Bares(s, i, j) && TrimSpace(s) == s[i..j]
    decreases |s|
  {
    var n := |s|;
    if s != "" && IsSpace(s[0]) {
      var a, b := TrimIs(s[1..]);
      BaresMore(s, a, b);
      SliceSlice(s, 1, n, a, b);
      i, j := a + 1, b + 1;
    } else if s != "" && IsSpace(s[n - 1]) {
      i, j := TrimIs(s[..n - 1]);
      BaresFewer(s, i, j);
      SliceSlice(s, 0, n - 1, i, j);
    } else {
      i, j := 0, n;
      assert s[0..n] == s;
    }
  }

  /** White space around a text that has none at its ends is trimmed off it. */
  lemma TrimAround(a: string, s: string, b: string)
    requires Blank(a) && Blank(b) && s != "" && !IsSpace(s[0]) && !IsSpace(s[|s| - 1])
    ensures TrimSpace(a + s + b) == s
  {
    var t := a + s + b;
    var i, j := TrimIs(t);
    assert t[|a|] == s[0] && t[|a| + |s| - 1] == s[|s| - 1];
    assert forall k :: 0 <= k < |a| ==> t[k] == a[k];
    assert forall k :: 0 <= k < |b| ==> t[|a| + |s| + k] == b[k];
    assert i == |a| && j == |a| + |s|;
    assert t[i..j] == s;
  }

  // ----- splitting a piece again --------------------------------------------------------------

  /** White space does not open or close a quoted string. */
  lemma {:induction false} TrimBalanced(s: string)
    requires Balanced(s)
    ensures Balanced(TrimSpace(s))
    decreases |s|
  {
    if s != "" && IsSpace(s[0]) {
      ReadSlice(s, 1, |s|, 0, |s| - 1, Outside);
      assert s[1..|s|] == s[1..] && Read(Outside, s[0]) == Outside;
      TrimBalanced(s[1..]);
    } else if s != "" && IsSpace(s[|s| - 1]) {
      var n := |s| - 1;
      ReadSplit(s, 0, n, |s|, Outside);
      ReadSlice(s, 0, n, 0, n, Outside);
      LastRead(s, ReadAll(s, 0, n, Outside));
      TrimBalanced(s[..n]);
    }
  }

  lemma LastRead(s: string, q: Quoting)
    requires s != "" && IsSpace(s[|s| - 1]) && ReadAll(s, |s| - 1, |s|, q) == Outside
    ensures q == Outside
  {
    assert ReadAll(s, |s| - 1, |s|, q) == ReadAll(s, |s|, |s|, Read(q, s[|s| - 1]));
  }

  /**
   A trimmed piece of one split never fails another split because of quoting: it
   splits exactly when none of its own pieces is blank.
   */
  lemma PieceSplitsAgain(value: string, d: char, pieces: seq<string>, i: nat, d': char)
    requires Delimiter(d) && Delimiter(d') && IsSplit(value, d, pieces) && i < |pieces|
    ensures var piece := TrimSpace(pieces[i]);
            (exists parts :: IsSplit(piece, d', parts)) <==> NoneBlank(Cut(piece, d'))
  {
    var piece := TrimSpace(pieces[i]);
    assert Balanced(pieces[i]);
    TrimBalanced(pieces[i]);
    SplitIff(piece, d', Cut(piece, d'));
    forall parts ensures IsSplit(piece, d', parts) ==> NoneBlank(Cut(piece, d')) { SplitIff(piece, d', parts); }
  }

  /** Splitting a piece at the same delimiter gives the piece. */
  lemma PieceResplits(value: string, d: char, pieces: seq<string>, i: nat)
    requires Delimiter(d) && IsSplit(value, d, pieces) && i < |pieces|
    ensures IsSplit(pieces[i], d, [pieces[i]])
  {
    assert Whole(pieces[i], d) && Balanced(pieces[i]) && !Blank(pieces[i]);
    assert Join([pieces[i]], d) == pieces[i];
  }
}
