/** Splitting, joining and replacing, as the Go `strings` package does them for one-character separators. */
module Text {
  /** No character of `s` is `c`. */
  predicate Free(s: string, c: char) {
    forall i :: 0 <= i < |s| ==> s[i] != c
  }

  lemma SliceSlice(s: string, i: nat, e: nat, a: nat, b: nat)
    requires i <= e <= |s| && a <= b <= e - i
    ensures s[i..e][a..b] == s[i + a..i + b]
  {
    var t := s[i..e];
    var left, right := t[a..b], s[i + a..i + b];
    forall k | 0 <= k < b - a ensures left[k] == right[k] { assert t[a + k] == s[i + a + k]; }
    assert left == right;
  }

  /** The first position at or after `i` that holds `c`, or the length. */
  function IndexFrom(s: string, c: char, i: nat): (e: nat)
    requires i <= |s|
    ensures i <= e <= |s| && (e < |s| ==> s[e] == c) && forall k :: i <= k < e ==> s[k] != c
    decreases |s| - i
  {
    if i == |s| || s[i] == c then i else IndexFrom(s, c, i + 1)
  }

  /** The parts of `s` from position `i` on. */
  function SplitFrom(s: string, c: char, i: nat): (parts: seq<string>)
    requires i <= |s|
    ensures |parts| >= 1
    decreases |s| - i
  {
    var e := IndexFrom(s, c, i);
    if e == |s| then [s[i..]] else [s[i..e]] + SplitFrom(s, c, e + 1)
  }

  /** `strings.Split`. */
  function Split(s: string, c: char): (parts: seq<string>)
    ensures |parts| >= 1
  {
    SplitFrom(s, c, 0)
  }

  /** `strings.Join`. */
  function Join(parts: seq<string>, c: char): string {
    if parts == [] then "" else if |parts| == 1 then parts[0] else parts[0] + [c] + Join(parts[1..], c)
  }

  lemma JoinCons(first: string, parts: seq<string>, c: char)
    requires parts != []
    ensures Join([first] + parts, c) == first + [c] + Join(parts, c)
  {
    assert ([first] + parts)[1..] == parts;
  }

  lemma {:induction false} SplitPartsFree(s: string, c: char, i: nat)
    requires i <= |s|
    ensures forall k :: 0 <= k < |SplitFrom(s, c, i)| ==> Free(SplitFrom(s, c, i)[k], c)
    decreases |s| - i
  {
    var e := IndexFrom(s, c, i);
    assert Free(s[i..e], c);
    if e < |s| { SplitPartsFree(s, c, e + 1); }
  }

  lemma {:induction false} SplitPartsJoin(s: string, c: char, i: nat)
    requires i <= |s|
    ensures Join(SplitFrom(s, c, i), c) == s[i..]
    decreases |s| - i
  {
    var e := IndexFrom(s, c, i);
    if e < |s| {
      SplitPartsJoin(s, c, e + 1);
      JoinCons(s[i..e], SplitFrom(s, c, e + 1), c);
      CutAt(s, i, e);
    }
  }

  lemma CutAt(s: string, i: nat, e: nat)
    requires i <= e < |s|
    ensures s[i..] == s[i..e] + [s[e]] + s[e + 1..]
  {
  }

  /** The parts have no separator and join to what was split. */
  lemma SplitParts(s: string, c: char, i: nat)
    requires i <= |s|
    ensures forall k :: 0 <= k < |SplitFrom(s, c, i)| ==> Free(SplitFrom(s, c, i)[k], c)
    ensures Join(SplitFrom(s, c, i), c) == s[i..]
  {
    SplitPartsFree(s, c, i);
    SplitPartsJoin(s, c, i);
  }

  lemma {:induction false} IndexFromIs(s: string, c: char, i: nat, e: nat)
    requires i <= e <= |s| && (e < |s| ==> s[e] == c) && forall k :: i <= k < e ==> s[k] != c
    ensures IndexFrom(s, c, i) == e
    decreases e - i
  {
    if i < e { IndexFromIs(s, c, i + 1, e); }
  }

  /** Where the first part and the rest of a joined text stand. */
  lemma HeadOfJoin(s: string, parts: seq<string>, c: char, i: nat)
    requires i <= |s| && parts != [] && s[i..] == Join(parts, c)
    ensures var e := i + |parts[0]|;
            && e <= |s| && s[i..e] == parts[0]
            && (if |parts| == 1 then e == |s| else e < |s| && s[e] == c && s[e + 1..] == Join(parts[1..], c))
  {
    var rest, n := s[i..], |parts[0]|;
    if |parts| > 1 {
      assert rest[n] == c && rest[n + 1..] == Join(parts[1..], c);
      assert s[i + n + 1..] == rest[n + 1..];
    }
    assert rest[..n] == parts[0];
    assert s[i..i + n] == rest[..n];
  }

  /** Splitting undoes joining, for parts without the separator; `s` may have more text in front. */
  lemma {:induction false} SplitJoinFrom(s: string, parts: seq<string>, c: char, i: nat)
    requires i <= |s| && parts != [] && s[i..] == Join(parts, c)
    requires forall k :: 0 <= k < |parts| ==> Free(parts[k], c)
    ensures SplitFrom(s, c, i) == parts
    decreases |parts|
  {
    var e := i + |parts[0]|;
    HeadOfJoin(s, parts, c, i);
    FreeSlice(s, i, e, c);
    IndexFromIs(s, c, i, e);
    if |parts| > 1 {
      SplitJoinFrom(s, parts[1..], c, e + 1);
      assert parts == [parts[0]] + parts[1..];
    } else {
      assert s[i..] == s[i..e];
    }
  }

  lemma FreeSlice(s: string, i: nat, e: nat, c: char)
    requires i <= e <= |s| && Free(s[i..e], c)
    ensures forall k :: i <= k < e ==> s[k] != c
  {
    forall k | i <= k < e ensures s[k] != c { assert s[i..e][k - i] == s[k]; }
  }

  lemma SplitJoin(parts: seq<string>, c: char)
    requires parts != [] && forall k :: 0 <= k < |parts| ==> Free(parts[k], c)
    ensures Split(Join(parts, c), c) == parts
  {
    var s := Join(parts, c);
    assert s[0..] == s;
    SplitJoinFrom(s, parts, c, 0);
  }

  /** Splitting a suffix is splitting from its start. */
  lemma SplitSuffix(s: string, c: char, i: nat)
    requires i <= |s|
    ensures Split(s[i..], c) == SplitFrom(s, c, i)
  {
    SplitParts(s, c, i);
    SplitJoin(SplitFrom(s, c, i), c);
  }

  /** `strings.ReplaceAll`, for a non-empty `old`. */
  function ReplaceAll(s: string, old_: string, new_: string): string
    requires old_ != ""
    decreases |s|
  {
    if s == "" then ""
    else if old_ <= s then new_ + ReplaceAll(s[|old_|..], old_, new_)
    else [s[0]] + ReplaceAll(s[1..], old_, new_)
  }

  /** Text that never contains the first character of `old_` is passed over. */
  lemma {:induction false} ReplaceSkips(a: string, b: string, old_: string, new_: string)
    requires old_ != "" && Free(a, old_[0])
    ensures ReplaceAll(a + b, old_, new_) == a + ReplaceAll(b, old_, new_)
  {
    if a == "" {
      assert a + b == b;
    } else {
      assert (a + b)[1..] == a[1..] + b;
      ReplaceSkips(a[1..], b, old_, new_);
      assert (a + b)[0] != old_[0];
    }
  }

  lemma ReplaceHits(b: string, old_: string, new_: string)
    requires old_ != ""
    ensures ReplaceAll(old_ + b, old_, new_) == new_ + ReplaceAll(b, old_, new_)
  {
    assert (old_ + b)[|old_|..] == b;
  }
}
