/** The grammar of accepted paths and subjects: what the separate tests of the validator add up to. */
module RouteGrammar {
  import opened Text
  import opened Regexp
  import opened Templates
  import opened RouteConfig

  const PATH_FORBIDS := "/{}?#*\\ \t\r\n"
  const SUBJECT_FORBIDS := ".{}*> \t\r\n"

  /** Non-empty text with no character that has a meaning in the template, or a placeholder. */
  predicate Piece(s: string, forbids: string) {
    IsPlaceholder(s) || (s != "" && !ContainsAny(s, forbids))
  }

  predicate Pieces(parts: seq<string>, forbids: string) {
    parts != [] && Unique(ParamsOf(parts)) && forall k :: 0 <= k < |parts| ==> Piece(parts[k], forbids)
  }

  // ----- joined text --------------------------------------------------------------------------

  /** Every character of a joined text is the separator or stands in a part. */
  lemma {:induction false} JoinedFrom(parts: seq<string>, c: char, i: nat) returns (k: nat)
    requires i < |Join(parts, c)| && Join(parts, c)[i] != c
    ensures k < |parts| && Join(parts, c)[i] in parts[k]
  {
    if |parts| == 1 || i < |parts[0]| {
      k := 0;
    } else {
      var n := JoinedFrom(parts[1..], c, i - |parts[0]| - 1);
      k := n + 1;
    }
  }

  /** Every character of a part stands in the joined text. */
  lemma {:induction false} JoinedHolds(parts: seq<string>, c: char, k: nat, x: char)
    requires k < |parts| && x in parts[k]
    ensures x in Join(parts, c)
  {
    var j :| 0 <= j < |parts[k]| && parts[k][j] == x;
    if k == 0 {
      assert Join(parts, c)[j] == x;
    } else {
      JoinedHolds(parts[1..], c, k - 1, x);
      var i :| 0 <= i < |Join(parts[1..], c)| && Join(parts[1..], c)[i] == x;
      assert Join(parts, c)[|parts[0]| + 1 + i] == x;
    }
  }

  /** Non-empty parts without the separator: it never stands first, last or twice in a row. */
  lemma {:induction false} JoinedShape(parts: seq<string>, c: char)
    requires parts != [] && forall k :: 0 <= k < |parts| ==> parts[k] != "" && Free(parts[k], c)
    ensures Join(parts, c) != "" && !StartsWith(Join(parts, c), c) && !EndsWith(Join(parts, c), c)
    ensures !Doubled(Join(parts, c), c)
  {
    var all := Join(parts, c);
    assert forall i :: 0 <= i < |parts[0]| ==> all[i] == parts[0][i];
    if |parts| > 1 {
      JoinedShape(parts[1..], c);
      var rest := Join(parts[1..], c);
      assert all[|parts[0]|] == c && forall i :: 0 <= i < |rest| ==> all[|parts[0]| + 1 + i] == rest[i];
      assert all[|all| - 1] == rest[|rest| - 1];
    }
  }

  /** A placeholder holds name characters and braces only. */
  lemma PlaceholderPlain(s: string, c: char)
    requires IsPlaceholder(s) && c in s
    ensures IsNameChar(c) || IsBrace(c)
  {
  }

  // ----- paths --------------------------------------------------------------------------------

  lemma PathParts(path: string)
    requires PathOk(path) && path != "/"
    ensures Pieces(PathSegments(path), PATH_FORBIDS) && path == "/" + Join(PathSegments(path), '/')
  {
    var parts := PathSegments(path);
    PathSegmentsOk(path);
    PathSegmentsJoin(path);
    assert path == [path[0]] + path[1..];
    forall k | 0 <= k < |parts| ensures Piece(parts[k], PATH_FORBIDS) {
      assert SegmentOk(parts[k]);
      forall j | 0 <= j < |parts[k]| && !IsPlaceholder(parts[k]) ensures parts[k][j] !in PATH_FORBIDS {
        JoinedHolds(parts, '/', k, parts[k][j]);
        HeldBy(path, 1, parts[k][j]);
      }
    }
  }

  lemma HeldBy(s: string, n: nat, c: char)
    requires n <= |s| && c in s[n..]
    ensures c in s
  {
  }

  /** Pieces of either grammar. */
  lemma PieceOk(s: string, forbids: string, c: char)
    requires Piece(s, forbids) && c in forbids && '{' in forbids && '}' in forbids && !IsNameChar(c) && !IsBrace(c)
    ensures s != "" && Free(s, c) && SegmentOk(s)
  {
    if IsPlaceholder(s) {
      forall i | 0 <= i < |s| ensures s[i] != c { PlaceholderPlain(s, s[i]); }
    }
  }

  /** No forbidden character but the separator and the braces of placeholders stands in joined pieces. */
  lemma JoinedClean(parts: seq<string>, sep: char, forbids: string, bad: string)
    requires Pieces(parts, forbids) && sep !in bad
    requires forall c <- bad :: c in forbids && !IsNameChar(c) && !IsBrace(c)
    ensures !ContainsAny(Join(parts, sep), bad)
  {
    var all := Join(parts, sep);
    forall i | 0 <= i < |all| ensures all[i] !in bad {
      if all[i] in bad {
        var k := JoinedFrom(parts, sep, i);
        if IsPlaceholder(parts[k]) { PlaceholderPlain(parts[k], all[i]); }
      }
    }
  }

  lemma PathFrom(parts: seq<string>)
    requires Pieces(parts, PATH_FORBIDS)
    ensures PathOk("/" + Join(parts, '/')) && PathSegments("/" + Join(parts, '/')) == parts
  {
    var path, rest := "/" + Join(parts, '/'), Join(parts, '/');
    forall k | 0 <= k < |parts| ensures parts[k] != "" && Free(parts[k], '/') && SegmentOk(parts[k]) {
      PieceOk(parts[k], PATH_FORBIDS, '/');
    }
    JoinedShape(parts, '/');
    JoinedClean(parts, '/', PATH_FORBIDS, "?#");
    JoinedClean(parts, '/', PATH_FORBIDS, "*\\ \t\r\n");
    assert path[1..] == rest && path[0] == '/';
    PathSegmentsAre(path, parts);
    PathSplits(path);
    SplitOk(parts);
  }

  lemma ParamsBehind(parts: seq<string>)
    ensures ParamsOf([""] + parts) == ParamsOf(parts)
  {
    var all := [""] + parts;
    assert all[1..] == parts && [] + ParamsOf(parts) == ParamsOf(parts);
  }

  lemma SplitOk(parts: seq<string>)
    requires Unique(ParamsOf(parts)) && forall k :: 0 <= k < |parts| ==> SegmentOk(parts[k])
    ensures WellFormed([""] + parts)
  {
    var all := [""] + parts;
    ParamsBehind(parts);
    forall i | 0 <= i < |all| ensures SegmentOk(all[i]) {
      if i > 0 { assert all[i] == parts[i - 1]; }
    }
  }

  lemma RootOk()
    ensures PathOk("/")
  {
    PathSplits("/");
    SplitOk([""]);
  }

  /**
   A path is accepted exactly if it is `/`, or a slash before each of one or more
   pieces, which name no parameter twice.
   */
  lemma PathGrammar(path: string)
    ensures PathOk(path) <==>
              path == "/" || exists parts :: Pieces(parts, PATH_FORBIDS) && path == "/" + Join(parts, '/')
  {
    if path == "/" {
      RootOk();
    } else if PathOk(path) {
      PathParts(path);
    } else if parts :| Pieces(parts, PATH_FORBIDS) && path == "/" + Join(parts, '/') {
      PathFrom(parts);
    }
  }

  // ----- subjects -----------------------------------------------------------------------------

  lemma SubjectParts(subject: string)
    requires SubjectOk(subject)
    ensures Pieces(Split(subject, '.'), SUBJECT_FORBIDS) && subject == Join(Split(subject, '.'), '.')
  {
    var parts := Split(subject, '.');
    SubjectTokensNonEmpty(subject);
    SplitParts(subject, '.', 0);
    assert subject[0..] == subject;
    forall k | 0 <= k < |parts| ensures Piece(parts[k], SUBJECT_FORBIDS) {
      assert SegmentOk(parts[k]);
      forall j | 0 <= j < |parts[k]| && !IsPlaceholder(parts[k]) ensures parts[k][j] !in SUBJECT_FORBIDS {
        JoinedHolds(parts, '.', k, parts[k][j]);
      }
    }
  }

  lemma SubjectFrom(parts: seq<string>)
    requires Pieces(parts, SUBJECT_FORBIDS)
    ensures SubjectOk(Join(parts, '.'))
  {
    forall k | 0 <= k < |parts| ensures parts[k] != "" && Free(parts[k], '.') && SegmentOk(parts[k]) {
      PieceOk(parts[k], SUBJECT_FORBIDS, '.');
    }
    JoinedShape(parts, '.');
    JoinedClean(parts, '.', SUBJECT_FORBIDS, "*> \t\r\n");
    SplitJoin(parts, '.');
  }

  /** A subject is accepted exactly if it is one or more pieces between dots, which name no parameter twice. */
  lemma SubjectGrammar(subject: string)
    ensures SubjectOk(subject) <==> exists parts :: Pieces(parts, SUBJECT_FORBIDS) && subject == Join(parts, '.')
  {
    if SubjectOk(subject) {
      SubjectParts(subject);
    } else if parts :| Pieces(parts, SUBJECT_FORBIDS) && subject == Join(parts, '.') {
      SubjectFrom(parts);
    }
  }

  // ----- parameters ---------------------------------------------------------------------------

  /** A parameter name is a word of the pattern language that starts with a letter. */
  lemma NameIs(name: string)
    ensures ValidParam(name) <==>
              && name != "" && (forall i :: 0 <= i < |name| ==> WordChar(name[i]))
              && name[0] != '_' && !('0' <= name[0] <= '9')
  {
  }

  lemma InParams(want: seq<string>, tokens: seq<string>, name: string)
    requires name in ParamsOf(want) + ParamsOf(tokens)
    ensures name in ParamsOf(want) || name in ParamsOf(tokens)
  {
  }

  /**
   In an accepted route a parameter is read from the path exactly if its placeholder
   stands there, under its own name, and otherwise stands in the subject; and
   nothing its grammar matches is empty or unsafe.
   */
  lemma ParameterPlaces(route: Route, name: string)
    requires RouteOk(route) && name in route.parameters
    ensures var p := route.parameters[name];
            && (p.source == "path" <==> name in ParamsOf(Split(route.path, '/')))
            && (p.source == "path" ==> p.name == name)
            && (p.source != "path" ==> p.source == "query" && name in ParamsOf(Split(route.subject, '.')))
            && p.parsed.Some?
            && (Parsed(p.parsed.value) ==> forall w: string, i: nat, j: nat ::
                  i <= j <= |w| && Matches(p.parsed.value, w, i, j) ==> i < j && SafeSpan(w, i, j))
  {
    var p := route.parameters[name];
    var want, tokens := Split(route.path, '/'), Split(route.subject, '.');
    assert name in ParamsOf(want) + ParamsOf(tokens);
    InParams(want, tokens, name);
    if Parsed(p.parsed.value) {
      forall w: string, i: nat, j: nat | i <= j <= |w| && Matches(p.parsed.value, w, i, j)
        ensures i < j && SafeSpan(w, i, j)
      {
        AnalysisSound(p.parsed.value, w, i, j);
      }
    }
  }
}
