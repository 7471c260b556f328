/** Which parameter grammars the analysis accepts, and what its errors mean. */
module PatternErrors {
  import opened Wrappers
  import opened Regexp

  /** `node` is the expression or one of the expressions it is made of. */
  ghost predicate Within(node: Regexp, re: Regexp)
    decreases re
  {
    || node == re
    || match re
       case Capture(sub) => Within(node, sub)
       case Star(sub) => Within(node, sub)
       case Plus(sub) => Within(node, sub)
       case Quest(sub) => Within(node, sub)
       case Repeat(sub, _, _) => Within(node, sub)
       case Concat(subs) => exists s <- subs :: Within(node, s)
       case Alternate(subs) => exists s <- subs :: Within(node, s)
       case _ => false
  }

  /** Nothing this expression names itself is unsafe: case as written, and only characters a value may hold. */
  ghost predicate Harmless(node: Regexp) {
    match node
    case NoMatch => false
    case AnyChar => false
    case AnyCharNotNL => false
    case Literal(runes, foldCase) => !foldCase && forall k :: 0 <= k < |runes| ==> Safe(runes[k])
    case CharClass(ranges) => forall r <- ranges, v: int :: r.0 <= v <= r.1 ==> SafeRune(v)
    case _ => true
  }

  /** The expression deserves the error. */
  ghost predicate Explains(node: Regexp, e: PatternError) {
    match e
    case MatchesNothing => node.NoMatch?
    case FoldedLiteral => node.Literal? && node.foldCase
    case UnsafeRune(rune) =>
      && !SafeRune(rune)
      && ((node.Literal? && exists k :: 0 <= k < |node.runes| && node.runes[k] as int == rune)
          || (node.CharClass? && exists r <- node.ranges :: r.0 <= rune <= r.1))
    case Unsupported => node.AnyChar? || node.AnyCharNotNL?
  }

  lemma {:induction false} UnsafeInLiteral(runes: string) returns (k: nat)
    requires FirstUnsafe(runes).Some?
    ensures k < |runes| && runes[k] as int == FirstUnsafe(runes).value && !Safe(runes[k])
  {
    if !Safe(runes[0]) {
      k := 0;
    } else {
      var i := UnsafeInLiteral(runes[1..]);
      k := i + 1;
    }
  }

  lemma {:induction false} UnsafeInRange(lo: int, hi: int)
    requires FirstUnsafeIn(lo, hi).Some?
    ensures lo <= FirstUnsafeIn(lo, hi).value <= hi && !SafeRune(FirstUnsafeIn(lo, hi).value)
    decreases hi - lo
  {
    if SafeRune(lo) { UnsafeInRange(lo + 1, hi); }
  }

  lemma {:induction false} UnsafeInClass(ranges: seq<(int, int)>) returns (r: (int, int))
    requires FirstUnsafeRange(ranges).Some?
    ensures r in ranges && r.0 <= FirstUnsafeRange(ranges).value <= r.1 && !SafeRune(FirstUnsafeRange(ranges).value)
  {
    if FirstUnsafeIn(ranges[0].0, ranges[0].1).Some? {
      r := ranges[0];
      UnsafeInRange(r.0, r.1);
    } else {
      r := UnsafeInClass(ranges[1..]);
    }
  }

  lemma {:induction false} FailingChild(subs: seq<Regexp>) returns (s: Regexp)
    requires AnalyseAll(subs).Err?
    ensures s in subs && Analyse(s) == Err(AnalyseAll(subs).error)
  {
    if AnalyseAll(subs[..|subs| - 1]).Err? {
      s := FailingChild(subs[..|subs| - 1]);
    } else {
      s := subs[|subs| - 1];
    }
  }

  /** Every error names something that stands in the expression. */
  lemma {:induction false} ErrorShown(re: Regexp) returns (node: Regexp)
    requires Analyse(re).Err?
    ensures Within(node, re) && Explains(node, Analyse(re).error) && !Harmless(node)
    decreases re
  {
    node := re;
    match re
    case Literal(runes, foldCase) =>
      if !foldCase { var k := UnsafeInLiteral(runes); }
    case CharClass(ranges) =>
      var r := UnsafeInClass(ranges);
    case Capture(sub) => node := ErrorShown(sub);
    case Star(sub) => node := ErrorShown(sub);
    case Plus(sub) => node := ErrorShown(sub);
    case Quest(sub) => node := ErrorShown(sub);
    case Repeat(sub, _, _) => node := ErrorShown(sub);
    case Concat(subs) =>
      var s := FailingChild(subs);
      node := ErrorShown(s);
    case Alternate(subs) =>
      var s := FailingChild(subs);
      node := ErrorShown(s);
    case _ =>
  }

  lemma {:induction false} AcceptedHarmless(re: Regexp, node: Regexp)
    requires Analyse(re).Ok? && Within(node, re)
    ensures Harmless(node)
    decreases re
  {
    if node == re {
      SelfHarmless(re);
    } else {
      match re
      case Capture(sub) => AcceptedHarmless(sub, node);
      case Star(sub) => AcceptedHarmless(sub, node);
      case Plus(sub) => AcceptedHarmless(sub, node);
      case Quest(sub) => AcceptedHarmless(sub, node);
      case Repeat(sub, _, _) => AcceptedHarmless(sub, node);
      case Concat(subs) => ChildHarmless(subs, node);
      case Alternate(subs) => ChildHarmless(subs, node);
    }
  }

  lemma {:induction false} ChildHarmless(subs: seq<Regexp>, node: Regexp)
    requires AnalyseAll(subs).Ok? && exists s <- subs :: Within(node, s)
    ensures Harmless(node)
    decreases subs
  {
    var k :| 0 <= k < |subs| && Within(node, subs[k]);
    AllAnalysed(subs, k);
    AcceptedHarmless(subs[k], node);
  }

  lemma SelfHarmless(re: Regexp)
    requires Analyse(re).Ok?
    ensures Harmless(re)
  {
    match re
    case Literal(runes, _) => LiteralSafe(runes);
    case CharClass(ranges) =>
      forall r <- ranges, v: int | r.0 <= v <= r.1 ensures SafeRune(v) { RangesSafe(ranges, r, v); }
    case _ =>
  }

  /** The analysis accepts exactly the expressions that are harmless all the way down. */
  lemma AcceptsIff(re: Regexp)
    ensures Analyse(re).Ok? <==> forall node :: Within(node, re) ==> Harmless(node)
  {
    if Analyse(re).Ok? {
      forall node | Within(node, re) ensures Harmless(node) { AcceptedHarmless(re, node); }
    } else {
      var node := ErrorShown(re);
    }
  }
}
