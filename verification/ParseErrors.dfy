/** Where the errors of the strict parser point. */
module ParseErrors {
  import opened Wrappers
  import opened Text
  import opened DslAst
  import opened ExprSplit
  import opened ExprParser
  import opened Masking
  import opened ParserAgreement
  import opened FormatReparse
  import opened TextParts

  /** A leaf grammar that points its errors into the text, or right after it. */
  ghost predicate PointsInside(g: LeafGrammar) {
    forall t :: g(t).Rejected? ==> g(t).at <= |t|
  }

  /** Some stretch of the text, or the place right after it. */
  predicate Inside(error: ParseError, base: nat, length: nat) {
    base <= error.span.start < error.span.end <= base + length + 1
  }

  lemma Deeper(error: ParseError, base: nat, length: nat, base': nat, length': nat)
    requires Inside(error, base', length') && base <= base' && base' + length' <= base + length
    ensures Inside(error, base, length)
  {
  }

  lemma SplitErrorInside(s: string, op: LogicOp, base: nat)
    requires Masked(s)
    ensures Split(s, op, base, false).Err? ==> Inside(Split(s, op, base, false).error, base, |s|)
  {
    if Split(s, op, base, false).Err? {
      SplitErrors(s, op, base, false);
      NoLevel(s);
      hide Split, NonNegative, Net;
    }
  }

  lemma {:induction false} ExprErrorInside(g: LeafGrammar, source: string, base: nat)
    requires PointsInside(g) && Masked(source)
    ensures ParseExpr(g, source, base).Err? ==> Inside(ParseExpr(g, source, base).error, base, |source|)
    decreases |source|, 7
  {
    hide PointsInside, ParseOr, Trim, TrimOffset, Inside, Masked;
    TrimInside(source);
    if Trim(source) != "" {
      OrErrorInside(g, Trim(source), base + TrimOffset(source));
      if ParseExpr(g, source, base).Err? {
        Deeper(ParseExpr(g, source, base).error, base, |source|, base + TrimOffset(source), |Trim(source)|);
      }
    }
  }

  lemma TrimInside(s: string)
    requires Masked(s)
    ensures Masked(Trim(s)) && |Trim(s)| <= |s|
    ensures Trim(s) != "" ==> TrimOffset(s) + |Trim(s)| <= |s|
  {
    MaskedTrim(s);
    if Trim(s) != "" {
      TrimSplits(s);
    }
  }

  lemma {:induction false} OrErrorInside(g: LeafGrammar, source: string, base: nat)
    requires PointsInside(g) && Masked(source)
    ensures ParseOr(g, source, base).Err? ==> Inside(ParseOr(g, source, base).error, base, |source|)
    decreases |source|, 6
  {
    SplitErrorInside(source, Or, base);
    SplitSlices(source, Or, base, false);
    hide PointsInside, Split, Inside, ParseBranches;
    if Split(source, Or, base, false).Ok? {
      var parts := Split(source, Or, base, false).value;
      SlicesMasked(source, parts);
      BranchErrorInside(g, source, parts, base);
    }
  }

  lemma {:induction false} BranchErrorInside(g: LeafGrammar, source: string, parts: seq<Segment>, base: nat)
    requires PointsInside(g) && Slices(source, parts) && MaskedParts(parts)
    requires forall j | 0 <= j < |parts| :: |parts[j].text| <= |source|
    ensures var r := ParseBranches(g, |source|, parts, base); r.Err? ==> Inside(r.error, base, |source|)
    decreases |source|, 5, |parts|
  {
    hide PointsInside, ParseAnd, Inside, Masked;
    if parts != [] {
      var text, start := parts[0].text, base + parts[0].start;
      assert Masked(text) && parts[0].End() <= |source|;
      AndErrorInside(g, text, start);
      var first := ParseAnd(g, text, start);
      if first.Err? {
        Deeper(first.error, base, |source|, start, |text|);
      } else {
        BranchErrorInside(g, source, parts[1..], base);
      }
    }
  }

  lemma {:induction false} AndErrorInside(g: LeafGrammar, source: string, base: nat)
    requires PointsInside(g) && Masked(source)
    ensures ParseAnd(g, source, base).Err? ==> Inside(ParseAnd(g, source, base).error, base, |source|)
    decreases |source|, 4
  {
    SplitErrorInside(source, And, base);
    SplitSlices(source, And, base, false);
    hide PointsInside, Split, Inside, ParseTerms;
    if Split(source, And, base, false).Ok? {
      var parts := Split(source, And, base, false).value;
      SlicesMasked(source, parts);
      TermErrorInside(g, source, parts, base);
    }
  }

  lemma {:induction false} TermErrorInside(g: LeafGrammar, source: string, parts: seq<Segment>, base: nat)
    requires PointsInside(g) && Slices(source, parts) && MaskedParts(parts)
    requires forall j | 0 <= j < |parts| :: |parts[j].text| <= |source|
    ensures var r := ParseTerms(g, |source|, parts, base); r.Err? ==> Inside(r.error, base, |source|)
    decreases |source|, 3, |parts|
  {
    hide PointsInside, ParseNot, Inside, Masked;
    if parts != [] {
      var text, start := parts[0].text, base + parts[0].start;
      assert Masked(text) && parts[0].End() <= |source|;
      NotErrorInside(g, text, start);
      var first := ParseNot(g, text, start);
      if first.Err? {
        Deeper(first.error, base, |source|, start, |text|);
      } else {
        TermErrorInside(g, source, parts[1..], base);
      }
    }
  }

  lemma {:induction false} NotErrorInside(g: LeafGrammar, source: string, base: nat)
    requires PointsInside(g) && Masked(source)
    ensures ParseNot(g, source, base).Err? ==> Inside(ParseNot(g, source, base).error, base, |source|)
    decreases |source|, 2
  {
    hide PointsInside, ParsePrimary, Trim, TrimOffset, EqIgnoreCase;
    TrimInside(source);
    var trimmed, start := Trim(source), base + TrimOffset(source);
    if trimmed != "" {
      if IsNotPrefix(trimmed) {
        NotErrorInside(g, trimmed[4..], start + 4);
      } else {
        PrimaryErrorInside(g, trimmed, start);
      }
    }
  }

  lemma {:induction false} PrimaryErrorInside(g: LeafGrammar, source: string, base: nat)
    requires PointsInside(g) && Masked(source)
    ensures ParsePrimary(g, source, base).Err? ==> Inside(ParsePrimary(g, source, base).error, base, |source|)
    decreases |source|, 1
  {
    hide ParseGrouped, Trim, TrimOffset;
    TrimInside(source);
    var trimmed, start := Trim(source), base + TrimOffset(source);
    if trimmed != "" && trimmed[0] == '(' {
      GroupErrorInside(g, trimmed, start);
    }
  }

  /** A group that was handed over trimmed. */
  lemma {:induction false} GroupErrorInside(g: LeafGrammar, source: string, base: nat)
    requires PointsInside(g) && Masked(source)
    ensures ParseGrouped(g, source, base).Err? ==> Inside(ParseGrouped(g, source, base).error, base, |source|)
    decreases |source|, 0
  {
    hide PointsInside, ParseExpr, Trim;
    TrimInside(source);
    var trimmed := Trim(source);
    if IsParenthesized(trimmed) {
      var inner := trimmed[1..|trimmed| - 1];
      ExprErrorInside(g, inner, base + 1);
    }
  }

  /** Every error of a document points into it, or right after it. */
  lemma ErrorPointsInside(g: LeafGrammar, source: string)
    requires PointsInside(g) && ParseProgram(g, source).Err?
    ensures Inside(ParseProgram(g, source).error, 0, |source|)
  {
    MaskBlanksComments(source);
    ExprErrorInside(g, Mask(source), 0);
    hide ParseExpr, Mask, Inside;
  }

  // ---- Exactly where ----

  /** A leaf's error stands where the grammar puts it in the leaf, counted from the start of the document. */
  lemma LeafErrorStands(g: LeafGrammar, pre: string, t: string, post: string, base: nat)
    requires Blank(pre) && Blank(post) && t != "" && Trimmed(t) && g(t).Rejected?
    requires t[0] != '(' && !IsNotPrefix(t) && !IsBareNot(t)
    ensures ParseNot(g, pre + t + post, base) ==
            Err(Syntax(Span(base + |pre| + g(t).at, base + |pre| + g(t).at + 1), g(t).message))
  {
    hide *;
    Untouched(t);
    PaddedTrim(pre, t, post);
    LeafUnfolds(g, pre + t + post, t, base);
  }

  lemma LeafUnfolds(g: LeafGrammar, source: string, t: string, base: nat)
    requires Trim(source) == t != "" && Trim(t) == t && TrimOffset(t) == 0 && g(t).Rejected?
    requires t[0] != '(' && !IsNotPrefix(t) && !IsBareNot(t)
    ensures var at := base + TrimOffset(source) + g(t).at;
            ParseNot(g, source, base) == Err(Syntax(Span(at, at + 1), g(t).message))
  {
    hide Trim, TrimOffset, IsNotPrefix, IsBareNot;
  }

  /** NOT without a space and an operand, in any letter case and with no letter or digit after it, is marked as a
      whole. */
  lemma BareNotMarked(g: LeafGrammar, pre: string, t: string, post: string, base: nat)
    requires Blank(pre) && Blank(post) && t != "" && Trimmed(t)
    requires |t| >= 3 && SameLetters(t[..3], "NOT") && (|t| == 3 || (!IsAlnum(t[3]) && t[3] != ' '))
    ensures ParseNot(g, pre + t + post, base) ==
            Err(Syntax(Span(base + |pre|, base + |pre| + |t|), "missing operand after NOT"))
  {
    hide *;
    IsBare(t);
    PaddedTrim(pre, t, post);
    BareUnfolds(g, pre + t + post, t, base);
  }

  lemma PaddedTrim(pre: string, t: string, post: string)
    requires Blank(pre) && Blank(post) && t != "" && Trimmed(t)
    ensures Trim(pre + t + post) == t && TrimOffset(pre + t + post) == |pre|
  {
    TrimPadded(pre, t, post);
    hide *;
  }

  lemma BareUnfolds(g: LeafGrammar, source: string, t: string, base: nat)
    requires Trim(source) == t != "" && IsBareNot(t) && !IsNotPrefix(t)
    ensures var start := base + TrimOffset(source);
            ParseNot(g, source, base) == Err(Syntax(Span(start, start + |t|), "missing operand after NOT"))
  {
    hide Trim, TrimOffset, IsNotPrefix, IsBareNot, ParsePrimary;
  }

  lemma IsBare(t: string)
    requires |t| >= 3 && SameLetters(t[..3], "NOT") && (|t| == 3 || (!IsAlnum(t[3]) && t[3] != ' '))
    ensures IsBareNot(t) && !IsNotPrefix(t)
  {
    SameLettersAre(t[..3], "NOT");
    if |t| > 3 {
      SameLettersAre(t[..4], "NOT ");
      assert t[..4][3] == t[3] && "NOT "[3] == ' ';
    }
    hide EqIgnoreCase;
  }

  /** NOT and a space negate, in any letter case. */
  lemma AnyCaseNegates(g: LeafGrammar, not: string, x: string, start: nat)
    requires SameLetters(not, "NOT ") && x != "" && Trimmed(not + x)
    ensures match ParseNot(g, x, start + 4)
            case Ok(inner) => ParseNot(g, not + x, start) == Ok(Not(inner, Span(start, start + 4 + |x|)))
            case Err(e) => ParseNot(g, not + x, start) == Err(e)
  {
    hide *;
    var n := not + x;
    Untouched(n);
    CutAtFour(not, x);
    SameLettersAre(not, "NOT ");
    Negates(n);
    NotUnfolds(g, n, start);
  }

  lemma CutAtFour(a: string, b: string)
    requires SameLetters(a, "NOT ")
    ensures |a| == 4 && (a + b)[..4] == a && (a + b)[4..] == b
  {
    hide SameLetter;
  }

  lemma Negates(n: string)
    requires |n| >= 4 && EqIgnoreCase(n[..4], "NOT ")
    ensures IsNotPrefix(n)
  {
    hide EqIgnoreCase;
  }

  /** The operand of a NOT, and the expression of a group, report their errors where they stand. */
  lemma NestedErrorStands(g: LeafGrammar, x: string, start: nat)
    requires x != "" && Trimmed("NOT " + x) && Trimmed("(" + x + ")")
    ensures ParseNot(g, x, start + 4).Err? ==>
              ParseNot(g, "NOT " + x, start) == Err(ParseNot(g, x, start + 4).error)
    ensures ParseExpr(g, x, start + 1).Err? ==>
              ParseNot(g, "(" + x + ")", start) == Err(ParseExpr(g, x, start + 1).error)
  {
    hide *;
    var n, p := "NOT " + x, "(" + x + ")";
    Untouched(n);
    Untouched(p);
    Shapes(x);
    ParenIsNoNot(p);
    NotUnfolds(g, n, start);
    GroupUnfolds(g, p, start);
  }

  lemma Untouched(t: string)
    requires t != "" && Trimmed(t)
    ensures Trim(t) == t && TrimOffset(t) == 0
  {
    NothingBlank();
    TrimPadded("", t, "");
    hide *;
  }

  lemma NothingBlank()
    ensures Blank("")
  {
  }

  lemma Shapes(x: string)
    ensures var n, p := "NOT " + x, "(" + x + ")";
            IsNotPrefix(n) && n[4..] == x && IsParenthesized(p) && p[0] == '(' && p[1..|p| - 1] == x
  {
    assert ("NOT " + x)[..4] == "NOT ";
  }

  lemma NotUnfolds(g: LeafGrammar, n: string, start: nat)
    requires n != "" && Trim(n) == n && TrimOffset(n) == 0 && IsNotPrefix(n)
    ensures match ParseNot(g, n[4..], start + 4)
            case Ok(inner) => ParseNot(g, n, start) == Ok(Not(inner, Span(start, start + |n|)))
            case Err(e) => ParseNot(g, n, start) == Err(e)
  {
    hide Trim, TrimOffset, ParsePrimary, EqIgnoreCase;
  }

  lemma GroupUnfolds(g: LeafGrammar, p: string, start: nat)
    requires Trim(p) == p && TrimOffset(p) == 0 && IsParenthesized(p) && !IsNotPrefix(p) && !IsBareNot(p)
    ensures ParseExpr(g, p[1..|p| - 1], start + 1).Err? ==>
              ParseNot(g, p, start) == Err(ParseExpr(g, p[1..|p| - 1], start + 1).error)
  {
    hide Trim, TrimOffset, ParseExpr, IsNotPrefix, IsBareNot;
    if ParseExpr(g, p[1..|p| - 1], start + 1).Err? {
      assert ParseGrouped(g, p, start) == Err(ParseExpr(g, p[1..|p| - 1], start + 1).error);
      hide ParseGrouped;
      assert ParsePrimary(g, p, start) == Err(ParseGrouped(g, p, start).error);
    }
  }
}
