/** The condition on leaves under which formatting round-trips is the weakest one. */
module FormatExact {
  import opened Wrappers
  import opened Text
  import opened DslAst
  import opened ExprParser
  import opened Masking
  import opened Format
  import opened FormatClean
  import opened FormatReparse
  import opened FormatRoundTrip

  /** A tree that was read back from printed text has leaves that print as their own text. */
  lemma {:induction false} SameHasOwnText(a: OrExpr, b: OrExpr)
    requires SameOr(a, b)
    ensures OwnTextOr(b)
  {
    hide Render;
    assert SameBranches(a.branches, b.branches);
    forall i | 0 <= i < |b.branches| ensures OwnTextAnd(b.branches[i]) {
      assert SameAnd(a.branches[i], b.branches[i]);
      assert SameTerms(a.branches[i].terms, b.branches[i].terms);
      forall j | 0 <= j < |b.branches[i].terms| ensures OwnTextNot(b.branches[i].terms[j]) {
        assert SameNot(a.branches[i].terms[j], b.branches[i].terms[j]);
        SameNotHasOwnText(a.branches[i].terms[j], b.branches[i].terms[j]);
      }
    }
  }

  lemma {:induction false} SameNotHasOwnText(a: NotExpr, b: NotExpr)
    requires SameNot(a, b)
    ensures OwnTextNot(b)
  {
    hide Render, SameOr, OwnTextOr;
    match (a, b)
    case (Not(x, _), Not(y, _)) => SameNotHasOwnText(x, y);
    case (Prim(Leaf(_, _, _)), Prim(Leaf(_, _, _))) =>
    case (Prim(Grouped(x)), Prim(Grouped(y))) => SameHasOwnText(x.or, y.or);
  }

  /** If one of two such trees has only leaves that print well, the other's leaves reprint. */
  lemma {:induction false} SameReprints(g: LeafGrammar, a: OrExpr, b: OrExpr)
    requires SameOr(a, b) && GoodOr(g, b)
    ensures OrReprints(g, a)
  {
    hide LeafPrints;
    assert SameBranches(a.branches, b.branches);
    forall i | 0 <= i < |a.branches| ensures AndReprints(g, a.branches[i]) {
      assert SameAnd(a.branches[i], b.branches[i]) && GoodAnd(g, b.branches[i]);
      assert SameTerms(a.branches[i].terms, b.branches[i].terms);
      forall j | 0 <= j < |a.branches[i].terms| ensures NotReprints(g, a.branches[i].terms[j]) {
        assert SameNot(a.branches[i].terms[j], b.branches[i].terms[j]) && GoodNot(g, b.branches[i].terms[j]);
        SameNotReprints(g, a.branches[i].terms[j], b.branches[i].terms[j]);
      }
    }
  }

  lemma {:induction false} SameNotReprints(g: LeafGrammar, a: NotExpr, b: NotExpr)
    requires SameNot(a, b) && GoodNot(g, b)
    ensures NotReprints(g, a)
  {
    hide LeafPrints, SameOr, GoodOr, OrReprints, Render;
    match (a, b)
    case (Not(x, _), Not(y, _)) => SameNotReprints(g, x, y);
    case (Prim(Leaf(_, _, _)), Prim(Leaf(_, _, _))) =>
    case (Prim(Grouped(x)), Prim(Grouped(y))) => SameReprints(g, x.or, y.or);
  }

  lemma ParsedTreeReprints(g: LeafGrammar, out: string, or: OrExpr, e: Expr)
    requires ParseProgram(g, out) == Ok(Program(Some(e))) && SameOr(or, e.or)
    ensures OrReprints(g, or)
  {
    hide *;
    ProgramUnfolds(g, out, e);
    MaskIsMasked(out);
    SameHasOwnText(or, e.or);
    OwnTextReprints(g, e.or);
    ExprIsGood(g, Mask(out), 0, e);
    SameReprints(g, or, e.or);
  }

  /** For every source that parses: its formatted text parses back to the same tree, in the same place,
      exactly when each of its leaves reprints. */
  lemma RoundTripIffLeavesReprint(g: LeafGrammar, source: string, e: Expr)
    requires ParseProgram(g, source) == Ok(Program(Some(e)))
    ensures e.span.start <= e.span.end <= |source|
    ensures var before, after := source[..e.span.start], source[e.span.end..];
            var out := before + FormatOr(e.or, "") + after;
            ParsesAs(g, out, e.or, Span(|before|, |out| - |after|)) <==> OrReprints(g, e.or)
  {
    hide *;
    DocumentParts(g, source, e);
    var before, after := source[..e.span.start], source[e.span.end..];
    var out := before + FormatOr(e.or, "") + after;
    if OrReprints(g, e.or) {
      FormatRoundTrips(g, source, e);
    }
    if ParsesAs(g, out, e.or, Span(|before|, |out| - |after|)) {
      var e' := ParsesAsMeans(g, out, e.or, Span(|before|, |out| - |after|));
      ParsedTreeReprints(g, out, e.or, e');
    }
  }
}
