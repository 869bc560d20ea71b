/** How printed expressions are laid out in lines. */
module FormatLayout {
  import opened Wrappers
  import opened Text
  import opened DslAst
  import opened PaddedSplit
  import opened Format

  // ---- What takes more than one line ----

  /** There is a choice somewhere in the expression, or a leaf that has a line break. */
  ghost predicate TallOr(or: OrExpr) {
    |or.branches| > 1 || exists i | 0 <= i < |or.branches| :: TallAnd(or.branches[i])
  }

  ghost predicate TallAnd(and: AndExpr) {
    exists i | 0 <= i < |and.terms| :: TallNot(and.terms[i])
  }

  ghost predicate TallNot(n: NotExpr) {
    match n
    case Not(inner, _) => TallNot(inner)
    case Prim(Leaf(fragment, _, _)) => '\n' in Render(fragment)
    case Prim(Grouped(expr)) => TallOr(expr.or)
  }

  predicate Breaks(s: string) {
    '\n' in s
  }

  lemma BreaksConcat(a: string, b: string)
    ensures Breaks(a + b) <==> Breaks(a) || Breaks(b)
  {
  }

  lemma {:induction false} JoinBreaks(pieces: seq<string>, glue: string)
    ensures Breaks(Join(pieces, glue)) <==>
            (|pieces| > 1 && Breaks(glue)) || exists i | 0 <= i < |pieces| :: Breaks(pieces[i])
  {
    hide Breaks;
    if |pieces| == 0 {
      NoBreak();
    } else if |pieces| > 1 {
      JoinBreaks(pieces[1..], glue);
      BreaksConcat(pieces[0] + glue, Join(pieces[1..], glue));
      BreaksConcat(pieces[0], glue);
      assert pieces == [pieces[0]] + pieces[1..];
    }
  }

  lemma NoBreak()
    ensures !Breaks("")
  {
  }

  /** A printed expression takes one line exactly if it is not tall; and then its terms are joined by ANDs on
      that line. In a conjunction with a tall term every AND starts a line of its own. */
  lemma {:induction false} OrBreaks(or: OrExpr, indent: string)
    requires or.branches != [] && !Breaks(indent)
    ensures Breaks(FormatOr(or, indent)) <==> TallOr(or)
    decreases or, 3
  {
    hide Join, TallAnd, Breaks;
    var all := FormatBranches(or.branches, indent);
    BranchesBreak(or.branches, indent);
    JoinBreaks(all, OrGlue(indent));
    GlueBreaks(indent);
    BreaksConcat(indent, Join(all, OrGlue(indent)));
  }

  lemma GlueBreaks(indent: string)
    ensures Breaks(OrGlue(indent))
  {
    assert OrGlue(indent)[0] == '\n';
  }

  lemma {:induction false} BranchesBreak(branches: seq<AndExpr>, indent: string)
    requires !Breaks(indent)
    ensures forall i | 0 <= i < |branches| :: Breaks(FormatBranches(branches, indent)[i]) <==> TallAnd(branches[i])
    decreases branches, 2
  {
    hide TallAnd, Breaks, FormatAnd;
    if branches != [] {
      AndBreaks(branches[0], indent);
      BranchesBreak(branches[1..], indent);
      assert forall i | 1 <= i < |branches| :: branches[i] == branches[1..][i - 1];
    }
  }

  lemma {:induction false} AndBreaks(and: AndExpr, indent: string)
    requires !Breaks(indent)
    ensures Breaks(FormatAnd(and, indent)) <==> TallAnd(and)
    ensures FormatAnd(and, indent) ==
            Join(FormatTerms(and.terms, indent), if TallAnd(and) then "\nAND " else " AND ")
    decreases and, 1
  {
    hide Join, TallNot;
    var parts := FormatTerms(and.terms, indent);
    TermsBreak(and.terms, indent);
    JoinBreaks(parts, AndGlue(parts));
    assert "\nAND "[0] == '\n' && '\n' !in " AND ";
    assert forall i | 0 <= i < |parts| :: Breaks(parts[i]) <==> TallNot(and.terms[i]);
  }

  lemma {:induction false} TermsBreak(terms: seq<NotExpr>, indent: string)
    requires !Breaks(indent)
    ensures forall i | 0 <= i < |terms| :: Breaks(FormatTerms(terms, indent)[i]) <==> TallNot(terms[i])
    decreases terms, 0
  {
    hide TallNot, Breaks, FormatNot;
    if terms != [] {
      NotBreaks(terms[0], indent);
      TermsBreak(terms[1..], indent);
      assert forall i | 1 <= i < |terms| :: terms[i] == terms[1..][i - 1];
    }
  }

  lemma {:induction false} NotBreaks(n: NotExpr, indent: string)
    requires !Breaks(indent)
    ensures Breaks(FormatNot(n, indent)) <==> TallNot(n)
    decreases n, 0
  {
    hide FormatOr, TallOr, Render;
    match n
    case Not(inner, _) =>
      NotBreaks(inner, indent);
      BreaksConcat("NOT ", FormatNot(inner, indent));
    case Prim(Leaf(_, _, _)) =>
    case Prim(Grouped(expr)) => GroupBreaks(expr, indent);
  }

  lemma {:induction false} GroupBreaks(expr: Expr, indent: string)
    requires !Breaks(indent)
    ensures Breaks(FormatPrimary(Grouped(expr), indent)) <==> TallOr(expr.or)
    decreases expr, 4
  {
    hide FormatOr, TallAnd;
    if |expr.or.branches| > 1 {
      var s := "(" + "\n" + FormatOr(expr.or, indent + "  ") + ("\n" + indent) + ")";
      assert s[1] == '\n';
    } else if expr.or.branches == [] {
      NothingPrinted(expr.or);
    } else {
      OrBreaks(expr.or, "");
      Parenthesized(FormatOr(expr.or, ""));
    }
  }

  lemma NothingPrinted(or: OrExpr)
    requires or.branches == []
    ensures FormatOr(or, "") == "" && !Breaks("(" + "" + "" + "" + ")")
  {
  }

  lemma Parenthesized(s: string)
    ensures Breaks("(" + "" + s + "" + ")") <==> Breaks(s)
  {
  }

  // ---- What it looks like ----

  function LeafTerm(fragment: Fragment, text: string, span: Span): NotExpr {
    Prim(Leaf(fragment, text, span))
  }

  function OneTerm(n: NotExpr, span: Span): AndExpr {
    AndExpr([n], span)
  }

  lemma FormatOneTerm(n: NotExpr, span: Span, indent: string)
    ensures FormatAnd(OneTerm(n, span), indent) == FormatNot(n, indent)
  {
    assert [n][1..] == [];
    hide FormatNot;
  }

  /** A choice stands line by line, each further branch after its OR, indented as the group it stands in; a group
      puts its choice between parentheses two spaces further in. */
  lemma ChoiceLayout(x: NotExpr, y: NotExpr, span: Span, indent: string)
    ensures var or := OrExpr([OneTerm(x, span), OneTerm(y, span)], span);
            && FormatOr(or, indent) == indent + (FormatNot(x, indent) + ("\n" + indent + "OR ") + FormatNot(y, indent))
            && FormatPrimary(Grouped(Expr(or, span)), indent) ==
               "(\n" + FormatOr(or, indent + "  ") + ("\n" + indent + ")")
  {
    hide *;
    TwoBranches(x, y, span, indent);
    GroupUnfolds(OrExpr([OneTerm(x, span), OneTerm(y, span)], span), span, indent);
  }

  lemma TwoBranches(x: NotExpr, y: NotExpr, span: Span, indent: string)
    ensures FormatOr(OrExpr([OneTerm(x, span), OneTerm(y, span)], span), indent) ==
            indent + (FormatNot(x, indent) + ("\n" + indent + "OR ") + FormatNot(y, indent))
  {
    FormatOneTerm(x, span, indent);
    FormatOneTerm(y, span, indent);
    hide FormatAnd, FormatNot, OneTerm;
    var a, b := OneTerm(x, span), OneTerm(y, span);
    BranchTexts(a, b, indent);
    TwoPieces(FormatAnd(a, indent), FormatAnd(b, indent), OrGlue(indent));
    hide FormatBranches, Join;
  }

  lemma BranchTexts(a: AndExpr, b: AndExpr, indent: string)
    ensures FormatBranches([a, b], indent) == [FormatAnd(a, indent), FormatAnd(b, indent)]
  {
    hide FormatAnd;
    assert [a, b][1..] == [b] && [b][1..] == [];
  }

  lemma TwoPieces(a: string, b: string, glue: string)
    ensures Join([a, b], glue) == a + glue + b
  {
    assert [a, b][1..] == [b];
  }

  lemma GroupUnfolds(or: OrExpr, span: Span, indent: string)
    requires |or.branches| > 1
    ensures FormatPrimary(Grouped(Expr(or, span)), indent) ==
               "(\n" + FormatOr(or, indent + "  ") + ("\n" + indent + ")")
  {
    hide FormatOr;
    var s := FormatOr(or, indent + "  ");
    assert "(" + "\n" + s + ("\n" + indent) + ")" == "(\n" + s + ("\n" + indent + ")");
  }

  /** A leaf and a group with a choice, neither leaf with a line break: the group opens on a line of its own. */
  lemma GroupLayout(a: Fragment, b: Fragment, c: Fragment, span: Span)
    requires !Breaks(Render(a)) && !Breaks(Render(b)) && !Breaks(Render(c))
    ensures var x, y, z := LeafTerm(a, "", span), LeafTerm(b, "", span), LeafTerm(c, "", span);
            var group := Prim(Grouped(Expr(OrExpr([OneTerm(y, span), OneTerm(z, span)], span), span)));
            FormatAnd(AndExpr([x, group], span), "") ==
            Render(a) + "\nAND " + ("(\n" + ("  " + (Render(b) + "\n  OR " + Render(c))) + "\n)")
  {
    var x, y, z := LeafTerm(a, "", span), LeafTerm(b, "", span), LeafTerm(c, "", span);
    var or := OrExpr([OneTerm(y, span), OneTerm(z, span)], span);
    var group := Prim(Grouped(Expr(or, span)));
    hide *;
    NoBreak();
    GroupUnfolds(or, span, "");
    TwoBranches(y, z, span, "  ");
    LeafText(b, "", span, "  ");
    LeafText(c, "", span, "  ");
    LeafText(a, "", span, "");
    AndBreaks(AndExpr([x, group], span), "");
    ChoiceIsTall(x, group, or, span);
    TwoTerms(x, group, "");
    GroupText(or, span, "");
    Indented();
  }

  lemma LeafText(fragment: Fragment, text: string, span: Span, indent: string)
    ensures FormatNot(LeafTerm(fragment, text, span), indent) == Render(fragment)
  {
    hide Render;
  }

  lemma GroupText(or: OrExpr, span: Span, indent: string)
    ensures FormatNot(Prim(Grouped(Expr(or, span))), indent) == FormatPrimary(Grouped(Expr(or, span)), indent)
  {
    hide FormatOr;
  }

  lemma ChoiceIsTall(x: NotExpr, group: NotExpr, or: OrExpr, span: Span)
    requires |or.branches| > 1 && group == Prim(Grouped(Expr(or, span)))
    ensures TallAnd(AndExpr([x, group], span))
  {
    assert TallOr(or) && TallNot(group);
    assert [x, group][1] == group;
    hide TallNot;
  }

  lemma Indented()
    ensures "" + "  " == "  " && "\n" + "  " + "OR " == "\n  OR " && "\n" + "" + ")" == "\n)"
  {
  }

  lemma TwoTerms(x: NotExpr, y: NotExpr, indent: string)
    ensures Join(FormatTerms([x, y], indent), "\nAND ") == FormatNot(x, indent) + "\nAND " + FormatNot(y, indent)
  {
    TermTexts(x, y, indent);
    hide FormatTerms;
    TwoPieces(FormatNot(x, indent), FormatNot(y, indent), "\nAND ");
  }

  lemma TermTexts(x: NotExpr, y: NotExpr, indent: string)
    ensures FormatTerms([x, y], indent) == [FormatNot(x, indent), FormatNot(y, indent)]
  {
    hide FormatNot;
    assert [x, y][1..] == [y] && [y][1..] == [];
    assert FormatTerms([y], indent) == [FormatNot(y, indent)] + FormatTerms([], indent);
  }
}
