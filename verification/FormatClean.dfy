/** Formatted text is clean: trimmed, balanced, free of comments and of stray top-level keywords. */
module FormatClean {
  import opened Wrappers
  import opened Text
  import opened DslAst
  import opened ExprSplit
  import opened ExprParser
  import opened PaddedSplit
  import opened Format

  const BOTH: set<LogicOp> := {And, Or}

  /** A text that the parser hands to the leaf grammar. */
  ghost predicate CleanLeaf(t: string) {
    Clean(t, BOTH) && t[0] != '(' && !IsNotPrefix(t) && !IsBareNot(t)
  }

  // ---- Trees whose leaves print as leaves that parse back ----

  ghost predicate LeafPrints(g: LeafGrammar, fragment: Fragment) {
    CleanLeaf(Render(fragment)) && g(Render(fragment)) == Accepted(fragment)
  }

  ghost predicate GoodOr(g: LeafGrammar, or: OrExpr) {
    or.branches != [] && forall i | 0 <= i < |or.branches| :: GoodAnd(g, or.branches[i])
  }

  ghost predicate GoodAnd(g: LeafGrammar, and: AndExpr) {
    and.terms != [] && forall i | 0 <= i < |and.terms| :: GoodNot(g, and.terms[i])
  }

  ghost predicate GoodNot(g: LeafGrammar, n: NotExpr) {
    match n
    case Not(inner, _) => GoodNot(g, inner)
    case Prim(Leaf(fragment, _, _)) => LeafPrints(g, fragment)
    case Prim(Grouped(expr)) => GoodOr(g, expr.or)
  }

  // ---- Putting clean texts together ----

  ghost predicate CleanGlue(s: string, ops: set<LogicOp>) {
    && s != "" && IsSpace(s[0]) && IsSpace(s[|s| - 1])
    && Masked(s) && Balanced(s) && forall op | op in ops :: Quiet(s, op)
  }

  lemma CleanConcat(a: string, glue: string, b: string, ops: set<LogicOp>)
    requires Clean(a, ops) && CleanGlue(glue, ops) && Clean(b, ops)
    ensures Clean(a + glue + b, ops)
  {
    hide Balanced, Quiet;
    assert Edge(a + glue, |a|) && Edge(a + glue + b, |a + glue|);
    QuietConcat(a, glue, And);
    QuietConcat(a + glue, b, And);
    forall op | op in ops ensures Quiet(a + glue + b, op) {
      QuietConcat(a, glue, op);
      QuietConcat(a + glue, b, op);
    }
  }

  lemma {:induction false} JoinClean(pieces: seq<string>, glue: string, ops: set<LogicOp>)
    requires pieces != [] && AllClean(pieces, ops) && CleanGlue(glue, ops)
    ensures Clean(Join(pieces, glue), ops)
  {
    hide Clean, CleanGlue;
    if |pieces| > 1 {
      JoinClean(pieces[1..], glue, ops);
      CleanConcat(pieces[0], glue, Join(pieces[1..], glue), ops);
    }
  }

  /** Inside parentheses only the balance matters. */
  lemma ParenClean(x: string)
    requires Balanced(x) && Masked(x)
    ensures Clean("(" + x + ")", BOTH)
  {
    var t := "(" + x + ")";
    LevelSteps("(", 0);
    LevelSteps(")", 0);
    LevelsOfConcat("(" + x, ")");
    LevelsOfConcat("(", x);
    NetConcat("(", x);
    hide Level, MatchesKeyword;
    assert forall k | 1 <= k <= |x| + 1 :: Level(t, k) == 1 + Level(x, k - 1);
    forall op, k: nat | MatchesKeyword(t, k, op) ensures k < |t| && IsAlnum(t[k]) {
      KeywordIsLetters(t, op, k);
    }
  }

  lemma QuietWithout(s: string, op: LogicOp, j: nat)
    requires j < |Keyword(op)|
    requires forall c | c in s :: LowerChar(c) != LowerChar(Keyword(op)[j])
    ensures Quiet(s, op)
  {
    forall k: nat | MatchesKeyword(s, k, op)
      ensures k + j < |s| && LowerChar(s[k + j]) == LowerChar(Keyword(op)[j])
    {
      var n := |Keyword(op)|;
      assert Lower(s[k..k + n])[j] == Lower(Keyword(op))[j];
    }
    hide MatchesKeyword;
  }

  lemma AndGlueClean(parts: seq<string>)
    ensures CleanGlue(AndGlue(parts), {Or})
  {
    var s := AndGlue(parts);
    FlatBalanced(s);
    QuietWithout(s, Or, 1);
    hide Balanced, Quiet;
  }

  lemma OrGlueClean(indent: string)
    requires Blank(indent)
    ensures CleanGlue(OrGlue(indent), {})
  {
    var s := OrGlue(indent);
    assert forall c | c in s :: c in indent || c in "\nOR ";
    FlatBalanced(s);
    hide Balanced, Quiet;
  }

  lemma NotClean(x: string)
    requires Clean(x, BOTH)
    ensures Clean("NOT " + x, BOTH)
  {
    FlatBalanced("NOT ");
    QuietWithout("NOT ", And, 0);
    QuietWithout("NOT ", Or, 1);
    assert Edge("NOT " + x, |"NOT "|);
    hide Balanced, Quiet;
    QuietConcat("NOT ", x, And);
    QuietConcat("NOT ", x, Or);
  }

  // ---- Formatted text is clean ----

  /** What `FormatOr` prints after the indent. */
  function Body(or: OrExpr, indent: string): string {
    Join(FormatBranches(or.branches, indent), OrGlue(indent))
  }

  lemma BalancedConcat3(a: string, b: string, c: string)
    requires Blank(a) && Blank(c) && Balanced(b) && Masked(b)
    ensures Balanced(a + b + c) && Masked(a + b + c)
  {
    BlankIsLevel(a);
    BlankIsLevel(c);
    hide Balanced, Quiet;
    assert Edge(a + b, |a|) && Edge(a + b + c, |a + b|);
    QuietConcat(a, b, And);
    QuietConcat(a + b, c, And);
  }

  lemma {:induction false} OrIsClean(g: LeafGrammar, or: OrExpr, indent: string)
    requires GoodOr(g, or) && Blank(indent)
    ensures Clean(Body(or, indent), {}) && FormatOr(or, indent) == indent + Body(or, indent)
    decreases or, 3
  {
    BranchesAreClean(g, or.branches, indent);
    OrGlueClean(indent);
    hide Clean, CleanGlue, GoodAnd, FormatBranches;
    CleanDrops(FormatBranches(or.branches, indent));
    JoinClean(FormatBranches(or.branches, indent), OrGlue(indent), {});
  }

  lemma CleanDrops(pieces: seq<string>)
    requires AllClean(pieces, {Or})
    ensures AllClean(pieces, {})
  {
  }

  lemma {:induction false} BranchesAreClean(g: LeafGrammar, branches: seq<AndExpr>, indent: string)
    requires (forall i | 0 <= i < |branches| :: GoodAnd(g, branches[i])) && Blank(indent)
    ensures AllClean(FormatBranches(branches, indent), {Or})
    decreases branches, 2
  {
    hide Clean, GoodAnd, FormatAnd, Blank;
    if branches != [] {
      assert GoodAnd(g, branches[0]);
      AndIsClean(g, branches[0], indent);
      BranchesAreClean(g, branches[1..], indent);
    }
  }

  lemma {:induction false} AndIsClean(g: LeafGrammar, and: AndExpr, indent: string)
    requires GoodAnd(g, and) && Blank(indent)
    ensures Clean(FormatAnd(and, indent), {Or})
    decreases and, 1
  {
    var parts := FormatTerms(and.terms, indent);
    TermsAreClean(g, and.terms, indent);
    AndGlueClean(parts);
    CleanNarrows(parts);
    hide Clean, CleanGlue, GoodNot, FormatTerms, AndGlue;
    JoinClean(parts, AndGlue(parts), {Or});
  }

  lemma CleanNarrows(pieces: seq<string>)
    requires AllClean(pieces, BOTH)
    ensures AllClean(pieces, {Or}) && AllClean(pieces, {And})
  {
  }

  lemma {:induction false} TermsAreClean(g: LeafGrammar, terms: seq<NotExpr>, indent: string)
    requires (forall i | 0 <= i < |terms| :: GoodNot(g, terms[i])) && Blank(indent)
    ensures AllClean(FormatTerms(terms, indent), BOTH)
    decreases terms, 0
  {
    hide Clean, GoodNot, FormatNot, Blank;
    if terms != [] {
      assert GoodNot(g, terms[0]);
      NotIsClean(g, terms[0], indent);
      TermsAreClean(g, terms[1..], indent);
    }
  }

  lemma {:induction false} NotIsClean(g: LeafGrammar, n: NotExpr, indent: string)
    requires GoodNot(g, n) && Blank(indent)
    ensures Clean(FormatNot(n, indent), BOTH)
    decreases n, 0
  {
    match n
    case Not(inner, _) =>
      NotIsClean(g, inner, indent);
      NotClean(FormatNot(inner, indent));
    case Prim(Leaf(fragment, _, _)) =>
    case Prim(Grouped(expr)) =>
      GroupText(g, expr, indent);
      var deeper := DeeperIndent(expr, indent);
      OrIsClean(g, expr.or, deeper);
      var body := Body(expr.or, deeper);
      hide Body, FormatOr, GoodOr, Balanced, Quiet;
      BalancedConcat3(Lead(expr, indent), body, Trail(expr, indent));
      ParenClean(Lead(expr, indent) + body + Trail(expr, indent));
  }

  // ---- Groups ----

  function DeeperIndent(expr: Expr, indent: string): string {
    if |expr.or.branches| > 1 then indent + "  " else ""
  }

  function Lead(expr: Expr, indent: string): string {
    if |expr.or.branches| > 1 then "\n" + DeeperIndent(expr, indent) else ""
  }

  function Trail(expr: Expr, indent: string): string {
    if |expr.or.branches| > 1 then "\n" + indent else ""
  }

  /** A group prints as its body between blanks, in parentheses. */
  lemma GroupText(g: LeafGrammar, expr: Expr, indent: string)
    requires GoodOr(g, expr.or) && Blank(indent)
    ensures var deeper := DeeperIndent(expr, indent);
            && Blank(deeper) && Blank(Lead(expr, indent)) && Blank(Trail(expr, indent))
            && FormatPrimary(Grouped(expr), indent) ==
               "(" + (Lead(expr, indent) + Body(expr.or, deeper) + Trail(expr, indent)) + ")"
  {
    hide GoodAnd, FormatBranches, Join;
    var deeper := DeeperIndent(expr, indent);
    var text := FormatOr(expr.or, deeper);
    assert text == deeper + Body(expr.or, deeper);
    if |expr.or.branches| > 1 {
      assert "(" + "\n" + text + ("\n" + indent) + ")" == "(" + ("\n" + text + ("\n" + indent)) + ")";
      assert "\n" + text == Lead(expr, indent) + Body(expr.or, deeper);
    } else {
      assert "(" + "" + text + "" + ")" == "(" + ("" + text + "") + ")";
    }
  }
}
