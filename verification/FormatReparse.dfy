/** Formatted text parses back to the tree it was printed from. */
module FormatReparse {
  import opened Wrappers
  import opened Text
  import opened DslAst
  import opened ExprSplit
  import opened ExprParser
  import opened PaddedSplit
  import opened Format
  import opened FormatClean

  // ---- The same tree up to spans, with leaves read from their printed text ----

  ghost predicate SameOr(a: OrExpr, b: OrExpr) {
    SameBranches(a.branches, b.branches)
  }

  ghost predicate SameBranches(a: seq<AndExpr>, b: seq<AndExpr>) {
    |a| == |b| && forall i | 0 <= i < |a| :: SameAnd(a[i], b[i])
  }

  ghost predicate SameAnd(a: AndExpr, b: AndExpr) {
    SameTerms(a.terms, b.terms)
  }

  ghost predicate SameTerms(a: seq<NotExpr>, b: seq<NotExpr>) {
    |a| == |b| && forall i | 0 <= i < |a| :: SameNot(a[i], b[i])
  }

  ghost predicate SameNot(a: NotExpr, b: NotExpr) {
    match (a, b)
    case (Not(x, _), Not(y, _)) => SameNot(x, y)
    case (Prim(Leaf(f, _, _)), Prim(Leaf(f', text', _))) => f == f' && text' == Render(f)
    case (Prim(Grouped(x)), Prim(Grouped(y))) => SameOr(x.or, y.or)
    case _ => false
  }

  // ---- Terms ----

  lemma ParseNotTrims(g: LeafGrammar, source: string, base: nat)
    requires !Blank(source)
    ensures ParseNot(g, source, base) == ParseNot(g, Trim(source), base + TrimOffset(source))
  {
    hide Trim, TrimOffset, ParsePrimary, EqIgnoreCase, Blank;
    TrimIdempotent(source);
    TrimNotEmpty(source);
  }

  lemma TrimNotEmpty(s: string)
    requires !Blank(s)
    ensures Trim(s) != ""
  {
  }

  lemma TrimPadded(pre: string, t: string, post: string)
    requires Blank(pre) && Blank(post) && t != "" && Trimmed(t)
    ensures !Blank(pre + t + post) && Trim(pre + t + post) == t && TrimOffset(pre + t + post) == |pre|
    ensures Trim(t) == t && TrimOffset(t) == 0
  {
    PieceNotBlank(pre, t, post);
    TrimUnique(pre, t, post);
    TrimUnique("", t, "");
    assert "" + t + "" == t;
  }

  lemma NegationParses(g: LeafGrammar, x: string, start: nat)
    requires x != "" && Trim("NOT " + x) == "NOT " + x && TrimOffset("NOT " + x) == 0
    ensures match ParseNot(g, x, start + 4)
            case Ok(inner) =>
              ParseNot(g, "NOT " + x, start) == Ok(Not(inner, Span(start, start + |"NOT " + x|)))
            case Err(_) => true
  {
    hide Trim, TrimOffset, ParsePrimary;
    var t := "NOT " + x;
    assert t[..4] == "NOT " && t[4..] == x;
    assert t != "" && IsNotPrefix(t);
  }

  lemma LeafParses(g: LeafGrammar, t: string, start: nat, fragment: Fragment)
    requires t != "" && Trim(t) == t && TrimOffset(t) == 0 && g(t) == Accepted(fragment)
    requires t[0] != '(' && !IsNotPrefix(t) && !IsBareNot(t)
    ensures ParseNot(g, t, start) == Ok(Prim(Leaf(fragment, t, Span(start, start + |t|))))
  {
    hide Trim, TrimOffset, IsNotPrefix, IsBareNot;
  }

  lemma ParenIsNoNot(t: string)
    requires t != "" && t[0] == '('
    ensures !IsNotPrefix(t) && !IsBareNot(t)
  {
    assert |t| >= 4 ==> Lower(t[..4])[0] == '(';
    assert |t| >= 3 ==> Lower(t[..3])[0] == '(';
  }

  lemma GroupParses(g: LeafGrammar, y: string, start: nat)
    requires var t := "(" + y + ")"; Trim(t) == t && TrimOffset(t) == 0
    requires ParseExpr(g, y, start + 1).Ok? && ParseExpr(g, y, start + 1).value.Some?
    ensures ParseNot(g, "(" + y + ")", start) == Ok(Prim(Grouped(ParseExpr(g, y, start + 1).value.value)))
  {
    hide Trim, TrimOffset, ParseExpr, IsNotPrefix, IsBareNot;
    var t := "(" + y + ")";
    assert t[1..|t| - 1] == y && t[0] == '(' && IsParenthesized(t);
    ParenIsNoNot(t);
    assert ParseGrouped(g, t, start) == Ok(ParseExpr(g, y, start + 1).value.value);
  }

  lemma PaddedExprParses(g: LeafGrammar, pre: string, body: string, post: string, base: nat)
    requires Blank(pre) && Blank(post) && body != "" && Trimmed(body)
    ensures match ParseOr(g, body, base + |pre|)
            case Ok(or) =>
              ParseExpr(g, pre + body + post, base) ==
              Ok(Some(Expr(or, Span(base + |pre|, base + |pre| + |body|))))
            case Err(_) => true
  {
    hide Trim, TrimOffset, ParseOr, Blank, Trimmed;
    TrimPadded(pre, body, post);
  }

  lemma {:induction false} NotReparses(g: LeafGrammar, n: NotExpr, indent: string, pre: string, post: string, base: nat)
    requires GoodNot(g, n) && Blank(indent) && Blank(pre) && Blank(post)
    ensures var r := ParseNot(g, pre + FormatNot(n, indent) + post, base);
            r.Ok? && SameNot(n, r.value)
    decreases n, 1
  {
    hide ParseNot, FormatNot, GoodNot, SameNot, Blank, Balanced, Quiet, Trim, TrimOffset;
    NotIsClean(g, n, indent);
    TrimPadded(pre, FormatNot(n, indent), post);
    ParseNotTrims(g, pre + FormatNot(n, indent) + post, base);
    TrimmedReparses(g, n, indent, base + |pre|);
  }

  lemma {:induction false} TrimmedReparses(g: LeafGrammar, n: NotExpr, indent: string, start: nat)
    requires GoodNot(g, n) && Blank(indent)
    requires var t := FormatNot(n, indent); t != "" && Trim(t) == t && TrimOffset(t) == 0
    ensures var r := ParseNot(g, FormatNot(n, indent), start);
            r.Ok? && SameNot(n, r.value)
    decreases n, 0
  {
    hide ParseNot, Blank, Trim, TrimOffset, Clean, IsNotPrefix, IsBareNot, GoodOr, SameOr, FormatOr;
    match n
    case Not(inner, _) =>
      var x := FormatNot(inner, indent);
      NotIsClean(g, inner, indent);
      CleanIsTrimmed(x, BOTH);
      NothingIsBlank();
      NotReparses(g, inner, indent, "", "", start + 4);
      assert "" + x + "" == x;
      NegationParses(g, x, start);
    case Prim(Leaf(fragment, _, _)) =>
      LeafParses(g, Render(fragment), start, fragment);
    case Prim(Grouped(expr)) =>
      GroupReparses(g, expr, indent, start);
  }

  lemma {:induction false} GroupReparses(g: LeafGrammar, expr: Expr, indent: string, start: nat)
    requires GoodOr(g, expr.or) && Blank(indent)
    requires var t := FormatPrimary(Grouped(expr), indent); Trim(t) == t && TrimOffset(t) == 0
    ensures match ParseNot(g, FormatPrimary(Grouped(expr), indent), start)
            case Ok(Prim(Grouped(expr'))) => SameOr(expr.or, expr'.or)
            case _ => false
    decreases expr, 0
  {
    hide *;
    var deeper := DeeperIndent(expr, indent);
    var lead, body, trail := Lead(expr, indent), Body(expr.or, deeper), Trail(expr, indent);
    GroupText(g, expr, indent);
    OrIsClean(g, expr.or, deeper);
    CleanIsTrimmed(body, {});
    OrReparses(g, expr.or, deeper, start + 1 + |lead|);
    PaddedExprParses(g, lead, body, trail, start + 1);
    GroupParses(g, lead + body + trail, start);
  }

  lemma CleanIsTrimmed(t: string, ops: set<LogicOp>)
    requires Clean(t, ops)
    ensures t != "" && Trimmed(t)
  {
  }

  lemma NothingIsBlank()
    ensures Blank("")
  {
  }

  // ---- Conjunctions ----

  function AndPadding(parts: seq<string>): Glue {
    Glue(if exists i | 0 <= i < |parts| :: '\n' in parts[i] then "\n" else " ", And, " ")
  }

  lemma AndPaddingIsGlue(parts: seq<string>)
    ensures AndPadding(parts).Valid() && AndPadding(parts).Text() == AndGlue(parts)
    ensures AndPadding(parts).op == And
  {
  }

  lemma CleanIsQuiet(pieces: seq<string>, op: LogicOp)
    requires AllClean(pieces, {op})
    ensures AllQuiet(pieces, op)
  {
    hide Balanced, Quiet, Trimmed, Masked;
  }

  lemma {:induction false} AndReparses(g: LeafGrammar, and: AndExpr, indent: string, pre: string, post: string,
                                       base: nat)
    requires GoodAnd(g, and) && Blank(indent) && Blank(pre) && Blank(post)
    ensures var r := ParseAnd(g, pre + FormatAnd(and, indent) + post, base);
            r.Ok? && SameAnd(and, r.value)
    decreases and, 2
  {
    var parts := FormatTerms(and.terms, indent);
    var glue := AndPadding(parts);
    assert and.terms != [] && forall i | 0 <= i < |and.terms| :: GoodNot(g, and.terms[i]);
    assert FormatAnd(and, indent) == Join(parts, AndGlue(parts));
    hide GoodNot, GoodAnd, FormatAnd, FormatTerms, AndGlue, AndPadding, Blank, Padded, Cutouts, AllClean, AllQuiet,
      Split, ParseTerms, SameTerms, Join;
    AndPaddingIsGlue(parts);
    TermsAreClean(g, and.terms, indent);
    CleanNarrows(parts);
    CleanIsQuiet(parts, And);
    var s := Padded(pre, parts, glue, post);
    PaddedIsJoin(pre, parts, glue, post);
    SplitPadded(pre, parts, glue, post, base);
    CutoutsFit(0, pre, parts, glue, post);
    TermsReparse(g, and.terms, indent, 0, pre, glue, post, |s|, base);
  }

  lemma {:induction false} TermsReparse(g: LeafGrammar, terms: seq<NotExpr>, indent: string, at: nat, pre: string,
                                        glue: Glue, post: string, limit: nat, base: nat)
    requires terms != [] && (forall i | 0 <= i < |terms| :: GoodNot(g, terms[i]))
    requires Blank(indent) && Blank(pre) && Blank(post) && glue.Valid()
    requires Within(Cutouts(at, pre, FormatTerms(terms, indent), glue, post), limit)
    ensures var r := ParseTerms(g, limit, Cutouts(at, pre, FormatTerms(terms, indent), glue, post), base);
            r.Ok? && SameTerms(terms, r.value)
    decreases terms, 1
  {
    hide GoodNot, Blank, FormatNot, ParseNot, SameNot;
    var pieces := FormatTerms(terms, indent);
    var cut := Cutouts(at, pre, pieces, glue, post);
    assert pieces[0] == FormatNot(terms[0], indent);
    if |terms| == 1 {
      NotReparses(g, terms[0], indent, pre, post, base + at);
      assert cut[1..] == [];
    } else {
      assert glue.Valid() && Blank(glue.left) && Blank(glue.right) by { hide Blank; }
      var next := at + |pre + pieces[0] + glue.left| + |Keyword(glue.op)|;
      NotReparses(g, terms[0], indent, pre, glue.left, base + at);
      assert pieces[1..] == FormatTerms(terms[1..], indent);
      assert cut[1..] == Cutouts(next, glue.right, pieces[1..], glue, post);
      WithinRest(cut, limit);
      TermsReparse(g, terms[1..], indent, next, glue.right, glue, post, limit, base);
    }
  }

  // ---- Disjunctions ----

  lemma OrPaddingIsGlue(indent: string)
    requires Blank(indent)
    ensures Glue("\n" + indent, Or, " ").Valid() && Glue("\n" + indent, Or, " ").Text() == OrGlue(indent)
  {
    assert "\n" + indent + "OR" + " " == "\n" + indent + "OR ";
  }

  lemma {:induction false} OrReparses(g: LeafGrammar, or: OrExpr, indent: string, base: nat)
    requires GoodOr(g, or) && Blank(indent)
    ensures var r := ParseOr(g, Body(or, indent), base);
            r.Ok? && SameOr(or, r.value)
    decreases or, 4
  {
    var parts := FormatBranches(or.branches, indent);
    var glue := Glue("\n" + indent, Or, " ");
    assert or.branches != [] && forall i | 0 <= i < |or.branches| :: GoodAnd(g, or.branches[i]);
    assert Body(or, indent) == Join(parts, OrGlue(indent));
    assert Blank("");
    hide GoodAnd, GoodOr, Body, FormatBranches, OrGlue, Blank, Padded, Cutouts, AllClean, AllQuiet, Split,
      ParseBranches, SameBranches, Join;
    OrPaddingIsGlue(indent);
    BranchesAreClean(g, or.branches, indent);
    CleanIsQuiet(parts, Or);
    var s := Padded("", parts, glue, "");
    PaddedIsJoin("", parts, glue, "");
    assert "" + Join(parts, OrGlue(indent)) + "" == Join(parts, OrGlue(indent));
    SplitPadded("", parts, glue, "", base);
    CutoutsFit(0, "", parts, glue, "");
    BranchesReparse(g, or.branches, indent, 0, "", glue, "", |s|, base);
  }

  lemma {:induction false} BranchesReparse(g: LeafGrammar, branches: seq<AndExpr>, indent: string, at: nat, pre: string,
                                           glue: Glue, post: string, limit: nat, base: nat)
    requires branches != [] && (forall i | 0 <= i < |branches| :: GoodAnd(g, branches[i]))
    requires Blank(indent) && Blank(pre) && Blank(post) && glue.Valid()
    requires Within(Cutouts(at, pre, FormatBranches(branches, indent), glue, post), limit)
    ensures var r := ParseBranches(g, limit, Cutouts(at, pre, FormatBranches(branches, indent), glue, post), base);
            r.Ok? && SameBranches(branches, r.value)
    decreases branches, 3
  {
    hide GoodAnd, Blank, FormatAnd, ParseAnd, SameAnd;
    var pieces := FormatBranches(branches, indent);
    var cut := Cutouts(at, pre, pieces, glue, post);
    assert pieces[0] == FormatAnd(branches[0], indent);
    if |branches| == 1 {
      AndReparses(g, branches[0], indent, pre, post, base + at);
      assert cut[1..] == [];
    } else {
      var next := at + |pre + pieces[0] + glue.left| + |Keyword(glue.op)|;
      AndReparses(g, branches[0], indent, pre, glue.left, base + at);
      assert pieces[1..] == FormatBranches(branches[1..], indent);
      assert cut[1..] == Cutouts(next, glue.right, pieces[1..], glue, post);
      WithinRest(cut, limit);
      BranchesReparse(g, branches[1..], indent, next, glue.right, glue, post, limit, base);
    }
  }
}
