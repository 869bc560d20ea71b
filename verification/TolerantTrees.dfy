/** What the error-tolerant parser keeps of a source that does not parse. */
module TolerantTrees {
  import opened Wrappers
  import opened Text
  import opened DslAst
  import opened ExprSplit
  import opened ExprParser
  import opened Masking
  import opened ParserAgreement

  // ---- Terms ----

  /** The first `m` parts, and each of them parses to its term. */
  ghost predicate TermsOf(g: LeafGrammar, parts: seq<Segment>, base: nat, terms: seq<NotExpr>, m: nat) {
    && m <= |parts| && |terms| == m
    && forall i | 0 <= i < m :: ParseNot(g, parts[i].text, base + parts[i].start) == Ok(terms[i])
  }

  /** All parts parse; or the terms are those before the first part that does not, whose error is reported. */
  ghost predicate TermsKept(g: LeafGrammar, parts: seq<Segment>, base: nat, terms: seq<NotExpr>,
                            error: Option<ParseError>)
  {
    && TermsOf(g, parts, base, terms, |terms|)
    && if |terms| == |parts| then error == None
       else
         error.Some? && ParseNot(g, parts[|terms|].text, base + parts[|terms|].start) == Err(error.value)
  }

  /** What is kept of a conjunction: its terms, or none if it cannot even be split. */
  ghost predicate AndKept(g: LeafGrammar, source: string, base: nat, and: AndExpr, error: Option<ParseError>) {
    && and.span == Span(base, base + |source|)
    && match Split(source, And, base, true)
       case Err(e) => and.terms == [] && error == Some(e)
       case Ok(parts) => TermsKept(g, parts, base, and.terms, error)
  }

  lemma {:induction false} TermsAreKept(g: LeafGrammar, parts: seq<Segment>, base: nat)
    ensures var r := ParseTermsPartial(g, parts, base); TermsKept(g, parts, base, r.tree, r.error)
  {
    hide ParseNot;
    if parts != [] {
      TermsAreKept(g, parts[1..], base);
      var r, rest := ParseTermsPartial(g, parts, base), ParseTermsPartial(g, parts[1..], base);
      if ParseNot(g, parts[0].text, base + parts[0].start).Ok? {
        assert forall i | 1 <= i < |r.tree| :: r.tree[i] == rest.tree[i - 1] && parts[i] == parts[1..][i - 1];
      }
    }
  }

  lemma AndIsKept(g: LeafGrammar, source: string, base: nat)
    ensures var r := ParseAndPartial(g, source, base); AndKept(g, source, base, r.tree, r.error)
  {
    hide Split, TermsKept;
    var split := Split(source, And, base, true);
    if split.Ok? {
      TermsAreKept(g, split.value, base);
    }
    hide ParseTermsPartial;
  }

  // ---- Branches ----

  /** The first `k` branches, and each of them is what the strict parser makes of its part. */
  ghost predicate BranchesOf(g: LeafGrammar, parts: seq<Segment>, base: nat, branches: seq<AndExpr>, k: nat) {
    && k <= |parts| && k <= |branches|
    && forall i | 0 <= i < k ::
         branches[i].terms != [] && ParseAnd(g, parts[i].text, base + parts[i].start) == Ok(branches[i])
  }

  /** All parts parse, or one is the first that does not; what is kept of that one follows as a last branch,
      unless that is nothing. */
  ghost predicate BranchesKept(g: LeafGrammar, parts: seq<Segment>, base: nat, branches: seq<AndExpr>,
                               error: Option<ParseError>, k: nat)
  {
    && BranchesOf(g, parts, base, branches, k)
    && if k == |parts| then |branches| == k && error == None
       else
         && error.Some?
         && ParseAnd(g, parts[k].text, base + parts[k].start).Err?
         && LastKept(g, parts[k], base, branches[k..], error)
  }

  ghost predicate LastKept(g: LeafGrammar, part: Segment, base: nat, rest: seq<AndExpr>, error: Option<ParseError>) {
    exists last ::
      AndKept(g, part.text, base + part.start, last, error) && rest == if last.terms == [] then [] else [last]
  }

  ghost predicate OrKept(g: LeafGrammar, source: string, base: nat, or: OrExpr, error: Option<ParseError>) {
    && or.span == Span(base, base + |source|)
    && match Split(source, Or, base, true)
       case Err(e) => or.branches == [] && error == Some(e)
       case Ok(parts) => exists k :: BranchesKept(g, parts, base, or.branches, error, k)
  }

  lemma {:induction false} BranchesAreKept(g: LeafGrammar, parts: seq<Segment>, base: nat) returns (k: nat)
    requires MaskedParts(parts) && BalancedLeaves(g)
    ensures var r := ParseBranchesPartial(g, parts, base); BranchesKept(g, parts, base, r.tree, r.error, k)
  {
    hide ParseAnd, ParseAndPartial, AndKept, BalancedLeaves;
    k := 0;
    if parts != [] {
      var text, start := parts[0].text, base + parts[0].start;
      assert Masked(text);
      AndAgrees(g, text, start);
      AndIsKept(g, text, start);
      var first := ParseAndPartial(g, text, start);
      if first.error.Some? {
        var kept := if first.tree.terms != [] then [first.tree] else [];
        assert kept[0..] == kept;
        assert LastKept(g, parts[0], base, kept, first.error);
      } else {
        ParsedAndHasTerms(g, text, start);
        var n := BranchesAreKept(g, parts[1..], base);
        k := n + 1;
        MoreKept(g, parts, base, first.tree, ParseBranchesPartial(g, parts[1..], base), n);
      }
    }
  }

  lemma MoreKept(g: LeafGrammar, parts: seq<Segment>, base: nat, first: AndExpr, rest: Partial<seq<AndExpr>>, n: nat)
    requires parts != [] && first.terms != []
    requires ParseAnd(g, parts[0].text, base + parts[0].start) == Ok(first)
    requires BranchesKept(g, parts[1..], base, rest.tree, rest.error, n)
    ensures BranchesKept(g, parts, base, [first] + rest.tree, rest.error, n + 1)
  {
    hide ParseAnd, LastKept;
    var all := [first] + rest.tree;
    assert forall i | 1 <= i < |parts| :: parts[i] == parts[1..][i - 1];
    assert forall i | 1 <= i < |all| :: all[i] == rest.tree[i - 1];
    assert all[n + 1..] == rest.tree[n..];
  }

  lemma OrIsKept(g: LeafGrammar, source: string, base: nat)
    requires Masked(source) && BalancedLeaves(g)
    ensures var r := ParseOrPartial(g, source, base); OrKept(g, source, base, r.tree, r.error)
  {
    hide Split, BranchesKept, BalancedLeaves, Masked;
    var split := Split(source, Or, base, true);
    if split.Ok? {
      SplitSlices(source, Or, base, true);
      SlicesMasked(source, split.value);
      var k := BranchesAreKept(g, split.value, base);
    }
    hide ParseBranchesPartial;
  }

  // ---- Documents ----

  /** The trimmed text of a document without its comments, and where it starts. */
  function Content(source: string): string {
    Trim(Mask(source))
  }

  function ContentAt(source: string): nat {
    TrimOffset(Mask(source))
  }

  ghost predicate TreeKept(g: LeafGrammar, text: string, at: nat, tree: Option<Expr>, error: Option<ParseError>) {
    exists or ::
      && OrKept(g, text, at, or, error)
      && tree == if or.branches == [] then None else Some(Expr(or, Span(at, at + |text|)))
  }

  /** What the tolerant parser makes of any document: the branches before the first one that does not parse, as
      the strict parser reads them; then, of that one, the terms before the first that does not parse; and that
      one's error. There is no tree exactly if nothing is left. */
  lemma TolerantTree(g: LeafGrammar, source: string)
    requires BalancedLeaves(g)
    ensures var r := ParseProgramPartial(g, source);
            if Content(source) == "" then r == Partial(Program(None), None)
            else TreeKept(g, Content(source), ContentAt(source), r.tree.expr, r.error)
  {
    hide *;
    PartialUnfolds(g, source);
    if Content(source) != "" {
      ContentMasked(source);
      OrIsKept(g, Content(source), ContentAt(source));
      var r := ParseOrPartial(g, Content(source), ContentAt(source));
      TreeIsKept(g, Content(source), ContentAt(source), r.tree, r.error);
    }
  }

  lemma TreeIsKept(g: LeafGrammar, text: string, at: nat, or: OrExpr, error: Option<ParseError>)
    requires OrKept(g, text, at, or, error)
    ensures TreeKept(g, text, at, if or.branches == [] then None else Some(Expr(or, Span(at, at + |text|))), error)
  {
    hide OrKept;
  }

  lemma PartialUnfolds(g: LeafGrammar, source: string)
    ensures var r, text, at := ParseProgramPartial(g, source), Content(source), ContentAt(source);
            if text == "" then r == Partial(Program(None), None)
            else
              var or := ParseOrPartial(g, text, at);
              && r.error == or.error
              && r.tree.expr == if or.tree.branches == [] then None
                                else Some(Expr(or.tree, Span(at, at + |text|)))
  {
    hide Trim, Mask, TrimOffset, ParseOrPartial;
  }

  lemma ContentMasked(source: string)
    ensures Masked(Content(source))
  {
    MaskBlanksComments(source);
    MaskedTrim(Mask(source));
    hide Trim, Mask;
  }

  predicate StartsWithTerm(tree: Option<Expr>, first: NotExpr) {
    && tree.Some? && tree.value.or.branches != [] && tree.value.or.branches[0].terms != []
    && tree.value.or.branches[0].terms[0] == first
  }

  /** A document whose first term parses never leaves an editor without a tree: the term is in it. */
  lemma FirstTermIsKept(g: LeafGrammar, source: string, parts: seq<Segment>, terms: seq<Segment>, first: NotExpr)
    requires BalancedLeaves(g) && Content(source) != ""
    requires Split(Content(source), Or, ContentAt(source), true) == Ok(parts)
    requires parts != [] && Split(parts[0].text, And, ContentAt(source) + parts[0].start, true) == Ok(terms)
    requires terms != []
    requires ParseNot(g, terms[0].text, ContentAt(source) + parts[0].start + terms[0].start) == Ok(first)
    ensures StartsWithTerm(ParseProgramPartial(g, source).tree.expr, first)
  {
    hide *;
    var base := ContentAt(source);
    TolerantTree(g, source);
    var or := KeptOr(g, Content(source), base, ParseProgramPartial(g, source).tree.expr,
                     ParseProgramPartial(g, source).error);
    FirstOfKept(g, Content(source), base, or, ParseProgramPartial(g, source).error, parts, terms, first);
    StartsWithFirst(or, ParseProgramPartial(g, source).tree.expr, first);
  }

  lemma StartsWithFirst(or: OrExpr, tree: Option<Expr>, first: NotExpr)
    requires or.branches != [] && or.branches[0].terms != [] && or.branches[0].terms[0] == first
    requires tree.Some? && tree.value.or == or
    ensures StartsWithTerm(tree, first)
  {
  }

  lemma KeptOr(g: LeafGrammar, text: string, at: nat, tree: Option<Expr>, error: Option<ParseError>)
    returns (or: OrExpr)
    requires TreeKept(g, text, at, tree, error)
    ensures OrKept(g, text, at, or, error)
    ensures tree == if or.branches == [] then None else Some(Expr(or, Span(at, at + |text|)))
  {
    hide OrKept;
    or :| OrKept(g, text, at, or, error)
          && tree == if or.branches == [] then None else Some(Expr(or, Span(at, at + |text|)));
  }

  lemma FirstOfKept(g: LeafGrammar, source: string, base: nat, or: OrExpr, error: Option<ParseError>,
                    parts: seq<Segment>, terms: seq<Segment>, first: NotExpr)
    requires OrKept(g, source, base, or, error) && Split(source, Or, base, true) == Ok(parts) && parts != []
    requires Split(parts[0].text, And, base + parts[0].start, true) == Ok(terms) && terms != []
    requires ParseNot(g, terms[0].text, base + parts[0].start + terms[0].start) == Ok(first)
    ensures or.branches != [] && or.branches[0].terms != [] && or.branches[0].terms[0] == first
  {
    hide ParseNot, ParseAnd, Split, AndKept;
    var k :| BranchesKept(g, parts, base, or.branches, error, k);
    if k == 0 {
      assert or.branches[0..] == or.branches;
      var last :| AndKept(g, parts[0].text, base + parts[0].start, last, error)
                  && or.branches == if last.terms == [] then [] else [last];
      hide BranchesKept, LastKept;
      FirstOfAnd(g, parts[0].text, base + parts[0].start, last, error, terms, first);
    } else {
      FirstOfParsed(g, parts[0].text, base + parts[0].start, terms, or.branches[0]);
    }
  }

  lemma FirstOfAnd(g: LeafGrammar, source: string, base: nat, and: AndExpr, error: Option<ParseError>,
                   terms: seq<Segment>, first: NotExpr)
    requires AndKept(g, source, base, and, error) && Split(source, And, base, true) == Ok(terms) && terms != []
    requires ParseNot(g, terms[0].text, base + terms[0].start) == Ok(first)
    ensures and.terms != [] && and.terms[0] == first
  {
    hide ParseNot, Split;
  }

  /** A strict conjunction starts with the first term of the tolerant split. */
  lemma FirstOfParsed(g: LeafGrammar, source: string, base: nat, terms: seq<Segment>, and: AndExpr)
    requires ParseAnd(g, source, base) == Ok(and) && Split(source, And, base, true) == Ok(terms) && terms != []
    ensures and.terms != [] && ParseNot(g, terms[0].text, base + terms[0].start) == Ok(and.terms[0])
  {
    StrictIsTolerant(source, And, base);
    SplitSlices(source, And, base, false);
    hide Split, ParseNot;
  }

  lemma StrictIsTolerant(s: string, op: LogicOp, base: nat)
    ensures Split(s, op, base, false).Ok? ==> Split(s, op, base, true) == Split(s, op, base, false)
  {
    hide Scan, Push;
  }
}
