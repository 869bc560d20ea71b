/** Source spans: every node of a parsed tree stands for the slice of text it was parsed from. */
module ParserSpans {
  import opened Wrappers
  import opened Text
  import opened DslAst
  import opened ExprSplit
  import opened ExprParser
  import opened Masking

  predicate Within(span: Span, lo: nat, hi: nat) {
    lo <= span.start <= span.end <= hi
  }

  function Slice(full: string, span: Span): string
    requires span.start <= span.end <= |full|
  {
    full[span.start..span.end]
  }

  /** The node lies between `lo` and `hi`, parsing its slice at its offset gives the node again, and
      its children lie inside its span, in order and without overlap. */
  ghost predicate ExprAt(g: LeafGrammar, full: string, e: Expr, lo: nat, hi: nat)
    requires hi <= |full|
  {
    && Within(e.span, lo, hi)
    && ParseExpr(g, Slice(full, e.span), e.span.start) == Ok(Some(e))
    && e.or.span == e.span
    && OrAt(g, full, e.or)
  }

  ghost predicate OrAt(g: LeafGrammar, full: string, or: OrExpr) {
    && Within(or.span, 0, |full|)
    && ParseOr(g, Slice(full, or.span), or.span.start) == Ok(or)
    && BranchesAt(g, full, or.branches, or.span.start, or.span.end)
  }

  ghost predicate BranchesAt(g: LeafGrammar, full: string, branches: seq<AndExpr>, lo: nat, hi: nat)
    requires hi <= |full|
  {
    branches != [] ==>
      && Within(branches[0].span, lo, hi)
      && AndAt(g, full, branches[0])
      && BranchesAt(g, full, branches[1..], branches[0].span.end, hi)
  }

  ghost predicate AndAt(g: LeafGrammar, full: string, and: AndExpr) {
    && Within(and.span, 0, |full|)
    && ParseAnd(g, Slice(full, and.span), and.span.start) == Ok(and)
    && TermsAt(g, full, and.terms, and.span.start, and.span.end)
  }

  ghost predicate TermsAt(g: LeafGrammar, full: string, terms: seq<NotExpr>, lo: nat, hi: nat)
    requires hi <= |full|
  {
    terms != [] ==>
      exists mid :: lo <= mid <= hi
        && NotAt(g, full, terms[0], lo, mid)
        && TermsAt(g, full, terms[1..], mid, hi)
  }

  ghost predicate NotAt(g: LeafGrammar, full: string, n: NotExpr, lo: nat, hi: nat)
    requires hi <= |full|
  {
    match n
    case Not(inner, span) =>
      && Within(span, lo, hi)
      && ParseNot(g, Slice(full, span), span.start) == Ok(n)
      && NotAt(g, full, inner, span.start, span.end)
    case Prim(Leaf(fragment, text, span)) =>
      && Within(span, lo, hi)
      && Slice(full, span) == text
      && ParseNot(g, Slice(full, span), span.start) == Ok(n)
    case Prim(Grouped(expr)) =>
      && lo < expr.span.start && expr.span.end < hi
      && ExprAt(g, full, expr, lo, hi)
  }

  /** `source` is the part of `full` that starts at `base`. */
  predicate Placed(full: string, source: string, base: nat) {
    base + |source| <= |full| && full[base..base + |source|] == source
  }

  lemma PlacedWhole(full: string)
    ensures Placed(full, full, 0)
  {
  }

  lemma PlacedPart(full: string, source: string, base: nat, start: nat, end: nat)
    requires Placed(full, source, base) && start <= end <= |source|
    ensures Placed(full, source[start..end], base + start)
  {
    SliceOfSlice(full, base, base + |source|, start, end);
  }

  lemma PlacedTrim(full: string, source: string, base: nat)
    requires Placed(full, source, base) && !Blank(source)
    ensures Trim(source) != ""
    ensures var t, k := Trim(source), base + TrimOffset(source);
            Placed(full, t, k) && base <= k && k + |t| <= base + |source| && Trim(t) == t && TrimOffset(t) == 0
  {
    hide *;
    TrimSplits(source);
    TrimIdempotent(source);
    var k := TrimOffset(source);
    PlacedPart(full, source, base, k, k + |Trim(source)|);
  }

  /** A tree is parsed from the trimmed source just as from the source itself. */
  lemma ExprReparses(g: LeafGrammar, source: string, base: nat, e: Expr)
    requires ParseExpr(g, source, base) == Ok(Some(e))
    ensures var t, start := Trim(source), base + TrimOffset(source);
            && !Blank(source)
            && ParseExpr(g, t, start) == Ok(Some(e))
            && ParseOr(g, t, start) == Ok(e.or)
            && e.span == Span(start, start + |t|)
  {
    TrimIdempotent(source);
    hide ParseOr, TrimOffset, Blank;
  }

  lemma NotReparses(g: LeafGrammar, source: string, base: nat, n: NotExpr)
    requires ParseNot(g, source, base) == Ok(n)
    ensures !Blank(source)
    ensures ParseNot(g, Trim(source), base + TrimOffset(source)) == Ok(n)
  {
    TrimIdempotent(source);
    hide ParsePrimary, Trim, TrimOffset, Blank, EqIgnoreCase;
  }

  lemma MaskedTrim(s: string)
    ensures Masked(s) ==> Masked(Trim(s))
  {
  }

  lemma ExprAtHolds(g: LeafGrammar, full: string, t: string, start: nat, e: Expr, lo: nat, hi: nat)
    requires Placed(full, t, start) && lo <= start && start + |t| <= hi <= |full|
    requires ParseExpr(g, t, start) == Ok(Some(e)) && OrAt(g, full, e.or)
    requires e.span == e.or.span == Span(start, start + |t|)
    ensures ExprAt(g, full, e, lo, hi)
  {
    hide ParseExpr, OrAt;
  }

  lemma {:induction false} ExprSpans(g: LeafGrammar, full: string, source: string, base: nat, e: Expr)
    requires base + |source| <= |full| && Placed(full, source, base)
    requires Masked(source) && ParseExpr(g, source, base) == Ok(Some(e))
    ensures ExprAt(g, full, e, base, base + |source|)
    decreases |source|, 7
  {
    hide *;
    ExprReparses(g, source, base, e);
    PlacedTrim(full, source, base);
    MaskedTrim(source);
    var t, start := Trim(source), base + TrimOffset(source);
    OrSpans(g, full, t, start, e.or);
    ExprAtHolds(g, full, t, start, e, base, base + |source|);
  }

  // ---- Branches and terms ----

  lemma OrderedSplit(s: string, op: LogicOp, base: nat, parts: seq<Segment>)
    requires Masked(s) && Split(s, op, base, false) == Ok(parts)
    ensures Slices(s, parts) && InOrder(parts, 0)
    ensures forall j | 0 <= j < |parts| :: |parts[j].text| <= |s|
  {
    SplitSlices(s, op, base, false);
    SplitTiles(s, op, base, parts);
    hide Split, IsStretch, Net;
    OrderOfStretches(s, op, parts);
  }

  lemma OrUnfolds(g: LeafGrammar, source: string, base: nat, or: OrExpr)
    requires Masked(source) && ParseOr(g, source, base) == Ok(or)
    ensures var split := Split(source, Or, base, false);
            && split.Ok?
            && (forall j | 0 <= j < |split.value| :: |split.value[j].text| <= |source|)
            && ParseBranches(g, |source|, split.value, base) == Ok(or.branches)
            && or.span == Span(base, base + |source|)
  {
    hide Split, Slices, ParseBranches;
    SplitSlices(source, Or, base, false);
  }

  lemma OrAtHolds(g: LeafGrammar, full: string, source: string, base: nat, or: OrExpr)
    requires base + |source| <= |full| && Placed(full, source, base)
    requires ParseOr(g, source, base) == Ok(or) && or.span == Span(base, base + |source|)
    requires BranchesAt(g, full, or.branches, base, base + |source|)
    ensures OrAt(g, full, or)
  {
    hide ParseOr, BranchesAt;
  }

  lemma {:induction false} OrSpans(g: LeafGrammar, full: string, source: string, base: nat, or: OrExpr)
    requires base + |source| <= |full| && Placed(full, source, base)
    requires Masked(source) && ParseOr(g, source, base) == Ok(or)
    ensures OrAt(g, full, or) && or.span == Span(base, base + |source|)
    decreases |source|, 6
  {
    hide *;
    OrUnfolds(g, source, base, or);
    var parts := Split(source, Or, base, false).value;
    OrderedSplit(source, Or, base, parts);
    BranchesSpans(g, full, source, parts, base, 0, or.branches);
    OrAtHolds(g, full, source, base, or);
  }

  predicate InOrder(parts: seq<Segment>, from: nat) {
    parts != [] ==> from <= parts[0].start && InOrder(parts[1..], parts[0].End())
  }

  lemma OrderOfStretches(s: string, op: LogicOp, parts: seq<Segment>)
    requires Stretches(s, op, parts)
    ensures InOrder(parts, 0)
  {
    SuffixInOrder(parts, 0, 0);
    assert parts[0..] == parts;
  }

  lemma {:induction false} SuffixInOrder(parts: seq<Segment>, k: nat, from: nat)
    requires k <= |parts| && (k < |parts| ==> from <= parts[k].start)
    requires forall i, j | 0 <= i < j < |parts| :: parts[i].End() < parts[j].start
    ensures InOrder(parts[k..], from)
    decreases |parts| - k
  {
    if k < |parts| {
      SuffixInOrder(parts, k + 1, parts[k].End());
      assert parts[k..][1..] == parts[k + 1..];
    }
  }

  lemma BranchesUnfold(g: LeafGrammar, source: string, parts: seq<Segment>, base: nat, branches: seq<AndExpr>)
    requires forall j | 0 <= j < |parts| :: |parts[j].text| <= |source|
    requires parts != [] && ParseBranches(g, |source|, parts, base) == Ok(branches)
    ensures branches != []
    ensures ParseAnd(g, parts[0].text, base + parts[0].start) == Ok(branches[0])
    ensures ParseBranches(g, |source|, parts[1..], base) == Ok(branches[1..])
  {
    hide ParseAnd;
  }

  lemma HeadPart(full: string, source: string, parts: seq<Segment>, base: nat, from: nat)
    requires Masked(source) && Placed(full, source, base) && Slices(source, parts) && InOrder(parts, from)
    requires parts != []
    ensures var p := parts[0];
            && Masked(p.text) && Placed(full, p.text, base + p.start)
            && from <= p.start && p.start + |p.text| <= |source|
            && base + p.start + |p.text| <= |full|
            && Slices(source, parts[1..]) && InOrder(parts[1..], p.start + |p.text|)
  {
    PlacedPart(full, source, base, parts[0].start, parts[0].End());
  }

  lemma NoBranches(g: LeafGrammar, full: string, limit: nat, base: nat, branches: seq<AndExpr>, lo: nat, hi: nat)
    requires ParseBranches(g, limit, [], base) == Ok(branches) && hi <= |full|
    ensures BranchesAt(g, full, branches, lo, hi)
  {
    hide ParseAnd, AndAt;
  }

  lemma MoreBranches(g: LeafGrammar, full: string, branches: seq<AndExpr>, lo: nat, hi: nat)
    requires hi <= |full| && branches != [] && AndAt(g, full, branches[0])
    requires lo <= branches[0].span.start <= branches[0].span.end <= hi
    requires BranchesAt(g, full, branches[1..], branches[0].span.end, hi)
    ensures BranchesAt(g, full, branches, lo, hi)
  {
    hide AndAt;
  }

  lemma {:induction false} BranchesSpans(g: LeafGrammar, full: string, source: string, parts: seq<Segment>,
                                         base: nat, from: nat, branches: seq<AndExpr>)
    requires Masked(source) && base + |source| <= |full| && Placed(full, source, base)
    requires Slices(source, parts) && InOrder(parts, from) && from <= |source|
    requires forall j | 0 <= j < |parts| :: |parts[j].text| <= |source|
    requires ParseBranches(g, |source|, parts, base) == Ok(branches)
    ensures BranchesAt(g, full, branches, base + from, base + |source|)
    decreases |source|, 5, |parts|
  {
    hide *;
    if parts == [] {
      NoBranches(g, full, |source|, base, branches, base + from, base + |source|);
    } else {
      var p := parts[0];
      BranchesUnfold(g, source, parts, base, branches);
      HeadPart(full, source, parts, base, from);
      AndSpans(g, full, p.text, base + p.start, branches[0]);
      BranchesSpans(g, full, source, parts[1..], base, p.start + |p.text|, branches[1..]);
      MoreBranches(g, full, branches, base + from, base + |source|);
    }
  }

  lemma AndUnfolds(g: LeafGrammar, source: string, base: nat, and: AndExpr)
    requires Masked(source) && ParseAnd(g, source, base) == Ok(and)
    ensures var split := Split(source, And, base, false);
            && split.Ok?
            && (forall j | 0 <= j < |split.value| :: |split.value[j].text| <= |source|)
            && ParseTerms(g, |source|, split.value, base) == Ok(and.terms)
            && and.span == Span(base, base + |source|)
  {
    hide Split, Slices, ParseTerms;
    SplitSlices(source, And, base, false);
  }

  lemma AndAtHolds(g: LeafGrammar, full: string, source: string, base: nat, and: AndExpr)
    requires base + |source| <= |full| && Placed(full, source, base)
    requires ParseAnd(g, source, base) == Ok(and) && and.span == Span(base, base + |source|)
    requires TermsAt(g, full, and.terms, base, base + |source|)
    ensures AndAt(g, full, and)
  {
    hide ParseAnd, TermsAt;
  }

  lemma {:induction false} AndSpans(g: LeafGrammar, full: string, source: string, base: nat, and: AndExpr)
    requires base + |source| <= |full| && Placed(full, source, base)
    requires Masked(source) && ParseAnd(g, source, base) == Ok(and)
    ensures AndAt(g, full, and) && and.span == Span(base, base + |source|)
    decreases |source|, 4
  {
    hide *;
    AndUnfolds(g, source, base, and);
    var parts := Split(source, And, base, false).value;
    OrderedSplit(source, And, base, parts);
    TermsSpans(g, full, source, parts, base, 0, and.terms);
    AndAtHolds(g, full, source, base, and);
  }

  lemma TermsUnfold(g: LeafGrammar, source: string, parts: seq<Segment>, base: nat, terms: seq<NotExpr>)
    requires forall j | 0 <= j < |parts| :: |parts[j].text| <= |source|
    requires parts != [] && ParseTerms(g, |source|, parts, base) == Ok(terms)
    ensures terms != []
    ensures ParseNot(g, parts[0].text, base + parts[0].start) == Ok(terms[0])
    ensures ParseTerms(g, |source|, parts[1..], base) == Ok(terms[1..])
  {
    hide ParseNot;
  }

  lemma NoTerms(g: LeafGrammar, full: string, limit: nat, base: nat, terms: seq<NotExpr>, lo: nat, hi: nat)
    requires ParseTerms(g, limit, [], base) == Ok(terms) && hi <= |full|
    ensures TermsAt(g, full, terms, lo, hi)
  {
    hide ParseNot, NotAt;
  }

  lemma MoreTerms(g: LeafGrammar, full: string, terms: seq<NotExpr>, lo: nat, mid: nat, hi: nat)
    requires lo <= mid <= hi <= |full| && terms != []
    requires NotAt(g, full, terms[0], lo, mid) && TermsAt(g, full, terms[1..], mid, hi)
    ensures TermsAt(g, full, terms, lo, hi)
  {
    hide NotAt;
  }

  lemma {:induction false} TermsSpans(g: LeafGrammar, full: string, source: string, parts: seq<Segment>,
                                      base: nat, from: nat, terms: seq<NotExpr>)
    requires Masked(source) && base + |source| <= |full| && Placed(full, source, base)
    requires Slices(source, parts) && InOrder(parts, from) && from <= |source|
    requires forall j | 0 <= j < |parts| :: |parts[j].text| <= |source|
    requires ParseTerms(g, |source|, parts, base) == Ok(terms)
    ensures TermsAt(g, full, terms, base + from, base + |source|)
    decreases |source|, 3, |parts|
  {
    hide *;
    if parts == [] {
      NoTerms(g, full, |source|, base, terms, base + from, base + |source|);
    } else {
      var p := parts[0];
      var end := p.start + |p.text|;
      TermsUnfold(g, source, parts, base, terms);
      HeadPart(full, source, parts, base, from);
      NotSpans(g, full, p.text, base + p.start, terms[0]);
      NotAtGrows(g, full, terms[0], base + p.start, base + end, base + from, base + end);
      TermsSpans(g, full, source, parts[1..], base, end, terms[1..]);
      MoreTerms(g, full, terms, base + from, base + end, base + |source|);
    }
  }

  lemma NotAtGrows(g: LeafGrammar, full: string, n: NotExpr, lo: nat, hi: nat, lower: nat, higher: nat)
    requires lower <= lo && hi <= higher <= |full| && NotAt(g, full, n, lo, hi)
    ensures NotAt(g, full, n, lower, higher)
  {
    hide ParseNot, ParseExpr, OrAt;
  }

  lemma {:induction false} NotSpans(g: LeafGrammar, full: string, source: string, base: nat, n: NotExpr)
    requires base + |source| <= |full| && Placed(full, source, base)
    requires Masked(source) && ParseNot(g, source, base) == Ok(n)
    ensures NotAt(g, full, n, base, base + |source|)
    decreases |source|, 2, 1
  {
    hide *;
    NotReparses(g, source, base, n);
    PlacedTrim(full, source, base);
    MaskedTrim(source);
    var t, start := Trim(source), base + TrimOffset(source);
    TrimmedNotSpans(g, full, t, start, n);
    NotAtGrows(g, full, n, start, start + |t|, base, base + |source|);
  }

  /** What a trimmed term that parses is: a negation, a group or a leaf. */
  lemma NotCases(g: LeafGrammar, t: string, start: nat, n: NotExpr)
    requires ParseNot(g, t, start) == Ok(n) && t != "" && Trim(t) == t && TrimOffset(t) == 0
    ensures match n
            case Not(inner, span) =>
              && |t| >= 4 && span == Span(start, start + |t|)
              && ParseNot(g, t[4..], start + 4) == Ok(inner)
            case Prim(Grouped(e)) =>
              IsParenthesized(t) && ParseExpr(g, t[1..|t| - 1], start + 1) == Ok(Some(e))
            case Prim(Leaf(fragment, text, span)) =>
              text == t && span == Span(start, start + |t|)
  {
    hide Trim, TrimOffset, EqIgnoreCase, ParseExpr;
    assert ParsePrimary(g, t, start).Ok? || IsNotPrefix(t);
    assert t[0] == '(' ==> ParseGrouped(g, t, start).Ok? || IsNotPrefix(t);
  }

  lemma SliceIs(full: string, t: string, start: nat)
    requires start + |t| <= |full| && Placed(full, t, start)
    ensures Slice(full, Span(start, start + |t|)) == t
  {
  }

  lemma NegationAt(g: LeafGrammar, full: string, t: string, start: nat, inner: NotExpr)
    requires start + |t| <= |full| && Placed(full, t, start) && NotAt(g, full, inner, start, start + |t|)
    requires ParseNot(g, t, start) == Ok(Not(inner, Span(start, start + |t|)))
    ensures NotAt(g, full, Not(inner, Span(start, start + |t|)), start, start + |t|)
  {
    hide ParseNot, ExprAt, Placed, Slice;
    SliceIs(full, t, start);
  }

  lemma LeafAt(g: LeafGrammar, full: string, t: string, start: nat, fragment: Fragment)
    requires start + |t| <= |full| && Placed(full, t, start)
    requires ParseNot(g, t, start) == Ok(Prim(Leaf(fragment, t, Span(start, start + |t|))))
    ensures NotAt(g, full, Prim(Leaf(fragment, t, Span(start, start + |t|))), start, start + |t|)
  {
    hide ParseNot, ExprAt, Placed, Slice;
    SliceIs(full, t, start);
  }

  lemma GroupAt(g: LeafGrammar, full: string, e: Expr, lo: nat, hi: nat)
    requires lo + 1 < hi <= |full| && ExprAt(g, full, e, lo + 1, hi - 1)
    ensures NotAt(g, full, Prim(Grouped(e)), lo, hi)
  {
    hide ParseExpr, OrAt, ParseNot;
  }

  lemma {:induction false} TrimmedNotSpans(g: LeafGrammar, full: string, t: string, start: nat, n: NotExpr)
    requires start + |t| <= |full| && Placed(full, t, start) && Masked(t) && ParseNot(g, t, start) == Ok(n)
    requires t != "" && Trim(t) == t && TrimOffset(t) == 0
    ensures NotAt(g, full, n, start, start + |t|)
    decreases |t|, 2, 0
  {
    hide ParseNot, ParseExpr, Trim, TrimOffset, NotAt, ExprAt, Placed;
    NotCases(g, t, start, n);
    match n
    case Not(inner, span) =>
      PlacedPart(full, t, start, 4, |t|);
      assert t[4..|t|] == t[4..];
      NotSpans(g, full, t[4..], start + 4, inner);
      NotAtGrows(g, full, inner, start + 4, start + |t|, start, start + |t|);
      NegationAt(g, full, t, start, inner);
    case Prim(Grouped(e)) =>
      PlacedPart(full, t, start, 1, |t| - 1);
      ExprSpans(g, full, t[1..|t| - 1], start + 1, e);
      GroupAt(g, full, e, start, start + |t|);
    case Prim(Leaf(fragment, text, span)) =>
      LeafAt(g, full, t, start, fragment);
  }

  /** For every source that parses: the whole tree lies in the source, every node is what its own
      slice of the masked source parses to, and spans nest and never overlap. */
  lemma ProgramSpans(g: LeafGrammar, source: string, e: Expr)
    requires ParseProgram(g, source) == Ok(Program(Some(e)))
    ensures ExprAt(g, Mask(source), e, 0, |source|)
  {
    var full := Mask(source);
    MaskBlanksComments(source);
    PlacedWhole(full);
    assert ParseExpr(g, full, 0) == Ok(Some(e)) by {
      hide ParseExpr;
    }
    hide *;
    ExprSpans(g, full, full, 0, e);
  }
}
