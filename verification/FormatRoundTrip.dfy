/** Formatting keeps the meaning of a document: the output parses to the tree it was printed from,
    and is a fixed point of the formatter. */
module FormatRoundTrip {
  import opened Wrappers
  import opened Text
  import opened DslAst
  import opened ExprSplit
  import opened ExprParser
  import opened PaddedSplit
  import opened Masking
  import opened Format
  import opened FormatClean
  import opened FormatReparse
  import Spans = ParserSpans

  // ---- Leaves of a parsed tree are clean ----

  /** The leaf, if the parser accepted it, prints as a text that the parser would hand to the leaf
      grammar and that the grammar reads as the same leaf. A leaf that prints as its own source text
      always does. */
  ghost predicate LeafReprints(g: LeafGrammar, fragment: Fragment, text: string) {
    CleanLeaf(text) && g(text) == Accepted(fragment) ==> LeafPrints(g, fragment)
  }

  ghost predicate OrReprints(g: LeafGrammar, or: OrExpr) {
    forall i | 0 <= i < |or.branches| :: AndReprints(g, or.branches[i])
  }

  ghost predicate AndReprints(g: LeafGrammar, and: AndExpr) {
    forall i | 0 <= i < |and.terms| :: NotReprints(g, and.terms[i])
  }

  ghost predicate NotReprints(g: LeafGrammar, n: NotExpr) {
    match n
    case Not(inner, _) => NotReprints(g, inner)
    case Prim(Leaf(fragment, text, _)) => LeafReprints(g, fragment, text)
    case Prim(Grouped(expr)) => OrReprints(g, expr.or)
  }

  ghost predicate Calm(t: string) {
    Masked(t) && Balanced(t) && Quiet(t, And) && Quiet(t, Or)
  }

  lemma TrimCuts(s: string)
    requires !Blank(s)
    ensures var k, e := ContentStart(s), ContentEnd(s);
            && k <= e && s[k..e] == Trim(s) && Edge(s, k) && Edge(s, e)
            && Level(s, k) == 0 && Level(s, e) == Net(s)
  {
    hide *;
    TrimCore(s);
    CutIsEdge(s);
    CutNets(s, ContentStart(s));
    CutNets(s, ContentEnd(s));
    BlankNet(s[..ContentStart(s)]);
    BlankNet(s[ContentEnd(s)..]);
  }

  lemma CutNets(s: string, k: nat)
    requires k <= |s|
    ensures Level(s, k) == Net(s[..k]) && Net(s) == Net(s[..k]) + Net(s[k..])
  {
    assert s == s[..k] + s[k..];
    hide Level, Net;
    CutLevel(s[..k], s[k..]);
    NetConcat(s[..k], s[k..]);
  }

  lemma CutLevel(a: string, b: string)
    ensures Level(a + b, |a|) == Net(a)
  {
    LevelOfConcat(a, b, 0);
  }

  lemma CutIsEdge(s: string)
    ensures Edge(s, ContentStart(s)) && Edge(s, ContentEnd(s))
  {
  }

  lemma BlankNet(s: string)
    requires Blank(s)
    ensures Net(s) == 0
  {
    BlankIsLevel(s);
  }

  lemma TrimCalm(s: string)
    requires Calm(s)
    ensures Calm(Trim(s))
  {
    hide Level, MatchesKeyword, Blank, Edge;
    if Blank(s) {
      BlankIsLevel(s);
      assert Trim(s) == "";
      NothingIsBlank();
      BlankIsLevel("");
    } else {
      TrimCuts(s);
      var k, e := ContentStart(s), ContentEnd(s);
      QuietOfSlice(s, And, k, e);
      QuietOfSlice(s, Or, k, e);
    }
  }

  lemma DropNot(t: string)
    requires Calm(t) && IsNotPrefix(t)
    ensures Calm(t[4..])
  {
    var w := t[..4];
    assert forall i | 0 <= i < 4 :: LowerChar(w[i]) == Lower(w)[i] == Lower("NOT ")[i];
    assert t[3] == w[3] == ' ';
    FlatLevel(w, 4);
    assert t == w + t[4..];
    LevelOfConcat(w, t[4..], 0);
    assert t[4..|t|] == t[4..];
    assert Edge(t, 4) && Edge(t, |t|);
    hide Level, MatchesKeyword, IsNotPrefix, Edge;
    QuietOfSlice(t, And, 4, |t|);
    QuietOfSlice(t, Or, 4, |t|);
  }

  /** Cutting at the ANDs leaves no top-level OR where there was none. */
  lemma AndPartCalm(s: string, base: nat, parts: seq<Segment>, j: nat)
    requires Masked(s) && Balanced(s) && Quiet(s, Or) && Split(s, And, base, false) == Ok(parts) && j < |parts|
    ensures Calm(parts[j].text)
  {
    hide Split, Level, MatchesKeyword;
    SplitTiles(s, And, base, parts);
    var p := parts[j];
    assert IsStretch(s, And, p);
    StretchIsQuiet(s, And, p);
    StretchEdges(s, And, p);
    StretchCloses(s, And, p);
    hide IsStretch, Edge;
    QuietOfSlice(s, Or, p.start, p.End());
  }

  // ---- Trees that were read ----

  /** Every leaf is clean, and is what the grammar makes of its text. */
  ghost predicate ReadOr(g: LeafGrammar, or: OrExpr) {
    or.branches != [] && forall i | 0 <= i < |or.branches| :: ReadAnd(g, or.branches[i])
  }

  ghost predicate ReadAnd(g: LeafGrammar, and: AndExpr) {
    and.terms != [] && forall i | 0 <= i < |and.terms| :: ReadNot(g, and.terms[i])
  }

  ghost predicate ReadNot(g: LeafGrammar, n: NotExpr) {
    match n
    case Not(inner, _) => ReadNot(g, inner)
    case Prim(Leaf(fragment, text, _)) => CleanLeaf(text) && g(text) == Accepted(fragment)
    case Prim(Grouped(expr)) => ReadOr(g, expr.or)
  }

  lemma {:induction false} ExprIsRead(g: LeafGrammar, source: string, base: nat, e: Expr)
    requires Masked(source) && ParseExpr(g, source, base) == Ok(Some(e))
    ensures ReadOr(g, e.or)
    decreases |source|, 7
  {
    hide *;
    Spans.ExprReparses(g, source, base, e);
    Spans.MaskedTrim(source);
    TrimShrinks(source);
    OrIsRead(g, Trim(source), base + TrimOffset(source), e.or);
  }

  lemma TrimShrinks(s: string)
    ensures |Trim(s)| <= |s|
  {
  }

  lemma {:induction false} OrIsRead(g: LeafGrammar, source: string, base: nat, or: OrExpr)
    requires Masked(source) && ParseOr(g, source, base) == Ok(or)
    ensures ReadOr(g, or)
    decreases |source|, 6
  {
    Spans.OrUnfolds(g, source, base, or);
    var parts := Split(source, Or, base, false).value;
    hide Split, ParseOr, ParseBranches, Balanced, Quiet, Masked, Stretches, Net, ReadAnd;
    forall j | 0 <= j < |parts|
      ensures Masked(parts[j].text) && Balanced(parts[j].text) && Quiet(parts[j].text, Or)
    {
      ResplitIsIdentity(source, Or, base, parts, j, 0);
    }
    SplitTiles(source, Or, base, parts);
    BranchesAreRead(g, source, parts, base, or.branches);
  }

  lemma {:induction false} BranchesAreRead(g: LeafGrammar, source: string, parts: seq<Segment>, base: nat,
                                           branches: seq<AndExpr>)
    requires forall j | 0 <= j < |parts| :: |parts[j].text| <= |source|
    requires forall j | 0 <= j < |parts| ::
               Masked(parts[j].text) && Balanced(parts[j].text) && Quiet(parts[j].text, Or)
    requires ParseBranches(g, |source|, parts, base) == Ok(branches)
    ensures |branches| == |parts| && forall i | 0 <= i < |branches| :: ReadAnd(g, branches[i])
    decreases |source|, 5, |parts|
  {
    hide ParseAnd, Balanced, Quiet, Masked, ReadAnd;
    if parts != [] {
      Spans.BranchesUnfold(g, source, parts, base, branches);
      AndIsRead(g, parts[0].text, base + parts[0].start, branches[0]);
      BranchesAreRead(g, source, parts[1..], base, branches[1..]);
    }
  }

  lemma {:induction false} AndIsRead(g: LeafGrammar, source: string, base: nat, and: AndExpr)
    requires Masked(source) && Balanced(source) && Quiet(source, Or)
    requires ParseAnd(g, source, base) == Ok(and)
    ensures ReadAnd(g, and)
    decreases |source|, 4
  {
    Spans.AndUnfolds(g, source, base, and);
    var parts := Split(source, And, base, false).value;
    hide Split, ParseAnd, ParseTerms, Balanced, Quiet, Masked, Stretches, Net, ReadNot, Calm;
    forall j | 0 <= j < |parts| ensures Calm(parts[j].text) {
      AndPartCalm(source, base, parts, j);
    }
    SplitTiles(source, And, base, parts);
    TermsAreRead(g, source, parts, base, and.terms);
  }

  lemma {:induction false} TermsAreRead(g: LeafGrammar, source: string, parts: seq<Segment>, base: nat,
                                        terms: seq<NotExpr>)
    requires forall j | 0 <= j < |parts| :: |parts[j].text| <= |source| && Calm(parts[j].text)
    requires ParseTerms(g, |source|, parts, base) == Ok(terms)
    ensures |terms| == |parts| && forall i | 0 <= i < |terms| :: ReadNot(g, terms[i])
    decreases |source|, 3, |parts|
  {
    hide ParseNot, Calm, ReadNot;
    if parts != [] {
      Spans.TermsUnfold(g, source, parts, base, terms);
      NotIsRead(g, parts[0].text, base + parts[0].start, terms[0]);
      TermsAreRead(g, source, parts[1..], base, terms[1..]);
    }
  }

  lemma {:induction false} NotIsRead(g: LeafGrammar, source: string, base: nat, n: NotExpr)
    requires Calm(source) && ParseNot(g, source, base) == Ok(n)
    ensures ReadNot(g, n)
    decreases |source|, 2
  {
    hide ParseNot, ParseExpr, Calm, Trim, TrimOffset, Blank, ReadOr, IsNotPrefix, CleanLeaf;
    Spans.NotReparses(g, source, base, n);
    var t, start := Trim(source), base + TrimOffset(source);
    TrimCalm(source);
    TrimIdempotent(source);
    TrimNotEmpty(source);
    Spans.NotCases(g, t, start, n);
    match n
    case Not(inner, _) =>
      NotWasPrefix(g, t, start, n);
      DropNot(t);
      NotIsRead(g, t[4..], start + 4, inner);
    case Prim(Leaf(fragment, text, _)) =>
      LeafIsClean(g, t, start, n);
    case Prim(Grouped(e)) =>
      CalmInside(t);
      ExprIsRead(g, t[1..|t| - 1], start + 1, e);
  }

  lemma NotWasPrefix(g: LeafGrammar, t: string, start: nat, n: NotExpr)
    requires ParseNot(g, t, start) == Ok(n) && n.Not? && Trim(t) == t
    ensures IsNotPrefix(t)
  {
    hide Trim, TrimOffset, EqIgnoreCase, ParsePrimary;
  }

  lemma CalmInside(t: string)
    requires Calm(t) && |t| >= 2
    ensures Masked(t[1..|t| - 1])
  {
  }

  lemma LeafIsClean(g: LeafGrammar, t: string, start: nat, n: NotExpr)
    requires Calm(t) && t != "" && Trim(t) == t && TrimOffset(t) == 0 && ParseNot(g, t, start) == Ok(n)
    requires n.Prim? && n.primary.Leaf?
    ensures CleanLeaf(n.primary.text) && g(n.primary.text) == Accepted(n.primary.fragment)
  {
    hide TrimOffset, EqIgnoreCase, Masked, Balanced, Quiet;
    assert Trimmed(t);
    hide Trim, Trimmed, ParseExpr;
    assert CleanLeaf(t);
  }

  lemma {:induction false} ReadIsGood(g: LeafGrammar, or: OrExpr)
    requires ReadOr(g, or) && OrReprints(g, or)
    ensures GoodOr(g, or)
  {
    forall i | 0 <= i < |or.branches| ensures GoodAnd(g, or.branches[i]) {
      assert ReadAnd(g, or.branches[i]) && AndReprints(g, or.branches[i]);
      forall j | 0 <= j < |or.branches[i].terms| ensures GoodNot(g, or.branches[i].terms[j]) {
        assert ReadNot(g, or.branches[i].terms[j]) && NotReprints(g, or.branches[i].terms[j]);
        ReadNotIsGood(g, or.branches[i].terms[j]);
      }
    }
  }

  lemma {:induction false} ReadNotIsGood(g: LeafGrammar, n: NotExpr)
    requires ReadNot(g, n) && NotReprints(g, n)
    ensures GoodNot(g, n)
  {
    hide CleanLeaf, LeafPrints;
    match n
    case Not(inner, _) => ReadNotIsGood(g, inner);
    case Prim(Leaf(_, _, _)) =>
    case Prim(Grouped(expr)) => ReadIsGood(g, expr.or);
  }

  lemma ExprIsGood(g: LeafGrammar, source: string, base: nat, e: Expr)
    requires Masked(source) && ParseExpr(g, source, base) == Ok(Some(e)) && OrReprints(g, e.or)
    ensures GoodOr(g, e.or)
  {
    hide *;
    ExprIsRead(g, source, base, e);
    ReadIsGood(g, e.or);
  }

  // ---- Printing looks only at what `SameOr` compares ----

  lemma {:induction false} SamePrintsOr(a: OrExpr, b: OrExpr, indent: string)
    requires SameOr(a, b)
    ensures FormatOr(a, indent) == FormatOr(b, indent)
    decreases a, 3
  {
    hide SameAnd, Join;
    SamePrintsBranches(a.branches, b.branches, indent);
  }

  lemma {:induction false} SamePrintsBranches(a: seq<AndExpr>, b: seq<AndExpr>, indent: string)
    requires SameBranches(a, b)
    ensures FormatBranches(a, indent) == FormatBranches(b, indent)
    decreases a, 2
  {
    hide SameAnd, FormatAnd;
    if a != [] {
      assert SameAnd(a[0], b[0]);
      SamePrintsAnd(a[0], b[0], indent);
      SamePrintsBranches(a[1..], b[1..], indent);
    }
  }

  lemma {:induction false} SamePrintsAnd(a: AndExpr, b: AndExpr, indent: string)
    requires SameAnd(a, b)
    ensures FormatAnd(a, indent) == FormatAnd(b, indent)
    decreases a, 1
  {
    hide SameNot, Join;
    SamePrintsTerms(a.terms, b.terms, indent);
  }

  lemma {:induction false} SamePrintsTerms(a: seq<NotExpr>, b: seq<NotExpr>, indent: string)
    requires SameTerms(a, b)
    ensures FormatTerms(a, indent) == FormatTerms(b, indent)
    decreases a, 0
  {
    hide SameNot, FormatNot;
    if a != [] {
      assert SameNot(a[0], b[0]);
      SamePrintsNot(a[0], b[0], indent);
      SamePrintsTerms(a[1..], b[1..], indent);
    }
  }

  lemma {:induction false} SamePrintsNot(a: NotExpr, b: NotExpr, indent: string)
    requires SameNot(a, b)
    ensures FormatNot(a, indent) == FormatNot(b, indent)
    decreases a, 0
  {
    hide SameOr, FormatOr, Render;
    if a.Not? {
      SamePrintsNot(a.inner, b.inner, indent);
    } else if a.primary.Grouped? {
      var x, y := a.primary.expr, b.primary.expr;
      SameBranchCount(x.or, y.or);
      SamePrintsOr(x.or, y.or, indent + "  ");
      SamePrintsOr(x.or, y.or, "");
    }
  }

  lemma SameBranchCount(a: OrExpr, b: OrExpr)
    requires SameOr(a, b)
    ensures |a.branches| == |b.branches|
  {
  }

  // ---- Documents ----

  /** What formatting leaves around the expression. */
  lemma DocumentParts(g: LeafGrammar, source: string, e: Expr)
    requires ParseProgram(g, source) == Ok(Program(Some(e)))
    ensures e.span.start <= e.span.end <= |source|
    ensures var before, after := source[..e.span.start], source[e.span.end..];
            && Trim(source) != ""
            && !CommentBefore(before, |before|)
            && Blank(Mask(before)) && Blank(Mask(after))
            && Mask(before) == Mask(source)[..e.span.start] && Mask(after) == Mask(source)[e.span.end..]
  {
    hide *;
    var m := Mask(source);
    MaskLength(source);
    ProgramUnfolds(g, source, e);
    TrimCore(m);
    TrimOffsetIsStart(m);
    var i, j := e.span.start, e.span.end;
    SolidEnds(m);
    SolidOutsideComment(source, i);
    SolidOutsideComment(source, j - 1);
    SolidIsNotBlank(source, i);
    MaskCut(source, i);
    MaskCut(source, j);
  }

  lemma MaskLength(s: string)
    ensures |Mask(s)| == |s|
  {
  }

  lemma TrimOffsetIsStart(s: string)
    requires !Blank(s)
    ensures TrimOffset(s) == ContentStart(s)
  {
    TrimSplits(s);
  }

  lemma SolidEnds(s: string)
    requires ContentStart(s) < ContentEnd(s)
    ensures !IsSpace(s[ContentStart(s)]) && !IsSpace(s[ContentEnd(s) - 1])
  {
  }

  lemma MaskCut(s: string, i: nat)
    requires i <= |s| && !CommentBefore(s, i)
    ensures !CommentBefore(s[..i], i)
    ensures |Mask(s)| == |s| && Mask(s[..i]) == Mask(s)[..i] && Mask(s[i..]) == Mask(s)[i..]
  {
    assert s == s[..i] + s[i..];
    CommentOfConcat(s[..i], s[i..], i);
    hide CommentBefore, MaskedChar;
    MaskConcat(s[..i], s[i..]);
  }

  lemma ProgramUnfolds(g: LeafGrammar, source: string, e: Expr)
    requires ParseProgram(g, source) == Ok(Program(Some(e)))
    ensures ParseExpr(g, Mask(source), 0) == Ok(Some(e)) && !Blank(Mask(source))
    ensures e.span == Span(TrimOffset(Mask(source)), TrimOffset(Mask(source)) + |Trim(Mask(source))|)
  {
    hide Mask, ParseOr, Blank, TrimOffset;
  }

  lemma SolidOutsideComment(s: string, i: nat)
    requires i < |s| && !IsSpace(Mask(s)[i])
    ensures !CommentBefore(s, i) && !CommentBefore(s, i + 1) && Mask(s)[i] == s[i]
  {
  }

  lemma SolidIsNotBlank(s: string, i: nat)
    requires i < |s| && !IsSpace(Mask(s)[i])
    ensures Trim(s) != ""
  {
    SolidOutsideComment(s, i);
  }

  lemma MaskDocument(before: string, text: string, after: string)
    requires !CommentBefore(before, |before|) && Masked(text)
    ensures Mask(before + text + after) == Mask(before) + text + Mask(after)
  {
    hide *;
    MaskOfMasked(text);
    MaskConcat(before, text);
    MaskConcat(before + text, after);
  }

  lemma ProgramIs(g: LeafGrammar, source: string, e: Expr)
    requires ParseExpr(g, Mask(source), 0) == Ok(Some(e))
    ensures ParseProgram(g, source) == Ok(Program(Some(e)))
  {
    hide ParseExpr, Mask;
  }

  /** The document parses to an expression with the given span and the same tree. */
  ghost predicate ParsesAs(g: LeafGrammar, document: string, or: OrExpr, span: Span) {
    var r := ParseProgram(g, document);
    r.Ok? && r.value.expr.Some? && SameOr(or, r.value.expr.value.or) && r.value.expr.value.span == span
  }

  lemma ParsesAsHolds(g: LeafGrammar, document: string, or: OrExpr, e: Expr)
    requires ParseProgram(g, document) == Ok(Program(Some(e))) && SameOr(or, e.or)
    ensures ParsesAs(g, document, or, e.span)
  {
    hide ParseProgram, SameOr;
  }

  lemma ParsesAsMeans(g: LeafGrammar, document: string, or: OrExpr, span: Span) returns (e: Expr)
    requires ParsesAs(g, document, or, span)
    ensures ParseProgram(g, document) == Ok(Program(Some(e))) && SameOr(or, e.or) && e.span == span
  {
    hide ParseProgram, SameOr;
    e := ParseProgram(g, document).value.expr.value;
  }

  lemma DocumentReparses(g: LeafGrammar, before: string, or: OrExpr, after: string)
    requires GoodOr(g, or) && !CommentBefore(before, |before|) && Blank(Mask(before)) && Blank(Mask(after))
    ensures var text := FormatOr(or, "");
            ParsesAs(g, before + text + after, or, Span(|before|, |before| + |text|))
  {
    hide *;
    NothingIsBlank();
    OrIsClean(g, or, "");
    var text := FormatOr(or, "");
    assert "" + Body(or, "") == Body(or, "");
    CleanIsMasked(text, {});
    MaskDocument(before, text, after);
    MaskLength(before);
    OrReparses(g, or, "", |before|);
    PaddedExprParses(g, Mask(before), text, Mask(after), 0);
    var or' := ParseOr(g, text, |before|).value;
    var e := Expr(or', Span(|before|, |before| + |text|));
    ProgramIs(g, before + text + after, e);
    ParsesAsHolds(g, before + text + after, or, e);
  }

  lemma CleanIsMasked(t: string, ops: set<LogicOp>)
    requires Clean(t, ops)
    ensures t != "" && Trimmed(t) && Masked(t)
  {
  }

  lemma FormatIs(g: LeafGrammar, before: string, text: string, after: string, e: Expr)
    requires var source := before + text + after;
             && Trim(source) != ""
             && ParseProgram(g, source) == Ok(Program(Some(e)))
             && e.span == Span(|before|, |before| + |text|)
    ensures FormatDsl(g, before + text + after) == Ok(Some(before + FormatOr(e.or, "") + after))
  {
    hide ParseProgram, Trim, FormatOr;
    var source := before + text + after;
    assert source[..|before|] == before && source[|before| + |text|..] == after;
  }

  /** For every source that parses, and whose leaves reprint: the formatted document keeps what stood
      before and after the expression, parses to the same tree of ORs, ANDs, NOTs, groups and leaves,
      and is a fixed point of the formatter. */
  lemma FormatRoundTrips(g: LeafGrammar, source: string, e: Expr)
    requires ParseProgram(g, source) == Ok(Program(Some(e))) && OrReprints(g, e.or)
    ensures e.span.start <= e.span.end <= |source|
    ensures var before, after := source[..e.span.start], source[e.span.end..];
            var out := before + FormatOr(e.or, "") + after;
            && FormatDsl(g, source) == Ok(Some(out))
            && ParsesAs(g, out, e.or, Span(|before|, |out| - |after|))
            && FormatDsl(g, out) == Ok(Some(out)) && IsDslFormatted(g, out)
  {
    hide *;
    DocumentParts(g, source, e);
    var before, after := source[..e.span.start], source[e.span.end..];
    var middle, text := source[e.span.start..e.span.end], FormatOr(e.or, "");
    assert source == before + middle + after;
    FormatIs(g, before, middle, after, e);
    ProgramUnfolds(g, source, e);
    MaskIsMasked(source);
    ExprIsGood(g, Mask(source), 0, e);
    DocumentReparses(g, before, e.or, after);
    var e' := ParsesAsMeans(g, before + text + after, e.or, Span(|before|, |before| + |text|));
    DocumentParts(g, before + text + after, e');
    FormatIs(g, before, text, after, e');
    SamePrintsOr(e.or, e'.or, "");
    FixedPointIsFormatted(g, before + text + after);
  }

  lemma MaskIsMasked(s: string)
    ensures Masked(Mask(s))
  {
    MaskBlanksComments(s);
  }

  lemma FixedPointIsFormatted(g: LeafGrammar, s: string)
    requires FormatDsl(g, s) == Ok(Some(s))
    ensures IsDslFormatted(g, s)
  {
    hide FormatDsl;
  }

  // ---- Leaves that print as their own text need no assumption ----

  ghost predicate OwnTextOr(or: OrExpr) {
    forall i | 0 <= i < |or.branches| :: OwnTextAnd(or.branches[i])
  }

  ghost predicate OwnTextAnd(and: AndExpr) {
    forall i | 0 <= i < |and.terms| :: OwnTextNot(and.terms[i])
  }

  ghost predicate OwnTextNot(n: NotExpr) {
    match n
    case Not(inner, _) => OwnTextNot(inner)
    case Prim(Leaf(fragment, text, _)) => Render(fragment) == text
    case Prim(Grouped(expr)) => OwnTextOr(expr.or)
  }

  lemma {:induction false} OwnTextReprints(g: LeafGrammar, or: OrExpr)
    requires OwnTextOr(or)
    ensures OrReprints(g, or)
  {
    forall i | 0 <= i < |or.branches| ensures AndReprints(g, or.branches[i]) {
      assert OwnTextAnd(or.branches[i]);
      forall j | 0 <= j < |or.branches[i].terms| ensures NotReprints(g, or.branches[i].terms[j]) {
        OwnTextNotReprints(g, or.branches[i].terms[j]);
      }
    }
  }

  lemma {:induction false} OwnTextNotReprints(g: LeafGrammar, n: NotExpr)
    requires OwnTextNot(n)
    ensures NotReprints(g, n)
  {
    match n
    case Not(inner, _) => OwnTextNotReprints(g, inner);
    case Prim(Leaf(_, _, _)) =>
    case Prim(Grouped(expr)) => OwnTextReprints(g, expr.or);
  }
}
