/** What formatting does to any document of the language: the formatted text always parses, to the same tree
    but for a space more in every query that ends in white space; and it compiles to the same program exactly
    when there is no such query. */
module DslMeaning {
  import opened Wrappers
  import opened Text
  import opened DslAst
  import opened ExprSplit
  import opened ExprParser
  import opened Masking
  import opened PathGlob
  import opened Eval
  import opened Compile
  import opened PaddedSplit
  import opened Format
  import opened FormatClean
  import opened FormatReparse
  import opened FormatRoundTrip
  import opened DslGrammar
  import opened DslReprint
  import opened DslLeaf
  import opened DslStill
  import opened DslExact
  import FM = FormatMeaning

  // ---- Undoing the growth ----

  /** A query that ends in two white spaces, without the last. */
  function Shrunk(fragment: Fragment): Fragment {
    if fragment.UrlFragment? && fragment.url.query.Some? && EndsInTwo(fragment.url.query.value)
    then fragment.(url := fragment.url.(query := Some(fragment.url.query.value[..|fragment.url.query.value| - 1])))
    else fragment
  }

  predicate EndsInTwo(q: string) {
    |q| >= 2 && IsWs(q[|q| - 1]) && IsWs(q[|q| - 2])
  }

  lemma ShrunkRegrown(fragment: Fragment)
    ensures Shrunk(Regrown(fragment)) == fragment
  {
    if SpacedQuery(fragment) {
      var q := fragment.url.query.value;
      assert (q + " ")[..|q + " "| - 1] == q;
    }
  }

  function ShrunkLeaf(r: LeafResult): LeafResult {
    match r case Accepted(fragment) => Accepted(Shrunk(fragment)) case Rejected(_, _) => r
  }

  function Shrinking(g: LeafGrammar): LeafGrammar {
    (t: string) => ShrunkLeaf(g(t))
  }

  function ShrinkOr(or: OrExpr): OrExpr
    decreases or, 1
  {
    OrExpr(ShrinkBranches(or.branches), or.span)
  }

  function ShrinkBranches(branches: seq<AndExpr>): seq<AndExpr>
    decreases branches, 0
  {
    if branches == [] then [] else [ShrinkAnd(branches[0])] + ShrinkBranches(branches[1..])
  }

  function ShrinkAnd(and: AndExpr): AndExpr
    decreases and, 1
  {
    AndExpr(ShrinkTerms(and.terms), and.span)
  }

  function ShrinkTerms(terms: seq<NotExpr>): seq<NotExpr>
    decreases terms, 0
  {
    if terms == [] then [] else [ShrinkNot(terms[0])] + ShrinkTerms(terms[1..])
  }

  function ShrinkNot(n: NotExpr): NotExpr
    decreases n, 0
  {
    match n
    case Not(inner, span) => NotExpr.Not(ShrinkNot(inner), span)
    case Prim(Leaf(fragment, text, span)) => Prim(Leaf(Shrunk(fragment), text, span))
    case Prim(Grouped(expr)) => Prim(Grouped(ShrinkExpr(expr)))
  }

  function ShrinkExpr(e: Expr): Expr
    decreases e, 2
  {
    Expr(ShrinkOr(e.or), e.span)
  }

  // ---- Parsing with the shrinking grammar shrinks the tree ----

  lemma {:induction false} ExprShrinks(g: LeafGrammar, source: string, base: nat, e: Expr)
    requires ParseExpr(Shrinking(g), source, base) == Ok(Some(e))
    ensures ParseExpr(g, source, base).Ok? && ParseExpr(g, source, base).value.Some?
    ensures e == ShrinkExpr(ParseExpr(g, source, base).value.value)
    decreases |source|, 7
  {
    hide ParseOr, ShrinkOr, TrimOffset;
    TrimShrinks(source);
    var start := base + TrimOffset(source);
    OrShrinks(g, Trim(source), start, e.or);
    hide Trim;
  }

  lemma {:induction false} OrShrinks(g: LeafGrammar, source: string, base: nat, or: OrExpr)
    requires ParseOr(Shrinking(g), source, base) == Ok(or)
    ensures ParseOr(g, source, base).Ok? && or == ShrinkOr(ParseOr(g, source, base).value)
    decreases |source|, 6
  {
    hide Split, Slices, ParseBranches, ShrinkBranches;
    SplitSlices(source, Or, base, false);
    var parts := Split(source, Or, base, false).value;
    BranchesShrink(g, |source|, parts, base, or.branches);
  }

  lemma {:induction false} BranchesShrink(g: LeafGrammar, limit: nat, parts: seq<Segment>, base: nat,
                                          branches: seq<AndExpr>)
    requires forall j | 0 <= j < |parts| :: |parts[j].text| <= limit
    requires ParseBranches(Shrinking(g), limit, parts, base) == Ok(branches)
    ensures ParseBranches(g, limit, parts, base).Ok?
    ensures branches == ShrinkBranches(ParseBranches(g, limit, parts, base).value)
    decreases limit, 5, |parts|
  {
    hide ParseAnd, ShrinkAnd;
    if parts != [] {
      AndShrinks(g, parts[0].text, base + parts[0].start, branches[0]);
      BranchesShrink(g, limit, parts[1..], base, branches[1..]);
    }
  }

  lemma {:induction false} AndShrinks(g: LeafGrammar, source: string, base: nat, and: AndExpr)
    requires ParseAnd(Shrinking(g), source, base) == Ok(and)
    ensures ParseAnd(g, source, base).Ok? && and == ShrinkAnd(ParseAnd(g, source, base).value)
    decreases |source|, 4
  {
    hide Split, Slices, ParseTerms, ShrinkTerms;
    SplitSlices(source, And, base, false);
    var parts := Split(source, And, base, false).value;
    TermsShrink(g, |source|, parts, base, and.terms);
  }

  lemma {:induction false} TermsShrink(g: LeafGrammar, limit: nat, parts: seq<Segment>, base: nat,
                                       terms: seq<NotExpr>)
    requires forall j | 0 <= j < |parts| :: |parts[j].text| <= limit
    requires ParseTerms(Shrinking(g), limit, parts, base) == Ok(terms)
    ensures ParseTerms(g, limit, parts, base).Ok?
    ensures terms == ShrinkTerms(ParseTerms(g, limit, parts, base).value)
    decreases limit, 3, |parts|
  {
    hide ParseNot, ShrinkNot;
    if parts != [] {
      NotShrinks(g, parts[0].text, base + parts[0].start, terms[0]);
      TermsShrink(g, limit, parts[1..], base, terms[1..]);
    }
  }

  lemma {:induction false} NotShrinks(g: LeafGrammar, source: string, base: nat, n: NotExpr)
    requires ParseNot(Shrinking(g), source, base) == Ok(n)
    ensures ParseNot(g, source, base).Ok? && n == ShrinkNot(ParseNot(g, source, base).value)
    decreases |source|, 2
  {
    hide ParsePrimary, TrimOffset, ShrinkExpr, IsBareNot, Shrinking, EqIgnoreCase;
    TrimShrinks(source);
    var trimmed, start := Trim(source), base + TrimOffset(source);
    hide Trim;
    if IsNotPrefix(trimmed) {
      NotShrinks(g, trimmed[4..], start + 4, n.inner);
    } else {
      PrimaryShrinks(g, trimmed, start, n.primary);
    }
  }

  lemma {:induction false} PrimaryShrinks(g: LeafGrammar, source: string, base: nat, primary: Primary)
    requires ParsePrimary(Shrinking(g), source, base) == Ok(primary)
    ensures ParsePrimary(g, source, base).Ok?
    ensures Prim(primary) == ShrinkNot(Prim(ParsePrimary(g, source, base).value))
    decreases |source|, 1
  {
    hide ParseGrouped, TrimOffset, ShrinkExpr, Shrunk;
    TrimShrinks(source);
    var trimmed, start := Trim(source), base + TrimOffset(source);
    hide Trim;
    if trimmed[0] == '(' {
      GroupedShrinks(g, trimmed, start, primary.expr);
    }
  }

  lemma {:induction false} GroupedShrinks(g: LeafGrammar, source: string, base: nat, e: Expr)
    requires ParseGrouped(Shrinking(g), source, base) == Ok(e)
    ensures ParseGrouped(g, source, base).Ok? && e == ShrinkExpr(ParseGrouped(g, source, base).value)
    decreases |source|, 0
  {
    hide ParseExpr, ShrinkExpr;
    TrimShrinks(source);
    var trimmed := Trim(source);
    hide Trim;
    ExprShrinks(g, trimmed[1..|trimmed| - 1], base + 1, e);
  }

  // ---- The same tree but for longer queries ----

  ghost predicate GrewOr(a: OrExpr, b: OrExpr) {
    GrewBranches(a.branches, b.branches)
  }

  ghost predicate GrewBranches(a: seq<AndExpr>, b: seq<AndExpr>) {
    |a| == |b| && forall i | 0 <= i < |a| :: GrewAnd(a[i], b[i])
  }

  ghost predicate GrewAnd(a: AndExpr, b: AndExpr) {
    GrewTerms(a.terms, b.terms)
  }

  ghost predicate GrewTerms(a: seq<NotExpr>, b: seq<NotExpr>) {
    |a| == |b| && forall i | 0 <= i < |a| :: GrewNot(a[i], b[i])
  }

  ghost predicate GrewNot(a: NotExpr, b: NotExpr) {
    match (a, b)
    case (Not(x, _), Not(y, _)) => GrewNot(x, y)
    case (Prim(Leaf(f, _, _)), Prim(Leaf(f', text', _))) => f' == Regrown(f) && text' == Render(f)
    case (Prim(Grouped(x)), Prim(Grouped(y))) => GrewOr(x.or, y.or)
    case _ => false
  }

  /** A leaf that was read, printed and read again. */
  lemma LeafGrew(g: LeafGrammar, t: string, fragment: Fragment)
    requires ReadsLikeDsl(g) && CleanLeaf(t) && g(t) == Accepted(fragment)
    ensures CleanLeaf(Render(fragment)) && g(Render(fragment)) == Accepted(Regrown(fragment))
  {
    hide *;
    GrammarReads(g, t);
    GrammarReads(g, Render(fragment));
    CleanUnfolds(t);
    LeafReads(t, fragment);
    CleanPrints(t, fragment);
  }

  lemma {:induction false} GrewOrHolds(g: LeafGrammar, a: OrExpr, b: OrExpr)
    requires ReadsLikeDsl(g) && ReadOr(g, a) && ReadOr(g, b) && SameOr(a, ShrinkOr(b))
    ensures GrewOr(a, b)
    decreases a, 2
  {
    hide ReadsLikeDsl, ReadAnd, SameAnd, ShrinkBranches, GrewAnd;
    GrewBranchesHold(g, a.branches, b.branches);
  }

  lemma {:induction false} GrewBranchesHold(g: LeafGrammar, a: seq<AndExpr>, b: seq<AndExpr>)
    requires ReadsLikeDsl(g) && SameBranches(a, ShrinkBranches(b))
    requires forall i | 0 <= i < |a| :: ReadAnd(g, a[i])
    requires forall i | 0 <= i < |b| :: ReadAnd(g, b[i])
    ensures GrewBranches(a, b)
    decreases a, 1
  {
    hide ReadsLikeDsl, ReadAnd, SameAnd, ShrinkAnd, GrewAnd;
    if a != [] {
      var c := ShrinkBranches(b);
      assert c == [ShrinkAnd(b[0])] + ShrinkBranches(b[1..]) && c[1..] == ShrinkBranches(b[1..]);
      assert SameAnd(a[0], c[0]);
      GrewAndHolds(g, a[0], b[0]);
      GrewBranchesHold(g, a[1..], b[1..]);
      assert forall i | 1 <= i < |a| :: a[i] == a[1..][i - 1] && b[i] == b[1..][i - 1];
    }
  }

  lemma {:induction false} GrewAndHolds(g: LeafGrammar, a: AndExpr, b: AndExpr)
    requires ReadsLikeDsl(g) && ReadAnd(g, a) && ReadAnd(g, b) && SameAnd(a, ShrinkAnd(b))
    ensures GrewAnd(a, b)
    decreases a, 1
  {
    hide ReadsLikeDsl, ReadNot, SameNot, ShrinkTerms, GrewNot;
    GrewTermsHold(g, a.terms, b.terms);
  }

  lemma {:induction false} GrewTermsHold(g: LeafGrammar, a: seq<NotExpr>, b: seq<NotExpr>)
    requires ReadsLikeDsl(g) && SameTerms(a, ShrinkTerms(b))
    requires forall i | 0 <= i < |a| :: ReadNot(g, a[i])
    requires forall i | 0 <= i < |b| :: ReadNot(g, b[i])
    ensures GrewTerms(a, b)
    decreases a, 0
  {
    hide ReadsLikeDsl, ReadNot, SameNot, ShrinkNot, GrewNot;
    if a != [] {
      var c := ShrinkTerms(b);
      assert c == [ShrinkNot(b[0])] + ShrinkTerms(b[1..]) && c[1..] == ShrinkTerms(b[1..]);
      assert SameNot(a[0], c[0]);
      GrewNotHolds(g, a[0], b[0]);
      GrewTermsHold(g, a[1..], b[1..]);
      assert forall i | 1 <= i < |a| :: a[i] == a[1..][i - 1] && b[i] == b[1..][i - 1];
    }
  }

  lemma {:induction false} GrewNotHolds(g: LeafGrammar, a: NotExpr, b: NotExpr)
    requires ReadsLikeDsl(g) && ReadNot(g, a) && ReadNot(g, b) && SameNot(a, ShrinkNot(b))
    ensures GrewNot(a, b)
    decreases a, 0
  {
    hide ReadsLikeDsl, ReadOr, SameOr, ShrinkOr, GrewOr, CleanLeaf, Render, Regrown, Shrunk;
    match a
    case Not(x, _) => GrewNotHolds(g, x, b.inner);
    case Prim(Leaf(f, text, _)) => LeafGrew(g, text, f);
    case Prim(Grouped(x)) => GrewOrHolds(g, x.or, b.primary.expr.or);
  }

  /** Under the shrinking grammar every tree that was read has leaves that print well. */
  lemma {:induction false} ShrinkingIsGood(g: LeafGrammar, or: OrExpr)
    requires ReadsLikeDsl(g) && ReadOr(g, or)
    ensures GoodOr(Shrinking(g), or)
  {
    hide ReadsLikeDsl, Shrinking;
    forall i | 0 <= i < |or.branches| ensures GoodAnd(Shrinking(g), or.branches[i]) {
      assert ReadAnd(g, or.branches[i]);
      forall j | 0 <= j < |or.branches[i].terms| ensures GoodNot(Shrinking(g), or.branches[i].terms[j]) {
        assert ReadNot(g, or.branches[i].terms[j]);
        ShrinkingNotIsGood(g, or.branches[i].terms[j]);
      }
    }
  }

  lemma {:induction false} ShrinkingNotIsGood(g: LeafGrammar, n: NotExpr)
    requires ReadsLikeDsl(g) && ReadNot(g, n)
    ensures GoodNot(Shrinking(g), n)
  {
    hide ReadsLikeDsl, Shrinking, CleanLeaf, LeafPrints;
    match n
    case Not(inner, _) => ShrinkingNotIsGood(g, inner);
    case Prim(Leaf(fragment, text, _)) => ShrinkingLeafPrints(g, text, fragment);
    case Prim(Grouped(expr)) => ShrinkingIsGood(g, expr.or);
  }

  lemma ShrinkingLeafPrints(g: LeafGrammar, t: string, fragment: Fragment)
    requires ReadsLikeDsl(g) && CleanLeaf(t) && g(t) == Accepted(fragment)
    ensures LeafPrints(Shrinking(g), fragment)
  {
    hide ReadsLikeDsl, CleanLeaf, Render, Regrown, Shrunk;
    LeafGrew(g, t, fragment);
    ShrunkRegrown(fragment);
  }

  // ---- Documents ----

  /** Every document that parses formats to one that parses, in the same place, to the same tree but for one
      more space at the end of every query that ends in white space. */
  lemma FormattedParses(g: LeafGrammar, source: string, e: Expr) returns (e': Expr)
    requires ReadsLikeDsl(g) && ParseProgram(g, source) == Ok(Program(Some(e)))
    ensures e.span.start <= e.span.end <= |source|
    ensures var before, after := source[..e.span.start], source[e.span.end..];
            var out := before + FormatOr(e.or, "") + after;
            && FormatDsl(g, source) == Ok(Some(out))
            && ParseProgram(g, out) == Ok(Program(Some(e')))
            && e'.span == Span(|before|, |out| - |after|)
            && GrewOr(e.or, e'.or)
  {
    hide *;
    DocumentParts(g, source, e);
    var before, after := source[..e.span.start], source[e.span.end..];
    var middle, text := source[e.span.start..e.span.end], FormatOr(e.or, "");
    assert source == before + middle + after;
    FormatIs(g, before, middle, after, e);
    ProgramUnfolds(g, source, e);
    MaskIsMasked(source);
    ExprIsRead(g, Mask(source), 0, e);
    ShrinkingIsGood(g, e.or);
    DocumentReparses(Shrinking(g), before, e.or, after);
    var out := before + text + after;
    var h := ParsesAsMeans(Shrinking(g), out, e.or, Span(|before|, |before| + |text|));
    ProgramUnfolds(Shrinking(g), out, h);
    ExprShrinks(g, Mask(out), 0, h);
    e' := ParseExpr(g, Mask(out), 0).value.value;
    ProgramIs(g, out, e');
    ShrinkExprParts(e');
    MaskIsMasked(out);
    ExprIsRead(g, Mask(out), 0, e');
    GrewOrHolds(g, e.or, e'.or);
  }

  lemma ShrinkExprParts(e: Expr)
    ensures ShrinkExpr(e).span == e.span && ShrinkExpr(e).or == ShrinkOr(e.or)
  {
    hide ShrinkOr;
  }

  // ---- What grown queries compile to ----

  /** White space at its end belongs to the last pair of a query: a space more makes another one of it. */
  lemma LongerPairs(q: string)
    requires q != "" && IsWs(q[|q| - 1])
    ensures QueryPairs(q) != [] && QueryPairs(q + " ") != [] && QueryPairs(q + " ") != QueryPairs(q)
  {
    hide *;
    var front, last := LastPart(q);
    LastPair(q, front, last);
    LastPair(q + " ", front, last + " ");
    SolidPart(last);
    LongerPart(last);
    OtherLast(Pairs(NonEmpty(front)), SplitOnce(last, '='), SplitOnce(last + " ", '='));
  }

  lemma OtherLast(front: seq<(string, string)>, p: (string, string), p': (string, string))
    requires p' != p
    ensures front + [p'] != front + [p]
  {
    assert (front + [p'])[|front|] != (front + [p])[|front|];
  }

  /** The text before the last part of a split, and that part. */
  lemma {:induction false} LastPart(q: string) returns (front: seq<string>, last: string)
    requires q != "" && IsWs(q[|q| - 1])
    ensures SplitOn(q, '&') == front + [last] && SplitOn(q + " ", '&') == front + [last + " "]
    ensures last != ""
  {
    hide SplitOn, FirstOf, IsWs;
    if '&' !in q {
      front, last := [], q;
      NoSplit(q);
    } else {
      var k := FirstOf(q, '&');
      FirstAgain(q);
      RestEnds(q, k);
      SplitStep(q);
      SplitStep(q + " ");
      var rest := q[k + 1..];
      var more;
      more, last := LastPart(rest);
      front := [q[..k]] + more;
      assert [q[..k]] + (more + [last]) == front + [last];
      assert [q[..k]] + (more + [last + " "]) == front + [last + " "];
    }
  }

  lemma NoSplit(q: string)
    requires '&' !in q
    ensures SplitOn(q, '&') == [q] && SplitOn(q + " ", '&') == [q + " "]
    ensures [] + [q] == [q] && [] + [q + " "] == [q + " "]
  {
  }

  lemma SplitStep(q: string)
    requires '&' in q
    ensures SplitOn(q, '&') == [q[..FirstOf(q, '&')]] + SplitOn(q[FirstOf(q, '&') + 1..], '&')
  {
    hide FirstOf;
  }

  lemma RestEnds(q: string, k: nat)
    requires k < |q| && q[k] == '&' && IsWs(q[|q| - 1])
    ensures k + 1 < |q| && q[k + 1..][|q| - k - 2] == q[|q| - 1]
    ensures (q + " ")[k + 1..] == q[k + 1..] + " " && (q + " ")[..k] == q[..k]
  {
  }

  lemma {:induction false} FirstAgain(q: string)
    requires '&' in q
    ensures '&' in q + " " && FirstOf(q + " ", '&') == FirstOf(q, '&')
  {
    if q[0] != '&' {
      assert (q + " ")[1..] == q[1..] + " ";
      FirstAgain(q[1..]);
    }
  }

  lemma LastPair(q: string, front: seq<string>, last: string)
    requires q != "" && SplitOn(q, '&') == front + [last] && last != ""
    ensures QueryPairs(q) == Pairs(NonEmpty(front)) + [SplitOnce(last, '=')]
  {
    hide SplitOn, SplitOnce;
    NonEmptyConcat(front, [last]);
    OnePart(last);
    PairsConcat(NonEmpty(front), [last]);
  }

  lemma OnePart(last: string)
    requires last != ""
    ensures NonEmpty([last]) == [last] && Pairs([last]) == [SplitOnce(last, '=')]
  {
    hide SplitOnce;
    assert [last][1..] == [];
    assert [last] + NonEmpty([]) == [last] && [SplitOnce(last, '=')] + Pairs([]) == [SplitOnce(last, '=')];
  }

  lemma {:induction false} PairsConcat(a: seq<string>, b: seq<string>)
    ensures Pairs(a + b) == Pairs(a) + Pairs(b)
  {
    hide SplitOnce;
    if a == [] {
      assert a + b == b;
    } else {
      assert (a + b)[1..] == a[1..] + b;
      PairsConcat(a[1..], b);
    }
  }

  lemma SolidPart(last: string)
    ensures last + " " != ""
  {
  }

  lemma LongerPart(last: string)
    ensures SplitOnce(last + " ", '=') != SplitOnce(last, '=')
  {
    SplitLength(last);
    SplitLength(last + " ");
    assert '=' in last + " " <==> '=' in last;
  }

  lemma SplitLength(s: string)
    ensures |SplitOnce(s, '=').0| + |SplitOnce(s, '=').1| == |s| - if '=' in s then 1 else 0
  {
  }

  // ---- Lowering both trees ----

  /** Both fail alike, or give the same plan and equally many predicates; and those are the same if they were
      before, and if nothing grew. */
  ghost predicate Alike(r: Result<Lowered, CompileError>, r': Result<Lowered, CompileError>, pool: Pool, pool': Pool,
                        solid: bool)
  {
    match r
    case Err(e) => r' == Err(e)
    case Ok(l) =>
      && r'.Ok? && r'.value.plan == l.plan && |r'.value.pool| == |l.pool|
      && (r'.value.pool == l.pool <==> pool' == pool && solid)
  }

  ghost predicate AllAlike(r: Result<LoweredSeq, CompileError>, r': Result<LoweredSeq, CompileError>, pool: Pool,
                           pool': Pool, solid: bool)
  {
    match r
    case Err(e) => r' == Err(e)
    case Ok(l) =>
      && r'.Ok? && r'.value.plans == l.plans && |r'.value.pool| == |l.pool|
      && (r'.value.pool == l.pool <==> pool' == pool && solid)
  }

  lemma PushedAlike(pool: Pool, pool': Pool, more: seq<Predicate>, more': seq<Predicate>)
    requires |pool'| == |pool| && |more'| == |more|
    ensures Alike(PushAll(pool, more), PushAll(pool', more'), pool, pool', more' == more)
  {
    if pool' + more' == pool + more {
      assert pool' == (pool' + more')[..|pool|] == (pool + more)[..|pool|] == pool;
      assert more' == (pool' + more')[|pool|..] == (pool + more)[|pool|..] == more;
    }
  }

  /** The predicates of a url whose query grew: the last one differs. */
  lemma UrlPredicatesGrew(url: Url, q: string)
    requires url.query == Some(q) && q != "" && IsWs(q[|q| - 1])
    ensures var r, r' := UrlPredicates(url), UrlPredicates(url.(query := Some(q + " ")));
            if r.Err? then r' == r else r'.Ok? && |r'.value| == |r.value| && r'.value != r.value
  {
    hide PortPredicate, PathPredicate, QueryPairs, NormalizeScheme;
    LongerPairs(q);
    if PortPredicate(url.port).Ok? && PathPredicate(url.path).Ok? {
      var head := SchemePredicate(url.scheme) + HostPredicate(url.host) + PortPredicate(url.port).value
                  + PathPredicate(url.path).value;
      var p, p' := QueryParamsAll(QueryPairs(q)), QueryParamsAll(QueryPairs(q + " "));
      assert (head + [p])[|head|] == p && (head + [p'])[|head|] == p';
    }
  }

  lemma UrlLowersAlike(url: Url, url': Url, pool: Pool, pool': Pool, solid: bool)
    requires |pool'| == |pool|
    requires if solid then url' == url
             else
               && url.query.Some? && url.query.value != "" && IsWs(url.query.value[|url.query.value| - 1])
               && url' == url.(query := Some(url.query.value + " "))
    ensures Alike(LowerUrlSpec(url, pool), LowerUrlSpec(url', pool'), pool, pool', solid)
  {
    hide UrlPredicates, PushAll;
    if !solid {
      UrlPredicatesGrew(url, url.query.value);
    }
    if UrlPredicates(url).Ok? {
      PushedAlike(pool, pool', UrlPredicates(url).value, UrlPredicates(url').value);
    }
  }

  lemma CliLowersAlike(cli: CliArgs, pool: Pool, pool': Pool)
    requires |pool'| == |pool|
    ensures Alike(LowerCliSpec(cli, pool), LowerCliSpec(cli, pool'), pool, pool', true)
  {
    hide ArgsPredicates, PushAll;
    if ArgsPredicates(cli.args).Ok? {
      PushedAlike(pool, pool', ArgsPredicates(cli.args).value, ArgsPredicates(cli.args).value);
    }
  }

  lemma FragmentLowersAlike(fragment: Fragment, pool: Pool, pool': Pool)
    requires |pool'| == |pool|
    ensures Alike(LowerFragmentSpec(fragment, pool), LowerFragmentSpec(Regrown(fragment), pool'), pool, pool',
                  !SpacedQuery(fragment))
  {
    hide LowerUrlSpec, LowerCliSpec;
    match fragment
    case CliOnly(args) => CliLowersAlike(args, pool, pool');
    case UrlFragment(url, cli) =>
      UrlLowersAlike(url, Regrown(fragment).url, pool, pool', !SpacedQuery(fragment));
      if cli.Some? && LowerUrlSpec(url, pool).Ok? {
        CliLowersAlike(cli.value, LowerUrlSpec(url, pool).value.pool,
                       LowerUrlSpec(Regrown(fragment).url, pool').value.pool);
      }
  }

  ghost predicate SolidBranches(branches: seq<AndExpr>) {
    forall i | 0 <= i < |branches| :: SolidAnd(branches[i])
  }

  ghost predicate SolidTerms(terms: seq<NotExpr>) {
    forall i | 0 <= i < |terms| :: SolidNot(terms[i])
  }

  lemma {:induction false} OrLowersAlike(a: OrExpr, b: OrExpr, pool: Pool, pool': Pool)
    requires GrewOr(a, b) && |pool'| == |pool|
    ensures Alike(LowerOrSpec(a, pool), LowerOrSpec(b, pool'), pool, pool', SolidOr(a))
    decreases a, 1
  {
    hide LowerAndSpec, LowerBranchesSpec, GrewAnd, SolidAnd;
    BranchesLowerAlike(a.branches, b.branches, pool, pool');
    assert SolidOr(a) <==> SolidBranches(a.branches);
    if |a.branches| == 1 {
      assert GrewAnd(a.branches[0], b.branches[0]);
      AndLowersAlike(a.branches[0], b.branches[0], pool, pool');
    }
  }

  lemma {:induction false} BranchesLowerAlike(a: seq<AndExpr>, b: seq<AndExpr>, pool: Pool, pool': Pool)
    requires GrewBranches(a, b) && |pool'| == |pool|
    ensures AllAlike(LowerBranchesSpec(a, pool), LowerBranchesSpec(b, pool'), pool, pool', SolidBranches(a))
    decreases a, 0
  {
    hide LowerAndSpec, GrewAnd, SolidAnd;
    if a != [] {
      assert GrewAnd(a[0], b[0]);
      AndLowersAlike(a[0], b[0], pool, pool');
      FirstBranch(a);
      if LowerAndSpec(a[0], pool).Ok? {
        BranchesLowerAlike(a[1..], b[1..], LowerAndSpec(a[0], pool).value.pool, LowerAndSpec(b[0], pool').value.pool);
      }
    }
  }

  lemma FirstBranch(a: seq<AndExpr>)
    requires a != []
    ensures SolidBranches(a) <==> SolidAnd(a[0]) && SolidBranches(a[1..])
  {
    hide SolidAnd;
    assert a == [a[0]] + a[1..];
  }

  lemma {:induction false} AndLowersAlike(a: AndExpr, b: AndExpr, pool: Pool, pool': Pool)
    requires GrewAnd(a, b) && |pool'| == |pool|
    ensures Alike(LowerAndSpec(a, pool), LowerAndSpec(b, pool'), pool, pool', SolidAnd(a))
    decreases a, 1
  {
    hide LowerNotSpec, LowerTermsSpec, GrewNot, SolidNot;
    TermsLowerAlike(a.terms, b.terms, pool, pool');
    assert SolidAnd(a) <==> SolidTerms(a.terms);
    if |a.terms| == 1 {
      assert GrewNot(a.terms[0], b.terms[0]);
      NotLowersAlike(a.terms[0], b.terms[0], pool, pool');
    }
  }

  lemma {:induction false} TermsLowerAlike(a: seq<NotExpr>, b: seq<NotExpr>, pool: Pool, pool': Pool)
    requires GrewTerms(a, b) && |pool'| == |pool|
    ensures AllAlike(LowerTermsSpec(a, pool), LowerTermsSpec(b, pool'), pool, pool', SolidTerms(a))
    decreases a, 0
  {
    hide LowerNotSpec, GrewNot, SolidNot;
    if a != [] {
      assert GrewNot(a[0], b[0]);
      NotLowersAlike(a[0], b[0], pool, pool');
      FirstTerm(a);
      if LowerNotSpec(a[0], pool).Ok? {
        TermsLowerAlike(a[1..], b[1..], LowerNotSpec(a[0], pool).value.pool, LowerNotSpec(b[0], pool').value.pool);
      }
    }
  }

  lemma FirstTerm(a: seq<NotExpr>)
    requires a != []
    ensures SolidTerms(a) <==> SolidNot(a[0]) && SolidTerms(a[1..])
  {
    hide SolidNot;
    assert a == [a[0]] + a[1..];
  }

  lemma {:induction false} NotLowersAlike(a: NotExpr, b: NotExpr, pool: Pool, pool': Pool)
    requires GrewNot(a, b) && |pool'| == |pool|
    ensures Alike(LowerNotSpec(a, pool), LowerNotSpec(b, pool'), pool, pool', SolidNot(a))
    decreases a, 0
  {
    hide LowerOrSpec, LowerFragmentSpec, GrewOr, SolidOr, Render, SpacedQuery;
    match a
    case Not(x, _) => NotLowersAlike(x, b.inner, pool, pool');
    case Prim(Leaf(f, _, _)) => FragmentLowersAlike(f, pool, pool');
    case Prim(Grouped(x)) => OrLowersAlike(x.or, b.primary.expr.or, pool, pool');
  }

  // ---- The formatted document and its source ----

  lemma ProgramLowersAlike(a: Expr, b: Expr)
    requires GrewOr(a.or, b.or)
    ensures LowerProgram(Program(Some(b))) == LowerProgram(Program(Some(a))) <==>
            LowerProgram(Program(Some(a))).Err? || SolidOr(a.or)
  {
    hide LowerOrSpec, GrewOr, SolidOr;
    OrLowersAlike(a.or, b.or, [], []);
  }

  /** Every document that parses: formatted, it compiles to the same predicates and plan, or fails alike, if and
      only if it fails or no query in it ends in white space. */
  lemma FormattingKeepsProgramIff(g: LeafGrammar, source: string, e: Expr)
    requires ReadsLikeDsl(g) && ParseProgram(g, source) == Ok(Program(Some(e)))
    ensures FormatDsl(g, source).Ok? && FormatDsl(g, source).value.Some?
    ensures CompileMatchExpr(g, FormatDsl(g, source).value.value) == CompileMatchExpr(g, source) <==>
            CompileMatchExpr(g, source).Err? || SolidOr(e.or)
  {
    hide *;
    var e' := FormattedParses(g, source, e);
    var out := source[..e.span.start] + FormatOr(e.or, "") + source[e.span.end..];
    FM.CompilesTo(g, source, e);
    FM.CompilesTo(g, out, e');
    ProgramLowersAlike(e, e');
  }

  // ---- A formatted document, formatted again ----

  /** As long if nothing grew, longer otherwise; with a line break in the one exactly if in the other. */
  predicate Longer(x: string, y: string, solid: bool) {
    (if solid then |y| == |x| else |y| > |x|) && ('\n' in y <==> '\n' in x)
  }

  ghost predicate AllLonger(xs: seq<string>, ys: seq<string>, solid: seq<bool>) {
    |xs| == |ys| == |solid| && forall i | 0 <= i < |xs| :: Longer(xs[i], ys[i], solid[i])
  }

  ghost predicate AllTrue(solid: seq<bool>) {
    forall i | 0 <= i < |solid| :: solid[i]
  }

  lemma LongerConcat(a: string, b: string, c: string, d: string, solid: bool, solid': bool)
    requires Longer(a, c, solid) && Longer(b, d, solid')
    ensures Longer(a + b, c + d, solid && solid')
  {
  }

  lemma LongerAround(a: string, x: string, y: string, b: string, solid: bool)
    requires Longer(x, y, solid)
    ensures Longer(a + x + b, a + y + b, solid)
  {
  }

  lemma {:induction false} JoinLonger(xs: seq<string>, ys: seq<string>, glue: string, solid: seq<bool>)
    requires AllLonger(xs, ys, solid)
    ensures Longer(Join(xs, glue), Join(ys, glue), AllTrue(solid))
  {
    hide Longer;
    if |xs| == 0 {
      LongerItself("");
    } else if |xs| > 1 {
      JoinLonger(xs[1..], ys[1..], glue, solid[1..]);
      LongerItself(glue);
      LongerConcat(xs[0], glue, ys[0], glue, solid[0], true);
      LongerConcat(xs[0] + glue, Join(xs[1..], glue), ys[0] + glue, Join(ys[1..], glue), solid[0], AllTrue(solid[1..]));
      assert AllTrue(solid) <==> solid[0] && AllTrue(solid[1..]) by { TrueRest(solid); }
    }
  }

  lemma TrueRest(solid: seq<bool>)
    requires solid != []
    ensures AllTrue(solid) <==> solid[0] && AllTrue(solid[1..])
  {
    assert solid == [solid[0]] + solid[1..];
  }

  lemma LongerCons(x: string, xs: seq<string>, y: string, ys: seq<string>, solid: bool, more: seq<bool>)
    requires Longer(x, y, solid) && AllLonger(xs, ys, more)
    ensures AllLonger([x] + xs, [y] + ys, [solid] + more)
    ensures AllTrue([solid] + more) <==> solid && AllTrue(more)
  {
    hide Longer, AllLonger, AllTrue;
    TrueRest([solid] + more);
    RestOf(solid, more);
    PairLonger(x, xs, y, ys, solid, more);
  }

  lemma RestOf(solid: bool, more: seq<bool>)
    ensures ([solid] + more)[1..] == more
  {
  }

  lemma PairLonger(x: string, xs: seq<string>, y: string, ys: seq<string>, solid: bool, more: seq<bool>)
    requires Longer(x, y, solid) && AllLonger(xs, ys, more)
    ensures AllLonger([x] + xs, [y] + ys, [solid] + more)
  {
    hide Longer;
  }

  lemma NoneLonger()
    ensures AllLonger([], [], []) && AllTrue([])
  {
  }

  lemma LongerItself(x: string)
    ensures Longer(x, x, true)
  {
  }

  lemma SameAndGlue(xs: seq<string>, ys: seq<string>, solid: seq<bool>)
    requires AllLonger(xs, ys, solid)
    ensures AndGlue(xs) == AndGlue(ys)
  {
    assert forall i | 0 <= i < |xs| :: '\n' in xs[i] <==> '\n' in ys[i];
  }

  lemma RenderLonger(fragment: Fragment)
    ensures Longer(Render(fragment), Render(Regrown(fragment)), !SpacedQuery(fragment))
  {
    hide AppendPath, TrimStart;
    if SpacedQuery(fragment) {
      var url := fragment.url;
      var front, q := AppendPath(Append(Append(Append("", url.scheme), url.host), url.port), url), url.query.value;
      SamePathText(url, q + " ");
      assert UrlText(url) == front + "?" + q;
      assert UrlText(Regrown(fragment).url) == front + "?" + (q + " ");
      var c := if fragment.cli.None? then "" else " " + TrimStart(fragment.cli.value.text);
      RenderUnfolds(fragment);
      RenderUnfolds(Regrown(fragment));
      hide *;
      LongerSpace(front + "?", q, c);
    }
  }

  lemma SamePathText(url: Url, q: string)
    ensures forall text :: AppendPath(text, url.(query := Some(q))) == AppendPath(text, url)
  {
  }

  lemma LongerSpace(a: string, q: string, c: string)
    ensures Longer(a + q + c, a + (q + " ") + c, false)
  {
  }

  lemma {:induction false} OrLonger(a: OrExpr, b: OrExpr, indent: string)
    requires GrewOr(a, b)
    ensures Longer(FormatOr(a, indent), FormatOr(b, indent), SolidOr(a))
    decreases a, 3
  {
    hide GrewAnd, Join, SolidAnd, Longer, OrGlue;
    var solid := BranchesLonger(a.branches, b.branches, indent);
    JoinLonger(FormatBranches(a.branches, indent), FormatBranches(b.branches, indent), OrGlue(indent), solid);
    LongerItself(indent);
    LongerItself("");
    LongerConcat(indent, Join(FormatBranches(a.branches, indent), OrGlue(indent)),
                 indent, Join(FormatBranches(b.branches, indent), OrGlue(indent)), true, AllTrue(solid));
  }

  lemma {:induction false} BranchesLonger(a: seq<AndExpr>, b: seq<AndExpr>, indent: string) returns (solid: seq<bool>)
    requires GrewBranches(a, b)
    ensures AllLonger(FormatBranches(a, indent), FormatBranches(b, indent), solid)
    ensures AllTrue(solid) <==> SolidBranches(a)
    decreases a, 2
  {
    hide GrewAnd, FormatAnd, SolidAnd, Longer, AllLonger, AllTrue;
    NoneLonger();
    if a == [] {
      solid := [];
    } else {
      assert GrewAnd(a[0], b[0]);
      AndLonger(a[0], b[0], indent);
      var more := BranchesLonger(a[1..], b[1..], indent);
      solid := [SolidAnd(a[0])] + more;
      FirstBranch(a);
      LongerCons(FormatAnd(a[0], indent), FormatBranches(a[1..], indent), FormatAnd(b[0], indent),
                 FormatBranches(b[1..], indent), SolidAnd(a[0]), more);
    }
  }

  lemma {:induction false} AndLonger(a: AndExpr, b: AndExpr, indent: string)
    requires GrewAnd(a, b)
    ensures Longer(FormatAnd(a, indent), FormatAnd(b, indent), SolidAnd(a))
    decreases a, 1
  {
    hide GrewNot, Join, SolidNot, Longer, AndGlue;
    var solid := TermsLonger(a.terms, b.terms, indent);
    var xs, ys := FormatTerms(a.terms, indent), FormatTerms(b.terms, indent);
    SameAndGlue(xs, ys, solid);
    JoinLonger(xs, ys, AndGlue(xs), solid);
  }

  lemma {:induction false} TermsLonger(a: seq<NotExpr>, b: seq<NotExpr>, indent: string) returns (solid: seq<bool>)
    requires GrewTerms(a, b)
    ensures AllLonger(FormatTerms(a, indent), FormatTerms(b, indent), solid)
    ensures AllTrue(solid) <==> SolidTerms(a)
    decreases a, 0
  {
    hide GrewNot, FormatNot, SolidNot, Longer, AllLonger, AllTrue;
    NoneLonger();
    if a == [] {
      solid := [];
    } else {
      assert GrewNot(a[0], b[0]);
      NotLonger(a[0], b[0], indent);
      var more := TermsLonger(a[1..], b[1..], indent);
      solid := [SolidNot(a[0])] + more;
      FirstTerm(a);
      LongerCons(FormatNot(a[0], indent), FormatTerms(a[1..], indent), FormatNot(b[0], indent),
                 FormatTerms(b[1..], indent), SolidNot(a[0]), more);
    }
  }

  lemma {:induction false} NotLonger(a: NotExpr, b: NotExpr, indent: string)
    requires GrewNot(a, b)
    ensures Longer(FormatNot(a, indent), FormatNot(b, indent), SolidNot(a))
    decreases a, 0
  {
    hide GrewOr, FormatOr, Render, SolidOr, Longer, SpacedQuery, Regrown;
    match a
    case Not(x, _) =>
      NotLonger(x, b.inner, indent);
      LongerItself("NOT ");
      LongerConcat("NOT ", FormatNot(x, indent), "NOT ", FormatNot(b.inner, indent), true, SolidNot(x));
    case Prim(Leaf(f, _, _)) => RenderLonger(f);
    case Prim(Grouped(x)) =>
      var y := b.primary.expr;
      GrewCount(x.or, y.or);
      GroupLonger(x, y, indent);
  }

  lemma GrewCount(a: OrExpr, b: OrExpr)
    requires GrewOr(a, b)
    ensures |a.branches| == |b.branches|
  {
    hide GrewAnd;
  }

  lemma {:induction false} GroupLonger(x: Expr, y: Expr, indent: string)
    requires GrewOr(x.or, y.or)
    ensures Longer(FormatPrimary(Grouped(x), indent), FormatPrimary(Grouped(y), indent), SolidOr(x.or))
    decreases x, 4
  {
    hide GrewOr, FormatOr, SolidOr, Longer;
    GrewCount(x.or, y.or);
    if |x.or.branches| > 1 {
      OrLonger(x.or, y.or, indent + "  ");
      var s, s' := FormatOr(x.or, indent + "  "), FormatOr(y.or, indent + "  ");
      LongerAround("(" + "\n", s, s', "\n" + indent, SolidOr(x.or));
      LongerAround("", "(" + "\n" + s + ("\n" + indent), "(" + "\n" + s' + ("\n" + indent), ")", SolidOr(x.or));
      Nothing("(" + "\n" + s + ("\n" + indent));
      Nothing("(" + "\n" + s' + ("\n" + indent));
    } else {
      OrLonger(x.or, y.or, "");
      var s, s' := FormatOr(x.or, ""), FormatOr(y.or, "");
      LongerAround("(" + "", s, s', "", SolidOr(x.or));
      LongerAround("", "(" + "" + s + "", "(" + "" + s' + "", ")", SolidOr(x.or));
      Nothing("(" + "" + s + "");
      Nothing("(" + "" + s' + "");
    }
  }

  lemma Nothing(x: string)
    ensures "" + x == x
  {
  }

  /** A formatted document counts as formatted, and stays as it is when formatted again, if and only if no query
      in it ends in white space; otherwise it gets longer each time. */
  lemma FixedPointIffSolid(g: LeafGrammar, source: string, e: Expr)
    requires ReadsLikeDsl(g) && ParseProgram(g, source) == Ok(Program(Some(e)))
    ensures FormatDsl(g, source).Ok? && FormatDsl(g, source).value.Some?
    ensures var out := FormatDsl(g, source).value.value;
            && FormatDsl(g, out).Ok? && FormatDsl(g, out).value.Some?
            && (if SolidOr(e.or) then FormatDsl(g, out).value.value == out
                else |FormatDsl(g, out).value.value| > |out|)
            && (IsDslFormatted(g, out) <==> SolidOr(e.or))
  {
    hide *;
    var e' := FormattedParses(g, source, e);
    var before, after := source[..e.span.start], source[e.span.end..];
    var text := FormatOr(e.or, "");
    var out := before + text + after;
    DocumentParts(g, out, e');
    FormatIs(g, before, text, after, e');
    OrLonger(e.or, e'.or, "");
    if SolidOr(e.or) {
      SolidDocumentsRoundTrip(g, source, e);
    } else {
      LongerDocument(before, text, FormatOr(e'.or, ""), after);
      NotFixed(g, out);
    }
  }

  lemma LongerDocument(before: string, x: string, y: string, after: string)
    requires Longer(x, y, false)
    ensures |before + y + after| > |before + x + after|
  {
  }

  lemma NotFixed(g: LeafGrammar, s: string)
    requires FormatDsl(g, s).Ok? && FormatDsl(g, s).value.Some? && |FormatDsl(g, s).value.value| > |s|
    ensures !IsDslFormatted(g, s)
  {
    hide FormatDsl;
  }
}
