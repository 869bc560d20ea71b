/** With the language's own leaf grammar, formatting a document round-trips exactly when no query in it ends in
    white space. */
module DslExact {
  import opened Wrappers
  import opened Text
  import opened DslAst
  import opened ExprSplit
  import opened ExprParser
  import opened ParserAgreement
  import opened TolerantTrees
  import opened Masking
  import opened Format
  import opened FormatClean
  import opened FormatReparse
  import opened FormatRoundTrip
  import opened FormatExact
  import opened DslGrammar
  import opened DslStable
  import opened DslSeam
  import opened DslReprint
  import opened DslLeaf
  import opened DslClean
  import opened DslStill

  // ---- Leaves ----

  /** A leaf that the parser read prints as a text that is read as the same leaf if and only if its query
      does not end in white space. */
  lemma LeafPrintsIffSolid(g: LeafGrammar, t: string, fragment: Fragment)
    requires ReadsLikeDsl(g) && CleanLeaf(t) && g(t) == Accepted(fragment)
    ensures LeafPrints(g, fragment) <==> !SpacedQuery(fragment)
  {
    hide *;
    GrammarReads(g, t);
    GrammarReads(g, Render(fragment));
    CleanUnfolds(t);
    LeafReads(t, fragment);
    CleanPrints(t, fragment);
    LeafPrintsUnfolds(g, fragment);
    RegrownDiffers(fragment);
  }

  lemma RegrownDiffers(fragment: Fragment)
    ensures Regrown(fragment) == fragment <==> !SpacedQuery(fragment)
  {
    if SpacedQuery(fragment) {
      assert |fragment.url.query.value + " "| != |fragment.url.query.value|;
    }
  }

  lemma GrammarReads(g: LeafGrammar, t: string)
    requires ReadsLikeDsl(g)
    ensures forall fragment :: g(t) == Accepted(fragment) <==> ReadLeaf(t) == Some(fragment)
  {
    hide ReadLeaf;
    assert match ReadLeaf(t)
           case Some(fragment) => g(t) == Accepted(fragment)
           case None => g(t).Rejected?;
  }

  lemma LeafPrintsUnfolds(g: LeafGrammar, fragment: Fragment)
    ensures LeafPrints(g, fragment) <==>
            CleanLeaf(Render(fragment)) && g(Render(fragment)) == Accepted(fragment)
  {
    hide CleanLeaf, Render;
  }

  // ---- Trees ----

  /** No query in the tree ends in white space. */
  ghost predicate SolidOr(or: OrExpr) {
    forall i | 0 <= i < |or.branches| :: SolidAnd(or.branches[i])
  }

  ghost predicate SolidAnd(and: AndExpr) {
    forall i | 0 <= i < |and.terms| :: SolidNot(and.terms[i])
  }

  ghost predicate SolidNot(n: NotExpr) {
    match n
    case Not(inner, _) => SolidNot(inner)
    case Prim(Leaf(fragment, _, _)) => !SpacedQuery(fragment)
    case Prim(Grouped(expr)) => SolidOr(expr.or)
  }

  lemma {:induction false} SolidReprints(g: LeafGrammar, or: OrExpr)
    requires ReadsLikeDsl(g) && SolidOr(or)
    ensures OrReprints(g, or)
  {
    hide ReadsLikeDsl;
    forall i | 0 <= i < |or.branches| ensures AndReprints(g, or.branches[i]) {
      assert SolidAnd(or.branches[i]);
      forall j | 0 <= j < |or.branches[i].terms| ensures NotReprints(g, or.branches[i].terms[j]) {
        SolidNotReprints(g, or.branches[i].terms[j]);
      }
    }
  }

  lemma {:induction false} SolidNotReprints(g: LeafGrammar, n: NotExpr)
    requires ReadsLikeDsl(g) && SolidNot(n)
    ensures NotReprints(g, n)
  {
    hide ReadsLikeDsl, CleanLeaf, LeafPrints, SpacedQuery;
    match n
    case Not(inner, _) => SolidNotReprints(g, inner);
    case Prim(Leaf(fragment, text, _)) =>
      if CleanLeaf(text) && g(text) == Accepted(fragment) {
        LeafPrintsIffSolid(g, text, fragment);
      }
    case Prim(Grouped(expr)) => SolidReprints(g, expr.or);
  }

  lemma {:induction false} GoodIsSolid(g: LeafGrammar, or: OrExpr)
    requires ReadsLikeDsl(g) && GoodOr(g, or)
    ensures SolidOr(or)
  {
    hide ReadsLikeDsl;
    forall i | 0 <= i < |or.branches| ensures SolidAnd(or.branches[i]) {
      assert GoodAnd(g, or.branches[i]);
      forall j | 0 <= j < |or.branches[i].terms| ensures SolidNot(or.branches[i].terms[j]) {
        GoodNotIsSolid(g, or.branches[i].terms[j]);
      }
    }
  }

  lemma {:induction false} GoodNotIsSolid(g: LeafGrammar, n: NotExpr)
    requires ReadsLikeDsl(g) && GoodNot(g, n)
    ensures SolidNot(n)
  {
    hide ReadsLikeDsl, CleanLeaf, LeafPrints, SpacedQuery;
    match n
    case Not(inner, _) => GoodNotIsSolid(g, inner);
    case Prim(Leaf(fragment, _, _)) =>
      LeafPrintsUnfolds(g, fragment);
      LeafPrintsIffSolid(g, Render(fragment), fragment);
    case Prim(Grouped(expr)) => GoodIsSolid(g, expr.or);
  }

  // ---- Documents ----

  /** Under the language's grammar: a document that parses formats to a text that parses to the same tree, in
      the same place, if and only if no query in it ends in white space. */
  lemma RoundTripIffSolidQueries(g: LeafGrammar, source: string, e: Expr)
    requires ReadsLikeDsl(g) && ParseProgram(g, source) == Ok(Program(Some(e)))
    ensures e.span.start <= e.span.end <= |source|
    ensures var before, after := source[..e.span.start], source[e.span.end..];
            var out := before + FormatOr(e.or, "") + after;
            ParsesAs(g, out, e.or, Span(|before|, |out| - |after|)) <==> SolidOr(e.or)
  {
    hide *;
    RoundTripIffLeavesReprint(g, source, e);
    if SolidOr(e.or) {
      SolidReprints(g, e.or);
    } else if OrReprints(g, e.or) {
      ProgramUnfolds(g, source, e);
      MaskIsMasked(source);
      ExprIsGood(g, Mask(source), 0, e);
      GoodIsSolid(g, e.or);
    }
  }

  /** Without such queries a formatted document is moreover a fixed point of the formatter. */
  lemma SolidDocumentsRoundTrip(g: LeafGrammar, source: string, e: Expr)
    requires ReadsLikeDsl(g) && ParseProgram(g, source) == Ok(Program(Some(e))) && SolidOr(e.or)
    ensures e.span.start <= e.span.end <= |source|
    ensures var out := source[..e.span.start] + FormatOr(e.or, "") + source[e.span.end..];
            FormatDsl(g, source) == Ok(Some(out)) && FormatDsl(g, out) == Ok(Some(out)) && IsDslFormatted(g, out)
  {
    hide *;
    SolidReprints(g, e.or);
    FormatRoundTrips(g, source, e);
  }

  // ---- Both parsers ----

  /** No leaf of the language has a parenthesis. */
  lemma LeavesBalance(g: LeafGrammar)
    requires ReadsLikeDsl(g)
    ensures BalancedLeaves(g)
  {
    hide ReadsLikeDsl, ReadLeaf, Net, Plain, Flat;
    forall t | g(t).Accepted? ensures Net(t) == 0 {
      GrammarReads(g, t);
      assert g(t) == Accepted(g(t).fragment);
      PlainLeaf(t);
      PlainIsFlat(t);
      FlatNet(t);
    }
  }

  lemma FlatNet(t: string)
    requires Flat(t)
    ensures Net(t) == 0
  {
    FlatLevel(t, |t|);
  }

  /** Under the language's grammar the tolerant parser returns a tree without error exactly when the strict one
      returns it; and unless a parenthesis stays open both report the same first error. */
  lemma DslParsersAgree(g: LeafGrammar, source: string)
    requires ReadsLikeDsl(g)
    ensures SameSuccess(ParseProgram(g, source), ParseProgramPartial(g, source))
    ensures Net(Mask(source)) <= 0 ==> SameFirstError(ParseProgram(g, source), ParseProgramPartial(g, source))
  {
    hide *;
    LeavesBalance(g);
    PartialProgramRefinesStrict(g, source);
  }

  /** Under the language's grammar the tolerant parser keeps, of any document, the branches before the first that
      does not parse and of that one the terms before the first that does not. */
  lemma DslTolerantTree(g: LeafGrammar, source: string)
    requires ReadsLikeDsl(g)
    ensures var r := ParseProgramPartial(g, source);
            if Content(source) == "" then r == Partial(Program(None), None)
            else TreeKept(g, Content(source), ContentAt(source), r.tree.expr, r.error)
  {
    hide *;
    LeavesBalance(g);
    TolerantTree(g, source);
  }

  // ---- Queries that end in white space ----

  /** A key and nothing else, then arguments: the query takes the white space between them. */
  lemma KeyThenArguments(key: string, w: string, r: string, fragment: Fragment)
    requires key != "" && (forall i | 0 <= i < |key| :: IsQueryChar(key[i]))
    requires w != "" && (forall i | 0 <= i < |w| :: IsWs(w[i])) && StartsWith(r, '-')
    requires ReadLeaf("?" + (key + (w + r))) == Some(fragment)
    ensures fragment.UrlFragment? && fragment.url.query == Some(key + w) && SpacedQuery(fragment)
  {
    hide *;
    KeyTaken(key, w, r);
    KeyParts(key, w, r);
    TakenQuery(key + (w + r), key + w, r, fragment);
  }

  lemma KeyParts(key: string, w: string, r: string)
    requires w != "" && forall i | 0 <= i < |w| :: IsWs(w[i])
    ensures key + (w + r) == key + w + r && key + w != "" && IsWs((key + w)[|key + w| - 1])
  {
    hide IsWs;
  }

  lemma TakenQuery(s: string, query: string, r: string, fragment: Fragment)
    requires s == query + r && query != "" && IsWs(query[|query| - 1]) && StartsWith(r, '-')
    requires QueryKey(s) == |query| && s[|query|..] == r && !IsWs(s[0])
    requires ReadLeaf("?" + s) == Some(fragment)
    ensures fragment.UrlFragment? && fragment.url.query == Some(query) && SpacedQuery(fragment)
  {
    hide *;
    var t := "?" + s;
    SignTaken(s);
    QueryTaken(s, |query|);
    QuestionLeaf(t, s);
    ReadQueryUnfolds(t);
    QueryGiven(t, query, r, fragment);
  }

  lemma KeyTaken(key: string, w: string, r: string)
    requires key != "" && (forall i | 0 <= i < |key| :: IsQueryChar(key[i]))
    requires w != "" && (forall i | 0 <= i < |w| :: IsWs(w[i])) && StartsWith(r, '-')
    ensures var s := key + (w + r); QueryKey(s) == |key + w| && s[|key + w|..] == r && !IsWs(s[0])
  {
    var s := key + (w + r);
    hide IsQueryChar, IsWs;
    KeyIsNoWs(w[0]);
    KeyIsNoWs(s[0]);
    LeadingIs(s, IsQueryChar, |key|);
    assert s[|key|..] == w + r;
    DashIsNoWs();
    LeadingIs(w + r, IsWs, |w|);
  }

  lemma DashIsNoWs()
    ensures !IsWs('-') && IsQueryChar('-')
  {
  }

  lemma KeyIsNoWs(c: char)
    ensures !(IsWs(c) && IsQueryChar(c))
  {
  }

  lemma SignTaken(s: string)
    requires s != "" && !IsWs(s[0])
    ensures Sign("?" + s, '?') == 1 && ("?" + s)[1..] == s && StartsWith("?" + s, '?')
  {
    NoGap(s);
    assert ("?" + s)[1..] == s;
  }

  lemma QueryTaken(s: string, n: nat)
    requires QueryKey(s) == n > 0 && n <= |s| && StartsWith(s[n..], '-') && Sign("?" + s, '?') == 1
    requires ("?" + s)[1..] == s
    ensures Query("?" + s) == 1 + n
  {
    hide QueryKey, MorePairs;
    DashSigns(s[n..]);
    assert QueryPair(s) == n;
    DashGap(s[n..]);
    assert FirstPair(s) == n;
    assert QueryBody(s) == n;
    hide QueryBody;
  }

  lemma DashSigns(r: string)
    requires StartsWith(r, '-')
    ensures EqValue(r) == 0 && AndPair(r) == 0
  {
  }

  lemma DashGap(r: string)
    requires StartsWith(r, '-')
    ensures Gap(r) == 0
  {
  }

  lemma QuestionLeaf(t: string, s: string)
    requires t == "?" + s && Query(t) > 0
    ensures ReadLeaf(t) == match ReadQuery(t) case None => None case Some(tail) => Some(UrlOf(None, None, tail))
  {
    StartNoGap(t);
    WholeText(t);
    QuestionMark(t);
    hide *;
    ReadLeafUnfolds(t);
    ReadUrlUnfolds(t);
    ReadPathAt(t, 0);
  }

  lemma QuestionMark(t: string)
    requires StartsWith(t, '?')
    ensures Args(t).None? && Scheme(t) == 0 && Host(t) == 0 && Path(t) == 0
  {
    NeitherSchemeNorHost(t);
    if Args(t).Some? {
      ArgsStart(t);
    } else if Path(t) > 0 {
      PathStarts(t);
    }
  }

  lemma QueryGiven(t: string, query: string, r: string, fragment: Fragment)
    requires t == "?" + (query + r) && Query(t) == 1 + |query| && query != "" && IsWs(query[|query| - 1])
    requires ReadQuery(t) == match ReadCli(t[Query(t)..])
                             case None => None
                             case Some(tail) => Some(tail.(query := Some(t[1..Query(t)])))
    requires (match ReadQuery(t) case None => None case Some(tail) => Some(UrlOf(None, None, tail))) == Some(fragment)
    ensures fragment.UrlFragment? && fragment.url.query == Some(query) && SpacedQuery(fragment)
  {
    hide Query, ReadCli, ReadQuery, IsWs;
    assert t[1..1 + |query|] == query;
  }

  /** There are such leaves: `?a=1 -X POST`, whose query is read as `a=1` and a space. */
  lemma SpacedLeaf(g: LeafGrammar)
    requires ReadsLikeDsl(g)
    ensures var fragment := UrlFragment(Url(None, None, None, None, Some("a=1 ")),
                                        Some(CliArgs([CliArg("-X", Some(Bare("POST")))], "-X POST")));
            g("?a=1 -X POST") == Accepted(fragment) && SpacedQuery(fragment)
  {
    hide *;
    var s, t, r := "a=1 -X POST", "?a=1 -X POST", "-X POST";
    KeyAndRest();
    KeyTaken("a=1", " ", r);
    assert "a=1" + (" " + r) == s && "?" + s == t && "a=1" + " " == "a=1 ";
    SignTaken(s);
    QueryTaken(s, 4);
    QuestionLeaf(t, s);
    ReadQueryUnfolds(t);
    ExampleParts(t, r);
    ExampleArgs();
    GrammarReads(g, t);
    var cli := CliArgs([CliArg("-X", Some(Bare("POST")))], r);
    QueryUrl("a=1 ", cli);
    EndsInSpace("a=1 ", Some(cli));
  }

  lemma KeyAndRest()
    ensures forall i | 0 <= i < 3 :: IsQueryChar("a=1"[i])
    ensures forall i | 0 <= i < 1 :: IsWs(" "[i])
    ensures StartsWith("-X POST", '-')
  {
    assert "a=1"[0] == 'a' && "a=1"[1] == '=' && "a=1"[2] == '1';
  }

  lemma ExampleParts(t: string, r: string)
    requires t == "?a=1 -X POST" && r == "-X POST"
    ensures t[5..] == r && t[1..5] == "a=1 "
  {
  }

  lemma ExampleArgs()
    ensures ReadCli("-X POST") ==
            Some(Tail(None, None, None, Some(CliArgs([CliArg("-X", Some(Bare("POST")))], "-X POST"))))
  {
    hide *;
    var r := "-X POST";
    KeyAndRest();
    DashGap(r);
    WholeText(r);
    ReadCliUnfolds(r);
    ExampleArg();
    ArgsOfOne(r, ReadArgs([CliArg("-X", Some(Bare("POST")))], 7));
  }

  lemma ExampleArg()
    ensures Arg("-X POST") == Some(ReadArgs([CliArg("-X", Some(Bare("POST")))], 7))
  {
    hide Leading, Gap, Flag, ArgValue;
    var r := "-X POST";
    ExampleFlag();
    ExampleValue();
    assert r[2..] == " POST" && r[3..] == "POST" && r[..2] == "-X";
    SpaceGap();
  }

  lemma SpaceGap()
    ensures Gap(" POST") == 1
  {
    LeadingIs(" POST", IsWs, 1);
  }

  lemma ExampleFlag()
    ensures Flag("-X POST") == 2
  {
    var r := "-X POST";
    assert r[1..] == "X POST";
    NoGap("X POST");
    LeadingIs("X POST", IsAlpha, 1);
    hide Leading, Gap;
  }

  lemma ExampleValue()
    ensures ArgValue("POST") == Some(ReadValue(Bare("POST"), 4))
  {
    LeadingIs("POST", IsValueChar, 4);
    assert "POST"[..4] == "POST";
    hide Leading, Gap;
  }

  lemma NoArg()
    ensures Arg("").None? && Gap("") == 0
  {
  }

  /** One argument that reaches to the end. */
  lemma ArgsOfOne(r: string, arg: ReadArgs)
    requires Arg(r) == Some(arg) && arg.n == |r| && StartsWith(r, '-') && |arg.args| == 1
    ensures CliOf(r) == Some(Tail(None, None, None, Some(CliArgs(arg.args, r))))
  {
    hide *;
    NoArg();
    NothingLeft(r);
    OneArg(r, arg);
    AllArgs(r, arg);
  }

  lemma NothingLeft(r: string)
    ensures r[|r|..] == "" && r[..|r|] == r
  {
  }

  lemma OneArg(r: string, arg: ReadArgs)
    requires Arg(r) == Some(arg) && arg.n == |r| && r[|r|..] == "" && Gap("") == 0 && Arg("").None?
    ensures Args(r) == Some(arg)
  {
    hide Arg, Gap;
  }

  lemma AllArgs(r: string, arg: ReadArgs)
    requires Args(r) == Some(arg) && arg.n == |r| && r[|r|..] == "" && r[..|r|] == r
    ensures CliOf(r) == Some(Tail(None, None, None, Some(CliArgs(arg.args, r))))
  {
    hide Args, Gap;
  }

  lemma QueryUrl(query: string, cli: CliArgs)
    ensures UrlOf(None, None, Tail(None, None, Some(query), Some(cli))) ==
            UrlFragment(Url(None, None, None, None, Some(query)), Some(cli))
  {
  }

  lemma EndsInSpace(query: string, cli: Option<CliArgs>)
    requires query != "" && query[|query| - 1] == ' '
    ensures SpacedQuery(UrlFragment(Url(None, None, None, None, Some(query)), cli))
  {
  }
}
