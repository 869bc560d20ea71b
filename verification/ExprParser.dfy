/** The recursive-descent parser for match expressions, in its strict form and in the error-tolerant
    form that inspection views use. The leaf grammar is a parameter. */
module ExprParser {
  import opened Wrappers
  import opened Text
  import opened DslAst
  import opened ExprSplit

  function Fail<T>(start: nat, end: nat, message: string): Result<T, ParseError> {
    Err(Syntax(Span(start, end), message))
  }

  predicate IsNotPrefix(trimmed: string) {
    |trimmed| >= 4 && EqIgnoreCase(trimmed[..4], "NOT ")
  }

  /** The word NOT that is not followed by a space: an error, not a leaf. */
  predicate IsBareNot(trimmed: string) {
    && |trimmed| >= 3
    && EqIgnoreCase(trimmed[..3], "NOT")
    && (|trimmed| == 3 || !IsAlnum(trimmed[3]))
  }

  predicate IsParenthesized(trimmed: string) {
    |trimmed| >= 2 && trimmed[0] == '(' && trimmed[|trimmed| - 1] == ')'
  }

  // ---- Strict parsing ----

  function Prepend<T>(done: seq<T>, rest: Result<seq<T>, ParseError>): Result<seq<T>, ParseError> {
    match rest
    case Ok(more) => Ok(done + more)
    case Err(error) => Err(error)
  }

  function ParseExpr(g: LeafGrammar, source: string, base: nat): Result<Option<Expr>, ParseError>
    decreases |source|, 7
  {
    var trimmed := Trim(source);
    if trimmed == "" then Ok(None)
    else
      var start := base + TrimOffset(source);
      var or :- ParseOr(g, trimmed, start);
      Ok(Some(Expr(or, Span(start, start + |trimmed|))))
  }

  function ParseOr(g: LeafGrammar, source: string, base: nat): Result<OrExpr, ParseError>
    decreases |source|, 6
  {
    SplitSlices(source, Or, base, false);
    var parts :- Split(source, Or, base, false);
    var branches :- ParseBranches(g, |source|, parts, base);
    Ok(OrExpr(branches, Span(base, base + |source|)))
  }

  function ParseBranches(g: LeafGrammar, limit: nat, parts: seq<Segment>, base: nat)
    : Result<seq<AndExpr>, ParseError>
    requires forall j | 0 <= j < |parts| :: |parts[j].text| <= limit
    decreases limit, 5, |parts|
  {
    if parts == [] then Ok([])
    else
      var branch :- ParseAnd(g, parts[0].text, base + parts[0].start);
      Prepend([branch], ParseBranches(g, limit, parts[1..], base))
  }

  function ParseAnd(g: LeafGrammar, source: string, base: nat): Result<AndExpr, ParseError>
    decreases |source|, 4
  {
    SplitSlices(source, And, base, false);
    var parts :- Split(source, And, base, false);
    var terms :- ParseTerms(g, |source|, parts, base);
    Ok(AndExpr(terms, Span(base, base + |source|)))
  }

  function ParseTerms(g: LeafGrammar, limit: nat, parts: seq<Segment>, base: nat)
    : Result<seq<NotExpr>, ParseError>
    requires forall j | 0 <= j < |parts| :: |parts[j].text| <= limit
    decreases limit, 3, |parts|
  {
    if parts == [] then Ok([])
    else
      var term :- ParseNot(g, parts[0].text, base + parts[0].start);
      Prepend([term], ParseTerms(g, limit, parts[1..], base))
  }

  function ParseNot(g: LeafGrammar, source: string, base: nat): Result<NotExpr, ParseError>
    decreases |source|, 2
  {
    var trimmed := Trim(source);
    if trimmed == "" then Fail(base, base + 1, "empty expression term")
    else
      var start := base + TrimOffset(source);
      var end := start + |trimmed|;
      if IsNotPrefix(trimmed) then
        var inner :- ParseNot(g, trimmed[4..], start + 4);
        Ok(Not(inner, Span(start, end)))
      else if IsBareNot(trimmed) then Fail(start, end, "missing operand after NOT")
      else
        var primary :- ParsePrimary(g, trimmed, start);
        Ok(Prim(primary))
  }

  function ParsePrimary(g: LeafGrammar, source: string, base: nat): Result<Primary, ParseError>
    decreases |source|, 1
  {
    var trimmed := Trim(source);
    if trimmed == "" then Fail(base, base + 1, "empty primary")
    else
      var start := base + TrimOffset(source);
      if trimmed[0] == '(' then
        var expr :- ParseGrouped(g, trimmed, start);
        Ok(Grouped(expr))
      else
        match g(trimmed)
        case Rejected(at, message) => Fail(start + at, start + at + 1, message)
        case Accepted(fragment) => Ok(Leaf(fragment, trimmed, Span(start, start + |trimmed|)))
  }

  function ParseGrouped(g: LeafGrammar, source: string, base: nat): Result<Expr, ParseError>
    decreases |source|, 0
  {
    var trimmed := Trim(source);
    if !IsParenthesized(trimmed) then Fail(base, base + Max(|trimmed|, 1), "invalid grouped expression")
    else
      var inner := trimmed[1..|trimmed| - 1];
      var expr :- ParseExpr(g, inner, base + 1);
      match expr
      case None => Fail(base + 1, base + 1 + Max(|inner|, 1), "empty grouped expression")
      case Some(e) => Ok(e)
  }

  // ---- Error-tolerant parsing ----

  datatype Partial<T> = Partial(tree: T, error: Option<ParseError>)

  function After<T>(done: seq<T>, rest: Partial<seq<T>>): Partial<seq<T>> {
    Partial(done + rest.tree, rest.error)
  }

  function ParseExprPartial(g: LeafGrammar, source: string, base: nat): Partial<Option<Expr>> {
    var trimmed := Trim(source);
    if trimmed == "" then Partial(None, None)
    else
      var start := base + TrimOffset(source);
      var or := ParseOrPartial(g, trimmed, start);
      if or.tree.branches == [] then Partial(None, or.error)
      else Partial(Some(Expr(or.tree, Span(start, start + |trimmed|))), or.error)
  }

  function ParseOrPartial(g: LeafGrammar, source: string, base: nat): Partial<OrExpr> {
    var span := Span(base, base + |source|);
    match Split(source, Or, base, true)
    case Err(error) => Partial(OrExpr([], span), Some(error))
    case Ok(parts) =>
      var r := ParseBranchesPartial(g, parts, base);
      Partial(OrExpr(r.tree, span), r.error)
  }

  /** Keeps the branches that have terms, up to and including the first one with an error. */
  function ParseBranchesPartial(g: LeafGrammar, parts: seq<Segment>, base: nat): Partial<seq<AndExpr>> {
    if parts == [] then Partial([], None)
    else
      var first := ParseAndPartial(g, parts[0].text, base + parts[0].start);
      var kept := if first.tree.terms != [] then [first.tree] else [];
      if first.error.Some? then Partial(kept, first.error)
      else
        After(kept, ParseBranchesPartial(g, parts[1..], base))
  }

  function ParseAndPartial(g: LeafGrammar, source: string, base: nat): Partial<AndExpr> {
    var span := Span(base, base + |source|);
    match Split(source, And, base, true)
    case Err(error) => Partial(AndExpr([], span), Some(error))
    case Ok(parts) =>
      var r := ParseTermsPartial(g, parts, base);
      Partial(AndExpr(r.tree, span), r.error)
  }

  /** Keeps the terms before the first one that does not parse. */
  function ParseTermsPartial(g: LeafGrammar, parts: seq<Segment>, base: nat): Partial<seq<NotExpr>> {
    if parts == [] then Partial([], None)
    else
      match ParseNot(g, parts[0].text, base + parts[0].start)
      case Err(error) => Partial([], Some(error))
      case Ok(term) =>
        After([term], ParseTermsPartial(g, parts[1..], base))
  }

  // ---- The parser as the source runs it ----

  method ParseExpression(g: LeafGrammar, source: string, base: nat)
    returns (r: Result<Option<Expr>, ParseError>)
    ensures r == ParseExpr(g, source, base)
    decreases |source|, 7
  {
    hide Trim, TrimOffset, ParseOr;
    var trimmed := Trim(source);
    if trimmed == "" {
      return Ok(None);
    }
    var start := base + TrimOffset(source);
    var or :- ParseOrExpression(g, trimmed, start);
    return Ok(Some(Expr(or, Span(start, start + |trimmed|))));
  }

  method ParseOrExpression(g: LeafGrammar, source: string, base: nat)
    returns (r: Result<OrExpr, ParseError>)
    ensures r == ParseOr(g, source, base)
    decreases |source|, 6
  {
    hide Split, Slices, ParseAnd;
    SplitSlices(source, Or, base, false);
    var parts :- SplitTopLevel(source, Or, base, false);
    var branches, rest := [], parts;
    PrependNothing(ParseBranches(g, |source|, parts, base));
    while rest != []
      invariant forall j | 0 <= j < |rest| :: |rest[j].text| <= |source|
      invariant ParseBranches(g, |source|, parts, base) ==
                Prepend(branches, ParseBranches(g, |source|, rest, base))
    {
      var branch :- ParseAndExpression(g, rest[0].text, base + rest[0].start);
      PrependOne(branches, branch, ParseBranches(g, |source|, rest[1..], base));
      branches, rest := branches + [branch], rest[1..];
    }
    assert branches + [] == branches;
    return Ok(OrExpr(branches, Span(base, base + |source|)));
  }

  method ParseAndExpression(g: LeafGrammar, source: string, base: nat)
    returns (r: Result<AndExpr, ParseError>)
    ensures r == ParseAnd(g, source, base)
    decreases |source|, 4
  {
    hide Split, Slices, ParseNot;
    SplitSlices(source, And, base, false);
    var parts :- SplitTopLevel(source, And, base, false);
    var terms, rest := [], parts;
    PrependNothing(ParseTerms(g, |source|, parts, base));
    while rest != []
      invariant forall j | 0 <= j < |rest| :: |rest[j].text| <= |source|
      invariant ParseTerms(g, |source|, parts, base) ==
                Prepend(terms, ParseTerms(g, |source|, rest, base))
    {
      var term :- ParseNotExpression(g, rest[0].text, base + rest[0].start);
      PrependOne(terms, term, ParseTerms(g, |source|, rest[1..], base));
      terms, rest := terms + [term], rest[1..];
    }
    assert terms + [] == terms;
    return Ok(AndExpr(terms, Span(base, base + |source|)));
  }

  method ParseNotExpression(g: LeafGrammar, source: string, base: nat)
    returns (r: Result<NotExpr, ParseError>)
    ensures r == ParseNot(g, source, base)
    decreases |source|, 2
  {
    hide Trim, TrimOffset, ParsePrimary, EqIgnoreCase;
    var trimmed := Trim(source);
    if trimmed == "" {
      return Fail(base, base + 1, "empty expression term");
    }
    var start := base + TrimOffset(source);
    if IsNotPrefix(trimmed) {
      var inner :- ParseNotExpression(g, trimmed[4..], start + 4);
      return Ok(Not(inner, Span(start, start + |trimmed|)));
    }
    if IsBareNot(trimmed) {
      return Fail(start, start + |trimmed|, "missing operand after NOT");
    }
    var primary :- ParsePrimaryFragment(g, trimmed, start);
    return Ok(Prim(primary));
  }

  method ParsePrimaryFragment(g: LeafGrammar, source: string, base: nat)
    returns (r: Result<Primary, ParseError>)
    ensures r == ParsePrimary(g, source, base)
    decreases |source|, 1
  {
    hide Trim, TrimOffset, ParseGrouped;
    var trimmed := Trim(source);
    if trimmed == "" {
      return Fail(base, base + 1, "empty primary");
    }
    var start := base + TrimOffset(source);
    if trimmed[0] == '(' {
      var expr :- ParseGroupedExpression(g, trimmed, start);
      return Ok(Grouped(expr));
    }
    match g(trimmed) {
      case Rejected(at, message) => return Fail(start + at, start + at + 1, message);
      case Accepted(fragment) => return Ok(Leaf(fragment, trimmed, Span(start, start + |trimmed|)));
    }
  }

  method ParseGroupedExpression(g: LeafGrammar, source: string, base: nat)
    returns (r: Result<Expr, ParseError>)
    ensures r == ParseGrouped(g, source, base)
    decreases |source|, 0
  {
    hide Trim, ParseExpr;
    var trimmed := Trim(source);
    if !IsParenthesized(trimmed) {
      return Fail(base, base + Max(|trimmed|, 1), "invalid grouped expression");
    }
    var inner := trimmed[1..|trimmed| - 1];
    var expr :- ParseExpression(g, inner, base + 1);
    match expr {
      case None => return Fail(base + 1, base + 1 + Max(|inner|, 1), "empty grouped expression");
      case Some(e) => return Ok(e);
    }
  }

  lemma PrependNothing<T>(rest: Result<seq<T>, ParseError>)
    ensures Prepend([], rest) == rest
  {
    assert rest.Ok? ==> [] + rest.value == rest.value;
  }

  lemma PrependOne<T>(done: seq<T>, one: T, rest: Result<seq<T>, ParseError>)
    ensures Prepend(done, Prepend([one], rest)) == Prepend(done + [one], rest)
  {
    assert rest.Ok? ==> done + ([one] + rest.value) == done + [one] + rest.value;
  }

  method ParseExpressionPartial(g: LeafGrammar, source: string, base: nat)
    returns (tree: Option<Expr>, error: Option<ParseError>)
    ensures Partial(tree, error) == ParseExprPartial(g, source, base)
  {
    hide Trim, TrimOffset, ParseOrPartial;
    var trimmed := Trim(source);
    if trimmed == "" {
      return None, None;
    }
    var start := base + TrimOffset(source);
    var or, e := ParseOrExpressionPartial(g, trimmed, start);
    if or.branches == [] {
      return None, e;
    }
    return Some(Expr(or, Span(start, start + |trimmed|))), e;
  }

  method ParseOrExpressionPartial(g: LeafGrammar, source: string, base: nat)
    returns (or: OrExpr, error: Option<ParseError>)
    ensures Partial(or, error) == ParseOrPartial(g, source, base)
  {
    hide Split, ParseAndPartial;
    var span := Span(base, base + |source|);
    var split := SplitTopLevel(source, Or, base, true);
    if split.Err? {
      return OrExpr([], span), Some(split.error);
    }
    var branches, rest := [], split.value;
    AfterNothing(ParseBranchesPartial(g, rest, base));
    while rest != []
      invariant ParseBranchesPartial(g, split.value, base) ==
                After(branches, ParseBranchesPartial(g, rest, base))
    {
      var branch, e := ParseAndExpressionPartial(g, rest[0].text, base + rest[0].start);
      AfterMore(branches, if branch.terms != [] then [branch] else [], ParseBranchesPartial(g, rest[1..], base));
      if branch.terms != [] {
        branches := branches + [branch];
      }
      if e.Some? {
        return OrExpr(branches, span), e;
      }
      rest := rest[1..];
    }
    assert branches + [] == branches;
    return OrExpr(branches, span), None;
  }

  method ParseAndExpressionPartial(g: LeafGrammar, source: string, base: nat)
    returns (and: AndExpr, error: Option<ParseError>)
    ensures Partial(and, error) == ParseAndPartial(g, source, base)
  {
    hide Split, ParseNot;
    var span := Span(base, base + |source|);
    var split := SplitTopLevel(source, And, base, true);
    if split.Err? {
      return AndExpr([], span), Some(split.error);
    }
    var terms, rest := [], split.value;
    AfterNothing(ParseTermsPartial(g, rest, base));
    while rest != []
      invariant ParseTermsPartial(g, split.value, base) ==
                After(terms, ParseTermsPartial(g, rest, base))
    {
      var term := ParseNotExpression(g, rest[0].text, base + rest[0].start);
      if term.Err? {
        assert terms + [] == terms;
        return AndExpr(terms, span), Some(term.error);
      }
      AfterMore(terms, [term.value], ParseTermsPartial(g, rest[1..], base));
      terms, rest := terms + [term.value], rest[1..];
    }
    assert terms + [] == terms;
    return AndExpr(terms, span), None;
  }

  lemma AfterNothing<T>(rest: Partial<seq<T>>)
    ensures After([], rest) == rest
  {
    assert [] + rest.tree == rest.tree;
  }

  lemma AfterMore<T>(done: seq<T>, more: seq<T>, rest: Partial<seq<T>>)
    ensures After(done, After(more, rest)) == After(done + more, rest)
    ensures done + [] == done
  {
    assert done + (more + rest.tree) == done + more + rest.tree;
  }
}
