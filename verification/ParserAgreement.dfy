/** The error-tolerant parser against the strict one. */
module ParserAgreement {
  import opened Wrappers
  import opened Text
  import opened DslAst
  import opened ExprSplit
  import opened ExprParser
  import opened Masking

  /** A leaf grammar that accepts no fragment whose parentheses do not balance out. */
  ghost predicate BalancedLeaves(g: LeafGrammar) {
    forall t | t != "" && t[0] != '(' && g(t).Accepted? :: Net(t) == 0
  }

  ghost predicate SameSuccess<T>(strict: Result<T, ParseError>, partial: Partial<T>) {
    && (strict.Ok? <==> partial.error.None?)
    && (strict.Ok? ==> strict.value == partial.tree)
  }

  ghost predicate SameFirstError<T>(strict: Result<T, ParseError>, partial: Partial<T>) {
    strict.Err? ==> partial.error == Some(strict.error)
  }

  lemma MaskedTrim(s: string)
    ensures Masked(s) ==> Masked(Trim(s))
  {
  }

  lemma ParsedExprIsClosed(g: LeafGrammar, source: string, base: nat)
    requires Masked(source) && ParseExpr(g, source, base).Ok? && !Blank(source)
    ensures Net(source) == 0
  {
    var start := base + TrimOffset(source);
    NetTrim(source);
    MaskedTrim(source);
    assert ParseOr(g, Trim(source), start).Ok?;
    assert Split(Trim(source), Or, start, false).Ok?;
    hide Split;
    SplitAccepts(Trim(source), Or, start);
  }

  lemma NetParenthesized(t: string)
    requires IsParenthesized(t)
    ensures Net(t) == Net(t[1..|t| - 1])
  {
    var inner := t[1..|t| - 1];
    assert t == "(" + inner + ")";
    NetConcat("(", inner);
    NetConcat("(" + inner, ")");
    LevelSteps("(", 0);
    LevelSteps(")", 0);
  }

  lemma ParsedGroupIsClosed(g: LeafGrammar, source: string, base: nat)
    requires Masked(source) && ParseGrouped(g, source, base).Ok?
    ensures Net(source) == 0
  {
    var trimmed := Trim(source);
    NetTrim(source);
    MaskedTrim(source);
    assert IsParenthesized(trimmed);
    NetParenthesized(trimmed);
    ParsedExprIsClosed(g, trimmed[1..|trimmed| - 1], base + 1);
  }

  /** A term that parses has as many closing as opening parentheses. */
  lemma {:induction false} ParsedTermIsClosed(g: LeafGrammar, source: string, base: nat)
    requires BalancedLeaves(g) && Masked(source) && ParseNot(g, source, base).Ok?
    ensures Net(source) == 0
    decreases |source|
  {
    var trimmed := Trim(source);
    var start := base + TrimOffset(source);
    NetTrim(source);
    MaskedTrim(source);
    hide Net, Trim, TrimOffset, EqIgnoreCase;
    if IsNotPrefix(trimmed) {
      ParsedTermIsClosed(g, trimmed[4..], start + 4);
      assert trimmed == trimmed[..4] + trimmed[4..];
      NotIsClosed(trimmed[..4]);
      NetConcat(trimmed[..4], trimmed[4..]);
    } else {
      ParsedPrimaryIsClosed(g, trimmed, start);
    }
  }

  lemma ParsedPrimaryIsClosed(g: LeafGrammar, source: string, base: nat)
    requires BalancedLeaves(g) && Masked(source) && ParsePrimary(g, source, base).Ok?
    ensures Net(source) == 0
  {
    var trimmed := Trim(source);
    NetTrim(source);
    MaskedTrim(source);
    hide Net, Trim, TrimOffset, ParseGrouped;
    if trimmed[0] == '(' {
      ParsedGroupIsClosed(g, trimmed, base + TrimOffset(source));
    }
  }

  lemma NotIsClosed(w: string)
    requires |w| == 4 && EqIgnoreCase(w, "NOT ")
    ensures Net(w) == 0
  {
    assert forall i | 0 <= i < 4 :: LowerChar(w[i]) == Lower(w)[i] == Lower("NOT ")[i];
    FlatLevel(w, 4);
  }

  // ---- Terms ----

  lemma {:induction false} TermsAgree(g: LeafGrammar, limit: nat, parts: seq<Segment>, base: nat)
    requires forall j | 0 <= j < |parts| :: |parts[j].text| <= limit
    ensures SameSuccess(ParseTerms(g, limit, parts, base), ParseTermsPartial(g, parts, base))
    ensures SameFirstError(ParseTerms(g, limit, parts, base), ParseTermsPartial(g, parts, base))
  {
    hide ParseNot;
    if parts != [] {
      TermsAgree(g, limit, parts[1..], base);
    }
  }

  lemma {:induction false} OpenTermsFail(g: LeafGrammar, parts: seq<Segment>, base: nat)
    requires BalancedLeaves(g) && parts != []
    requires Masked(parts[|parts| - 1].text) && Net(parts[|parts| - 1].text) != 0
    ensures ParseTermsPartial(g, parts, base).error.Some?
  {
    hide BalancedLeaves, Net, ParseNot;
    if |parts| == 1 {
      if ParseNot(g, parts[0].text, base + parts[0].start).Ok? {
        ParsedTermIsClosed(g, parts[0].text, base + parts[0].start);
      }
    } else {
      OpenTermsFail(g, parts[1..], base);
    }
  }

  lemma AndAgrees(g: LeafGrammar, source: string, base: nat)
    requires Masked(source) && BalancedLeaves(g)
    ensures SameSuccess(ParseAnd(g, source, base), ParseAndPartial(g, source, base))
    ensures Net(source) <= 0 ==> SameFirstError(ParseAnd(g, source, base), ParseAndPartial(g, source, base))
  {
    SplitsAgree(source, And, base);
    SplitSlices(source, And, base, false);
    SplitSlices(source, And, base, true);
    var open := Split(source, And, base, true);
    hide Split, BalancedLeaves, Net;
    if open.Ok? {
      if Net(source) <= 0 {
        TermsAgree(g, |source|, open.value, base);
      } else {
        OpenTail(source, And, base, open.value);
        OpenTermsFail(g, open.value, base);
      }
    }
  }

  // ---- Branches ----

  ghost predicate MaskedParts(parts: seq<Segment>) {
    forall j | 0 <= j < |parts| :: Masked(parts[j].text)
  }

  lemma SlicesMasked(s: string, parts: seq<Segment>)
    requires Masked(s) && Slices(s, parts)
    ensures MaskedParts(parts)
  {
  }

  lemma ParsedAndHasTerms(g: LeafGrammar, source: string, base: nat)
    requires Masked(source) && ParseAnd(g, source, base).Ok?
    ensures ParseAnd(g, source, base).value.terms != []
  {
    SplitTiles(source, And, base, Split(source, And, base, false).value);
    hide Split, ParseNot, Net;
  }

  lemma {:induction false} BranchesAgree(g: LeafGrammar, limit: nat, parts: seq<Segment>, base: nat)
    requires forall j | 0 <= j < |parts| :: |parts[j].text| <= limit
    requires MaskedParts(parts) && BalancedLeaves(g)
    ensures SameSuccess(ParseBranches(g, limit, parts, base), ParseBranchesPartial(g, parts, base))
    ensures (forall j | 0 <= j < |parts| :: Net(parts[j].text) <= 0) ==>
              SameFirstError(ParseBranches(g, limit, parts, base), ParseBranchesPartial(g, parts, base))
  {
    hide ParseAnd, ParseAndPartial, BalancedLeaves, Net;
    if parts != [] {
      var text, start := parts[0].text, base + parts[0].start;
      assert Masked(text);
      AndAgrees(g, text, start);
      if ParseAnd(g, text, start).Ok? {
        ParsedAndHasTerms(g, text, start);
      }
      BranchesAgree(g, limit, parts[1..], base);
    }
  }

  lemma {:induction false} OpenBranchesFail(g: LeafGrammar, parts: seq<Segment>, base: nat)
    requires MaskedParts(parts) && BalancedLeaves(g) && parts != [] && Net(parts[|parts| - 1].text) > 0
    ensures ParseBranchesPartial(g, parts, base).error.Some?
  {
    hide BalancedLeaves, Net, ParseAnd, ParseAndPartial;
    if |parts| == 1 {
      AndAgrees(g, parts[0].text, base + parts[0].start);
      OpenAndFails(g, parts[0].text, base + parts[0].start);
    } else {
      OpenBranchesFail(g, parts[1..], base);
    }
  }

  lemma OpenAndFails(g: LeafGrammar, source: string, base: nat)
    requires Masked(source) && Net(source) > 0
    ensures ParseAnd(g, source, base).Err?
  {
    SplitsAgree(source, And, base);
  }

  lemma OrAgrees(g: LeafGrammar, source: string, base: nat)
    requires Masked(source) && BalancedLeaves(g)
    ensures SameSuccess(ParseOr(g, source, base), ParseOrPartial(g, source, base))
    ensures Net(source) <= 0 ==> SameFirstError(ParseOr(g, source, base), ParseOrPartial(g, source, base))
    ensures Net(source) > 0 ==> ParseOr(g, source, base).Err?
  {
    SplitsAgree(source, Or, base);
    SplitSlices(source, Or, base, false);
    SplitSlices(source, Or, base, true);
    var open := Split(source, Or, base, true);
    if open.Ok? {
      SlicesMasked(source, open.value);
      if Net(source) <= 0 {
        PartsClosed(source, Or, base, open.value);
        hide Split, BalancedLeaves, Net, Slices;
        BranchesAgree(g, |source|, open.value, base);
      } else {
        hide BalancedLeaves, Net, Slices;
        OpenTail(source, Or, base, open.value);
        hide Split;
        OpenBranchesFail(g, open.value, base);
      }
    }
  }

  lemma PartsClosed(s: string, op: LogicOp, base: nat, parts: seq<Segment>)
    requires Masked(s) && Split(s, op, base, false) == Ok(parts)
    ensures forall j | 0 <= j < |parts| :: Net(parts[j].text) == 0
  {
    forall j | 0 <= j < |parts| ensures Net(parts[j].text) == 0 {
      ResplitIsIdentity(s, op, base, parts, j, 0);
    }
  }

  /** The error-tolerant parser refines the strict one. On a masked source the strict parser returns a
      tree exactly when the tolerant one returns that tree without an error. Unless the source leaves a
      parenthesis open, both report the same first error; if it does, both report one. */
  lemma PartialRefinesStrict(g: LeafGrammar, source: string, base: nat)
    requires Masked(source) && BalancedLeaves(g)
    ensures SameSuccess(ParseExpr(g, source, base), ParseExprPartial(g, source, base))
    ensures Net(source) <= 0 ==> SameFirstError(ParseExpr(g, source, base), ParseExprPartial(g, source, base))
    ensures Net(source) > 0 ==>
              ParseExpr(g, source, base).Err? && ParseExprPartial(g, source, base).error.Some?
  {
    var trimmed := Trim(source);
    NetTrim(source);
    MaskedTrim(source);
    if trimmed == "" {
      assert Net("") == 0;
    } else {
      var start := base + TrimOffset(source);
      OrAgrees(g, trimmed, start);
      if ParseOr(g, trimmed, start).Ok? {
        ParsedOrHasBranches(g, trimmed, start);
      }
      hide ParseOr, ParseOrPartial, Net, Trim, TrimOffset;
    }
  }

  /** On whole documents, comments and all: an editor that parses tolerantly sees the program that the
      strict parser sees, exactly when it sees no error, and otherwise the same first one. */
  lemma PartialProgramRefinesStrict(g: LeafGrammar, source: string)
    requires BalancedLeaves(g)
    ensures SameSuccess(ParseProgram(g, source), ParseProgramPartial(g, source))
    ensures Net(Mask(source)) <= 0 ==> SameFirstError(ParseProgram(g, source), ParseProgramPartial(g, source))
  {
    MaskBlanksComments(source);
    PartialRefinesStrict(g, Mask(source), 0);
    hide ParseExpr, ParseExprPartial, Net, Mask;
  }

  lemma ParsedOrHasBranches(g: LeafGrammar, source: string, base: nat)
    requires Masked(source) && ParseOr(g, source, base).Ok?
    ensures ParseOr(g, source, base).value.branches != []
  {
    SplitTiles(source, Or, base, Split(source, Or, base, false).value);
    hide Split, ParseAnd, Net;
  }
}
