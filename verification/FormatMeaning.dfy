/** Formatting an expression never changes what it compiles to. */
module FormatMeaning {
  import opened Wrappers
  import opened DslAst
  import opened ExprParser
  import opened Masking
  import opened Format
  import opened FormatReparse
  import opened FormatRoundTrip
  import opened Eval
  import opened Compile

  lemma {:induction false} SameLowersOr(a: OrExpr, b: OrExpr, pool: Pool)
    requires SameOr(a, b)
    ensures LowerOrSpec(a, pool) == LowerOrSpec(b, pool)
    decreases a, 1
  {
    hide LowerAndSpec, LowerBranchesSpec, SameAnd;
    SameLowersBranches(a.branches, b.branches, pool);
    if |a.branches| == 1 {
      assert SameAnd(a.branches[0], b.branches[0]);
      SameLowersAnd(a.branches[0], b.branches[0], pool);
    }
  }

  lemma {:induction false} SameLowersBranches(a: seq<AndExpr>, b: seq<AndExpr>, pool: Pool)
    requires SameBranches(a, b)
    ensures LowerBranchesSpec(a, pool) == LowerBranchesSpec(b, pool)
    decreases a, 0
  {
    hide LowerAndSpec, SameAnd;
    if a != [] {
      assert SameAnd(a[0], b[0]);
      SameLowersAnd(a[0], b[0], pool);
      if LowerAndSpec(a[0], pool).Ok? {
        SameLowersBranches(a[1..], b[1..], LowerAndSpec(a[0], pool).value.pool);
      }
    }
  }

  lemma {:induction false} SameLowersAnd(a: AndExpr, b: AndExpr, pool: Pool)
    requires SameAnd(a, b)
    ensures LowerAndSpec(a, pool) == LowerAndSpec(b, pool)
    decreases a, 1
  {
    hide LowerNotSpec, LowerTermsSpec, SameNot;
    SameLowersTerms(a.terms, b.terms, pool);
    if |a.terms| == 1 {
      assert SameNot(a.terms[0], b.terms[0]);
      SameLowersNot(a.terms[0], b.terms[0], pool);
    }
  }

  lemma {:induction false} SameLowersTerms(a: seq<NotExpr>, b: seq<NotExpr>, pool: Pool)
    requires SameTerms(a, b)
    ensures LowerTermsSpec(a, pool) == LowerTermsSpec(b, pool)
    decreases a, 0
  {
    hide LowerNotSpec, SameNot;
    if a != [] {
      assert SameNot(a[0], b[0]);
      SameLowersNot(a[0], b[0], pool);
      if LowerNotSpec(a[0], pool).Ok? {
        SameLowersTerms(a[1..], b[1..], LowerNotSpec(a[0], pool).value.pool);
      }
    }
  }

  lemma {:induction false} SameLowersNot(a: NotExpr, b: NotExpr, pool: Pool)
    requires SameNot(a, b)
    ensures LowerNotSpec(a, pool) == LowerNotSpec(b, pool)
    decreases a, 0
  {
    hide LowerOrSpec, LowerFragmentSpec, SameOr, Render;
    match (a, b)
    case (Not(x, _), Not(y, _)) => SameLowersNot(x, y, pool);
    case (Prim(Leaf(f, _, _)), Prim(Leaf(_, _, _))) =>
    case (Prim(Grouped(x)), Prim(Grouped(y))) => SameLowersOr(x.or, y.or, pool);
  }

  lemma CompilesTo(g: LeafGrammar, source: string, e: Expr)
    requires ParseProgram(g, source) == Ok(Program(Some(e)))
    ensures CompileMatchExpr(g, source) == LowerProgram(Program(Some(e)))
  {
    hide ParseProgram, LowerProgram;
  }

  lemma ProgramsAgree(a: Expr, b: Expr)
    requires SameOr(a.or, b.or)
    ensures LowerProgram(Program(Some(a))) == LowerProgram(Program(Some(b)))
  {
    hide LowerOrSpec, SameOr;
    SameLowersOr(a.or, b.or, []);
  }

  /** For every source that parses, and whose leaves reprint: the formatted document compiles exactly
      when the source does, to the same predicates and the same plan, or to the same error. */
  lemma FormattingKeepsProgram(g: LeafGrammar, source: string, e: Expr)
    requires ParseProgram(g, source) == Ok(Program(Some(e))) && OrReprints(g, e.or)
    ensures FormatDsl(g, source).Ok? && FormatDsl(g, source).value.Some?
    ensures CompileMatchExpr(g, FormatDsl(g, source).value.value) == CompileMatchExpr(g, source)
  {
    hide *;
    FormatRoundTrips(g, source, e);
    var before, after := source[..e.span.start], source[e.span.end..];
    var out := before + FormatOr(e.or, "") + after;
    var e' := ParsesAsMeans(g, out, e.or, Span(|before|, |out| - |after|));
    CompilesTo(g, source, e);
    CompilesTo(g, out, e');
    ProgramsAgree(e, e');
  }
}
