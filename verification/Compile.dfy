/** Lowering a syntax tree to a flat predicate pool and a boolean plan over its indices. */
module Compile {
  import opened Wrappers
  import opened Text
  import opened DslAst
  import opened ExprParser
  import opened Masking
  import opened PathGlob
  import opened Eval

  datatype CompileError =
    | ParseFailed(error: ParseError)
    | Empty
    | InvalidPathGlob(pattern: string)
    | InvalidPort(text: string)
    | MissingCliValue(flag: string)

  // ---- Normalizing leaf parts ----

  function TrimEndMatches(s: string, suffix: string): string
    requires suffix != ""
  {
    if EndsWith(s, suffix) then TrimEndMatches(s[..|s| - |suffix|], suffix) else s
  }

  function NormalizeScheme(raw: string): string {
    Lower(TrimEndMatches(raw, "://"))
  }

  function TrimColons(s: string): string {
    if s != "" && s[0] == ':' then TrimColons(s[1..]) else s
  }

  predicate AllDigits(s: string) {
    forall i | 0 <= i < |s| :: '0' <= s[i] <= '9'
  }

  function DecimalValue(s: string): nat
    requires AllDigits(s)
  {
    if s == "" then 0 else 10 * DecimalValue(s[..|s| - 1]) + (s[|s| - 1] - '0') as nat
  }

  /** Rust's `parse::<u16>`: an optional plus sign, at least one digit, at most 65535. */
  function ParseU16(s: string): Option<nat> {
    var digits := if s != "" && s[0] == '+' then s[1..] else s;
    if digits != "" && AllDigits(digits) && DecimalValue(digits) <= 65535 then Some(DecimalValue(digits)) else None
  }

  function ParsePort(raw: string): Option<nat> {
    ParseU16(TrimColons(raw))
  }

  function WithoutSpaces(s: string): string {
    if s == "" then "" else (if IsSpace(s[0]) then "" else [s[0]]) + WithoutSpaces(s[1..])
  }

  predicate IsMethodFlag(flag: string) {
    EqIgnoreCase(flag, "-X") || EqIgnoreCase(flag, "--request")
  }

  predicate IsHeaderFlag(flag: string) {
    EqIgnoreCase(flag, "-H") || EqIgnoreCase(flag, "--header")
  }

  predicate IsQueryFlag(flag: string) {
    EqIgnoreCase(flag, "-q") || EqIgnoreCase(flag, "--query")
  }

  function CliValue(arg: CliArg): Result<string, CompileError> {
    match arg.value
    case Some(value) => Ok(value.text)
    case None => Err(MissingCliValue(arg.flag))
  }

  // ---- Lowering, as a function of the pool so far ----

  type Pool = seq<Predicate>

  datatype Lowered = Lowered(plan: EvalPlan, pool: Pool)

  datatype LoweredSeq = LoweredSeq(plans: seq<EvalPlan>, pool: Pool)

  function PlanAllIndices(indices: seq<nat>): EvalPlan {
    if |indices| == 1 then Pred(indices[0]) else All(PredsOf(indices))
  }

  function PredsOf(indices: seq<nat>): seq<EvalPlan> {
    seq(|indices|, i requires 0 <= i < |indices| => Pred(indices[i]))
  }

  function Range(from: nat, to: nat): (r: seq<nat>)
    requires from <= to
  {
    seq(to - from, i requires 0 <= i < to - from => from + i)
  }

  /** All of the given predicates, appended to the pool. */
  function PushAll(pool: Pool, more: seq<Predicate>): Result<Lowered, CompileError> {
    if more == [] then Err(Empty)
    else Ok(Lowered(PlanAllIndices(Range(|pool|, |pool + more|)), pool + more))
  }

  function PortPredicate(port: Option<string>): Result<seq<Predicate>, CompileError> {
    match port
    case None => Ok([])
    case Some(raw) => match ParsePort(raw) case Some(n) => Ok([PortEq(n)]) case None => Err(InvalidPort(raw))
  }

  function PathPredicate(path: Option<string>): Result<seq<Predicate>, CompileError> {
    match path
    case None => Ok([])
    case Some(raw) => match CompilePathSpec(raw) case Some(m) => Ok([PathIs(m)]) case None => Err(InvalidPathGlob(raw))
  }

  function QueryPredicate(query: Option<string>): Result<seq<Predicate>, CompileError> {
    match query
    case None => Ok([])
    case Some(raw) => if QueryPairs(raw) == [] then Err(Empty) else Ok([QueryParamsAll(QueryPairs(raw))])
  }

  function SchemePredicate(scheme: Option<string>): seq<Predicate> {
    match scheme case Some(raw) => [SchemeEq(NormalizeScheme(raw))] case None => []
  }

  function HostPredicate(host: Option<string>): seq<Predicate> {
    match host case Some(raw) => [HostEq(Lower(raw))] case None => []
  }

  function UrlPredicates(url: Url): Result<seq<Predicate>, CompileError> {
    var port :- PortPredicate(url.port);
    var path :- PathPredicate(url.path);
    var query :- QueryPredicate(url.query);
    Ok(SchemePredicate(url.scheme) + HostPredicate(url.host) + port + path + query)
  }

  function ArgPredicate(arg: CliArg): Result<seq<Predicate>, CompileError> {
    var flag := WithoutSpaces(arg.flag);
    if IsMethodFlag(flag) then
      var verb :- CliValue(arg);
      Ok([MethodEq(Upper(verb))])
    else if IsHeaderFlag(flag) then
      var raw :- CliValue(arg);
      var (key, value) := SplitOnce(raw, '=');
      Ok([HeaderEq(Lower(key), value)])
    else if IsQueryFlag(flag) then
      var raw :- CliValue(arg);
      Ok([QueryContains(raw)])
    else Ok([])
  }

  function ArgsPredicates(args: seq<CliArg>): Result<seq<Predicate>, CompileError> {
    if args == [] then Ok([])
    else
      var first :- ArgPredicate(args[0]);
      AppendTo(first, ArgsPredicates(args[1..]))
  }

  function LowerUrlSpec(url: Url, pool: Pool): Result<Lowered, CompileError> {
    var preds :- UrlPredicates(url);
    PushAll(pool, preds)
  }

  function LowerCliSpec(cli: CliArgs, pool: Pool): Result<Lowered, CompileError> {
    var preds :- ArgsPredicates(cli.args);
    PushAll(pool, preds)
  }

  function LowerFragmentSpec(fragment: Fragment, pool: Pool): Result<Lowered, CompileError> {
    match fragment
    case CliOnly(args) => LowerCliSpec(args, pool)
    case UrlFragment(url, None) => LowerUrlSpec(url, pool)
    case UrlFragment(url, Some(cli)) =>
      var first :- LowerUrlSpec(url, pool);
      var second :- LowerCliSpec(cli, first.pool);
      Ok(Lowered(All([first.plan, second.plan]), second.pool))
  }

  function LowerOrSpec(or: OrExpr, pool: Pool): Result<Lowered, CompileError>
    decreases or, 1
  {
    if or.branches == [] then Err(Empty)
    else if |or.branches| == 1 then LowerAndSpec(or.branches[0], pool)
    else
      var r :- LowerBranchesSpec(or.branches, pool);
      Ok(Lowered(Any(r.plans), r.pool))
  }

  function LowerBranchesSpec(branches: seq<AndExpr>, pool: Pool): Result<LoweredSeq, CompileError>
    decreases branches, 0
  {
    if branches == [] then Ok(LoweredSeq([], pool))
    else
      var first :- LowerAndSpec(branches[0], pool);
      SeqAfter([first.plan], LowerBranchesSpec(branches[1..], first.pool))
  }

  function LowerAndSpec(and: AndExpr, pool: Pool): Result<Lowered, CompileError>
    decreases and, 1
  {
    if and.terms == [] then Err(Empty)
    else if |and.terms| == 1 then LowerNotSpec(and.terms[0], pool)
    else
      var r :- LowerTermsSpec(and.terms, pool);
      Ok(Lowered(All(r.plans), r.pool))
  }

  function LowerTermsSpec(terms: seq<NotExpr>, pool: Pool): Result<LoweredSeq, CompileError>
    decreases terms, 0
  {
    if terms == [] then Ok(LoweredSeq([], pool))
    else
      var first :- LowerNotSpec(terms[0], pool);
      SeqAfter([first.plan], LowerTermsSpec(terms[1..], first.pool))
  }

  function LowerNotSpec(n: NotExpr, pool: Pool): Result<Lowered, CompileError>
    decreases n, 0
  {
    match n
    case Not(inner, _) =>
      var r :- LowerNotSpec(inner, pool);
      Ok(Lowered(EvalPlan.Not(r.plan), r.pool))
    case Prim(Leaf(fragment, _, _)) => LowerFragmentSpec(fragment, pool)
    case Prim(Grouped(expr)) => LowerOrSpec(expr.or, pool)
  }

  function LowerProgram(program: Program): Result<MatchProgram, CompileError> {
    match program.expr
    case None => Err(Empty)
    case Some(expr) =>
      var r :- LowerOrSpec(expr.or, []);
      Ok(MatchProgram(r.pool, r.plan))
  }

  function CompileMatchExpr(g: LeafGrammar, source: string): Result<MatchProgram, CompileError> {
    match ParseProgram(g, source)
    case Err(error) => Err(ParseFailed(error))
    case Ok(program) => LowerProgram(program)
  }

  // ---- The lowering context, which pushes predicates in place ----

  /** The outcome of one lowering step: the plan, and the predicates the context then holds. A failed
      lowering leaves a context that is thrown away. */
  predicate StepsTo(spec: Result<Lowered, CompileError>, r: Result<EvalPlan, CompileError>, pool: Pool) {
    match spec
    case Ok(l) => r == Ok(l.plan) && pool == l.pool
    case Err(e) => r == Err(e)
  }

  class LowerCtx {
    var predicates: seq<Predicate>

    constructor ()
      ensures predicates == []
    {
      predicates := [];
    }

    method PushPredicate(p: Predicate) returns (index: nat)
      modifies this
      ensures predicates == old(predicates) + [p] && index == |old(predicates)|
    {
      index := |predicates|;
      predicates := predicates + [p];
    }

    method LowerOrExpr(or: OrExpr) returns (r: Result<EvalPlan, CompileError>)
      modifies this
      ensures StepsTo(LowerOrSpec(or, old(predicates)), r, predicates)
      decreases or, 1
    {
      hide LowerAndSpec;
      if or.branches == [] {
        return Err(Empty);
      }
      if |or.branches| == 1 {
        r := LowerAndExpr(or.branches[0]);
        return;
      }
      var plans, rest := [], or.branches;
      SeqAfterNothing(LowerBranchesSpec(rest, predicates));
      while rest != []
        invariant LowerBranchesSpec(or.branches, old(predicates)) ==
                  SeqAfter(plans, LowerBranchesSpec(rest, predicates))
        invariant forall b | b in rest :: b in or.branches
      {
        ghost var before := predicates;
        var plan := LowerAndExpr(rest[0]);
        if plan.Err? {
          return plan;
        }
        SeqAfterMore(plans, plan.value, LowerBranchesSpec(rest[1..], predicates));
        plans, rest := plans + [plan.value], rest[1..];
      }
      assert plans + [] == plans;
      return Ok(Any(plans));
    }

    method LowerAndExpr(and: AndExpr) returns (r: Result<EvalPlan, CompileError>)
      modifies this
      ensures StepsTo(LowerAndSpec(and, old(predicates)), r, predicates)
      decreases and, 1
    {
      hide LowerNotSpec;
      if and.terms == [] {
        return Err(Empty);
      }
      if |and.terms| == 1 {
        r := LowerNotExpr(and.terms[0]);
        return;
      }
      var plans, rest := [], and.terms;
      SeqAfterNothing(LowerTermsSpec(rest, predicates));
      while rest != []
        invariant LowerTermsSpec(and.terms, old(predicates)) ==
                  SeqAfter(plans, LowerTermsSpec(rest, predicates))
        invariant forall t | t in rest :: t in and.terms
      {
        var plan := LowerNotExpr(rest[0]);
        if plan.Err? {
          return plan;
        }
        SeqAfterMore(plans, plan.value, LowerTermsSpec(rest[1..], predicates));
        plans, rest := plans + [plan.value], rest[1..];
      }
      assert plans + [] == plans;
      return Ok(All(plans));
    }

    method LowerNotExpr(n: NotExpr) returns (r: Result<EvalPlan, CompileError>)
      modifies this
      ensures StepsTo(LowerNotSpec(n, old(predicates)), r, predicates)
      decreases n, 0
    {
      hide LowerOrSpec, LowerFragmentSpec;
      match n {
        case Not(inner, _) =>
          var plan :- LowerNotExpr(inner);
          return Ok(EvalPlan.Not(plan));
        case Prim(Leaf(fragment, _, _)) =>
          r := LowerFragment(fragment);
        case Prim(Grouped(expr)) =>
          r := LowerOrExpr(expr.or);
      }
    }

    method LowerFragment(fragment: Fragment) returns (r: Result<EvalPlan, CompileError>)
      modifies this
      ensures StepsTo(LowerFragmentSpec(fragment, old(predicates)), r, predicates)
    {
      hide LowerUrlSpec, LowerCliSpec;
      match fragment {
        case CliOnly(args) =>
          r := LowerCli(args);
        case UrlFragment(url, cli) =>
          var plans := [];
          var first :- LowerUrl(url);
          plans := plans + [first];
          if cli.Some? {
            var second :- LowerCli(cli.value);
            plans := plans + [second];
            assert plans == [first, second];
          }
          if |plans| == 1 {
            return Ok(plans[0]);
          }
          return Ok(All(plans));
      }
    }

    /** Pushes what one optional URL part asks for: nothing, or one predicate whose index is noted. */
    method PushPart(part: seq<Predicate>, indices: seq<nat>, ghost base: nat) returns (all: seq<nat>)
      requires |part| <= 1 && base <= |predicates| && indices == Range(base, |predicates|)
      modifies this
      ensures predicates == old(predicates) + part && base <= |predicates| && all == Range(base, |predicates|)
    {
      all := indices;
      if part != [] {
        var k := PushPredicate(part[0]);
        all := all + [k];
      }
    }

    method LowerUrl(url: Url) returns (r: Result<EvalPlan, CompileError>)
      modifies this
      ensures StepsTo(LowerUrlSpec(url, old(predicates)), r, predicates)
    {
      hide CompilePathSpec, QueryPairs, ParsePort, NormalizeScheme, PlanAllIndices, Range;
      ghost var base := |predicates|;
      var indices: seq<nat> := [];
      assert indices == Range(base, base) by { RangeNothing(base); }
      indices := PushPart(SchemePredicate(url.scheme), indices, base);
      indices := PushPart(HostPredicate(url.host), indices, base);
      var port :- PortPredicate(url.port);
      indices := PushPart(port, indices, base);
      var matcher := None;
      if url.path.Some? {
        matcher := CompilePath(url.path.value);
        if matcher.None? {
          return Err(InvalidPathGlob(url.path.value));
        }
      }
      indices := PushPart(if matcher.Some? then [PathIs(matcher.value)] else [], indices, base);
      var query :- QueryPredicate(url.query);
      indices := PushPart(query, indices, base);
      Regroup(old(predicates), SchemePredicate(url.scheme), HostPredicate(url.host), port,
              PathPredicate(url.path).value, query);
      RangeLength(base, |predicates|);
      if indices == [] {
        return Err(Empty);
      }
      return Ok(PlanAllIndices(indices));
    }

    method LowerCli(cli: CliArgs) returns (r: Result<EvalPlan, CompileError>)
      modifies this
      ensures StepsTo(LowerCliSpec(cli, old(predicates)), r, predicates)
    {
      hide ArgPredicate, PlanAllIndices;
      var indices: seq<nat> := [];
      var rest := cli.args;
      ghost var done: seq<Predicate> := [];
      AppendNothing(ArgsPredicates(rest));
      while rest != []
        invariant predicates == old(predicates) + done
        invariant indices == Range(|old(predicates)|, |predicates|)
        invariant ArgsPredicates(cli.args) == AppendTo(done, ArgsPredicates(rest))
      {
        ghost var before := predicates;
        var index := LowerCliArg(rest[0]);
        if index.Err? {
          return Err(index.error);
        }
        if index.value.Some? {
          indices := indices + [index.value.value];
        }
        AppendMore(done, ArgPredicate(rest[0]).value, ArgsPredicates(rest[1..]));
        done := done + ArgPredicate(rest[0]).value;
        rest := rest[1..];
      }
      assert done + [] == done;
      if indices == [] {
        return Err(Empty);
      }
      return Ok(PlanAllIndices(indices));
    }

    /** An argument pushes at most one predicate; an unknown flag is ignored. */
    method LowerCliArg(arg: CliArg) returns (r: Result<Option<nat>, CompileError>)
      modifies this
      ensures match ArgPredicate(arg)
              case Err(e) => r == Err(e)
              case Ok(preds) =>
                && |preds| <= 1 && predicates == old(predicates) + preds
                && r == Ok(if preds == [] then None else Some(|old(predicates)|))
    {
      hide IsMethodFlag, IsHeaderFlag, IsQueryFlag, SplitOnce;
      var flag := WithoutSpaces(arg.flag);
      if IsMethodFlag(flag) {
        var verb :- CliValue(arg);
        var k := PushPredicate(MethodEq(Upper(verb)));
        return Ok(Some(k));
      }
      if IsHeaderFlag(flag) {
        var raw :- CliValue(arg);
        var (key, value) := SplitOnce(raw, '=');
        var k := PushPredicate(HeaderEq(Lower(key), value));
        return Ok(Some(k));
      }
      if IsQueryFlag(flag) {
        var raw :- CliValue(arg);
        var k := PushPredicate(QueryContains(raw));
        return Ok(Some(k));
      }
      return Ok(None);
    }
  }

  function SeqAfter(done: seq<EvalPlan>, rest: Result<LoweredSeq, CompileError>): Result<LoweredSeq, CompileError> {
    match rest
    case Ok(l) => Ok(LoweredSeq(done + l.plans, l.pool))
    case Err(e) => Err(e)
  }

  lemma SeqAfterNothing(rest: Result<LoweredSeq, CompileError>)
    ensures SeqAfter([], rest) == rest
  {
    assert rest.Ok? ==> [] + rest.value.plans == rest.value.plans;
  }

  lemma SeqAfterMore(done: seq<EvalPlan>, one: EvalPlan, rest: Result<LoweredSeq, CompileError>)
    ensures SeqAfter(done, SeqAfter([one], rest)) == SeqAfter(done + [one], rest)
  {
    assert rest.Ok? ==> done + ([one] + rest.value.plans) == done + [one] + rest.value.plans;
  }

  function AppendTo(done: seq<Predicate>, rest: Result<seq<Predicate>, CompileError>)
    : Result<seq<Predicate>, CompileError>
  {
    match rest
    case Ok(more) => Ok(done + more)
    case Err(e) => Err(e)
  }

  lemma AppendNothing(rest: Result<seq<Predicate>, CompileError>)
    ensures AppendTo([], rest) == rest
  {
    assert rest.Ok? ==> [] + rest.value == rest.value;
  }

  lemma AppendMore(done: seq<Predicate>, some: seq<Predicate>, rest: Result<seq<Predicate>, CompileError>)
    ensures AppendTo(done, AppendTo(some, rest)) == AppendTo(done + some, rest)
  {
    assert rest.Ok? ==> done + (some + rest.value) == done + some + rest.value;
  }

  lemma RangeNothing(n: nat)
    ensures Range(n, n) == []
  {
  }

  lemma RangeLength(from: nat, to: nat)
    requires from <= to
    ensures |Range(from, to)| == to - from
  {
  }

  lemma Regroup<T>(pool: seq<T>, a: seq<T>, b: seq<T>, c: seq<T>, d: seq<T>, e: seq<T>)
    ensures pool + a + b + c + d + e == pool + (a + b + c + d + e)
  {
  }

  method LowerProgramInPlace(program: Program) returns (r: Result<MatchProgram, CompileError>)
    ensures r == LowerProgram(program)
  {
    if program.expr.None? {
      return Err(Empty);
    }
    var ctx := new LowerCtx();
    var plan :- ctx.LowerOrExpr(program.expr.value.or);
    return Ok(MatchProgram(ctx.predicates, plan));
  }
}
