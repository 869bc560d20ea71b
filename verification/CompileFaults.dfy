/** Exactly which expressions compile, and what error the others get: that of the first leaf, in source order,
    that says something impossible or nothing at all. */
module CompileFaults {
  import opened Wrappers
  import opened Text
  import opened DslAst
  import opened ExprParser
  import opened Masking
  import opened PathGlob
  import opened Eval
  import opened Compile
  import opened TextParts
  import opened CompileMeaning

  type Fault = Option<CompileError>

  // ---- What is wrong with a leaf ----

  /** A star inside a segment. */
  ghost predicate BadGlob(raw: string) {
    exists words :: HasSegments(raw, words) && !Spellable(words)
  }

  predicate OnlySigns(s: string, c: char) {
    forall i | 0 <= i < |s| :: s[i] == c
  }

  /** A port that is no number, a path with a bad glob, a query without a pair, or nothing at all. */
  ghost function UrlFault(url: Url): Fault {
    if url.port.Some? && !(exists port: nat :: PortIs(url.port.value, port)) then Some(InvalidPort(url.port.value))
    else if url.path.Some? && BadGlob(url.path.value) then Some(InvalidPathGlob(url.path.value))
    else if url.query.Some? && OnlySigns(url.query.value, '&') then Some(CompileError.Empty)
    else if url == Url(None, None, None, None, None) then Some(CompileError.Empty)
    else None
  }

  ghost predicate Constrains(arg: CliArg) {
    IsOneOf(arg.flag, "-X", "--request") || IsOneOf(arg.flag, "-H", "--header") || IsOneOf(arg.flag, "-q", "--query")
  }

  ghost predicate LacksValue(arg: CliArg) {
    Constrains(arg) && arg.value.None?
  }

  /** The first constraining flag without a value, or no constraining flag at all. */
  ghost predicate CliFaultIs(args: seq<CliArg>, fault: Fault) {
    match fault
    case Some(MissingCliValue(flag)) =>
      exists i | 0 <= i < |args| ::
        LacksValue(args[i]) && args[i].flag == flag && forall j | 0 <= j < i :: !LacksValue(args[j])
    case Some(Empty) => forall i | 0 <= i < |args| :: !Constrains(args[i])
    case None =>
      && (forall i | 0 <= i < |args| :: !LacksValue(args[i]))
      && exists i | 0 <= i < |args| :: Constrains(args[i])
    case _ => false
  }

  ghost predicate FragmentFaultIs(fragment: Fragment, fault: Fault) {
    match fragment
    case CliOnly(cli) => CliFaultIs(cli.args, fault)
    case UrlFragment(url, None) => fault == UrlFault(url)
    case UrlFragment(url, Some(cli)) =>
      if UrlFault(url).Some? then fault == UrlFault(url) else CliFaultIs(cli.args, fault)
  }

  // ---- What is wrong with an expression ----

  ghost predicate OrFaultIs(or: OrExpr, fault: Fault)
    decreases or, 1
  {
    if or.branches == [] then fault == Some(CompileError.Empty) else BranchesFaultIs(or.branches, fault)
  }

  /** The fault of the first branch that has one. */
  ghost predicate BranchesFaultIs(branches: seq<AndExpr>, fault: Fault)
    decreases branches, 0
  {
    if branches == [] then fault == None
    else if AndFaultIs(branches[0], None) then BranchesFaultIs(branches[1..], fault)
    else AndFaultIs(branches[0], fault)
  }

  ghost predicate AndFaultIs(and: AndExpr, fault: Fault)
    decreases and, 1
  {
    if and.terms == [] then fault == Some(CompileError.Empty) else TermsFaultIs(and.terms, fault)
  }

  ghost predicate TermsFaultIs(terms: seq<NotExpr>, fault: Fault)
    decreases terms, 0
  {
    if terms == [] then fault == None
    else if NotFaultIs(terms[0], None) then TermsFaultIs(terms[1..], fault)
    else NotFaultIs(terms[0], fault)
  }

  ghost predicate NotFaultIs(n: NotExpr, fault: Fault)
    decreases n, 0
  {
    match n
    case Not(inner, _) => NotFaultIs(inner, fault)
    case Prim(Leaf(fragment, _, _)) => FragmentFaultIs(fragment, fault)
    case Prim(Grouped(expr)) => OrFaultIs(expr.or, fault)
  }

  // ---- Leaves ----

  function FaultOf<T>(r: Result<T, CompileError>): Fault {
    match r case Ok(_) => None case Err(e) => Some(e)
  }

  lemma {:induction false} JoinedSigns(parts: seq<string>, c: char)
    requires parts != [] && forall i | 0 <= i < |parts| :: parts[i] == ""
    ensures OnlySigns(Joined(parts, c), c)
  {
    if |parts| > 1 {
      JoinedSigns(parts[1..], c);
    }
  }

  lemma {:induction false} SignsSplit(s: string, c: char)
    requires OnlySigns(s, c)
    ensures NonEmpty(SplitOn(s, c)) == []
    decreases |s|
  {
    if s != "" {
      assert s[0] == c;
      assert FirstOf(s, c) == 0 && s[..0] == "";
      SignsSplit(s[1..], c);
      assert ([""] + SplitOn(s[1..], c))[1..] == SplitOn(s[1..], c);
      assert [] + NonEmpty(SplitOn(s[1..], c)) == NonEmpty(SplitOn(s[1..], c));
    } else {
      assert [""][1..] == [];
    }
  }

  lemma {:induction false} NoWords(parts: seq<string>)
    requires NonEmpty(parts) == []
    ensures forall i | 0 <= i < |parts| :: parts[i] == ""
  {
    if parts != [] {
      NoWords(parts[1..]);
      assert parts == [parts[0]] + parts[1..];
    }
  }

  /** A text has a part that is not empty unless it is made of signs. */
  lemma PartsOrSigns(s: string, c: char)
    ensures NonEmpty(SplitOn(s, c)) == [] <==> OnlySigns(s, c)
  {
    hide SplitOn, Joined, NonEmpty;
    SplitOnCuts(s, c);
    if NonEmpty(SplitOn(s, c)) == [] {
      NoWords(SplitOn(s, c));
      JoinedSigns(SplitOn(s, c), c);
    }
    if OnlySigns(s, c) {
      SignsSplit(s, c);
    }
  }

  lemma QueryFault(raw: string)
    ensures QueryPairs(raw) == [] <==> OnlySigns(raw, '&')
  {
    PartsOrSigns(raw, '&');
    hide SplitOn, NonEmpty, SplitOnce;
    assert NonEmpty(SplitOn(raw, '&')) == [] <==> Pairs(NonEmpty(SplitOn(raw, '&'))) == [];
  }

  lemma PathFault(raw: string)
    ensures CompilePathSpec(raw).None? <==> BadGlob(raw)
  {
    hide PathSegments, CompileSegments, HasSegments, Spellable;
    var words := PathSegments(raw);
    forall ws ensures HasSegments(raw, ws) <==> ws == words {
      SegmentsAre(raw, ws);
    }
    SpellableCompiles(words);
    assert HasSegments(raw, words);
    if '*' in raw {
      StarHasWord(raw);
    } else {
      StarFreeSegments(raw);
      StarFreeSpellable(words);
    }
  }

  lemma StarFreeSpellable(words: seq<string>)
    requires forall i | 0 <= i < |words| :: '*' !in words[i]
    ensures Spellable(words)
  {
  }

  lemma StarHasWord(raw: string)
    requires '*' in raw
    ensures PathSegments(raw) != []
  {
    TrimmedSlashesSplit(raw);
    PartsOrSigns(raw, '/');
    hide SplitOn, NonEmpty, TrimSlashes;
  }

  lemma PortFault(raw: string)
    ensures ParsePort(raw).Some? <==> exists port: nat :: PortIs(raw, port)
  {
    hide ParsePort, PortIs;
    forall port: nat ensures PortIs(raw, port) <==> ParsePort(raw) == Some(port) {
      PortIsParsed(raw, port);
    }
  }

  lemma UrlFaults(url: Url, pool: Pool)
    ensures FaultOf(LowerUrlSpec(url, pool)) == UrlFault(url)
  {
    hide ParsePort, CompilePathSpec, QueryPairs, PortIs, BadGlob, OnlySigns, NormalizeScheme, PlanAllIndices, Lower;
    if url.port.Some? {
      PortFault(url.port.value);
    }
    if url.path.Some? {
      PathFault(url.path.value);
    }
    if url.query.Some? {
      QueryFault(url.query.value);
    }
  }

  lemma ArgFaults(arg: CliArg)
    ensures ArgPredicate(arg).Err? <==> LacksValue(arg)
    ensures ArgPredicate(arg).Err? ==> ArgPredicate(arg).error == MissingCliValue(arg.flag)
    ensures ArgPredicate(arg).Ok? ==> (ArgPredicate(arg).value == [] <==> !Constrains(arg))
  {
    FlagsAre(arg.flag);
    hide IsOneOf, WithoutSpaces, IsMethodFlag, IsHeaderFlag, IsQueryFlag, SplitOnce, Lower, Upper;
  }

  lemma {:induction false} ArgsFault(args: seq<CliArg>)
    ensures match ArgsPredicates(args)
            case Err(e) => e.MissingCliValue? && CliFaultIs(args, Some(e))
            case Ok(preds) => CliFaultIs(args, if preds == [] then Some(CompileError.Empty) else None)
  {
    hide Constrains, ArgPredicate;
    if args != [] {
      ArgFaults(args[0]);
      ArgsFault(args[1..]);
      assert forall i | 1 <= i < |args| :: args[i] == args[1..][i - 1];
      if ArgPredicate(args[0]).Ok? && ArgsPredicates(args[1..]).Err? {
        MissingLater(args, ArgsPredicates(args[1..]).error);
      }
    }
  }

  lemma MissingLater(args: seq<CliArg>, e: CompileError)
    requires args != [] && !LacksValue(args[0]) && CliFaultIs(args[1..], Some(e)) && e.MissingCliValue?
    ensures CliFaultIs(args, Some(e))
  {
    hide Constrains;
    var i :| 0 <= i < |args[1..]| && LacksValue(args[1..][i]) && args[1..][i].flag == e.flag
             && forall j | 0 <= j < i :: !LacksValue(args[1..][j]);
    assert args[i + 1] == args[1..][i];
    assert forall j | 1 <= j < i + 1 :: args[j] == args[1..][j - 1];
  }

  lemma CliFaults(cli: CliArgs, pool: Pool)
    ensures CliFaultIs(cli.args, FaultOf(LowerCliSpec(cli, pool)))
  {
    hide CliFaultIs, PlanAllIndices;
    ArgsFault(cli.args);
  }

  /** An argument list has one fault. */
  lemma OneCliFault(args: seq<CliArg>, a: Fault, b: Fault)
    requires CliFaultIs(args, a) && CliFaultIs(args, b)
    ensures a == b
  {
    hide Constrains;
  }

  lemma OneFragmentFault(fragment: Fragment, a: Fault, b: Fault)
    requires FragmentFaultIs(fragment, a) && FragmentFaultIs(fragment, b)
    ensures a == b
  {
    hide CliFaultIs, UrlFault;
    match fragment
    case CliOnly(cli) => OneCliFault(cli.args, a, b);
    case UrlFragment(url, cli) =>
      if cli.Some? && UrlFault(url).None? {
        OneCliFault(cli.value.args, a, b);
      }
  }

  lemma FragmentFaults(fragment: Fragment, pool: Pool)
    ensures FragmentFaultIs(fragment, FaultOf(LowerFragmentSpec(fragment, pool)))
  {
    hide CliFaultIs, UrlFault, LowerUrlSpec, LowerCliSpec;
    match fragment
    case CliOnly(cli) => CliFaults(cli, pool);
    case UrlFragment(url, cli) =>
      UrlFaults(url, pool);
      if cli.Some? && LowerUrlSpec(url, pool).Ok? {
        CliFaults(cli.value, LowerUrlSpec(url, pool).value.pool);
      }
  }

  // ---- Trees ----

  lemma {:induction false} OneOrFault(or: OrExpr, a: Fault, b: Fault)
    requires OrFaultIs(or, a) && OrFaultIs(or, b)
    ensures a == b
    decreases or, 1
  {
    hide AndFaultIs;
    if or.branches != [] {
      OneBranchesFault(or.branches, a, b);
    }
  }

  lemma {:induction false} OneBranchesFault(branches: seq<AndExpr>, a: Fault, b: Fault)
    requires BranchesFaultIs(branches, a) && BranchesFaultIs(branches, b)
    ensures a == b
    decreases branches, 0
  {
    hide AndFaultIs;
    if branches != [] {
      if AndFaultIs(branches[0], None) {
        OneBranchesFault(branches[1..], a, b);
      } else {
        OneAndFault(branches[0], a, b);
      }
    }
  }

  lemma {:induction false} OneAndFault(and: AndExpr, a: Fault, b: Fault)
    requires AndFaultIs(and, a) && AndFaultIs(and, b)
    ensures a == b
    decreases and, 1
  {
    hide NotFaultIs;
    if and.terms != [] {
      OneTermsFault(and.terms, a, b);
    }
  }

  lemma {:induction false} OneTermsFault(terms: seq<NotExpr>, a: Fault, b: Fault)
    requires TermsFaultIs(terms, a) && TermsFaultIs(terms, b)
    ensures a == b
    decreases terms, 0
  {
    hide NotFaultIs;
    if terms != [] {
      if NotFaultIs(terms[0], None) {
        OneTermsFault(terms[1..], a, b);
      } else {
        OneNotFault(terms[0], a, b);
      }
    }
  }

  lemma {:induction false} OneNotFault(n: NotExpr, a: Fault, b: Fault)
    requires NotFaultIs(n, a) && NotFaultIs(n, b)
    ensures a == b
    decreases n, 0
  {
    hide FragmentFaultIs, OrFaultIs;
    match n
    case Not(inner, _) => OneNotFault(inner, a, b);
    case Prim(Leaf(fragment, _, _)) => OneFragmentFault(fragment, a, b);
    case Prim(Grouped(expr)) => OneOrFault(expr.or, a, b);
  }

  lemma {:induction false} OrFaults(or: OrExpr, pool: Pool)
    ensures OrFaultIs(or, FaultOf(LowerOrSpec(or, pool)))
    decreases or, 1
  {
    hide AndFaultIs, LowerAndSpec;
    if |or.branches| == 1 {
      OneBranch(or.branches[0], pool);
      assert or.branches == [or.branches[0]];
    } else if or.branches != [] {
      BranchesFault(or.branches, pool);
      hide LowerBranchesSpec, BranchesFaultIs;
    }
  }

  lemma {:induction false} OneBranch(branch: AndExpr, pool: Pool)
    ensures BranchesFaultIs([branch], FaultOf(LowerAndSpec(branch, pool)))
    decreases branch, 2
  {
    hide AndFaultIs, LowerAndSpec;
    AndFaults(branch, pool);
    assert [branch][1..] == [] && [branch][0] == branch;
    if LowerAndSpec(branch, pool).Err? && AndFaultIs(branch, None) {
      OneAndFault(branch, None, FaultOf(LowerAndSpec(branch, pool)));
    }
  }

  lemma {:induction false} BranchesFault(branches: seq<AndExpr>, pool: Pool)
    ensures BranchesFaultIs(branches, FaultOf(LowerBranchesSpec(branches, pool)))
    decreases branches, 0
  {
    hide AndFaultIs, LowerAndSpec;
    if branches != [] {
      AndFaults(branches[0], pool);
      var first := LowerAndSpec(branches[0], pool);
      if first.Ok? {
        BranchesFault(branches[1..], first.value.pool);
      } else if AndFaultIs(branches[0], None) {
        OneAndFault(branches[0], None, FaultOf(first));
      }
    }
  }

  lemma {:induction false} AndFaults(and: AndExpr, pool: Pool)
    ensures AndFaultIs(and, FaultOf(LowerAndSpec(and, pool)))
    decreases and, 1
  {
    hide NotFaultIs, LowerNotSpec;
    if |and.terms| == 1 {
      OneTerm(and.terms[0], pool);
      assert and.terms == [and.terms[0]];
    } else if and.terms != [] {
      TermsFault(and.terms, pool);
      hide LowerTermsSpec, TermsFaultIs;
    }
  }

  lemma {:induction false} OneTerm(term: NotExpr, pool: Pool)
    ensures TermsFaultIs([term], FaultOf(LowerNotSpec(term, pool)))
    decreases term, 2
  {
    hide NotFaultIs, LowerNotSpec;
    NotFaults(term, pool);
    assert [term][1..] == [] && [term][0] == term;
    if LowerNotSpec(term, pool).Err? && NotFaultIs(term, None) {
      OneNotFault(term, None, FaultOf(LowerNotSpec(term, pool)));
    }
  }

  lemma {:induction false} TermsFault(terms: seq<NotExpr>, pool: Pool)
    ensures TermsFaultIs(terms, FaultOf(LowerTermsSpec(terms, pool)))
    decreases terms, 0
  {
    hide NotFaultIs, LowerNotSpec;
    if terms != [] {
      NotFaults(terms[0], pool);
      var first := LowerNotSpec(terms[0], pool);
      if first.Ok? {
        TermsFault(terms[1..], first.value.pool);
      } else if NotFaultIs(terms[0], None) {
        OneNotFault(terms[0], None, FaultOf(first));
      }
    }
  }

  lemma {:induction false} NotFaults(n: NotExpr, pool: Pool)
    ensures NotFaultIs(n, FaultOf(LowerNotSpec(n, pool)))
    decreases n, 0
  {
    hide FragmentFaultIs, OrFaultIs, LowerFragmentSpec, LowerOrSpec;
    match n
    case Not(inner, _) => NotFaults(inner, pool);
    case Prim(Leaf(fragment, _, _)) => FragmentFaults(fragment, pool);
    case Prim(Grouped(expr)) => OrFaults(expr.or, pool);
  }

  // ---- Documents ----

  /** A source that does not parse gets the parser's error; one without an expression is empty; any other
      compiles if and only if its expression has no fault, and otherwise gets its first one. */
  lemma CompilesUnlessFaulty(g: LeafGrammar, source: string)
    ensures match ParseProgram(g, source)
            case Err(e) => CompileMatchExpr(g, source) == Err(ParseFailed(e))
            case Ok(program) =>
              if program.expr.None? then CompileMatchExpr(g, source) == Err(CompileError.Empty)
              else
                && OrFaultIs(program.expr.value.or, FaultOf(CompileMatchExpr(g, source)))
                && forall fault | OrFaultIs(program.expr.value.or, fault) ::
                     fault == FaultOf(CompileMatchExpr(g, source))
  {
    hide ParseProgram, LowerOrSpec, OrFaultIs;
    if ParseProgram(g, source).Ok? && ParseProgram(g, source).value.expr.Some? {
      var or := ParseProgram(g, source).value.expr.value.or;
      OrFaults(or, []);
      forall fault | OrFaultIs(or, fault) ensures fault == FaultOf(CompileMatchExpr(g, source)) {
        OneOrFault(or, fault, FaultOf(CompileMatchExpr(g, source)));
      }
    }
  }
}
