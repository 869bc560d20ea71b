/** Lowering preserves meaning: a compiled program accepts exactly the requests that the expression
    describes. The description is given on the syntax tree, without predicates or plans. */
module CompileMeaning {
  import opened Wrappers
  import opened Text
  import opened DslAst
  import opened ExprParser
  import opened Masking
  import opened PathGlob
  import opened Eval
  import opened Compile
  import opened TextParts

  // ---- What an expression says of a request ----

  /** The scheme, without any trailing separators, ignoring case. */
  ghost predicate SchemeMeans(raw: string, scheme: Option<string>) {
    scheme.Some? && exists core :: Stripped(raw, "://", core) && SameLetters(scheme.value, core)
  }

  /** The host itself; or, for a dotted name, a subdomain of it; or, for a plain label, any host that
      has it somewhere. All ignoring case. */
  ghost predicate HostMeans(raw: string, host: string) {
    || EqIgnoreCase(host, raw)
    || (if '.' in raw then IsSubdomain(raw, host) else exists k | 0 <= k :: OccursIgnoringCase(raw, host, k))
  }

  predicate IsSubdomain(domain: string, host: string) {
    var k := |host| - |domain|;
    k > 0 && host[k - 1] == '.' && EqIgnoreCase(host[k..], domain)
  }

  predicate OccursIgnoringCase(part: string, s: string, k: nat) {
    k + |part| <= |s| && EqIgnoreCase(s[k..k + |part|], part)
  }

  /** The path, or one that goes on after it with a slash, its own last character or the next. */
  predicate Under(prefix: string, path: string) {
    && prefix <= path
    && var rest := path[|prefix|..];
       rest == "" || rest[0] == '/' || (prefix != "" && prefix[|prefix| - 1] == '/')
  }

  /** A literal path is a prefix that ends at a segment boundary; a glob cuts the path's segments. */
  ghost predicate PathMeans(raw: string, path: string) {
    if '*' !in raw then Under(raw, path)
    else
      exists words, patterns, segments ::
        && HasSegments(raw, words) && AllSpell(words, patterns)
        && HasSegments(path, segments) && GlobMatches(patterns, segments)
  }

  /** The last value that a query gives to a key. */
  ghost predicate LastValue(pairs: seq<(string, string)>, key: string, value: string) {
    exists i | 0 <= i < |pairs| ::
      pairs[i] == (key, value) && forall j | i < j < |pairs| :: pairs[j].0 != key
  }

  /** Each pair wanted is the last of its key among those given. */
  ghost predicate QueryMeans(raw: string, query: Option<string>) {
    && query.Some?
    && exists wanted: seq<(string, string)>, given: seq<(string, string)> ::
         && QueryHas(raw, wanted) && QueryHas(query.value, given)
         && forall i | 0 <= i < |wanted| :: LastValue(given, wanted[i].0, wanted[i].1)
  }

  ghost predicate UrlMeans(url: Url, facts: RequestFacts) {
    && (url.scheme.Some? ==> SchemeMeans(url.scheme.value, facts.scheme))
    && (url.host.Some? ==> HostMeans(url.host.value, facts.host))
    && (url.port.Some? ==> facts.port.Some? && PortIs(url.port.value, facts.port.value))
    && (url.path.Some? ==> PathMeans(url.path.value, facts.path))
    && (url.query.Some? ==> QueryMeans(url.query.value, facts.query))
  }

  ghost predicate Occurs(part: string, s: string) {
    exists k :: OccursAt(s, part, k)
  }

  ghost predicate IsOneOf(flag: string, short: string, long: string) {
    IsFlag(flag, short) || IsFlag(flag, long)
  }

  /** A header of that name, in lower case, with that value, ignoring case, or with any if none is asked for. */
  predicate HeaderSays(headers: map<string, string>, name: string, expected: string) {
    Lower(name) in headers && (expected == "" || SameLetters(headers[Lower(name)], expected))
  }

  /** A method, header or query flag constrains the request; any other flag says nothing. */
  ghost predicate ArgMeans(arg: CliArg, facts: RequestFacts) {
    var value := if arg.value.Some? then arg.value.value.text else "";
    if IsOneOf(arg.flag, "-X", "--request") then SameLetters(facts.verb, value)
    else if IsOneOf(arg.flag, "-H", "--header") then
      exists name, expected :: Sides(value, '=', name, expected) && HeaderSays(facts.headers, name, expected)
    else if IsOneOf(arg.flag, "-q", "--query") then facts.query.Some? && Occurs(value, facts.query.value)
    else true
  }

  ghost predicate CliMeans(cli: CliArgs, facts: RequestFacts) {
    forall i | 0 <= i < |cli.args| :: ArgMeans(cli.args[i], facts)
  }

  ghost predicate FragmentMeans(fragment: Fragment, facts: RequestFacts) {
    match fragment
    case CliOnly(args) => CliMeans(args, facts)
    case UrlFragment(url, cli) => UrlMeans(url, facts) && (cli.Some? ==> CliMeans(cli.value, facts))
  }

  ghost predicate OrMeans(or: OrExpr, facts: RequestFacts) {
    exists i | 0 <= i < |or.branches| :: AndMeans(or.branches[i], facts)
  }

  ghost predicate AndMeans(and: AndExpr, facts: RequestFacts) {
    forall i | 0 <= i < |and.terms| :: NotMeans(and.terms[i], facts)
  }

  ghost predicate NotMeans(n: NotExpr, facts: RequestFacts) {
    match n
    case Not(inner, _) => !NotMeans(inner, facts)
    case Prim(Leaf(fragment, _, _)) => FragmentMeans(fragment, facts)
    case Prim(Grouped(expr)) => OrMeans(expr.or, facts)
  }

  // ---- Leaf predicates say what their source text says ----

  lemma LowerSlice(s: string, a: nat, b: nat)
    requires a <= b <= |s|
    ensures Lower(s[a..b]) == Lower(s)[a..b]
  {
  }

  lemma DotSurvivesLower(s: string)
    ensures '.' in Lower(s) <==> '.' in s
  {
    if '.' in s {
      var i :| 0 <= i < |s| && s[i] == '.';
      assert Lower(s)[i] == '.';
    }
    if '.' in Lower(s) {
      var i :| 0 <= i < |s| && Lower(s)[i] == '.';
      assert s[i] == '.';
    }
  }

  lemma SubdomainMeans(raw: string, host: string)
    ensures EndsWith(Lower(host), "." + Lower(raw)) <==> IsSubdomain(raw, host)
  {
    if |host| > |raw| {
      var h, k := Lower(host), |host| - |raw|;
      LowerSlice(host, k, |host|);
      assert host[k..|host|] == host[k..] && h[k..|host|] == h[k..];
      assert h[k - 1] == LowerChar(host[k - 1]);
      hide Lower;
      EndsWithDot(h, k, Lower(raw));
    }
  }

  lemma EndsWithDot(h: string, k: nat, d: string)
    requires 0 < k <= |h| && |d| == |h| - k
    ensures EndsWith(h, "." + d) <==> h[k - 1] == '.' && h[k..] == d
  {
    var tail := h[k - 1..];
    assert tail == [h[k - 1]] + h[k..];
    if tail == "." + d {
      assert tail[0] == '.' && tail[1..] == d;
    }
  }

  lemma ContainsMeans(raw: string, host: string)
    ensures Contains(Lower(host), Lower(raw)) <==> exists k | 0 <= k :: OccursIgnoringCase(raw, host, k)
  {
    forall k: nat ensures OccursAt(Lower(host), Lower(raw), k) <==> OccursIgnoringCase(raw, host, k) {
      if k + |raw| <= |host| {
        LowerSlice(host, k, k + |raw|);
      }
    }
    if Contains(Lower(host), Lower(raw)) {
      assert OccursIgnoringCase(raw, host, Find(Lower(host), Lower(raw)).value);
    }
    if exists k | 0 <= k :: OccursIgnoringCase(raw, host, k) {
      var k :| 0 <= k && OccursIgnoringCase(raw, host, k);
      assert OccursAt(Lower(host), Lower(raw), k);
    }
  }

  lemma HostLowers(raw: string, host: string)
    ensures HostMatches(Lower(raw), host) <==> HostMeans(raw, host)
  {
    LowerIdempotent(raw);
    DotSurvivesLower(raw);
    hide Lower, Contains, EndsWith, IsSubdomain, OccursIgnoringCase;
    SubdomainMeans(raw, host);
    ContainsMeans(raw, host);
  }

  lemma {:induction false} CollectIsLast(pairs: seq<(string, string)>, key: string)
    ensures key in Collect(pairs) ==> LastValue(pairs, key, Collect(pairs)[key])
    ensures forall value | LastValue(pairs, key, value) :: key in Collect(pairs) && Collect(pairs)[key] == value
  {
    if pairs != [] {
      var n := |pairs| - 1;
      var front, last := pairs[..n], pairs[n];
      CollectIsLast(front, key);
      if last.0 == key {
        assert pairs[n] == (key, last.1);
      } else if key in Collect(front) {
        var i :| 0 <= i < n && front[i] == (key, Collect(front)[key]) && forall j | i < j < n :: front[j].0 != key;
        assert pairs[i] == (key, Collect(front)[key]) && forall j | i < j < |pairs| :: pairs[j].0 != key;
      }
      forall value | LastValue(pairs, key, value) ensures key in Collect(pairs) && Collect(pairs)[key] == value {
        var i :| 0 <= i < |pairs| && pairs[i] == (key, value) && forall j | i < j < |pairs| :: pairs[j].0 != key;
        if last.0 != key {
          assert front[i] == (key, value) && forall j | i < j < |front| :: front[j].0 != key;
          assert LastValue(front, key, value);
        }
      }
    }
  }

  lemma QueryLowers(raw: string, query: Option<string>)
    requires QueryPairs(raw) != []
    ensures QuerySubset(QueryPairs(raw), query) <==> QueryMeans(raw, query)
  {
    hide Collect, LastValue, QueryPairs, QueryHas;
    if query.Some? {
      var actual, expected := QueryPairs(query.value), QueryPairs(raw);
      forall i | 0 <= i < |expected|
        ensures (expected[i].0 in Collect(actual) && Collect(actual)[expected[i].0] == expected[i].1) <==>
                LastValue(actual, expected[i].0, expected[i].1)
      {
        CollectIsLast(actual, expected[i].0);
      }
      QueryMeansRead(raw, query.value);
    }
  }

  lemma QueryMeansRead(raw: string, query: string)
    ensures QueryMeans(raw, Some(query)) <==>
            forall i | 0 <= i < |QueryPairs(raw)| ::
              LastValue(QueryPairs(query), QueryPairs(raw)[i].0, QueryPairs(raw)[i].1)
  {
    hide LastValue, QueryPairs, QueryHas;
    forall pairs ensures QueryHas(raw, pairs) <==> pairs == QueryPairs(raw) {
      QueryHasItsPairs(raw, pairs);
    }
    forall pairs ensures QueryHas(query, pairs) <==> pairs == QueryPairs(query) {
      QueryHasItsPairs(query, pairs);
    }
    assert QueryHas(raw, QueryPairs(raw)) && QueryHas(query, QueryPairs(query));
  }

  lemma PathLowers(raw: string, path: string)
    requires CompilePathSpec(raw).Some?
    ensures MatchPath(CompilePathSpec(raw).value, path) <==> PathMeans(raw, path)
  {
    hide PathSegments, GlobMatches, MatchSegments, HasSegments, AllSpell;
    if '*' in raw {
      var words, segments := PathSegments(raw), PathSegments(path);
      MatcherDecidesGlob(CompileSegments(words).value, segments);
      forall ws ensures HasSegments(raw, ws) <==> ws == words {
        SegmentsAre(raw, ws);
      }
      forall ws ensures HasSegments(path, ws) <==> ws == segments {
        SegmentsAre(path, ws);
      }
      forall ps ensures AllSpell(words, ps) <==> CompileSegments(words) == Some(ps) {
        SegmentsSpell(words, ps);
      }
      var patterns := CompileSegments(words).value;
      hide CompileSegments;
      assert HasSegments(raw, words) && HasSegments(path, segments) && AllSpell(words, patterns);
    } else {
      UnderIsPrefix(raw, path);
    }
  }

  lemma UnderIsPrefix(prefix: string, path: string)
    ensures PathPrefixMatch(prefix, path) <==> Under(prefix, path)
  {
    if prefix <= path && |path| > |prefix| {
      assert path[|prefix|..][0] == path[|prefix|];
    }
  }

  ghost predicate AllHold(preds: seq<Predicate>, facts: RequestFacts) {
    forall i | 0 <= i < |preds| :: EvalPredicate(preds[i], facts)
  }

  lemma AllHoldConcat(a: seq<Predicate>, b: seq<Predicate>, facts: RequestFacts)
    ensures AllHold(a + b, facts) <==> AllHold(a, facts) && AllHold(b, facts)
  {
    hide EvalPredicate;
    assert forall i | 0 <= i < |a| :: (a + b)[i] == a[i];
    assert forall i | 0 <= i < |b| :: (a + b)[|a| + i] == b[i];
  }

  lemma AllHoldOne(p: Predicate, facts: RequestFacts)
    ensures AllHold([p], facts) <==> EvalPredicate(p, facts)
  {
    assert [p][0] == p;
    hide EvalPredicate;
  }

  lemma SchemePartMeans(raw: Option<string>, facts: RequestFacts)
    ensures AllHold(SchemePredicate(raw), facts) <==> (raw.Some? ==> SchemeMeans(raw.value, facts.scheme))
  {
    hide AllHold, SchemeMeans, NormalizeScheme, EqIgnoreCase;
    NoneHold(facts);
    if raw.Some? {
      AllHoldOne(SchemeEq(NormalizeScheme(raw.value)), facts);
      SchemeLowers(raw.value, facts.scheme);
    }
  }

  lemma HostPartMeans(raw: Option<string>, facts: RequestFacts)
    ensures AllHold(HostPredicate(raw), facts) <==> (raw.Some? ==> HostMeans(raw.value, facts.host))
  {
    hide AllHold, HostMeans, HostMatches, Lower;
    NoneHold(facts);
    if raw.Some? {
      AllHoldOne(HostEq(Lower(raw.value)), facts);
      HostLowers(raw.value, facts.host);
    }
  }

  lemma PortPartMeans(raw: Option<string>, facts: RequestFacts)
    requires PortPredicate(raw).Ok?
    ensures AllHold(PortPredicate(raw).value, facts) <==>
            (raw.Some? ==> facts.port.Some? && PortIs(raw.value, facts.port.value))
  {
    hide AllHold, ParsePort, PortIs;
    NoneHold(facts);
    if raw.Some? {
      AllHoldOne(PortEq(ParsePort(raw.value).value), facts);
      if facts.port.Some? {
        PortIsParsed(raw.value, facts.port.value);
      }
    }
  }

  lemma PathPartMeans(raw: Option<string>, facts: RequestFacts)
    requires PathPredicate(raw).Ok?
    ensures AllHold(PathPredicate(raw).value, facts) <==> (raw.Some? ==> PathMeans(raw.value, facts.path))
  {
    hide AllHold, PathMeans, MatchPath, CompilePathSpec;
    NoneHold(facts);
    if raw.Some? {
      AllHoldOne(PathIs(CompilePathSpec(raw.value).value), facts);
      PathLowers(raw.value, facts.path);
    }
  }

  lemma QueryPartMeans(raw: Option<string>, facts: RequestFacts)
    requires QueryPredicate(raw).Ok?
    ensures AllHold(QueryPredicate(raw).value, facts) <==> (raw.Some? ==> QueryMeans(raw.value, facts.query))
  {
    hide AllHold, QueryMeans, QuerySubset, QueryPairs;
    NoneHold(facts);
    if raw.Some? {
      AllHoldOne(QueryParamsAll(QueryPairs(raw.value)), facts);
      QueryLowers(raw.value, facts.query);
    }
  }

  lemma NoneHold(facts: RequestFacts)
    ensures AllHold([], facts)
  {
  }

  lemma SchemeLowers(raw: string, scheme: Option<string>)
    ensures (scheme.Some? && EqIgnoreCase(scheme.value, NormalizeScheme(raw))) <==> SchemeMeans(raw, scheme)
  {
    var core := TrimEndMatches(raw, "://");
    LowerIdempotent(core);
    hide TrimEndMatches, Stripped, SameLetters;
    forall c ensures Stripped(raw, "://", c) <==> c == core {
      StrippedIs(raw, "://", c);
    }
    if scheme.Some? {
      SameLettersAre(scheme.value, core);
    }
  }

  lemma UrlLowers(url: Url, facts: RequestFacts)
    requires UrlPredicates(url).Ok?
    ensures AllHold(UrlPredicates(url).value, facts) <==> UrlMeans(url, facts)
  {
    hide AllHold, SchemeMeans, HostMeans, PathMeans, QueryMeans, PortIs, SchemePredicate, HostPredicate,
      PortPredicate, PathPredicate, QueryPredicate;
    SchemePartMeans(url.scheme, facts);
    HostPartMeans(url.host, facts);
    PortPartMeans(url.port, facts);
    PathPartMeans(url.path, facts);
    QueryPartMeans(url.query, facts);
    var a, b := SchemePredicate(url.scheme), HostPredicate(url.host);
    var c, d, e := PortPredicate(url.port).value, PathPredicate(url.path).value, QueryPredicate(url.query).value;
    AllHoldConcat(a, b, facts);
    AllHoldConcat(a + b, c, facts);
    AllHoldConcat(a + b + c, d, facts);
    AllHoldConcat(a + b + c + d, e, facts);
  }

  lemma ArgLowers(arg: CliArg, facts: RequestFacts)
    requires ArgPredicate(arg).Ok?
    ensures AllHold(ArgPredicate(arg).value, facts) <==> ArgMeans(arg, facts)
  {
    hide *;
    FlagsAre(arg.flag);
    ArgUnfolds(arg, facts);
    NoneHold(facts);
    var flag := WithoutSpaces(arg.flag);
    if IsMethodFlag(flag) || IsHeaderFlag(flag) || IsQueryFlag(flag) {
      var p := ArgPredicate(arg).value[0];
      AllHoldOne(p, facts);
      assert ArgPredicate(arg).value == [p];
      UpperMeans(facts.verb, arg.value.value.text);
      SameLettersAre(facts.verb, arg.value.value.text);
      HeaderLowers(arg.value.value.text, facts.headers);
      if facts.query.Some? {
        FindMeans(facts.query.value, arg.value.value.text);
      }
    }
  }

  lemma FlagsAre(flag: string)
    ensures IsMethodFlag(WithoutSpaces(flag)) <==> IsOneOf(flag, "-X", "--request")
    ensures IsHeaderFlag(WithoutSpaces(flag)) <==> IsOneOf(flag, "-H", "--header")
    ensures IsQueryFlag(WithoutSpaces(flag)) <==> IsOneOf(flag, "-q", "--query")
  {
    hide IsFlag, EqIgnoreCase, WithoutSpaces;
    FlagIs(flag, "-X");
    FlagIs(flag, "--request");
    FlagIs(flag, "-H");
    FlagIs(flag, "--header");
    FlagIs(flag, "-q");
    FlagIs(flag, "--query");
  }

  /** What a header argument's value says, taken apart. */
  lemma HeaderLowers(value: string, headers: map<string, string>)
    ensures var (name, expected) := SplitOnce(value, '=');
            HeaderMatches(headers, Lower(name), expected) <==>
            exists name, expected :: Sides(value, '=', name, expected) && HeaderSays(headers, name, expected)
  {
    hide SplitOnce, Sides, SameLetters, EqIgnoreCase;
    var sides := SplitOnce(value, '=');
    forall name, expected ensures Sides(value, '=', name, expected) <==> sides == (name, expected) {
      SidesAre(value, '=', name, expected);
    }
    assert Sides(value, '=', sides.0, sides.1);
    if Lower(sides.0) in headers {
      SameLettersAre(headers[Lower(sides.0)], sides.1);
    }
    hide Lower;
  }

  /** What a constraining argument lowers to, evaluated, and what it means. */
  lemma ArgUnfolds(arg: CliArg, facts: RequestFacts)
    requires ArgPredicate(arg).Ok?
    requires IsMethodFlag(WithoutSpaces(arg.flag)) <==> IsOneOf(arg.flag, "-X", "--request")
    requires IsHeaderFlag(WithoutSpaces(arg.flag)) <==> IsOneOf(arg.flag, "-H", "--header")
    requires IsQueryFlag(WithoutSpaces(arg.flag)) <==> IsOneOf(arg.flag, "-q", "--query")
    ensures var flag := WithoutSpaces(arg.flag);
            var preds := ArgPredicate(arg).value;
            if IsMethodFlag(flag) then
              && |preds| == 1 && arg.value.Some?
              && EvalPredicate(preds[0], facts) == EqIgnoreCase(facts.verb, Upper(arg.value.value.text))
              && (ArgMeans(arg, facts) <==> SameLetters(facts.verb, arg.value.value.text))
            else if IsHeaderFlag(flag) then
              && |preds| == 1 && arg.value.Some?
              && var text := arg.value.value.text;
                 var sides := SplitOnce(text, '=');
                 && EvalPredicate(preds[0], facts) == HeaderMatches(facts.headers, Lower(sides.0), sides.1)
                 && (ArgMeans(arg, facts) <==>
                     exists name, expected ::
                       Sides(text, '=', name, expected) && HeaderSays(facts.headers, name, expected))
            else if IsQueryFlag(flag) then
              && |preds| == 1 && arg.value.Some?
              && EvalPredicate(preds[0], facts) ==
                (facts.query.Some? && Contains(facts.query.value, arg.value.value.text))
              && (ArgMeans(arg, facts) <==>
                  facts.query.Some? && Occurs(arg.value.value.text, facts.query.value))
            else preds == [] && ArgMeans(arg, facts)
  {
    hide IsMethodFlag, IsHeaderFlag, IsQueryFlag, WithoutSpaces, SplitOnce, Lower, Upper, EqIgnoreCase, Contains,
      Occurs, IsOneOf, SameLetters, Sides, HeaderSays, HeaderMatches;
  }

  lemma UpperMeans(a: string, b: string)
    ensures EqIgnoreCase(a, Upper(b)) <==> EqIgnoreCase(a, b)
  {
    LowerIdempotent(b);
  }

  lemma FindMeans(s: string, part: string)
    ensures Contains(s, part) <==> Occurs(part, s)
  {
  }

  lemma {:induction false} ArgsLower(args: seq<CliArg>, facts: RequestFacts)
    requires ArgsPredicates(args).Ok?
    ensures AllHold(ArgsPredicates(args).value, facts) <==> forall i | 0 <= i < |args| :: ArgMeans(args[i], facts)
  {
    hide AllHold, ArgMeans, ArgPredicate;
    NoneHold(facts);
    if args != [] {
      ArgLowers(args[0], facts);
      ArgsLower(args[1..], facts);
      AllHoldConcat(ArgPredicate(args[0]).value, ArgsPredicates(args[1..]).value, facts);
      assert forall i | 1 <= i < |args| :: args[i] == args[1..][i - 1];
    }
  }

  // ---- Plans ----

  /** The indices at the leaves, from left to right. */
  function Leaves(plan: EvalPlan): seq<nat>
    decreases plan, 0
  {
    match plan
    case Pred(index) => [index]
    case Not(inner) => Leaves(inner)
    case All(plans) => LeavesOf(plans)
    case Any(plans) => LeavesOf(plans)
  }

  function LeavesOf(plans: seq<EvalPlan>): seq<nat>
    decreases plans, 1
  {
    if plans == [] then [] else Leaves(plans[0]) + LeavesOf(plans[1..])
  }

  predicate Branching(plan: EvalPlan) {
    match plan
    case Pred(_) => true
    case Not(inner) => Branching(inner)
    case All(plans) => |plans| >= 2 && forall i | 0 <= i < |plans| :: Branching(plans[i])
    case Any(plans) => |plans| >= 2 && forall i | 0 <= i < |plans| :: Branching(plans[i])
  }

  /** The step extends the pool, uses each new index once and in order, and branches only where there
      is a choice. */
  ghost predicate WellPlanned(l: Lowered, pool: Pool) {
    && pool <= l.pool
    && Leaves(l.plan) == Range(|pool|, |l.pool|)
    && Branching(l.plan)
  }

  /** On any pool that extends its own, the plan evaluates to `meaning`. */
  ghost predicate Evaluates(l: Lowered, facts: RequestFacts, meaning: bool) {
    forall wider: Pool | l.pool <= wider :: EvalPlanOn(l.plan, wider, facts) == meaning
  }

  lemma {:induction false} PredsLeaves(indices: seq<nat>)
    ensures LeavesOf(PredsOf(indices)) == indices
  {
    if indices != [] {
      var plans := PredsOf(indices);
      assert plans[1..] == PredsOf(indices[1..]);
      PredsLeaves(indices[1..]);
    }
  }

  lemma PushAllPlanned(pool: Pool, more: seq<Predicate>)
    requires more != []
    ensures WellPlanned(PushAll(pool, more).value, pool)
  {
    var indices := Range(|pool|, |pool + more|);
    PredsLeaves(indices);
    if |indices| == 1 {
      assert indices == [indices[0]];
    }
  }

  lemma PushAllEvaluates(pool: Pool, more: seq<Predicate>, facts: RequestFacts)
    requires more != []
    ensures Evaluates(PushAll(pool, more).value, facts, AllHold(more, facts))
  {
    var l := PushAll(pool, more).value;
    var indices := Range(|pool|, |pool + more|);
    hide EvalPredicate;
    forall wider: Pool | l.pool <= wider
      ensures EvalPlanOn(l.plan, wider, facts) == AllHold(more, facts)
    {
      assert forall i | 0 <= i < |more| :: wider[|pool| + i] == l.pool[|pool| + i] == more[i];
      assert forall i | 0 <= i < |more| :: indices[i] == |pool| + i;
      if |more| > 1 {
        var plans := PredsOf(indices);
        assert forall i | 0 <= i < |more| :: EvalPlanOn(plans[i], wider, facts) == EvalPredicate(more[i], facts);
      }
    }
  }

  ghost predicate Sound(spec: Result<Lowered, CompileError>, pool: Pool, facts: RequestFacts, meaning: bool) {
    spec.Ok? ==> WellPlanned(spec.value, pool) && Evaluates(spec.value, facts, meaning)
  }

  lemma CliIsSound(cli: CliArgs, pool: Pool, facts: RequestFacts)
    ensures Sound(LowerCliSpec(cli, pool), pool, facts, CliMeans(cli, facts))
  {
    hide WellPlanned, Evaluates, PlanAllIndices, ArgMeans, AllHold, ArgsPredicates;
    if LowerCliSpec(cli, pool).Ok? {
      var preds := ArgsPredicates(cli.args).value;
      ArgsLower(cli.args, facts);
      PushAllPlanned(pool, preds);
      PushAllEvaluates(pool, preds, facts);
    }
  }

  lemma UrlIsSound(url: Url, pool: Pool, facts: RequestFacts)
    ensures Sound(LowerUrlSpec(url, pool), pool, facts, UrlMeans(url, facts))
  {
    hide WellPlanned, Evaluates, PlanAllIndices, UrlMeans, AllHold, UrlPredicates;
    if LowerUrlSpec(url, pool).Ok? {
      var preds := UrlPredicates(url).value;
      UrlLowers(url, facts);
      PushAllPlanned(pool, preds);
      PushAllEvaluates(pool, preds, facts);
    }
  }

  // ---- Sequences of plans ----

  ghost predicate SeqPlanned(l: LoweredSeq, pool: Pool) {
    && pool <= l.pool
    && LeavesOf(l.plans) == Range(|pool|, |l.pool|)
    && forall i | 0 <= i < |l.plans| :: Branching(l.plans[i])
  }

  ghost predicate SeqEvaluates(l: LoweredSeq, facts: RequestFacts, meanings: seq<bool>) {
    && |l.plans| == |meanings|
    && forall wider: Pool, i | l.pool <= wider && 0 <= i < |meanings| ::
         EvalPlanOn(l.plans[i], wider, facts) == meanings[i]
  }

  lemma RangeConcat(a: nat, b: nat, c: nat)
    requires a <= b <= c
    ensures Range(a, b) + Range(b, c) == Range(a, c)
  {
  }

  lemma NoPlans(pool: Pool, facts: RequestFacts)
    ensures SeqPlanned(LoweredSeq([], pool), pool) && SeqEvaluates(LoweredSeq([], pool), facts, [])
  {
  }

  lemma FirstPlan(first: Lowered, rest: LoweredSeq, pool: Pool, facts: RequestFacts, meaning: bool, meanings: seq<bool>)
    requires WellPlanned(first, pool) && Evaluates(first, facts, meaning)
    requires SeqPlanned(rest, first.pool) && SeqEvaluates(rest, facts, meanings)
    ensures var all := LoweredSeq([first.plan] + rest.plans, rest.pool);
            SeqPlanned(all, pool) && SeqEvaluates(all, facts, [meaning] + meanings)
  {
    hide EvalPlanOn, Branching;
    var all := LoweredSeq([first.plan] + rest.plans, rest.pool);
    RangeConcat(|pool|, |first.pool|, |rest.pool|);
    hide Range, Leaves;
    assert all.plans[1..] == rest.plans;
    forall wider: Pool, i | all.pool <= wider && 0 <= i < |all.plans|
      ensures EvalPlanOn(all.plans[i], wider, facts) == ([meaning] + meanings)[i]
    {
      if i == 0 {
        assert first.pool <= wider;
      } else {
        assert all.plans[i] == rest.plans[i - 1];
      }
    }
  }

  lemma AllOf(l: LoweredSeq, pool: Pool, facts: RequestFacts, meanings: seq<bool>)
    requires |l.plans| >= 2 && SeqPlanned(l, pool) && SeqEvaluates(l, facts, meanings)
    ensures WellPlanned(Lowered(All(l.plans), l.pool), pool)
    ensures Evaluates(Lowered(All(l.plans), l.pool), facts, forall i | 0 <= i < |meanings| :: meanings[i])
  {
    hide Range, LeavesOf;
    var plan := All(l.plans);
    forall wider: Pool | l.pool <= wider
      ensures EvalPlanOn(plan, wider, facts) == forall i | 0 <= i < |meanings| :: meanings[i]
    {
      assert forall i | 0 <= i < |meanings| :: EvalPlanOn(l.plans[i], wider, facts) == meanings[i];
      assert plan.plans == l.plans;
    }
  }

  lemma AnyOf(l: LoweredSeq, pool: Pool, facts: RequestFacts, meanings: seq<bool>)
    requires |l.plans| >= 2 && SeqPlanned(l, pool) && SeqEvaluates(l, facts, meanings)
    ensures WellPlanned(Lowered(Any(l.plans), l.pool), pool)
    ensures Evaluates(Lowered(Any(l.plans), l.pool), facts, exists i | 0 <= i < |meanings| :: meanings[i])
  {
    hide Range, LeavesOf;
    var plan := Any(l.plans);
    forall wider: Pool | l.pool <= wider
      ensures EvalPlanOn(plan, wider, facts) == exists i | 0 <= i < |meanings| :: meanings[i]
    {
      assert forall i | 0 <= i < |meanings| :: EvalPlanOn(l.plans[i], wider, facts) == meanings[i];
      assert plan.plans == l.plans;
    }
  }

  lemma NotOf(l: Lowered, pool: Pool, facts: RequestFacts, meaning: bool)
    requires WellPlanned(l, pool) && Evaluates(l, facts, meaning)
    ensures WellPlanned(Lowered(EvalPlan.Not(l.plan), l.pool), pool)
    ensures Evaluates(Lowered(EvalPlan.Not(l.plan), l.pool), facts, !meaning)
  {
    var plan := EvalPlan.Not(l.plan);
    assert Leaves(plan) == Leaves(l.plan);
    forall wider: Pool | l.pool <= wider ensures EvalPlanOn(plan, wider, facts) == !meaning {
      assert EvalPlanOn(l.plan, wider, facts) == meaning;
    }
  }

  lemma FragmentIsSound(fragment: Fragment, pool: Pool, facts: RequestFacts)
    ensures Sound(LowerFragmentSpec(fragment, pool), pool, facts, FragmentMeans(fragment, facts))
  {
    hide WellPlanned, Evaluates, SeqPlanned, SeqEvaluates, UrlMeans, CliMeans, LowerUrlSpec, LowerCliSpec;
    match fragment
    case CliOnly(args) => CliIsSound(args, pool, facts);
    case UrlFragment(url, None) => UrlIsSound(url, pool, facts);
    case UrlFragment(url, Some(cli)) =>
      UrlIsSound(url, pool, facts);
      if LowerUrlSpec(url, pool).Ok? {
        var first := LowerUrlSpec(url, pool).value;
        CliIsSound(cli, first.pool, facts);
        if LowerCliSpec(cli, first.pool).Ok? {
          var second := LowerCliSpec(cli, first.pool).value;
          var u, c := UrlMeans(url, facts), CliMeans(cli, facts);
          NoPlans(second.pool, facts);
          FirstPlan(second, LoweredSeq([], second.pool), first.pool, facts, c, []);
          FirstPlan(first, LoweredSeq([second.plan] + [], second.pool), pool, facts, u, [c] + []);
          var plans, meanings := [first.plan] + ([second.plan] + []), [u] + ([c] + []);
          AllOf(LoweredSeq(plans, second.pool), pool, facts, meanings);
          assert plans == [first.plan, second.plan];
          assert (forall i | 0 <= i < |meanings| :: meanings[i]) == (u && c) by {
            assert meanings[0] == u && meanings[1] == c;
          }
        }
      }
  }

  // ---- Expressions ----

  ghost function BranchMeanings(branches: seq<AndExpr>, facts: RequestFacts): seq<bool> {
    seq(|branches|, i requires 0 <= i < |branches| => AndMeans(branches[i], facts))
  }

  ghost function TermMeanings(terms: seq<NotExpr>, facts: RequestFacts): seq<bool> {
    seq(|terms|, i requires 0 <= i < |terms| => NotMeans(terms[i], facts))
  }

  lemma {:induction false} OrIsSound(or: OrExpr, pool: Pool, facts: RequestFacts)
    ensures Sound(LowerOrSpec(or, pool), pool, facts, OrMeans(or, facts))
    decreases or, 1
  {
    hide WellPlanned, Evaluates, SeqPlanned, SeqEvaluates, AndMeans, LowerAndSpec;
    if |or.branches| == 1 {
      AndIsSound(or.branches[0], pool, facts);
    } else if or.branches != [] {
      BranchesAreSound(or.branches, pool, facts);
      if LowerBranchesSpec(or.branches, pool).Ok? {
        var l := LowerBranchesSpec(or.branches, pool).value;
        BranchesCount(or.branches, pool);
        hide LowerBranchesSpec;
        AnyOf(l, pool, facts, BranchMeanings(or.branches, facts));
        assert forall i | 0 <= i < |or.branches| ::
            BranchMeanings(or.branches, facts)[i] == AndMeans(or.branches[i], facts);
      }
    }
  }

  lemma {:induction false} BranchesCount(branches: seq<AndExpr>, pool: Pool)
    requires LowerBranchesSpec(branches, pool).Ok?
    ensures |LowerBranchesSpec(branches, pool).value.plans| == |branches|
  {
    hide LowerAndSpec;
    if branches != [] {
      BranchesCount(branches[1..], LowerAndSpec(branches[0], pool).value.pool);
    }
  }

  lemma {:induction false} BranchesAreSound(branches: seq<AndExpr>, pool: Pool, facts: RequestFacts)
    ensures var spec := LowerBranchesSpec(branches, pool);
            spec.Ok? ==>
              SeqPlanned(spec.value, pool) && SeqEvaluates(spec.value, facts, BranchMeanings(branches, facts))
    decreases branches, 0
  {
    hide WellPlanned, Evaluates, SeqPlanned, SeqEvaluates, AndMeans, LowerAndSpec;
    if branches == [] {
      NoPlans(pool, facts);
      assert BranchMeanings(branches, facts) == [];
    } else if LowerBranchesSpec(branches, pool).Ok? {
      var first := LowerAndSpec(branches[0], pool).value;
      AndIsSound(branches[0], pool, facts);
      BranchesAreSound(branches[1..], first.pool, facts);
      var rest := LowerBranchesSpec(branches[1..], first.pool).value;
      FirstPlan(first, rest, pool, facts, AndMeans(branches[0], facts), BranchMeanings(branches[1..], facts));
      assert BranchMeanings(branches, facts) == [AndMeans(branches[0], facts)] + BranchMeanings(branches[1..], facts);
    }
  }

  lemma {:induction false} AndIsSound(and: AndExpr, pool: Pool, facts: RequestFacts)
    ensures Sound(LowerAndSpec(and, pool), pool, facts, AndMeans(and, facts))
    decreases and, 1
  {
    hide WellPlanned, Evaluates, SeqPlanned, SeqEvaluates, NotMeans, LowerNotSpec;
    if |and.terms| == 1 {
      NotIsSound(and.terms[0], pool, facts);
    } else if and.terms != [] {
      TermsAreSound(and.terms, pool, facts);
      if LowerTermsSpec(and.terms, pool).Ok? {
        var l := LowerTermsSpec(and.terms, pool).value;
        TermsCount(and.terms, pool);
        hide LowerTermsSpec;
        AllOf(l, pool, facts, TermMeanings(and.terms, facts));
        assert forall i | 0 <= i < |and.terms| ::
            TermMeanings(and.terms, facts)[i] == NotMeans(and.terms[i], facts);
      }
    }
  }

  lemma {:induction false} TermsCount(terms: seq<NotExpr>, pool: Pool)
    requires LowerTermsSpec(terms, pool).Ok?
    ensures |LowerTermsSpec(terms, pool).value.plans| == |terms|
  {
    hide LowerNotSpec;
    if terms != [] {
      TermsCount(terms[1..], LowerNotSpec(terms[0], pool).value.pool);
    }
  }

  lemma {:induction false} TermsAreSound(terms: seq<NotExpr>, pool: Pool, facts: RequestFacts)
    ensures var spec := LowerTermsSpec(terms, pool);
            spec.Ok? ==> SeqPlanned(spec.value, pool) && SeqEvaluates(spec.value, facts, TermMeanings(terms, facts))
    decreases terms, 0
  {
    hide WellPlanned, Evaluates, SeqPlanned, SeqEvaluates, NotMeans, LowerNotSpec;
    if terms == [] {
      NoPlans(pool, facts);
      assert TermMeanings(terms, facts) == [];
    } else if LowerTermsSpec(terms, pool).Ok? {
      var first := LowerNotSpec(terms[0], pool).value;
      NotIsSound(terms[0], pool, facts);
      TermsAreSound(terms[1..], first.pool, facts);
      var rest := LowerTermsSpec(terms[1..], first.pool).value;
      FirstPlan(first, rest, pool, facts, NotMeans(terms[0], facts), TermMeanings(terms[1..], facts));
      assert TermMeanings(terms, facts) == [NotMeans(terms[0], facts)] + TermMeanings(terms[1..], facts);
    }
  }

  lemma {:induction false} NotIsSound(n: NotExpr, pool: Pool, facts: RequestFacts)
    ensures Sound(LowerNotSpec(n, pool), pool, facts, NotMeans(n, facts))
    decreases n, 0
  {
    hide FragmentMeans, OrMeans, LowerFragmentSpec, LowerOrSpec, WellPlanned, Evaluates;
    match n
    case Not(inner, _) =>
      NotIsSound(inner, pool, facts);
      if LowerNotSpec(inner, pool).Ok? {
        NotOf(LowerNotSpec(inner, pool).value, pool, facts, NotMeans(inner, facts));
      }
    case Prim(Leaf(fragment, _, _)) => FragmentIsSound(fragment, pool, facts);
    case Prim(Grouped(expr)) => OrIsSound(expr.or, pool, facts);
  }

  /** Whenever a source compiles: it parses to an expression, the program accepts exactly the requests
      that the expression describes, the plan's leaves from left to right are exactly the indices of the
      pool, and every conjunction and disjunction in it has at least two parts. */
  lemma CompiledMeansSource(g: LeafGrammar, source: string, program: MatchProgram)
    requires CompileMatchExpr(g, source) == Ok(program)
    ensures ParsesToExpr(g, source)
    ensures forall facts ::
              EvalProgram(program, facts) <==> OrMeans(ParseProgram(g, source).value.expr.value.or, facts)
    ensures Leaves(program.plan) == Range(0, |program.predicates|) && Branching(program.plan)
  {
    hide CompileMatchExpr, ParseProgram, LowerOrSpec, OrMeans, Branching, Leaves, EvalProgram, Range, Sound;
    CompileUnfolds(g, source, program);
    var or := ParseProgram(g, source).value.expr.value.or;
    forall facts ensures EvalProgram(program, facts) <==> OrMeans(or, facts) {
      OrIsSound(or, [], facts);
      SoundProgram(or, program, facts);
    }
    var any := RequestFacts(None, "", None, "", None, "", map[]);
    OrIsSound(or, [], any);
    SoundProgram(or, program, any);
  }

  predicate ParsesToExpr(g: LeafGrammar, source: string) {
    ParseProgram(g, source).Ok? && ParseProgram(g, source).value.expr.Some?
  }

  lemma CompileUnfolds(g: LeafGrammar, source: string, program: MatchProgram)
    requires CompileMatchExpr(g, source) == Ok(program)
    ensures ParsesToExpr(g, source)
    ensures LowerOrSpec(ParseProgram(g, source).value.expr.value.or, []) ==
            Ok(Lowered(program.plan, program.predicates))
  {
    hide ParseProgram, LowerOrSpec;
  }

  lemma SoundProgram(or: OrExpr, program: MatchProgram, facts: RequestFacts)
    requires LowerOrSpec(or, []) == Ok(Lowered(program.plan, program.predicates))
    requires Sound(LowerOrSpec(or, []), [], facts, OrMeans(or, facts))
    ensures EvalProgram(program, facts) <==> OrMeans(or, facts)
    ensures Leaves(program.plan) == Range(0, |program.predicates|) && Branching(program.plan)
  {
    hide LowerOrSpec, OrMeans, Branching, EvalPlanOn, Leaves, Range;
    assert program.predicates <= program.predicates;
  }
}
