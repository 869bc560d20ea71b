/** The compiled form of a match expression and its evaluation against a request. */
module Eval {
  import opened Wrappers
  import opened Text
  import opened PathGlob

  datatype Predicate =
    | HostEq(host: string)
    | SchemeEq(scheme: string)
    | PortEq(port: nat)
    | PathIs(matcher: PathMatcher)
    | MethodEq(name: string)
    | QueryContains(part: string)
    | QueryParamsAll(pairs: seq<(string, string)>)
    | HeaderEq(key: string, value: string)

  datatype EvalPlan =
    | All(plans: seq<EvalPlan>)
    | Any(plans: seq<EvalPlan>)
    | Not(inner: EvalPlan)
    | Pred(index: nat)

  datatype MatchProgram = MatchProgram(predicates: seq<Predicate>, plan: EvalPlan)

  /** Header names are lower-case and distinct. */
  datatype RequestFacts = RequestFacts(
    scheme: Option<string>,
    host: string,
    port: Option<nat>,
    path: string,
    query: Option<string>,
    verb: string,
    headers: map<string, string>)

  predicate Contains(s: string, part: string) {
    Find(s, part).Some?
  }

  predicate EndsWith(s: string, suffix: string) {
    |suffix| <= |s| && s[|s| - |suffix|..] == suffix
  }

  predicate HostMatches(expected: string, actual: string) {
    if EqIgnoreCase(actual, expected) then true
    else if '.' in Lower(expected) then EndsWith(Lower(actual), "." + Lower(expected))
    else Contains(Lower(actual), Lower(expected))
  }

  predicate HeaderMatches(headers: map<string, string>, key: string, expected: string) {
    key in headers && (expected == "" || EqIgnoreCase(headers[key], expected))
  }

  // ---- Query strings ----

  function SplitOnce(s: string, c: char): (string, string) {
    if c in s then (s[..FirstOf(s, c)], s[FirstOf(s, c) + 1..]) else (s, "")
  }

  function Pairs(parts: seq<string>): seq<(string, string)> {
    if parts == [] then [] else [SplitOnce(parts[0], '=')] + Pairs(parts[1..])
  }

  function QueryPairs(query: string): seq<(string, string)> {
    if query == "" then [] else Pairs(NonEmpty(SplitOn(query, '&')))
  }

  /** Collecting pairs into a hash map: the last value of a key wins. */
  function Collect(pairs: seq<(string, string)>): map<string, string> {
    if pairs == [] then map[]
    else
      var (key, value) := pairs[|pairs| - 1];
      Collect(pairs[..|pairs| - 1])[key := value]
  }

  predicate QuerySubset(expected: seq<(string, string)>, actual: Option<string>) {
    if expected == [] then actual.None? || actual.value == ""
    else
      && actual.Some?
      && var known := Collect(QueryPairs(actual.value));
         forall i | 0 <= i < |expected| :: expected[i].0 in known && known[expected[i].0] == expected[i].1
  }

  // ---- Evaluation ----

  predicate EvalPredicate(pred: Predicate, facts: RequestFacts) {
    match pred
    case HostEq(expected) => HostMatches(expected, facts.host)
    case SchemeEq(expected) => facts.scheme.Some? && EqIgnoreCase(facts.scheme.value, expected)
    case PortEq(expected) => facts.port == Some(expected)
    case PathIs(matcher) => MatchPath(matcher, facts.path)
    case MethodEq(expected) => EqIgnoreCase(facts.verb, expected)
    case QueryContains(part) => facts.query.Some? && Contains(facts.query.value, part)
    case QueryParamsAll(expected) => QuerySubset(expected, facts.query)
    case HeaderEq(key, value) => HeaderMatches(facts.headers, key, value)
  }

  predicate EvalPlanOn(plan: EvalPlan, predicates: seq<Predicate>, facts: RequestFacts) {
    match plan
    case Pred(index) => index < |predicates| && EvalPredicate(predicates[index], facts)
    case All(plans) => forall i | 0 <= i < |plans| :: EvalPlanOn(plans[i], predicates, facts)
    case Any(plans) => exists i | 0 <= i < |plans| :: EvalPlanOn(plans[i], predicates, facts)
    case Not(inner) => !EvalPlanOn(inner, predicates, facts)
  }

  predicate EvalProgram(program: MatchProgram, facts: RequestFacts) {
    EvalPlanOn(program.plan, program.predicates, facts)
  }
}
