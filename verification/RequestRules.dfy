/** Request rules, their evaluation order, and which of them a request matches. */
module RequestRules {
  import opened Wrappers
  import opened Text
  import opened DslAst
  import opened ExprParser
  import opened Masking
  import opened Eval
  import opened Compile
  import opened CompileMeaning

  /** A rule id, a 32-bit signed number. */
  type Id = n: int | -0x8000_0000 <= n <= 0x7fff_ffff

  datatype Capture = Capture(id: Option<Id>, matchExpr: string)

  /** `handlers` stands for the handler list, which is carried along and never looked at. */
  datatype RequestRule = RequestRule(
    id: Option<Id>,
    project: string,
    name: string,
    description: Option<string>,
    enabled: bool,
    priority: int,
    capture: Capture,
    handlers: seq<string>)

  // ---- Order: higher priority first, then lower id, a missing id counting as zero ----

  type Key = (int, int)

  function KeyOf(rule: RequestRule): Key {
    (rule.priority, if rule.id.Some? then rule.id.value else 0)
  }

  predicate Before(a: Key, b: Key) {
    a.0 > b.0 || (a.0 == b.0 && a.1 < b.1)
  }

  predicate Sorted(rules: seq<RequestRule>) {
    forall i, j | 0 <= i < j < |rules| :: !Before(KeyOf(rules[j]), KeyOf(rules[i]))
  }

  function Insert(rule: RequestRule, sorted: seq<RequestRule>): seq<RequestRule> {
    if sorted == [] || !Before(KeyOf(sorted[0]), KeyOf(rule)) then [rule] + sorted
    else [sorted[0]] + Insert(rule, sorted[1..])
  }

  /** The stable sort: among rules with equal keys the earlier one stays first. */
  function SortRules(rules: seq<RequestRule>): seq<RequestRule> {
    if rules == [] then [] else Insert(rules[0], SortRules(rules[1..]))
  }

  function WithKey(rules: seq<RequestRule>, key: Key): seq<RequestRule> {
    if rules == [] then []
    else (if KeyOf(rules[0]) == key then [rules[0]] else []) + WithKey(rules[1..], key)
  }

  predicate NoneBefore(rules: seq<RequestRule>, key: Key) {
    forall i | 0 <= i < |rules| :: !Before(KeyOf(rules[i]), key)
  }

  lemma SortedCons(rule: RequestRule, rest: seq<RequestRule>)
    ensures Sorted([rule] + rest) <==> NoneBefore(rest, KeyOf(rule)) && Sorted(rest)
  {
    hide Before, KeyOf;
    var all := [rule] + rest;
    if Sorted(all) {
      forall i | 0 <= i < |rest| ensures !Before(KeyOf(rest[i]), KeyOf(rule)) {
        assert all[i + 1] == rest[i] && all[0] == rule;
      }
      forall i, j | 0 <= i < j < |rest| ensures !Before(KeyOf(rest[j]), KeyOf(rest[i])) {
        assert all[i + 1] == rest[i] && all[j + 1] == rest[j];
      }
    }
  }

  lemma OneOfThem(rest: seq<RequestRule>, others: seq<RequestRule>, rule: RequestRule, i: nat)
    requires i < |rest| && multiset(rest) == multiset(others) + multiset{rule}
    ensures rest[i] == rule || rest[i] in others
  {
    assert rest[i] in multiset(rest);
  }

  lemma {:induction false} InsertSorts(rule: RequestRule, sorted: seq<RequestRule>)
    requires Sorted(sorted)
    ensures Sorted(Insert(rule, sorted))
    ensures multiset(Insert(rule, sorted)) == multiset(sorted) + multiset{rule}
  {
    hide Sorted, KeyOf;
    SortedCons(rule, sorted);
    if sorted != [] {
      assert sorted == [sorted[0]] + sorted[1..];
      SortedCons(sorted[0], sorted[1..]);
      if Before(KeyOf(sorted[0]), KeyOf(rule)) {
        var rest := Insert(rule, sorted[1..]);
        InsertSorts(rule, sorted[1..]);
        SortedCons(sorted[0], rest);
        forall i | 0 <= i < |rest| ensures !Before(KeyOf(rest[i]), KeyOf(sorted[0])) {
          OneOfThem(rest, sorted[1..], rule, i);
        }
      } else {
        assert forall i | 1 <= i < |sorted| :: sorted[i] == sorted[1..][i - 1];
      }
    }
  }

  lemma {:induction false} InsertKeepsOrder(rule: RequestRule, sorted: seq<RequestRule>, key: Key)
    requires Sorted(sorted)
    ensures WithKey(Insert(rule, sorted), key) == WithKey([rule] + sorted, key)
  {
    hide Before, KeyOf;
    assert ([rule] + sorted)[1..] == sorted;
    if sorted != [] && Before(KeyOf(sorted[0]), KeyOf(rule)) {
      var rest := sorted[1..];
      InsertKeepsOrder(rule, rest, key);
      assert ([rule] + rest)[1..] == rest;
      assert ([sorted[0]] + Insert(rule, rest))[1..] == Insert(rule, rest);
      BeforeIsStrict(KeyOf(sorted[0]));
    }
  }

  lemma BeforeIsStrict(key: Key)
    ensures !Before(key, key)
  {
  }

  /** The sort orders the rules, keeps them all, and keeps the order of rules with equal keys. */
  lemma {:induction false} SortIsStable(rules: seq<RequestRule>)
    ensures Sorted(SortRules(rules))
    ensures multiset(SortRules(rules)) == multiset(rules)
    ensures forall key: Key :: WithKey(SortRules(rules), key) == WithKey(rules, key)
  {
    hide Insert, Sorted, WithKey;
    if rules == [] {
      assert Sorted([]) by { SortedNothing(); }
    } else {
      var rest := rules[1..];
      SortIsStable(rest);
      assert rules == [rules[0]] + rest;
      InsertSorts(rules[0], SortRules(rest));
      forall key: Key ensures WithKey(SortRules(rules), key) == WithKey(rules, key) {
        InsertKeepsOrder(rules[0], SortRules(rest), key);
        WithKeyCons(rules[0], SortRules(rest), rest, key);
      }
    }
  }

  lemma SortedNothing()
    ensures Sorted([])
  {
  }

  lemma WithKeyCons(rule: RequestRule, a: seq<RequestRule>, b: seq<RequestRule>, key: Key)
    requires WithKey(a, key) == WithKey(b, key)
    ensures WithKey([rule] + a, key) == WithKey([rule] + b, key)
  {
    assert ([rule] + a)[1..] == a && ([rule] + b)[1..] == b;
  }

  // ---- Sorting forgets the order it was given exactly when no two different rules tie ----

  predicate NoTies(rules: seq<RequestRule>) {
    forall i, j | 0 <= i < |rules| && 0 <= j < |rules| && KeyOf(rules[i]) == KeyOf(rules[j]) :: rules[i] == rules[j]
  }

  lemma {:induction false} SortedIsUnique(a: seq<RequestRule>, b: seq<RequestRule>)
    requires Sorted(a) && Sorted(b) && multiset(a) == multiset(b) && NoTies(a)
    ensures a == b
  {
    hide Sorted, NoTies, Before, KeyOf;
    assert |a| == |multiset(a)| && |b| == |multiset(b)|;
    if a != [] {
      HeadsAgree(a, b);
      WithoutHead(a);
      WithoutHead(b);
      TailKeepsNoTies(a);
      SortedIsUnique(a[1..], b[1..]);
    }
  }

  lemma WithoutHead(a: seq<RequestRule>)
    requires a != [] && Sorted(a)
    ensures Sorted(a[1..]) && multiset(a[1..]) == multiset(a) - multiset{a[0]} && a == [a[0]] + a[1..]
  {
    hide Before, KeyOf;
    assert a == [a[0]] + a[1..];
  }

  lemma TailKeepsNoTies(a: seq<RequestRule>)
    requires a != [] && NoTies(a)
    ensures NoTies(a[1..])
  {
    hide KeyOf;
  }

  lemma HeadsAgree(a: seq<RequestRule>, b: seq<RequestRule>)
    requires Sorted(a) && Sorted(b) && multiset(a) == multiset(b) && NoTies(a) && a != [] && b != []
    ensures a[0] == b[0]
  {
    assert a[0] in multiset(b) && b[0] in multiset(a);
    var i :| 0 <= i < |b| && b[i] == a[0];
    var j :| 0 <= j < |a| && a[j] == b[0];
    hide NoTies;
    assert !Before(KeyOf(a[0]), KeyOf(b[0]));
    assert !Before(KeyOf(b[0]), KeyOf(a[0]));
    assert KeyOf(a[0]) == KeyOf(a[j]);
    TiesAgree(a, 0, j);
  }

  lemma TiesAgree(a: seq<RequestRule>, i: nat, j: nat)
    requires NoTies(a) && i < |a| && j < |a| && KeyOf(a[i]) == KeyOf(a[j])
    ensures a[i] == a[j]
  {
  }

  /** Whatever order the rules are read in, they sort to the same list, unless two of them tie. */
  lemma SortForgetsOrder(a: seq<RequestRule>, b: seq<RequestRule>)
    requires multiset(a) == multiset(b) && NoTies(a)
    ensures SortRules(a) == SortRules(b)
  {
    SortIsStable(a);
    SortIsStable(b);
    var s := SortRules(a);
    forall i, j | 0 <= i < |s| && 0 <= j < |s| && KeyOf(s[i]) == KeyOf(s[j]) ensures s[i] == s[j] {
      assert s[i] in multiset(a) && s[j] in multiset(a);
    }
    hide SortRules, KeyOf, Sorted;
    SortedIsUnique(s, SortRules(b));
  }

  /** Two different rules that tie come out in the order they were read in. */
  lemma TiesKeepReadOrder(a: RequestRule, b: RequestRule, rest: seq<RequestRule>)
    requires a != b && KeyOf(a) == KeyOf(b)
    ensures SortRules([a, b] + rest) != SortRules([b, a] + rest)
  {
    var x, y := [a, b] + rest, [b, a] + rest;
    SortIsStable(x);
    SortIsStable(y);
    assert x[1..] == [b] + rest && ([b] + rest)[1..] == rest;
    assert y[1..] == [a] + rest && ([a] + rest)[1..] == rest;
    var key := KeyOf(a);
    assert WithKey(x, key) == [a] + ([b] + WithKey(rest, key));
    assert WithKey(y, key) == [b] + ([a] + WithKey(rest, key));
    assert WithKey(x, key)[0] == a && WithKey(y, key)[0] == b;
  }

  // ---- Compiling and matching ----

  datatype CompiledRule = CompiledRule(rule: RequestRule, program: MatchProgram)

  /** The id reported for an invalid expression, minus one if the rule has none. */
  datatype InvalidRule = InvalidRule(id: int, error: CompileError)

  function ProgramOf(g: LeafGrammar, rule: RequestRule): Result<MatchProgram, CompileError> {
    CompileMatchExpr(g, Trim(rule.capture.matchExpr))
  }

  function CompileRules(g: LeafGrammar, rules: seq<RequestRule>): Result<seq<CompiledRule>, InvalidRule> {
    if rules == [] then Ok([])
    else
      match ProgramOf(g, rules[0])
      case Err(error) => Err(InvalidRule(if rules[0].id.Some? then rules[0].id.value else -1, error))
      case Ok(program) => CompiledAfter([CompiledRule(rules[0], program)], CompileRules(g, rules[1..]))
  }

  function CompiledAfter(done: seq<CompiledRule>, rest: Result<seq<CompiledRule>, InvalidRule>)
    : Result<seq<CompiledRule>, InvalidRule>
  {
    match rest case Ok(more) => Ok(done + more) case Err(e) => Err(e)
  }

  lemma CompiledAfterNothing(rest: Result<seq<CompiledRule>, InvalidRule>)
    ensures CompiledAfter([], rest) == rest
  {
    if rest.Ok? {
      assert [] + rest.value == rest.value;
    }
  }

  lemma CompiledAfterMore(done: seq<CompiledRule>, one: CompiledRule, rest: Result<seq<CompiledRule>, InvalidRule>)
    ensures CompiledAfter(done, CompiledAfter([one], rest)) == CompiledAfter(done + [one], rest)
  {
    if rest.Ok? {
      assert done + ([one] + rest.value) == done + [one] + rest.value;
    }
  }

  method CompileAll(g: LeafGrammar, rules: seq<RequestRule>) returns (r: Result<seq<CompiledRule>, InvalidRule>)
    ensures r == CompileRules(g, rules)
  {
    hide ProgramOf;
    var compiled: seq<CompiledRule> := [];
    var rest := rules;
    CompiledAfterNothing(CompileRules(g, rules));
    while rest != []
      invariant CompileRules(g, rules) == CompiledAfter(compiled, CompileRules(g, rest))
    {
      var program := ProgramOf(g, rest[0]);
      if program.Err? {
        return Err(InvalidRule(if rest[0].id.Some? then rest[0].id.value else -1, program.error));
      }
      CompiledAfterMore(compiled, CompiledRule(rest[0], program.value), CompileRules(g, rest[1..]));
      compiled := compiled + [CompiledRule(rest[0], program.value)];
      rest := rest[1..];
    }
    assert compiled + [] == compiled;
    return Ok(compiled);
  }

  function Matching(compiled: seq<CompiledRule>, facts: RequestFacts): seq<RequestRule> {
    if compiled == [] then []
    else
      (if compiled[0].rule.enabled && EvalProgram(compiled[0].program, facts) then [compiled[0].rule] else [])
      + Matching(compiled[1..], facts)
  }

  method FindMatchingRules(compiled: seq<CompiledRule>, facts: RequestFacts) returns (matching: seq<RequestRule>)
    ensures matching == Matching(compiled, facts)
  {
    hide EvalProgram;
    matching := [];
    var rest := compiled;
    while rest != []
      invariant Matching(compiled, facts) == matching + Matching(rest, facts)
    {
      var c := rest[0];
      rest := rest[1..];
      Regroup(matching, [c.rule], Matching(rest, facts));
      if !c.rule.enabled {
        continue;
      }
      if EvalProgram(c.program, facts) {
        matching := matching + [c.rule];
      }
    }
  }

  lemma Regroup<T>(a: seq<T>, b: seq<T>, c: seq<T>)
    ensures a + (b + c) == a + b + c && [] + c == c
  {
  }

  /** The rule is enabled and its match expression describes the request. */
  ghost predicate Applies(g: LeafGrammar, rule: RequestRule, facts: RequestFacts) {
    && rule.enabled
    && ParsesToExpr(g, Trim(rule.capture.matchExpr))
    && OrMeans(ParseProgram(g, Trim(rule.capture.matchExpr)).value.expr.value.or, facts)
  }

  ghost function Applying(g: LeafGrammar, rules: seq<RequestRule>, facts: RequestFacts): seq<RequestRule> {
    if rules == [] then []
    else (if Applies(g, rules[0], facts) then [rules[0]] else []) + Applying(g, rules[1..], facts)
  }

  /** Once a rule list compiles, a request matches exactly the enabled rules whose expressions describe
      it, in the order of the list. */
  lemma {:induction false} MatchingRulesApply(g: LeafGrammar, rules: seq<RequestRule>, facts: RequestFacts)
    requires CompileRules(g, rules).Ok?
    ensures Matching(CompileRules(g, rules).value, facts) == Applying(g, rules, facts)
  {
    hide ProgramOf, Applies, EvalProgram;
    if rules != [] {
      MatchingRulesApply(g, rules[1..], facts);
      var program := ProgramOf(g, rules[0]).value;
      var more := CompileRules(g, rules[1..]).value;
      assert ([CompiledRule(rules[0], program)] + more)[1..] == more;
      OneRuleApplies(g, rules[0], program, facts);
    }
  }

  lemma OneRuleApplies(g: LeafGrammar, rule: RequestRule, program: MatchProgram, facts: RequestFacts)
    requires ProgramOf(g, rule) == Ok(program)
    ensures (rule.enabled && EvalProgram(program, facts)) <==> Applies(g, rule, facts)
  {
    hide CompileMatchExpr, EvalProgram, OrMeans, ParsesToExpr, Trim;
    CompiledMeansSource(g, Trim(rule.capture.matchExpr), program);
  }

  /** Either every rule compiles, and is there with its own program, or the error is that of the first that does
      not, under its id. */
  ghost predicate CompiledOrFirst(g: LeafGrammar, rules: seq<RequestRule>, r: Result<seq<CompiledRule>, InvalidRule>) {
    match r
    case Ok(compiled) =>
      && |compiled| == |rules|
      && forall i | 0 <= i < |rules| ::
           compiled[i].rule == rules[i] && ProgramOf(g, rules[i]) == Ok(compiled[i].program)
    case Err(invalid) =>
      exists i: nat :: i < |rules| && IsFirstInvalid(g, rules, i, invalid)
  }

  ghost predicate IsFirstInvalid(g: LeafGrammar, rules: seq<RequestRule>, i: nat, invalid: InvalidRule)
    requires i < |rules|
  {
    && (forall j | 0 <= j < i :: ProgramOf(g, rules[j]).Ok?)
    && ProgramOf(g, rules[i]) == Err(invalid.error)
    && invalid.id == (match rules[i].id case Some(id) => id case None => -1)
  }

  lemma {:induction false} FirstInvalidStops(g: LeafGrammar, rules: seq<RequestRule>)
    ensures CompiledOrFirst(g, rules, CompileRules(g, rules))
  {
    hide ProgramOf;
    if rules != [] && ProgramOf(g, rules[0]).Ok? {
      FirstInvalidStops(g, rules[1..]);
      var rest := CompileRules(g, rules[1..]);
      if rest.Err? {
        var i: nat :| i < |rules[1..]| && IsFirstInvalid(g, rules[1..], i, rest.error);
        LaterInvalid(g, rules, i, rest.error);
      }
    } else if rules != [] {
      assert IsFirstInvalid(g, rules, 0, CompileRules(g, rules).error);
    }
  }

  lemma LaterInvalid(g: LeafGrammar, rules: seq<RequestRule>, i: nat, invalid: InvalidRule)
    requires rules != [] && ProgramOf(g, rules[0]).Ok?
    requires i < |rules[1..]| && IsFirstInvalid(g, rules[1..], i, invalid)
    ensures IsFirstInvalid(g, rules, i + 1, invalid)
  {
    hide ProgramOf;
    forall j | 0 <= j < i + 1 ensures ProgramOf(g, rules[j]).Ok? {
      if j > 0 {
        assert rules[1..][j - 1] == rules[j];
      }
    }
  }

  /** Rules run by falling priority, and among rules of one priority by rising id. */
  lemma HigherPriorityFirst(rules: seq<RequestRule>, i: nat, j: nat)
    requires i < j < |SortRules(rules)|
    ensures var a, b := SortRules(rules)[i], SortRules(rules)[j];
            && a.priority >= b.priority
            && (a.priority == b.priority ==>
                  (match a.id case Some(id) => id case None => 0) <= (match b.id case Some(id) => id case None => 0))
  {
    SortIsStable(rules);
    hide SortRules;
  }
}
