/** A project's rules, kept in the running proxy and in a config file: push writes them to the file, pull
    reads them back, apply switches them on and off. The running rules are a map from id to rule. */
module ProjectRules {
  import opened Wrappers
  import opened RequestRules

  type Rules = map<Id, RequestRule>

  datatype ConfigRule = ConfigRule(
    id: Id,
    name: string,
    description: Option<string>,
    enabled: bool,
    priority: int,
    capture: Capture,
    handlers: seq<string>)

  datatype Config = Config(schemaUrl: Option<string>, configId: string, project: string, rules: seq<ConfigRule>)

  /** What is outside: the schema url written into configs, and what the rule validator accepts. */
  datatype Env = Env(schemaUrl: string, isValid: RequestRule -> bool)

  datatype PushReport = PushReport(project: string, rulesWritten: nat, createdConfig: bool)

  datatype PullReport = PullReport(created: nat, updated: nat, createdConfig: bool)

  datatype ApplyReport = ApplyReport(
    enabled: nat,
    disabledFromConfig: nat,
    disabledNotInConfig: nat,
    skippedOnlyInConfig: nat)

  datatype PullError = Rejected(id: Id) | AlreadyExists(id: Id)

  // ---- Rules and config rules ----

  function FromRule(rule: RequestRule): ConfigRule {
    ConfigRule(if rule.id.Some? then rule.id.value else 0, rule.name, rule.description, rule.enabled, rule.priority,
               Capture(None, rule.capture.matchExpr), rule.handlers)
  }

  function ToRule(c: ConfigRule, project: string): RequestRule {
    RequestRule(Some(c.id), project, c.name, c.description, c.enabled, c.priority,
                Capture(Some(c.id), c.capture.matchExpr), c.handlers)
  }

  predicate KeyedById(m: Rules) {
    forall id | id in m :: m[id].id == Some(id)
  }

  function ProjectIds(m: Rules, project: string): set<Id> {
    set id | id in m && m[id].project == project
  }

  function ConfigIds(rules: seq<ConfigRule>): set<Id> {
    set c | c in rules :: c.id
  }

  /** Collecting config rules into a hash map: the last rule with an id wins. */
  function Collect(rules: seq<ConfigRule>): map<Id, ConfigRule> {
    if rules == [] then map[]
    else
      var last := rules[|rules| - 1];
      Collect(rules[..|rules| - 1])[last.id := last]
  }

  // ---- Push ----

  function Merged(m: Rules, rules: seq<ConfigRule>, project: string): map<Id, ConfigRule> {
    Collect(rules) + map id | id in ProjectIds(m, project) :: FromRule(m[id])
  }

  predicate Ascending(rules: seq<ConfigRule>) {
    forall i, j | 0 <= i < j < |rules| :: rules[i].id < rules[j].id
  }

  /** The values of a map from ids to config rules, in ascending order of id. */
  ghost predicate Lists(rules: seq<ConfigRule>, merged: map<Id, ConfigRule>) {
    && Ascending(rules)
    && (forall c | c in rules :: c.id in merged && merged[c.id] == c)
    && forall id | id in merged :: merged[id] in rules
  }

  function LoadOrCreate(file: Option<Config>, env: Env, project: string, freshId: string): Config {
    match file
    case Some(config) => config.(project := project)
    case None => Config(Some(env.schemaUrl), freshId, project, [])
  }

  ghost predicate Pushed(m: Rules, file: Option<Config>, env: Env, project: string, freshId: string,
                         file': Option<Config>) {
    var config := LoadOrCreate(file, env, project, freshId);
    && file'.Some?
    && Lists(file'.value.rules, Merged(m, config.rules, project))
    && file'.value == config.(schemaUrl := Some(env.schemaUrl), rules := file'.value.rules)
  }

  // ---- Pull ----

  datatype Pulling = Pulling(rules: Rules, created: nat, updated: nat, failed: Option<Id>)

  function PullOne(p: Pulling, existing: set<Id>, c: ConfigRule, project: string): Pulling {
    if p.failed.Some? then p
    else if c.id in existing then p.(rules := p.rules[c.id := ToRule(c, project)], updated := p.updated + 1)
    else if c.id in p.rules then p.(failed := Some(c.id))
    else p.(rules := p.rules[c.id := ToRule(c, project)], created := p.created + 1)
  }

  /** Rules that were there at the start are updated, others created; a second one with a new id fails. */
  function PullAll(m: Rules, rules: seq<ConfigRule>, project: string): Pulling {
    if rules == [] then Pulling(m, 0, 0, None)
    else PullOne(PullAll(m, rules[..|rules| - 1], project), m.Keys, rules[|rules| - 1], project)
  }

  function FirstInvalid(rules: seq<ConfigRule>, env: Env, project: string): Option<Id> {
    if rules == [] then None
    else if !env.isValid(ToRule(rules[0], project)) then Some(rules[0].id)
    else FirstInvalid(rules[1..], env, project)
  }

  datatype PullOutcome = PullOutcome(rules: Rules, file: Option<Config>, result: Result<PullReport, PullError>)

  /** The whole of a pull: a missing file is created, and an invalid rule stops it before any rule is written. */
  function Pulled(m: Rules, file: Option<Config>, env: Env, project: string, freshId: string): PullOutcome {
    var config := LoadOrCreate(file, env, project, freshId);
    var file' := if file.None? then Some(config) else file;
    var invalid := FirstInvalid(config.rules, env, project);
    if invalid.Some? then PullOutcome(m, file', Err(Rejected(invalid.value)))
    else
      var p := PullAll(m, config.rules, project);
      PullOutcome(p.rules, file',
                  if p.failed.Some? then Err(AlreadyExists(p.failed.value))
                  else Ok(PullReport(p.created, p.updated, file.None?)))
  }

  // ---- Apply ----

  predicate WantsEnabled(config: Config, id: Id) {
    id in Collect(config.rules) && Collect(config.rules)[id].enabled
  }

  function Applied(m: Rules, config: Config, ids: set<Id>): Rules {
    map id | id in m :: if id in ids then m[id].(enabled := WantsEnabled(config, id)) else m[id]
  }

  function Switched(m: Rules, config: Config, ids: set<Id>): set<Id> {
    set id | id in m && id in ids && m[id].enabled != WantsEnabled(config, id)
  }

  function SwitchedOn(m: Rules, config: Config, ids: set<Id>): set<Id> {
    set id | id in Switched(m, config, ids) && WantsEnabled(config, id)
  }

  function SwitchedOff(m: Rules, config: Config, ids: set<Id>): set<Id> {
    set id | id in Switched(m, config, ids) && !WantsEnabled(config, id) && id in Collect(config.rules)
  }

  function Dropped(m: Rules, config: Config, ids: set<Id>): set<Id> {
    set id | id in Switched(m, config, ids) && id !in Collect(config.rules)
  }

  function ReportOf(m: Rules, config: Config, ids: set<Id>, skipped: nat): ApplyReport {
    ApplyReport(|SwitchedOn(m, config, ids)|, |SwitchedOff(m, config, ids)|, |Dropped(m, config, ids)|, skipped)
  }

  function ApplyReportOf(m: Rules, config: Config): ApplyReport {
    ReportOf(m, config, ProjectIds(m, config.project),
             |Collect(config.rules).Keys - ProjectIds(m, config.project)|)
  }

  // ---- The service, which writes rules and the file in place ----

  class ProjectService {
    const env: Env
    var rules: Rules
    var file: Option<Config>

    constructor (env: Env, rules: Rules, file: Option<Config>)
      requires KeyedById(rules)
      ensures this.env == env && this.rules == rules && this.file == file
    {
      this.env, this.rules, this.file := env, rules, file;
    }

    /** The rules of a project, in the order of some enumeration. */
    method ListRulesByProject(project: string) returns (listed: seq<RequestRule>)
      requires KeyedById(rules)
      ensures EnumeratesProject(rules, project, listed)
    {
      listed := [];
      var todo := rules.Values;
      while todo != {}
        invariant todo <= rules.Values
        invariant forall r | r in listed :: r.id.Some? && r.id.value in rules && rules[r.id.value] == r
        invariant forall r | r in listed :: r !in todo && r.project == project
        invariant forall id | id in rules && rules[id].project == project :: rules[id] in todo || rules[id] in listed
        invariant forall i, j | 0 <= i < j < |listed| :: listed[i].id != listed[j].id
        decreases |todo|
      {
        var rule :| rule in todo;
        todo := todo - {rule};
        if rule.project == project {
          listed := listed + [rule];
        }
      }
    }

    method PushRules(project: string, freshId: string) returns (report: PushReport)
      requires KeyedById(rules)
      modifies this`file
      ensures Pushed(rules, old(file), env, project, freshId, file)
      ensures report == PushReport(project, |file.value.rules|, old(file).None?)
    {
      var config := LoadOrCreate(file, env, project, freshId);
      var createdConfig := file.None?;
      var runtimeRules := ListRulesByProject(project);
      var merged: map<Id, ConfigRule> := CollectAll(config.rules);
      ghost var base: map<Id, ConfigRule> := merged;
      var i := 0;
      while i < |runtimeRules|
        invariant 0 <= i <= |runtimeRules|
        invariant MergesSome(rules, base, runtimeRules[..i], merged)
      {
        hide MergesSome, FromRule;
        MergeMore(rules, base, runtimeRules, i, project, merged);
        merged := merged[runtimeRules[i].id.value := FromRule(runtimeRules[i])];
        i := i + 1;
      }
      assert runtimeRules[..i] == runtimeRules;
      MergedAll(rules, config.rules, project, runtimeRules, merged);
      MergedIsKeyed(rules, config.rules, project);
      var sorted := SortedValues(merged);
      config := config.(rules := sorted, project := project, schemaUrl := Some(env.schemaUrl));
      file := Some(config);
      return PushReport(project, |sorted|, createdConfig);
    }

    method PullRules(project: string, freshId: string) returns (r: Result<PullReport, PullError>)
      requires KeyedById(rules)
      modifies this`rules, this`file
      ensures PullOutcome(rules, file, r) == Pulled(old(rules), old(file), env, project, freshId)
    {
      var config := LoadOrCreate(file, env, project, freshId);
      var createdConfig := file.None?;
      if createdConfig {
        file := Some(config);
      }
      var invalid := Validate(config.rules, project);
      if invalid.Some? {
        return Err(Rejected(invalid.value));
      }
      var created, updated, failed := WriteRules(config.rules, project);
      if failed.Some? {
        return Err(AlreadyExists(failed.value));
      }
      return Ok(PullReport(created, updated, createdConfig));
    }

    method Validate(configRules: seq<ConfigRule>, project: string) returns (invalid: Option<Id>)
      ensures invalid == FirstInvalid(configRules, env, project)
    {
      var rest := configRules;
      while rest != []
        invariant FirstInvalid(configRules, env, project) == FirstInvalid(rest, env, project)
      {
        if !env.isValid(ToRule(rest[0], project)) {
          return Some(rest[0].id);
        }
        rest := rest[1..];
      }
      return None;
    }

    /** Updates or creates rule by rule; stops at a rule that cannot be created. */
    method WriteRules(configRules: seq<ConfigRule>, project: string)
      returns (created: nat, updated: nat, failed: Option<Id>)
      modifies this`rules
      ensures PullAll(old(rules), configRules, project) == Pulling(rules, created, updated, failed)
    {
      hide ToRule;
      var existing := rules.Keys;
      created, updated, failed := 0, 0, None;
      var i := 0;
      while i < |configRules|
        invariant 0 <= i <= |configRules| && failed.None?
        invariant PullAll(old(rules), configRules[..i], project) == Pulling(rules, created, updated, None)
      {
        var c := configRules[i];
        assert configRules[..i + 1][..i] == configRules[..i];
        i := i + 1;
        if c.id in existing {
          rules := rules[c.id := ToRule(c, project)];
          updated := updated + 1;
        } else {
          if c.id in rules {
            failed := Some(c.id);
            assert PullAll(old(rules), configRules[..i], project) == Pulling(rules, created, updated, failed);
            PullFailed(old(rules), configRules, i, project);
            return;
          }
          rules := rules[c.id := ToRule(c, project)];
          created := created + 1;
        }
      }
      assert configRules[..i] == configRules;
    }

    method ApplyConfig() returns (report: Option<ApplyReport>)
      requires KeyedById(rules)
      modifies this`rules
      ensures file.None? ==> report == None && rules == old(rules)
      ensures file.Some? ==>
                && rules == Applied(old(rules), file.value, ProjectIds(old(rules), file.value.project))
                && report == Some(ApplyReportOf(old(rules), file.value))
    {
      if file.None? {
        return None;
      }
      var config := file.value;
      var collected := CollectAll(config.rules);
      var listed := ListRulesByProject(config.project);
      var r := ApplyReport(0, 0, 0, 0);
      ghost var m, done: set<Id> := rules, {};
      NothingApplied(m, config);
      var i := 0;
      while i < |listed|
        invariant 0 <= i <= |listed|
        invariant done == ListedIds(listed[..i])
        invariant rules == Applied(m, config, done) && r == ReportOf(m, config, done, 0)
      {
        hide Applied, ReportOf, EnumeratesProject, ListedIds;
        var rule := listed[i];
        OneListed(m, config.project, listed, i);
        ApplyMore(m, config, done, rule);
        done := done + {rule.id.value};
        i := i + 1;
        if rule.id.value in collected {
          var enabled := collected[rule.id.value].enabled;
          if rule.enabled == enabled {
            continue;
          }
          rules := rules[rule.id.value := rule.(enabled := enabled)];
          if enabled {
            r := r.(enabled := r.enabled + 1);
          } else {
            r := r.(disabledFromConfig := r.disabledFromConfig + 1);
          }
        } else if rule.enabled {
          rules := rules[rule.id.value := rule.(enabled := false)];
          r := r.(disabledNotInConfig := r.disabledNotInConfig + 1);
        }
      }
      assert listed[..i] == listed;
      AllListed(m, config.project, listed);
      r := r.(skippedOnlyInConfig := |collected.Keys - ListedIds(listed)|);
      return Some(r);
    }
  }

  method CollectAll(rules: seq<ConfigRule>) returns (m: map<Id, ConfigRule>)
    ensures m == Collect(rules)
  {
    m := map[];
    var i := 0;
    while i < |rules|
      invariant 0 <= i <= |rules| && m == Collect(rules[..i])
    {
      assert rules[..i + 1][..i] == rules[..i];
      m := m[rules[i].id := rules[i]];
      i := i + 1;
    }
    assert rules[..i] == rules;
  }

  // ---- Enumerations ----

  ghost predicate EnumeratesProject(m: Rules, project: string, listed: seq<RequestRule>) {
    && (forall r | r in listed :: r.id.Some? && r.id.value in m && m[r.id.value] == r && r.project == project)
    && (forall id | id in ProjectIds(m, project) :: m[id] in listed)
    && forall i, j | 0 <= i < j < |listed| :: listed[i].id != listed[j].id
  }

  function ListedIds(listed: seq<RequestRule>): set<Id> {
    set r | r in listed && r.id.Some? :: r.id.value
  }

  lemma OneListed(m: Rules, project: string, listed: seq<RequestRule>, i: nat)
    requires EnumeratesProject(m, project, listed) && i < |listed|
    ensures var r := listed[i];
            && r.id.Some? && r.id.value in m && m[r.id.value] == r && r.project == project
            && r.id.value !in ListedIds(listed[..i])
            && ListedIds(listed[..i + 1]) == ListedIds(listed[..i]) + {r.id.value}
  {
    assert listed[i] in listed;
    assert listed[..i + 1] == listed[..i] + [listed[i]];
    forall r | r in listed[..i] ensures r.id != listed[i].id {
      var j :| 0 <= j < i && listed[..i][j] == r;
      assert listed[j] == r;
    }
  }

  lemma AllListed(m: Rules, project: string, listed: seq<RequestRule>)
    requires EnumeratesProject(m, project, listed) && KeyedById(m)
    ensures ListedIds(listed) == ProjectIds(m, project)
  {
    forall id | id in ProjectIds(m, project) ensures id in ListedIds(listed) {
      assert m[id] in listed && m[id].id == Some(id);
    }
    forall id | id in ListedIds(listed) ensures id in ProjectIds(m, project) {
      var r :| r in listed && r.id.Some? && r.id.value == id;
    }
  }

  // ---- Merging ----

  ghost predicate MergesSome(m: Rules, base: map<Id, ConfigRule>, listed: seq<RequestRule>,
                             merged: map<Id, ConfigRule>) {
    && merged.Keys == base.Keys + ListedIds(listed)
    && forall id | id in merged :: merged[id] == if id in ListedIds(listed) && id in m then FromRule(m[id]) else
                                                 if id in base then base[id] else merged[id]
  }

  lemma MergeMore(m: Rules, base: map<Id, ConfigRule>, listed: seq<RequestRule>, i: nat, project: string,
                  merged: map<Id, ConfigRule>)
    requires EnumeratesProject(m, project, listed) && i < |listed| && MergesSome(m, base, listed[..i], merged)
    ensures listed[i].id.Some?
    ensures MergesSome(m, base, listed[..i + 1], merged[listed[i].id.value := FromRule(listed[i])])
  {
    OneListed(m, project, listed, i);
    hide EnumeratesProject, ListedIds, FromRule;
  }

  lemma MergedAll(m: Rules, rules: seq<ConfigRule>, project: string, listed: seq<RequestRule>,
                  merged: map<Id, ConfigRule>)
    requires KeyedById(m) && EnumeratesProject(m, project, listed)
    requires MergesSome(m, Collect(rules), listed, merged)
    ensures merged == Merged(m, rules, project)
  {
    AllListed(m, project, listed);
    hide EnumeratesProject, ListedIds, FromRule, Collect;
    var all := Merged(m, rules, project);
    assert merged.Keys == all.Keys;
    forall id | id in merged ensures merged[id] == all[id] {
      if id !in ProjectIds(m, project) {
        assert id in Collect(rules);
      }
    }
  }

  // ---- Sorting by id ----

  function InsertById(c: ConfigRule, sorted: seq<ConfigRule>): seq<ConfigRule> {
    if sorted == [] || c.id < sorted[0].id then [c] + sorted else [sorted[0]] + InsertById(c, sorted[1..])
  }

  lemma {:induction false} InsertByIdMembers(c: ConfigRule, sorted: seq<ConfigRule>)
    ensures forall x :: x in InsertById(c, sorted) <==> x == c || x in sorted
  {
    if sorted != [] && c.id >= sorted[0].id {
      InsertByIdMembers(c, sorted[1..]);
      assert sorted == [sorted[0]] + sorted[1..];
    }
  }

  lemma AscendingCons(c: ConfigRule, rest: seq<ConfigRule>)
    ensures Ascending([c] + rest) <==> Ascending(rest) && forall x | x in rest :: c.id < x.id
  {
    var all := [c] + rest;
    if Ascending(all) {
      forall x | x in rest ensures c.id < x.id {
        var i :| 0 <= i < |rest| && rest[i] == x;
        assert all[i + 1] == x && all[0] == c;
      }
      forall i, j | 0 <= i < j < |rest| ensures rest[i].id < rest[j].id {
        assert all[i + 1] == rest[i] && all[j + 1] == rest[j];
      }
    }
  }

  lemma {:induction false} InsertByIdAscends(c: ConfigRule, sorted: seq<ConfigRule>)
    requires Ascending(sorted) && forall x | x in sorted :: x.id != c.id
    ensures Ascending(InsertById(c, sorted))
  {
    hide Ascending;
    if sorted == [] {
      AscendingCons(c, sorted);
      AscendingNothing();
    } else {
      var first, rest := sorted[0], sorted[1..];
      assert sorted == [first] + rest;
      AscendingCons(first, rest);
      AscendingCons(c, sorted);
      if c.id > first.id {
        InsertByIdAscends(c, rest);
        InsertByIdMembers(c, rest);
        AscendingCons(first, InsertById(c, rest));
      }
    }
  }

  lemma AscendingNothing()
    ensures Ascending([])
  {
  }

  method SortedValues(merged: map<Id, ConfigRule>) returns (sorted: seq<ConfigRule>)
    requires forall id | id in merged :: merged[id].id == id
    ensures Lists(sorted, merged)
  {
    hide Ascending, InsertById;
    sorted := [];
    AscendingNothing();
    var todo := merged.Values;
    while todo != {}
      invariant todo <= merged.Values && Ascending(sorted)
      invariant forall c | c in sorted :: c.id in merged && c !in todo && merged[c.id] == c
      invariant forall id | id in merged :: merged[id] in todo || merged[id] in sorted
      decreases |todo|
    {
      var rule :| rule in todo;
      todo := todo - {rule};
      assert rule.id in merged && merged[rule.id] == rule;
      InsertByIdAscends(rule, sorted);
      InsertByIdMembers(rule, sorted);
      sorted := InsertById(rule, sorted);
    }
  }

  lemma {:induction false} CollectKeyed(rules: seq<ConfigRule>)
    ensures forall id | id in Collect(rules) :: Collect(rules)[id].id == id
  {
    if rules != [] {
      CollectKeyed(rules[..|rules| - 1]);
    }
  }

  lemma MergedIsKeyed(m: Rules, rules: seq<ConfigRule>, project: string)
    requires KeyedById(m)
    ensures forall id | id in Merged(m, rules, project) :: Merged(m, rules, project)[id].id == id
  {
    CollectKeyed(rules);
    hide Collect;
  }

  // ---- Steps of pull and apply ----

  /** Once a rule cannot be created, the rest is not looked at. */
  lemma {:induction false} PullFailed(m: Rules, rules: seq<ConfigRule>, i: nat, project: string)
    requires i <= |rules| && PullAll(m, rules[..i], project).failed.Some?
    ensures PullAll(m, rules, project) == PullAll(m, rules[..i], project)
    decreases |rules|
  {
    if i < |rules| {
      assert rules[..|rules| - 1][..i] == rules[..i];
      PullFailed(m, rules[..|rules| - 1], i, project);
    } else {
      assert rules[..i] == rules;
    }
  }

  lemma NothingApplied(m: Rules, config: Config)
    ensures Applied(m, config, {}) == m && ReportOf(m, config, {}, 0) == ApplyReport(0, 0, 0, 0)
    ensures ListedIds([]) == {}
  {
    hide WantsEnabled;
    assert Switched(m, config, {}) == {};
  }

  lemma AppliedMore(m: Rules, config: Config, done: set<Id>, id: Id)
    requires id in m && id !in done
    ensures var wants := WantsEnabled(config, id);
            Applied(m, config, done + {id}) ==
            if m[id].enabled == wants then Applied(m, config, done)
            else Applied(m, config, done)[id := m[id].(enabled := wants)]
  {
    hide WantsEnabled;
  }

  lemma ApplyMore(m: Rules, config: Config, done: set<Id>, rule: RequestRule)
    requires rule.id.Some? && rule.id.value in m && m[rule.id.value] == rule && rule.id.value !in done
    ensures var id := rule.id.value;
            var wants := WantsEnabled(config, id);
            && Applied(m, config, done + {id}) ==
               (if rule.enabled == wants then Applied(m, config, done)
                else Applied(m, config, done)[id := rule.(enabled := wants)])
            && ReportOf(m, config, done + {id}, 0) == Counted(ReportOf(m, config, done, 0), config, rule, id)
  {
    hide Collect, WantsEnabled, Applied, SwitchedOn, SwitchedOff, Dropped;
    AppliedMore(m, config, done, rule.id.value);
    SwitchedMore(m, config, done, rule.id.value);
    WantedIsKnown(config, rule.id.value);
  }

  lemma WantedIsKnown(config: Config, id: Id)
    ensures WantsEnabled(config, id) ==> id in Collect(config.rules)
  {
  }

  /** The report after a rule was switched, or left alone. */
  function Counted(r: ApplyReport, config: Config, rule: RequestRule, id: Id): ApplyReport {
    if rule.enabled == WantsEnabled(config, id) then r
    else if WantsEnabled(config, id) then r.(enabled := r.enabled + 1)
    else if id in Collect(config.rules) then r.(disabledFromConfig := r.disabledFromConfig + 1)
    else r.(disabledNotInConfig := r.disabledNotInConfig + 1)
  }

  lemma SwitchedMore(m: Rules, config: Config, done: set<Id>, id: Id)
    requires id in m && id !in done
    ensures var switches := m[id].enabled != WantsEnabled(config, id);
            var wants, known := WantsEnabled(config, id), id in Collect(config.rules);
            && SwitchedOn(m, config, done + {id}) ==
              SwitchedOn(m, config, done) + (if switches && wants then {id} else {})
            && SwitchedOff(m, config, done + {id}) ==
               SwitchedOff(m, config, done) + (if switches && !wants && known then {id} else {})
            && Dropped(m, config, done + {id}) == Dropped(m, config, done) + (if switches && !known then {id} else {})
            && id !in SwitchedOn(m, config, done) && id !in SwitchedOff(m, config, done)
            && id !in Dropped(m, config, done)
  {
    hide Collect;
  }
}
