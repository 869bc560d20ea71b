/** How push, pull and apply of a project's rules fit together. */
module ProjectRulesLaws {
  import opened Wrappers
  import opened RequestRules
  import opened ProjectRules

  // ---- Push ----

  lemma {:induction false} ListsIsUnique(a: seq<ConfigRule>, b: seq<ConfigRule>, merged: map<Id, ConfigRule>)
    requires Lists(a, merged) && Lists(b, merged)
    ensures a == b
  {
    ListsSame(a, b, merged);
    SameAscending(a, b);
  }

  lemma ListsSame(a: seq<ConfigRule>, b: seq<ConfigRule>, merged: map<Id, ConfigRule>)
    requires Lists(a, merged) && Lists(b, merged)
    ensures forall c :: c in a <==> c in b
  {
    hide Ascending;
  }

  /** Ascending lists of the same rules are equal. */
  lemma {:induction false} SameAscending(a: seq<ConfigRule>, b: seq<ConfigRule>)
    requires Ascending(a) && Ascending(b) && forall c :: c in a <==> c in b
    ensures a == b
  {
    hide Ascending;
    if a != [] {
      assert a[0] in b;
      assert b[0] in a;
      var x, y := a[1..], b[1..];
      assert a == [a[0]] + x && b == [b[0]] + y;
      AscendingCons(a[0], x);
      AscendingCons(b[0], y);
      assert a[0] == b[0];
      assert forall c | c in x :: c in b && c != b[0];
      assert forall c | c in y :: c in a && c != a[0];
      SameAscending(x, y);
    } else if b != [] {
      SomeMember(b);
    }
  }

  lemma SomeMember(s: seq<ConfigRule>)
    requires s != []
    ensures exists c :: c in s
  {
    assert s[0] in s;
  }

  /** The rule that a file ends up giving an id: the last one with it. */
  ghost predicate IsLast(rules: seq<ConfigRule>, c: ConfigRule) {
    exists i | 0 <= i < |rules| :: rules[i] == c && forall j | i < j < |rules| :: rules[j].id != c.id
  }

  lemma {:induction false} CollectIsLast(rules: seq<ConfigRule>, id: Id)
    ensures id in Collect(rules) <==> id in ConfigIds(rules)
    ensures id in Collect(rules) ==> IsLast(rules, Collect(rules)[id]) && Collect(rules)[id].id == id
  {
    if rules != [] {
      var n := |rules| - 1;
      var front, last := rules[..n], rules[n];
      CollectIsLast(front, id);
      assert rules == front + [last];
      if last.id == id {
        assert rules[n] == last;
      } else if id in Collect(front) {
        var i :| 0 <= i < n && front[i] == Collect(front)[id] && forall j | i < j < n :: front[j].id != id;
        assert rules[i] == Collect(front)[id] && forall j | i < j < |rules| :: rules[j].id != id;
      }
    }
  }

  /** Push writes, strictly ascending by id, the union of the project's running rules and the file's rules;
      where both have an id the running rule wins, and of several in the file the last. */
  lemma PushIsUnion(m: Rules, file: Option<Config>, env: Env, project: string, freshId: string, file': Option<Config>)
    requires KeyedById(m) && Pushed(m, file, env, project, freshId, file')
    ensures Ascending(file'.value.rules)
    ensures var before := LoadOrCreate(file, env, project, freshId).rules;
            && ConfigIds(file'.value.rules) == ConfigIds(before) + ProjectIds(m, project)
            && (forall c | c in file'.value.rules ::
                  if c.id in ProjectIds(m, project) then c == FromRule(m[c.id]) else IsLast(before, c))
  {
    var before, after := LoadOrCreate(file, env, project, freshId).rules, file'.value.rules;
    var merged := Merged(m, before, project);
    hide FromRule, Ascending, LoadOrCreate, IsLast;
    forall id: Id ensures id in ConfigIds(after) <==> id in ConfigIds(before) + ProjectIds(m, project) {
      CollectIsLast(before, id);
      MergedIsKeyed(m, before, project);
      if id in merged {
        assert merged[id] in after;
      }
    }
    forall c | c in after ensures if c.id in ProjectIds(m, project) then c == FromRule(m[c.id]) else IsLast(before, c) {
      CollectIsLast(before, c.id);
    }
  }

  lemma {:induction false} CollectOfAscending(rules: seq<ConfigRule>, merged: map<Id, ConfigRule>)
    requires Lists(rules, merged) && forall id | id in merged :: merged[id].id == id
    ensures Collect(rules) == merged
  {
    hide Collect, Ascending;
    CollectKeyed(rules);
    forall id: Id ensures id in Collect(rules) <==> id in merged {
      CollectIsLast(rules, id);
      if id in merged {
        assert merged[id] in rules;
      }
    }
    forall id | id in merged ensures Collect(rules)[id] == merged[id] {
      CollectIsLast(rules, id);
      LastIsThere(rules, Collect(rules)[id]);
    }
  }

  lemma LastIsThere(rules: seq<ConfigRule>, c: ConfigRule)
    requires IsLast(rules, c)
    ensures c in rules
  {
  }

  /** After a push, the file's rules collect to exactly what was merged. */
  lemma PushedCollects(m: Rules, file: Option<Config>, env: Env, project: string, freshId: string,
                       file': Option<Config>)
    requires KeyedById(m) && Pushed(m, file, env, project, freshId, file')
    ensures Collect(file'.value.rules) == Merged(m, LoadOrCreate(file, env, project, freshId).rules, project)
    ensures file'.value.project == project
  {
    hide Merged, Lists;
    var before := LoadOrCreate(file, env, project, freshId).rules;
    MergedIsKeyed(m, before, project);
    CollectOfAscending(file'.value.rules, Merged(m, before, project));
  }

  lemma MergedTwice(m: Rules, rules: seq<ConfigRule>, again: seq<ConfigRule>, project: string)
    requires Collect(again) == Merged(m, rules, project)
    ensures Merged(m, again, project) == Merged(m, rules, project)
  {
    hide Collect, FromRule;
  }

  /** Pushing twice writes the same file as pushing once. */
  lemma PushIsIdempotent(m: Rules, file: Option<Config>, env: Env, project: string, freshId: string, freshId': string,
                         file': Option<Config>, file'': Option<Config>)
    requires KeyedById(m)
    requires Pushed(m, file, env, project, freshId, file') && Pushed(m, file', env, project, freshId', file'')
    ensures file'' == file'
  {
    PushedCollects(m, file, env, project, freshId, file');
    hide Merged, Lists, Collect;
    var before := LoadOrCreate(file, env, project, freshId).rules;
    MergedTwice(m, before, file'.value.rules, project);
    ListsIsUnique(file'.value.rules, file''.value.rules, Merged(m, before, project));
  }

  // ---- Apply ----

  /** Applying right after a push switches nothing; only the file's own ids are reported as skipped. */
  lemma PushThenApply(m: Rules, file: Option<Config>, env: Env, project: string, freshId: string, file': Option<Config>)
    requires KeyedById(m) && Pushed(m, file, env, project, freshId, file')
    ensures Applied(m, file'.value, ProjectIds(m, project)) == m
    ensures ApplyReportOf(m, file'.value) ==
            ApplyReport(0, 0, 0, |ConfigIds(LoadOrCreate(file, env, project, freshId).rules) - ProjectIds(m, project)|)
  {
    var before := LoadOrCreate(file, env, project, freshId).rules;
    PushedCollects(m, file, env, project, freshId, file');
    CollectKeys(before);
    hide *;
    MergedAgrees(m, before, file'.value, project);
    NothingSwitches(m, file'.value, ProjectIds(m, project));
    ReportUnfolds(m, file'.value);
  }

  /** A file that holds what was merged wants every rule of the project as it is. */
  lemma MergedAgrees(m: Rules, before: seq<ConfigRule>, config: Config, project: string)
    requires Collect(config.rules) == Merged(m, before, project)
    ensures forall id | id in ProjectIds(m, project) :: id in m && m[id].enabled == WantsEnabled(config, id)
    ensures Collect(config.rules).Keys - ProjectIds(m, project) == Collect(before).Keys - ProjectIds(m, project)
  {
    hide Collect;
    var ids := ProjectIds(m, project);
    forall id | id in ids ensures m[id].enabled == WantsEnabled(config, id) {
      assert Merged(m, before, project)[id] == FromRule(m[id]);
    }
    assert Merged(m, before, project).Keys - ids == Collect(before).Keys - ids;
  }

  lemma NothingSwitches(m: Rules, config: Config, ids: set<Id>)
    requires forall id | id in ids :: id in m && m[id].enabled == WantsEnabled(config, id)
    ensures Applied(m, config, ids) == m
    ensures forall skipped :: ReportOf(m, config, ids, skipped) == ApplyReport(0, 0, 0, skipped)
  {
    hide WantsEnabled, Collect;
    assert Switched(m, config, ids) == {};
    assert SwitchedOn(m, config, ids) == {} && SwitchedOff(m, config, ids) == {} && Dropped(m, config, ids) == {};
  }

  lemma ReportUnfolds(m: Rules, config: Config)
    ensures ApplyReportOf(m, config) ==
            ReportOf(m, config, ProjectIds(m, config.project),
                     |Collect(config.rules).Keys - ProjectIds(m, config.project)|)
  {
    hide Collect, ReportOf, ProjectIds;
  }

  lemma CollectKeys(rules: seq<ConfigRule>)
    ensures Collect(rules).Keys == ConfigIds(rules)
  {
    forall id: Id ensures id in Collect(rules) <==> id in ConfigIds(rules) {
      CollectIsLast(rules, id);
    }
  }

  lemma AppliedProject(m: Rules, config: Config, project: string)
    ensures ProjectIds(Applied(m, config, ProjectIds(m, config.project)), project) == ProjectIds(m, project)
  {
    hide WantsEnabled;
  }

  /** One application keeps the rules of other projects, and all but the `enabled` flag of its own; it reaches
      a fixed point: a second one changes nothing and reports no switch. */
  lemma ApplyReachesFixpoint(m: Rules, config: Config)
    ensures var m' := Applied(m, config, ProjectIds(m, config.project));
            && m'.Keys == m.Keys
            && (forall id | id in m ::
                  m'[id] == m[id].(enabled := if m[id].project == config.project then WantsEnabled(config, id)
                                              else m[id].enabled))
            && Applied(m', config, ProjectIds(m', config.project)) == m'
            && ApplyReportOf(m', config) == ApplyReport(0, 0, 0, ApplyReportOf(m, config).skippedOnlyInConfig)
  {
    AppliedProject(m, config, config.project);
    var m' := Applied(m, config, ProjectIds(m, config.project));
    hide WantsEnabled, Collect;
    var ids := ProjectIds(m', config.project);
    assert Switched(m', config, ids) == {};
    assert SwitchedOn(m', config, ids) == {} && SwitchedOff(m', config, ids) == {} && Dropped(m', config, ids) == {};
  }

  function Changed(m: Rules, m': Rules): set<Id> {
    set id | id in m && (id !in m' || m'[id] != m[id])
  }

  /** The three counts together are the number of rules that apply changed. */
  lemma CountsAddUp(m: Rules, config: Config)
    ensures var r := ApplyReportOf(m, config);
            r.enabled + r.disabledFromConfig + r.disabledNotInConfig ==
            |Changed(m, Applied(m, config, ProjectIds(m, config.project)))|
  {
    var ids := ProjectIds(m, config.project);
    var on, off, gone := SwitchedOn(m, config, ids), SwitchedOff(m, config, ids), Dropped(m, config, ids);
    ChangedIsSwitched(m, config);
    PartsOfSwitched(m, config, ids);
    assert |on + off + gone| == |on| + |off| + |gone|;
  }

  lemma ChangedIsSwitched(m: Rules, config: Config)
    ensures Changed(m, Applied(m, config, ProjectIds(m, config.project))) ==
            Switched(m, config, ProjectIds(m, config.project))
  {
    hide WantsEnabled;
  }

  lemma PartsOfSwitched(m: Rules, config: Config, ids: set<Id>)
    ensures var on, off, gone := SwitchedOn(m, config, ids), SwitchedOff(m, config, ids), Dropped(m, config, ids);
            && Switched(m, config, ids) == on + off + gone
            && on !! off && on !! gone && off !! gone
  {
    forall id: Id ensures WantsEnabled(config, id) ==> id in Collect(config.rules) {
      WantedIsKnown(config, id);
    }
    hide WantsEnabled, Collect, Switched;
  }

  // ---- Push, then pull ----

  /** A rule up to the id of its capture. */
  function UpToCaptureId(rule: RequestRule): RequestRule {
    rule.(capture := Capture(None, rule.capture.matchExpr))
  }

  ghost predicate SameProject(m: Rules, m': Rules, project: string) {
    && ProjectIds(m', project) == ProjectIds(m, project)
    && forall id | id in ProjectIds(m, project) :: id in m' && UpToCaptureId(m'[id]) == UpToCaptureId(m[id])
  }

  /** Some rule of the list was written under an id. */
  ghost predicate WroteOne(rule: RequestRule, rules: seq<ConfigRule>, project: string, id: Id) {
    exists c | c in rules :: c.id == id && rule == ToRule(c, project)
  }

  /** What pulling does to the running rules, if it succeeds: every listed rule is written, in the project
      pulled to, and nothing else changes. */
  ghost predicate Wrote(m: Rules, m': Rules, rules: seq<ConfigRule>, project: string) {
    && m'.Keys == m.Keys + ConfigIds(rules)
    && forall id | id in m' ::
         if id in ConfigIds(rules) then WroteOne(m'[id], rules, project, id) else id in m && m'[id] == m[id]
  }

  lemma {:induction false} PullWrites(m: Rules, rules: seq<ConfigRule>, project: string)
    requires PullAll(m, rules, project).failed.None?
    ensures Wrote(m, PullAll(m, rules, project).rules, rules, project)
  {
    hide Wrote, ToRule;
    if rules == [] {
      NothingWritten(m, project);
    } else {
      var front, last := rules[..|rules| - 1], rules[|rules| - 1];
      PullWrites(m, front, project);
      WroteMore(m, PullAll(m, front, project).rules, front, last, project);
      assert rules == front + [last];
    }
  }

  lemma NothingWritten(m: Rules, project: string)
    ensures Wrote(m, m, [], project)
  {
    assert ConfigIds([]) == {};
  }

  lemma WroteMore(m: Rules, m': Rules, front: seq<ConfigRule>, last: ConfigRule, project: string)
    requires Wrote(m, m', front, project)
    ensures Wrote(m, m'[last.id := ToRule(last, project)], front + [last], project)
  {
    hide ToRule, WroteOne, ConfigIds;
    var m'', rules := m'[last.id := ToRule(last, project)], front + [last];
    MoreIds(front, last);
    forall id | id in m''
      ensures if id in ConfigIds(rules) then WroteOne(m''[id], rules, project, id) else id in m && m''[id] == m[id]
    {
      if id == last.id {
        WroteLast(front, last, project);
      } else if id in ConfigIds(front) {
        WroteEarlier(m'[id], front, last, project, id);
      }
    }
  }

  lemma MoreIds(front: seq<ConfigRule>, last: ConfigRule)
    ensures ConfigIds(front + [last]) == ConfigIds(front) + {last.id}
  {
  }

  lemma WroteLast(front: seq<ConfigRule>, last: ConfigRule, project: string)
    ensures WroteOne(ToRule(last, project), front + [last], project, last.id)
  {
    hide ToRule;
    assert last in front + [last];
  }

  lemma WroteEarlier(rule: RequestRule, front: seq<ConfigRule>, last: ConfigRule, project: string, id: Id)
    requires WroteOne(rule, front, project, id)
    ensures WroteOne(rule, front + [last], project, id)
  {
    hide ToRule;
    var c :| c in front && c.id == id && rule == ToRule(c, project);
    assert c in front + [last];
  }

  lemma ThereAndBack(rule: RequestRule, id: Id)
    requires rule.id == Some(id)
    ensures UpToCaptureId(ToRule(FromRule(rule), rule.project)) == UpToCaptureId(rule)
  {
  }

  /** A pull after a push never fails on an id: they are all different. */
  lemma {:induction false} AscendingPulls(m: Rules, rules: seq<ConfigRule>, project: string)
    requires Ascending(rules)
    ensures PullAll(m, rules, project).failed.None?
  {
    if rules != [] {
      var front, last := rules[..|rules| - 1], rules[|rules| - 1];
      AscendingPulls(m, front, project);
      PullWrites(m, front, project);
      hide PullAll, ToRule;
      assert last.id !in ConfigIds(front);
    }
  }

  /** A pull is rejected exactly for a rule that the validator does not accept, the first of them. */
  lemma {:induction false} RejectedIsInvalid(rules: seq<ConfigRule>, env: Env, project: string)
    ensures FirstInvalid(rules, env, project).None? <==> forall c | c in rules :: env.isValid(ToRule(c, project))
  {
    hide ToRule;
    if rules != [] {
      RejectedIsInvalid(rules[1..], env, project);
      assert rules == [rules[0]] + rules[1..];
    }
  }

  /** What pulling the file that a push wrote comes to: it never fails on an id. */
  lemma PulledBack(m: Rules, file: Option<Config>, env: Env, project: string, freshId: string, freshId': string,
                   file': Option<Config>)
    requires Pushed(m, file, env, project, freshId, file')
    ensures var rules := file'.value.rules;
            var invalid, outcome := FirstInvalid(rules, env, project), Pulled(m, file', env, project, freshId');
            && outcome.file == file'
            && outcome.rules == (if invalid.Some? then m else PullAll(m, rules, project).rules)
            && (if invalid.Some? then outcome.result == Err(Rejected(invalid.value)) else outcome.result.Ok?)
  {
    hide Merged, PullAll, FirstInvalid;
    AscendingPulls(m, file'.value.rules, project);
  }

  /** Push and then pull leave the project's rules as they were, up to capture ids, exactly when the pull is
      rejected for an invalid rule, or the file held no id that the project does not have: such a rule is
      created, or taken from another project. A rejected pull changes no rule at all, and nothing but an
      invalid rule makes it fail. */
  lemma PushThenPull(m: Rules, file: Option<Config>, env: Env, project: string, freshId: string, freshId': string,
                     file': Option<Config>)
    requires KeyedById(m) && Pushed(m, file, env, project, freshId, file')
    ensures var invalid := FirstInvalid(file'.value.rules, env, project);
            var outcome := Pulled(m, file', env, project, freshId');
            && outcome.file == file'
            && (if invalid.Some? then outcome.result == Err(Rejected(invalid.value)) && outcome.rules == m
                else outcome.result.Ok?)
            && (SameProject(m, outcome.rules, project) <==>
                  || invalid.Some?
                  || ConfigIds(LoadOrCreate(file, env, project, freshId).rules) <= ProjectIds(m, project))
  {
    PulledBack(m, file, env, project, freshId, freshId', file');
    if FirstInvalid(file'.value.rules, env, project).Some? {
      SameAsItself(m, project);
    } else {
      WrittenBack(m, file, env, project, freshId, file');
    }
  }

  lemma SameAsItself(m: Rules, project: string)
    ensures SameProject(m, m, project)
  {
  }

  lemma WrittenBack(m: Rules, file: Option<Config>, env: Env, project: string, freshId: string, file': Option<Config>)
    requires KeyedById(m) && Pushed(m, file, env, project, freshId, file')
    ensures SameProject(m, PullAll(m, file'.value.rules, project).rules, project) <==>
            ConfigIds(LoadOrCreate(file, env, project, freshId).rules) <= ProjectIds(m, project)
  {
    var before, rules := LoadOrCreate(file, env, project, freshId).rules, file'.value.rules;
    var m' := PullAll(m, rules, project).rules;
    PushIsUnion(m, file, env, project, freshId, file');
    AscendingPulls(m, rules, project);
    PullWrites(m, rules, project);
    hide *;
    forall id | id in ProjectIds(m, project)
      ensures id in m' && UpToCaptureId(m'[id]) == UpToCaptureId(m[id])
    {
      PulledRule(m, m', rules, project, id);
    }
    PulledProject(m, m', rules, project);
    SameUnlessGained(m, m', project, ConfigIds(before));
  }

  lemma SameUnlessGained(m: Rules, m': Rules, project: string, gained: set<Id>)
    requires ProjectIds(m', project) == ProjectIds(m, project) + (gained + ProjectIds(m, project))
    requires forall id | id in ProjectIds(m, project) ::
               id in m && id in m' && UpToCaptureId(m'[id]) == UpToCaptureId(m[id])
    ensures SameProject(m, m', project) <==> gained <= ProjectIds(m, project)
  {
    hide ProjectIds, UpToCaptureId;
  }

  lemma PulledProject(m: Rules, m': Rules, rules: seq<ConfigRule>, project: string)
    requires Wrote(m, m', rules, project)
    ensures ProjectIds(m', project) == ProjectIds(m, project) + ConfigIds(rules)
  {
    hide ConfigIds, WroteOne;
    forall id | id in ConfigIds(rules) ensures id in ProjectIds(m', project) {
      WrittenProject(m'[id], rules, project, id);
    }
  }

  lemma WrittenProject(rule: RequestRule, rules: seq<ConfigRule>, project: string, id: Id)
    requires WroteOne(rule, rules, project, id)
    ensures rule.project == project
  {
  }

  lemma PulledRule(m: Rules, m': Rules, rules: seq<ConfigRule>, project: string, id: Id)
    requires KeyedById(m) && Wrote(m, m', rules, project) && id in ProjectIds(m, project) && id in ConfigIds(rules)
    requires forall c | c in rules :: c.id in ProjectIds(m, project) ==> c == FromRule(m[c.id])
    ensures id in m' && UpToCaptureId(m'[id]) == UpToCaptureId(m[id])
  {
    hide ConfigIds, FromRule, ToRule, UpToCaptureId;
    ThereAndBack(m[id], id);
  }

  /** It does fail to be the identity: a project gains the one rule of a file, if that rule is valid. */
  lemma PushThenPullGains(env: Env, c: ConfigRule, configId: string, file': Option<Config>)
    requires Pushed(map[], Some(Config(None, configId, "p", [c])), env, "p", "", file')
    requires env.isValid(ToRule(c, "p"))
    ensures var outcome := Pulled(map[], file', env, "p", "");
            outcome.result.Ok? && c.id !in ProjectIds(map[], "p") && c.id in ProjectIds(outcome.rules, "p")
  {
    var file := Some(Config(None, configId, "p", [c]));
    PushIsUnion(map[], file, env, "p", "", file');
    OnlyRule(c, file'.value.rules);
    RejectedIsInvalid(file'.value.rules, env, "p");
    PulledBack(map[], file, env, "p", "", "", file');
    AscendingPulls(map[], file'.value.rules, "p");
    PullWrites(map[], file'.value.rules, "p");
    hide PullAll, Pushed, ToRule, Wrote, Pulled;
    assert c in [c];
    assert c.id in ConfigIds([c]);
    PulledProject(map[], PullAll(map[], file'.value.rules, "p").rules, file'.value.rules, "p");
  }

  lemma OnlyRule(c: ConfigRule, rules: seq<ConfigRule>)
    requires forall d | d in rules :: IsLast([c], d)
    ensures forall d | d in rules :: d == c
  {
  }

  // ---- What the reports count ----

  /** How many of the listed rules have an id among the given ones. */
  function CountIn(rules: seq<ConfigRule>, ids: set<Id>): nat {
    |set i | 0 <= i < |rules| && rules[i].id in ids|
  }

  lemma CountMore(rules: seq<ConfigRule>, ids: set<Id>)
    requires rules != []
    ensures var front, last := rules[..|rules| - 1], rules[|rules| - 1];
            CountIn(rules, ids) == CountIn(front, ids) + if last.id in ids then 1 else 0
  {
    var n := |rules| - 1;
    var all, some := set i | 0 <= i < |rules| && rules[i].id in ids, set i | 0 <= i < n && rules[..n][i].id in ids;
    if rules[n].id in ids {
      assert all == some + {n};
    } else {
      assert all == some;
    }
  }

  /** Two listed rules share an id that no running rule has, and these are the first such two. */
  predicate FirstClash(m: Rules, rules: seq<ConfigRule>, i: nat, j: nat) {
    && i < j < |rules| && rules[i].id == rules[j].id && rules[j].id !in m
    && forall a, b | 0 <= a < b < j :: rules[a].id == rules[b].id ==> rules[b].id in m
  }

  ghost predicate Clashes(m: Rules, rules: seq<ConfigRule>, failed: Option<Id>) {
    match failed
    case None => forall i: nat, j: nat :: !FirstClash(m, rules, i, j)
    case Some(id) => exists i: nat, j: nat :: FirstClash(m, rules, i, j) && rules[j].id == id
  }

  lemma NoClashPulls(m: Rules, rules: seq<ConfigRule>)
    requires forall i: nat, j: nat :: !FirstClash(m, rules, i, j)
    ensures forall i, j | 0 <= i < j < |rules| :: rules[i].id == rules[j].id ==> rules[j].id in m
  {
    if i: nat, j: nat :| i < j < |rules| && rules[i].id == rules[j].id && rules[j].id !in m {
      EarliestClash(m, rules, i, j);
    }
  }

  lemma {:induction false} EarliestClash(m: Rules, rules: seq<ConfigRule>, i: nat, j: nat)
    requires i < j < |rules| && rules[i].id == rules[j].id && rules[j].id !in m
    ensures exists a: nat, b: nat :: FirstClash(m, rules, a, b)
    decreases j
  {
    if a: nat, b: nat :| a < b < j && rules[a].id == rules[b].id && rules[b].id !in m {
      EarliestClash(m, rules, a, b);
    } else {
      assert FirstClash(m, rules, i, j);
    }
  }

  /** A pull fails exactly when a new id came twice, on the first that did; otherwise it created a rule for each
      listed rule with a new id, and updated one for each of the others. */
  lemma {:induction false} PullCounts(m: Rules, rules: seq<ConfigRule>, project: string)
    ensures var p := PullAll(m, rules, project);
            && Clashes(m, rules, p.failed)
            && (p.failed.None? ==>
                  p.updated == CountIn(rules, m.Keys) && p.created == |rules| - CountIn(rules, m.Keys))
  {
    hide ToRule, Wrote;
    if rules != [] {
      var n := |rules| - 1;
      var front, last := rules[..n], rules[n];
      PullCounts(m, front, project);
      CountMore(rules, m.Keys);
      var p := PullAll(m, front, project);
      if p.failed.Some? {
        var i: nat, j: nat :| FirstClash(m, front, i, j) && front[j].id == p.failed.value;
        assert FirstClash(m, rules, i, j);
      } else {
        PullWrites(m, front, project);
        KeysWritten(m, p.rules, front, project);
        NoClashPulls(m, front);
        ClashAtLast(m, rules);
      }
    }
  }

  lemma KeysWritten(m: Rules, m': Rules, rules: seq<ConfigRule>, project: string)
    requires Wrote(m, m', rules, project)
    ensures m'.Keys == m.Keys + ConfigIds(rules)
  {
    hide WroteOne, ConfigIds;
  }

  lemma ClashAtLast(m: Rules, rules: seq<ConfigRule>)
    requires rules != []
    requires var front := rules[..|rules| - 1];
             forall i, j | 0 <= i < j < |front| :: front[i].id == front[j].id ==> front[j].id in m
    ensures var front, last := rules[..|rules| - 1], rules[|rules| - 1];
            Clashes(m, rules, if last.id !in m && last.id in ConfigIds(front) then Some(last.id) else None)
  {
    var n := |rules| - 1;
    var front, last := rules[..n], rules[n];
    if last.id !in m && last.id in ConfigIds(front) {
      var c :| c in front && c.id == last.id;
      var i: nat :| i < n && front[i] == c;
      assert FirstClash(m, rules, i, n);
    } else {
      forall i: nat, j: nat ensures !FirstClash(m, rules, i, j) {
        if i < j < |rules| {
          assert front[i] == rules[i] && front[i] in front;
          assert j < n ==> front[j] == rules[j];
        }
      }
    }
  }

  /** What apply reports: how many rules were switched on, how many were switched off though the file lists them,
      how many because it does not, and how many ids it lists that the project lacks. */
  lemma ApplyCounts(m: Rules, config: Config)
    ensures var m', r := Applied(m, config, ProjectIds(m, config.project)), ApplyReportOf(m, config);
            && r.enabled == |set id | id in m && !m[id].enabled && m'[id].enabled|
            && r.disabledFromConfig ==
               |set id | id in m && m[id].enabled && !m'[id].enabled && id in ConfigIds(config.rules)|
            && r.disabledNotInConfig ==
               |set id | id in m && m[id].enabled && !m'[id].enabled && id !in ConfigIds(config.rules)|
            && r.skippedOnlyInConfig == |ConfigIds(config.rules) - ProjectIds(m, config.project)|
  {
    var ids := ProjectIds(m, config.project);
    var m' := Applied(m, config, ids);
    CollectKeys(config.rules);
    forall id: Id ensures WantsEnabled(config, id) ==> id in Collect(config.rules) {
      WantedIsKnown(config, id);
    }
    hide *;
    SwitchedAre(m, config, ids, m');
    ReportUnfolds(m, config);
    ReportIs(m, config, ids, |ConfigIds(config.rules) - ids|);
  }

  lemma ReportIs(m: Rules, config: Config, ids: set<Id>, skipped: nat)
    ensures ReportOf(m, config, ids, skipped) ==
            ApplyReport(|SwitchedOn(m, config, ids)|, |SwitchedOff(m, config, ids)|, |Dropped(m, config, ids)|, skipped)
  {
    hide SwitchedOn, SwitchedOff, Dropped;
  }

  lemma SwitchedAre(m: Rules, config: Config, ids: set<Id>, m': Rules)
    requires m' == Applied(m, config, ids) && Collect(config.rules).Keys == ConfigIds(config.rules)
    requires forall id: Id :: WantsEnabled(config, id) ==> id in Collect(config.rules)
    ensures m'.Keys == m.Keys
    ensures SwitchedOn(m, config, ids) == set id | id in m && !m[id].enabled && m'[id].enabled
    ensures SwitchedOff(m, config, ids) ==
            set id | id in m && m[id].enabled && !m'[id].enabled && id in ConfigIds(config.rules)
    ensures Dropped(m, config, ids) ==
            set id | id in m && m[id].enabled && !m'[id].enabled && id !in ConfigIds(config.rules)
  {
    hide WantsEnabled, Collect, ConfigIds;
    assert forall id | id in m :: id in Switched(m, config, ids) <==> m[id].enabled != m'[id].enabled;
    assert forall id | id in m && m[id].enabled != m'[id].enabled :: m'[id].enabled <==> WantsEnabled(config, id);
    assert forall id: Id :: id in Collect(config.rules).Keys <==> id in Collect(config.rules);
    hide Applied, Switched;
  }

  /** A rule written to a file and one read back keep every field, but that the file has no capture id and the
      rule read back has its own id as its capture's. */
  lemma FieldsAreKept(rule: RequestRule, c: ConfigRule, project: string)
    ensures var w := FromRule(rule);
            && (rule.id.Some? ==> w.id == rule.id.value) && w.name == rule.name && w.description == rule.description
            && w.enabled == rule.enabled && w.priority == rule.priority && w.handlers == rule.handlers
            && w.capture.matchExpr == rule.capture.matchExpr && w.capture.id == None
    ensures var r := ToRule(c, project);
            && r.id == Some(c.id) && r.project == project && r.name == c.name && r.description == c.description
            && r.enabled == c.enabled && r.priority == c.priority && r.handlers == c.handlers
            && r.capture.matchExpr == c.capture.matchExpr && r.capture.id == Some(c.id)
  {
  }
}
