/** Every interleaving of submissions, changes of the records, watchers, timers and resumed runs: a
    superseded run shows nothing, and an idle valid filter shows a list of records filtered by the submitted
    expression, each by facts of its own trace. */
module TrafficFilterRuns {
  import opened Wrappers
  import opened Text
  import opened DslAst
  import opened ExprParser
  import opened Masking
  import opened Eval
  import opened Compile
  import opened CompileMeaning
  import opened TrafficRecords
  import opened TrafficFilter

  /** The filter, and which of its two watchers have yet to run. */
  datatype World = World(s: State, recordsWatch: bool, factsWatch: bool)

  datatype Step =
    | Submits(source: string)
    | RecordsChange(records: seq<TrafficRecord>)
    | FactsChange(view: View)
    | QuietChange(view: View)
    | Replaces(view: View)
    | RecordsWatcher
    | FactsWatcher
    | TimerFires
    | Resumes(k: nat)
    | Unmounts

  predicate SameParts(p: PartialRecord, q: PartialRecord) {
    p.url == q.url && p.verb == q.verb && p.requestHeaders == q.requestHeaders
  }

  /** A change of the records by trace that the store does not announce: it touches no url, method or
      headers, and the only records it adds are of traces not listed. */
  predicate IsQuiet(s: State, view: View) {
    && (forall id | id in s.recordsByTrace :: id in view && SameParts(s.recordsByTrace[id], view[id]))
    && forall r | r in s.trafficRecords && r.id in view :: r.id in s.recordsByTrace
  }

  ghost predicate StepTo(env: Env, step: Step, w: World, w': World) {
    match step
    case Submits(source) => w' == w.(s := Submit(env, w.s, source))
    case RecordsChange(records) => w' == w.(s := w.s.(trafficRecords := records), recordsWatch := true)
    case FactsChange(view) => w' == w.(s := w.s.(recordsByTrace := view), factsWatch := true)
    case QuietChange(view) => IsQuiet(w.s, view) && w' == w.(s := w.s.(recordsByTrace := view))
    case Replaces(view) => w' == w.(s := ReplaceRecords(w.s, view), factsWatch := true)
    case RecordsWatcher => w.recordsWatch && w' == w.(s := Schedule(w.s), recordsWatch := false)
    case FactsWatcher => w.factsWatch && w' == w.(s := ForgetFacts(w.s), factsWatch := false)
    case TimerFires => w.s.timerPending && w' == w.(s := FireTimer(env, w.s))
    case Resumes(k) => k < |w.s.suspended| && w' == w.(s := Resume(env, w.s, k))
    case Unmounts => w' == w.(s := Unmount(w.s))
  }

  ghost predicate Run(env: Env, steps: seq<Step>, worlds: seq<World>) {
    && |worlds| == |steps| + 1
    && worlds[0] == World(Initial(worlds[0].s.trafficRecords, worlds[0].s.recordsByTrace), false, false)
    && forall i | 0 <= i < |steps| :: StepTo(env, steps[i], worlds[i], worlds[i + 1])
  }

  lemma RunStart(env: Env, steps: seq<Step>, worlds: seq<World>)
    requires Run(env, steps, worlds)
    ensures |worlds| == |steps| + 1
    ensures worlds[0] == World(Initial(worlds[0].s.trafficRecords, worlds[0].s.recordsByTrace), false, false)
  {
    hide StepTo, Initial;
  }

  lemma RunStep(env: Env, steps: seq<Step>, worlds: seq<World>, n: nat)
    requires Run(env, steps, worlds) && n < |steps|
    ensures StepTo(env, steps[n], worlds[n], worlds[n + 1])
  {
    hide StepTo, Initial;
  }

  /** The steps that read records. */
  lemma BusyStep(env: Env, step: Step, w: World, w': World)
    requires StepTo(env, step, w, w')
    ensures step.Submits? ==> w' == w.(s := Submit(env, w.s, step.source))
    ensures step.TimerFires? ==> w.s.timerPending && w' == w.(s := FireTimer(env, w.s))
    ensures step.Resumes? ==> step.k < |w.s.suspended| && w' == w.(s := Resume(env, w.s, step.k))
  {
    hide Submit, FireTimer, Resume;
  }

  /** The steps that read none leave filter and runs as they are. */
  lemma QuietStep(env: Env, step: Step, w: World, w': World)
    requires StepTo(env, step, w, w') && !step.Submits? && !step.TimerFires? && !step.Resumes?
    ensures SameOrder(w.s, w'.s)
    ensures w'.s.factsCache == if step.FactsWatcher? then map[] else w.s.factsCache
  {
    hide Trim;
  }

  // ---- What every state keeps ----

  predicate IsCurrent(run: Suspended, s: State) {
    run.generation == s.generation
  }

  predicate Serves(run: Suspended, s: State) {
    && s.filterState == Valid
    && s.isApplyingFilter
    && s.compiledProgram == Some(run.program)
    && run.dsl == s.submittedDsl
  }

  /** No run is ahead of the state's generation, at most one belongs to it, and that one serves the filter
      now in force. */
  predicate RunsInOrder(s: State) {
    && (forall i | 0 <= i < |s.suspended| ::
          && s.suspended[i].generation <= s.generation
          && (IsCurrent(s.suspended[i], s) ==> Serves(s.suspended[i], s)))
    && forall i, j | 0 <= i < j < |s.suspended| :: !(IsCurrent(s.suspended[i], s) && IsCurrent(s.suspended[j], s))
  }

  predicate Compiled(env: Env, s: State) {
    && Trim(s.submittedDsl) == s.submittedDsl
    && match s.filterState
       case Idle => s.submittedDsl == "" && s.compiledProgram.None?
       case Loading => false
       case Valid => s.submittedDsl != "" && s.compiledProgram.Some? &&
                     CompileMatchExpr(env.grammar, s.submittedDsl) == Ok(s.compiledProgram.value)
       case Invalid => s.submittedDsl != "" && s.compiledProgram.None? &&
                       CompileMatchExpr(env.grammar, s.submittedDsl).Err?
  }

  predicate Settled(s: State) {
    s.filterState == Valid && !s.isApplyingFilter ==> s.appliedForDsl == s.submittedDsl
  }

  predicate Consistent(env: Env, s: State) {
    Compiled(env, s) && RunsInOrder(s) && Settled(s)
  }

  predicate AllSuperseded(s: State) {
    forall i | 0 <= i < |s.suspended| :: s.suspended[i].generation < s.generation
  }

  lemma AdvanceKeepsConsistent(env: Env, s: State, run: Suspended)
    requires Compiled(env, s) && AllSuperseded(s) && IsCurrent(run, s) && Serves(run, s)
    ensures Consistent(env, Advance(env, s, run))
  {
    hide Sift, CompileMatchExpr, Trim;
  }

  lemma NotValidIsSettled(s: State)
    requires s.filterState != Valid
    ensures Settled(s)
  {
  }

  lemma RunApplyKeepsConsistent(env: Env, s0: State)
    requires Compiled(env, s0) && RunsInOrder(s0)
    ensures Consistent(env, RunApply(env, s0))
  {
    hide Advance, CompileMatchExpr, Trim, Settled;
    RunApplyUnfolds(env, s0);
    hide RunApply;
    var s := s0.(generation := s0.generation + 1);
    if s.filterState == Valid {
      var run := Suspended(s.generation, s.submittedDsl, s.trafficRecords, s.compiledProgram.value, 0, [], None);
      AdvanceKeepsConsistent(env, s.(isApplyingFilter := true), run);
    } else {
      NotValidIsSettled(RunApply(env, s0));
    }
  }

  lemma SubmitKeepsConsistent(env: Env, s0: State, source: string)
    requires Consistent(env, s0)
    ensures Consistent(env, Submit(env, s0, source))
  {
    hide RunApply, CompileMatchExpr, Trim;
    TrimIdempotent(source);
    SubmitUnfolds(env, s0, source);
    hide Submit;
    var trimmed := Trim(source);
    var s := s0.(timerPending := false, submittedDsl := trimmed, generation := s0.generation + 1,
                 isApplyingFilter := false);
    if trimmed != "" && CompileMatchExpr(env.grammar, trimmed).Ok? {
      var program := CompileMatchExpr(env.grammar, trimmed).value;
      RunApplyKeepsConsistent(env, s.(compiledProgram := Some(program), filterState := Valid, filterError := None));
    }
  }

  lemma StepKeepsConsistent(env: Env, step: Step, w: World, w': World)
    requires Consistent(env, w.s) && StepTo(env, step, w, w')
    ensures Consistent(env, w'.s)
  {
    hide *;
    BusyStep(env, step, w, w');
    if step.Submits? {
      SubmitKeepsConsistent(env, w.s, step.source);
    } else if step.TimerFires? {
      TimerKeepsConsistent(env, w.s);
    } else if step.Resumes? {
      ResumeKeepsConsistent(env, w.s, step.k);
    } else {
      QuietStep(env, step, w, w');
      SameOrderConsistent(env, w.s, w'.s);
    }
  }

  lemma TimerKeepsConsistent(env: Env, s: State)
    requires Consistent(env, s) && s.timerPending
    ensures Consistent(env, FireTimer(env, s))
  {
    hide RunApply, CompileMatchExpr, Trim;
    RunApplyKeepsConsistent(env, s.(timerPending := false));
  }

  lemma ResumeKeepsConsistent(env: Env, s: State, k: nat)
    requires Consistent(env, s) && k < |s.suspended|
    ensures Consistent(env, Resume(env, s, k))
  {
    hide Advance, Consistent, Compiled, RunsInOrder;
    var rest, run := s.(suspended := s.suspended[..k] + s.suspended[k + 1..]), s.suspended[k];
    WithoutRun(env, s, k);
    if IsCurrent(run, rest) {
      ConsistentCompiled(env, rest);
      AdvanceKeepsConsistent(env, rest, run);
    } else {
      SupersededDoesNothing(env, rest, run);
    }
  }

  lemma ConsistentCompiled(env: Env, s: State)
    requires Consistent(env, s)
    ensures Compiled(env, s) && Compiled(env, s.(timerPending := false))
  {
    hide CompileMatchExpr, Trim, RunsInOrder;
  }

  /** The same filter, and the same runs but for where they read, at no earlier generation. */
  predicate SameOrder(s: State, s': State) {
    && s'.filterState == s.filterState && s'.submittedDsl == s.submittedDsl
    && s'.compiledProgram == s.compiledProgram && s'.isApplyingFilter == s.isApplyingFilter
    && s'.appliedForDsl == s.appliedForDsl && s'.filteredRecords == s.filteredRecords
    && s'.generation >= s.generation
    && |s'.suspended| == |s.suspended|
    && forall i | 0 <= i < |s.suspended| ::
         s'.suspended[i] == s.suspended[i].(detached := s'.suspended[i].detached)
  }

  lemma SameOrderConsistent(env: Env, s: State, s': State)
    requires Consistent(env, s) && SameOrder(s, s')
    ensures Consistent(env, s')
  {
    hide CompileMatchExpr, Trim;
  }

  lemma WithoutRun(env: Env, s: State, k: nat)
    requires Consistent(env, s) && k < |s.suspended|
    ensures Consistent(env, s.(suspended := s.suspended[..k] + s.suspended[k + 1..]))
    ensures var run := s.suspended[k];
            IsCurrent(run, s) ==>
              Serves(run, s) && AllSuperseded(s.(suspended := s.suspended[..k] + s.suspended[k + 1..]))
  {
    hide CompileMatchExpr, Trim;
  }

  lemma SupersededDoesNothing(env: Env, s: State, run: Suspended)
    requires !IsCurrent(run, s)
    ensures Advance(env, s, run) == s
  {
    hide Sift;
  }

  lemma {:induction false} RunIsConsistent(env: Env, steps: seq<Step>, worlds: seq<World>, n: nat)
    requires Run(env, steps, worlds) && n <= |steps|
    ensures Consistent(env, worlds[n].s)
    decreases n
  {
    hide *;
    RunStart(env, steps, worlds);
    if n == 0 {
      InitialIsConsistent(env, worlds[0].s);
    } else {
      RunStep(env, steps, worlds, n - 1);
      RunIsConsistent(env, steps, worlds, n - 1);
      StepKeepsConsistent(env, steps[n - 1], worlds[n - 1], worlds[n]);
    }
  }

  lemma InitialIsConsistent(env: Env, s: State)
    requires s == Initial(s.trafficRecords, s.recordsByTrace)
    ensures Consistent(env, s)
  {
    hide CompileMatchExpr;
    assert Trim("") == "";
  }

  // ---- Superseded runs ----

  lemma AdvanceKeepsGeneration(env: Env, s: State, run: Suspended)
    ensures Advance(env, s, run).generation == s.generation
  {
    hide Sift;
  }

  lemma RunApplyGeneration(env: Env, s: State)
    ensures RunApply(env, s).generation == s.generation + 1
  {
    RunApplyUnfolds(env, s);
    hide Advance, RunApply, Trim;
    var trimmed := Trim(s.submittedDsl);
    if trimmed != "" && s.filterState == Valid && s.compiledProgram.Some? {
      var s' := s.(generation := s.generation + 1, isApplyingFilter := true);
      AdvanceKeepsGeneration(
        env, s', Suspended(s'.generation, trimmed, s.trafficRecords, s.compiledProgram.value, 0, [], None));
    }
  }

  lemma SubmitGeneration(env: Env, s0: State, source: string)
    ensures Submit(env, s0, source).generation > s0.generation
  {
    SubmitUnfolds(env, s0, source);
    hide Submit, RunApply, CompileMatchExpr, Trim;
    var trimmed := Trim(source);
    var s := s0.(timerPending := false, submittedDsl := trimmed, generation := s0.generation + 1,
                 isApplyingFilter := false);
    if trimmed != "" && CompileMatchExpr(env.grammar, trimmed).Ok? {
      var program := CompileMatchExpr(env.grammar, trimmed).value;
      RunApplyGeneration(env, s.(compiledProgram := Some(program), filterState := Valid, filterError := None));
    }
  }

  lemma StepGeneration(env: Env, step: Step, w: World, w': World)
    requires StepTo(env, step, w, w')
    ensures w'.s.generation >= w.s.generation
    ensures step.Submits? || step.TimerFires? || step.Unmounts? ==> w'.s.generation > w.s.generation
  {
    hide Submit, RunApply, Advance, Trim;
    match step
    case Submits(source) => SubmitGeneration(env, w.s, source);
    case TimerFires => RunApplyGeneration(env, w.s.(timerPending := false));
    case Resumes(k) =>
      AdvanceKeepsGeneration(
        env, w.s.(suspended := w.s.suspended[..k] + w.s.suspended[k + 1..]), w.s.suspended[k]);
    case _ =>
  }

  lemma {:induction false} GenerationGrows(env: Env, steps: seq<Step>, worlds: seq<World>, i: nat, j: nat)
    requires Run(env, steps, worlds) && i <= j <= |steps|
    ensures worlds[i].s.generation <= worlds[j].s.generation
    decreases j - i
  {
    hide StepTo, Initial;
    if i < j {
      GenerationGrows(env, steps, worlds, i, j - 1);
      RunStep(env, steps, worlds, j - 1);
      StepGeneration(env, steps[j - 1], worlds[j - 1], worlds[j]);
    }
  }

  /** A run that was suspended when a filter was submitted, a timer fired, or the component went away,
      never shows anything again: resuming it only forgets it. */
  lemma SupersededNeverPublishes(env: Env, steps: seq<Step>, worlds: seq<World>, i: nat, j: nat, run: Suspended)
    requires Run(env, steps, worlds) && i < j < |steps| && run in worlds[i].s.suspended
    requires steps[i].Submits? || steps[i].TimerFires? || steps[i].Unmounts?
    requires steps[j].Resumes? && steps[j].k < |worlds[j].s.suspended|
    requires worlds[j].s.suspended[steps[j].k].generation == run.generation
    ensures worlds[j + 1].s ==
            var s, k := worlds[j].s, steps[j].k; s.(suspended := s.suspended[..k] + s.suspended[k + 1..])
  {
    hide *;
    RunStart(env, steps, worlds);
    RunIsConsistent(env, steps, worlds, i);
    RunStep(env, steps, worlds, i);
    RunStep(env, steps, worlds, j);
    StepGeneration(env, steps[i], worlds[i], worlds[i + 1]);
    GenerationGrows(env, steps, worlds, i + 1, j);
    NoneAhead(env, worlds[i].s, run);
    BusyStep(env, steps[j], worlds[j], worlds[j + 1]);
    ResumeSuperseded(env, worlds[j].s, steps[j].k);
  }

  lemma NoneAhead(env: Env, s: State, run: Suspended)
    requires Consistent(env, s) && run in s.suspended
    ensures run.generation <= s.generation
  {
    hide Compiled;
  }

  lemma ResumeSuperseded(env: Env, s: State, k: nat)
    requires k < |s.suspended| && s.suspended[k].generation < s.generation
    ensures Resume(env, s, k) == s.(suspended := s.suspended[..k] + s.suspended[k + 1..])
  {
    hide Advance;
    SupersededDoesNothing(env, s.(suspended := s.suspended[..k] + s.suspended[k + 1..]), s.suspended[k]);
  }

  // ---- What records were judged by ----

  /** The records by trace that a step reads, if it is one that reads any. */
  function ViewRead(step: Step, s: State): Option<View> {
    if step.Submits? || step.TimerFires? then Some(s.recordsByTrace)
    else if step.Resumes? && step.k < |s.suspended| then Some(RunView(s, s.suspended[step.k]))
    else None
  }

  /** The step after which the cached facts were last forgotten. */
  function LastForgotten(steps: seq<Step>, n: nat): (i: nat)
    requires n <= |steps|
    ensures i <= n
  {
    if n == 0 then 0 else if steps[n - 1].FactsWatcher? then n else LastForgotten(steps, n - 1)
  }

  predicate Tells(env: Env, view: Option<View>, key: FactsKey, facts: RequestFacts) {
    && view.Some? && key.id in view.value
    && CacheKey(key.id, view.value[key.id]) == key
    && facts == Facts(env, view.value[key.id])
  }

  /** The facts are those of a record with this key, read in one of the steps of a range. */
  ghost predicate Sourced(env: Env, steps: seq<Step>, worlds: seq<World>, from: nat, to: nat, key: FactsKey,
                          facts: RequestFacts)
    requires to <= |steps| && |worlds| == |steps| + 1
  {
    exists i | from <= i < to :: Tells(env, ViewRead(steps[i], worlds[i].s), key, facts)
  }

  ghost predicate CacheSourced(env: Env, steps: seq<Step>, worlds: seq<World>, from: nat, to: nat, cache: FactsCache)
    requires to <= |steps| && |worlds| == |steps| + 1
  {
    forall key | key in cache :: Sourced(env, steps, worlds, from, to, key, cache[key])
  }

  datatype Judgement = Absent | By(facts: RequestFacts)

  /** The records, among those judged, whose facts the program accepts. */
  function Kept(program: MatchProgram, records: seq<TrafficRecord>, judged: seq<Judgement>): seq<TrafficRecord>
    requires |judged| <= |records|
  {
    if judged == [] then []
    else
      var n := |judged| - 1;
      Kept(program, records, judged[..n])
      + if judged[n].By? && EvalProgram(program, judged[n].facts) then [records[n]] else []
  }

  /** A record was passed over because some step found none of its trace; or it was judged by facts of a
      record of its trace with the same key, read since the cached facts were last forgotten. */
  ghost predicate JustifiedAt(env: Env, steps: seq<Step>, worlds: seq<World>, k: nat, record: TrafficRecord,
                              j: Judgement)
    requires k < |steps| && |worlds| == |steps| + 1
  {
    var view := ViewRead(steps[k], worlds[k].s);
    && view.Some?
    && if record.id !in view.value then j == Absent
       else
         && j.By?
         && Sourced(env, steps, worlds, LastForgotten(steps, k), k + 1, CacheKey(record.id, view.value[record.id]),
                    j.facts)
  }

  ghost predicate Justified(env: Env, steps: seq<Step>, worlds: seq<World>, n: nat, record: TrafficRecord, j: Judgement)
    requires n <= |steps| && |worlds| == |steps| + 1
  {
    exists k | 0 <= k < n :: JustifiedAt(env, steps, worlds, k, record, j)
  }

  ghost predicate AllJustified(env: Env, steps: seq<Step>, worlds: seq<World>, n: nat, records: seq<TrafficRecord>,
                               judged: seq<Judgement>)
    requires n <= |steps| && |worlds| == |steps| + 1 && |judged| <= |records|
  {
    forall i | 0 <= i < |judged| :: Justified(env, steps, worlds, n, records[i], judged[i])
  }

  ghost predicate RecordsSeen(worlds: seq<World>, n: nat, records: seq<TrafficRecord>)
    requires n < |worlds|
  {
    exists j | 0 <= j <= n :: worlds[j].s.trafficRecords == records
  }

  ghost predicate Explains(env: Env, steps: seq<Step>, worlds: seq<World>, n: nat, run: Suspended,
                           judged: seq<Judgement>)
    requires n <= |steps| && |worlds| == |steps| + 1
  {
    && |judged| == run.next <= |run.records|
    && run.matched == Kept(run.program, run.records, judged)
    && AllJustified(env, steps, worlds, n, run.records, judged)
  }

  /** A suspended run is a partial filter of some earlier record list. */
  ghost predicate Explained(env: Env, steps: seq<Step>, worlds: seq<World>, n: nat, run: Suspended)
    requires n <= |steps| && |worlds| == |steps| + 1
  {
    RecordsSeen(worlds, n, run.records) && exists judged :: Explains(env, steps, worlds, n, run, judged)
  }

  ghost predicate ShownBy(env: Env, steps: seq<Step>, worlds: seq<World>, n: nat, program: MatchProgram,
                          list: seq<TrafficRecord>, records: seq<TrafficRecord>, judged: seq<Judgement>)
    requires n <= |steps| && |worlds| == |steps| + 1
  {
    && RecordsSeen(worlds, n, records)
    && |judged| == |records|
    && list == Kept(program, records, judged)
    && AllJustified(env, steps, worlds, n, records, judged)
  }

  /** A list is a whole filter of some earlier record list. */
  ghost predicate Shown(env: Env, steps: seq<Step>, worlds: seq<World>, n: nat, program: MatchProgram,
                        list: seq<TrafficRecord>)
    requires n <= |steps| && |worlds| == |steps| + 1
  {
    exists records, judged :: ShownBy(env, steps, worlds, n, program, list, records, judged)
  }

  ghost predicate AllExplained(env: Env, steps: seq<Step>, worlds: seq<World>, n: nat, s: State)
    requires n <= |steps| && |worlds| == |steps| + 1
  {
    forall i | 0 <= i < |s.suspended| :: Explained(env, steps, worlds, n, s.suspended[i])
  }

  ghost predicate Accounted(env: Env, steps: seq<Step>, worlds: seq<World>, n: nat, s: State)
    requires n <= |steps| && |worlds| == |steps| + 1
  {
    && AllExplained(env, steps, worlds, n, s)
    && (s.filterState == Valid && !s.isApplyingFilter && s.compiledProgram.Some? ==>
          Shown(env, steps, worlds, n, s.compiledProgram.value, s.filteredRecords))
  }

  // ---- Later ----

  lemma JustifiedLater(env: Env, steps: seq<Step>, worlds: seq<World>, n: nat, records: seq<TrafficRecord>,
                       judged: seq<Judgement>)
    requires n < |steps| && |worlds| == |steps| + 1 && |judged| <= |records|
    requires AllJustified(env, steps, worlds, n, records, judged)
    ensures AllJustified(env, steps, worlds, n + 1, records, judged)
  {
    hide JustifiedAt;
    forall i | 0 <= i < |judged| ensures Justified(env, steps, worlds, n + 1, records[i], judged[i]) {
      assert Justified(env, steps, worlds, n, records[i], judged[i]);
    }
  }

  lemma RecordsSeenLater(worlds: seq<World>, n: nat, records: seq<TrafficRecord>)
    requires n + 1 < |worlds| && RecordsSeen(worlds, n, records)
    ensures RecordsSeen(worlds, n + 1, records)
  {
  }

  lemma ExplainedLater(env: Env, steps: seq<Step>, worlds: seq<World>, n: nat, run: Suspended)
    requires n < |steps| && |worlds| == |steps| + 1 && Explained(env, steps, worlds, n, run)
    ensures Explained(env, steps, worlds, n + 1, run)
  {
    hide AllJustified, RecordsSeen;
    var judged :| Explains(env, steps, worlds, n, run, judged);
    RecordsSeenLater(worlds, n, run.records);
    JustifiedLater(env, steps, worlds, n, run.records, judged);
    assert Explains(env, steps, worlds, n + 1, run, judged);
  }

  lemma ShownLater(env: Env, steps: seq<Step>, worlds: seq<World>, n: nat, program: MatchProgram,
                   list: seq<TrafficRecord>)
    requires n < |steps| && |worlds| == |steps| + 1 && Shown(env, steps, worlds, n, program, list)
    ensures Shown(env, steps, worlds, n + 1, program, list)
  {
    hide AllJustified, RecordsSeen;
    var records, judged :| ShownBy(env, steps, worlds, n, program, list, records, judged);
    RecordsSeenLater(worlds, n, records);
    JustifiedLater(env, steps, worlds, n, records, judged);
    assert ShownBy(env, steps, worlds, n + 1, program, list, records, judged);
  }

  lemma AccountedLater(env: Env, steps: seq<Step>, worlds: seq<World>, n: nat, s: State)
    requires n < |steps| && |worlds| == |steps| + 1 && Accounted(env, steps, worlds, n, s)
    ensures Accounted(env, steps, worlds, n + 1, s)
  {
    hide Explained, Shown;
    forall i | 0 <= i < |s.suspended| ensures Explained(env, steps, worlds, n + 1, s.suspended[i]) {
      ExplainedLater(env, steps, worlds, n, s.suspended[i]);
    }
    if s.filterState == Valid && !s.isApplyingFilter && s.compiledProgram.Some? {
      ShownLater(env, steps, worlds, n, s.compiledProgram.value, s.filteredRecords);
    }
  }

  lemma CacheSourcedLater(env: Env, steps: seq<Step>, worlds: seq<World>, from: nat, to: nat, cache: FactsCache)
    requires to < |steps| && |worlds| == |steps| + 1 && CacheSourced(env, steps, worlds, from, to, cache)
    ensures CacheSourced(env, steps, worlds, from, to + 1, cache)
  {
    hide Tells;
    forall key | key in cache ensures Sourced(env, steps, worlds, from, to + 1, key, cache[key]) {
      assert Sourced(env, steps, worlds, from, to, key, cache[key]);
    }
  }

  // ---- One chunk ----

  /** Judging one record at step `k`: what it is judged by is justified, and so is what gets cached. */
  lemma OneJudged(env: Env, steps: seq<Step>, worlds: seq<World>, k: nat, program: MatchProgram, view: View, so: Sifted,
                  record: TrafficRecord)
    returns (j: Judgement)
    requires k < |steps| && |worlds| == |steps| + 1 && ViewRead(steps[k], worlds[k].s) == Some(view)
    requires CacheSourced(env, steps, worlds, LastForgotten(steps, k), k + 1, so.cache)
    ensures JustifiedAt(env, steps, worlds, k, record, j)
    ensures var so' := SiftOne(env, program, view, so, record);
            && so'.kept == so.kept + (if j.By? && EvalProgram(program, j.facts) then [record] else [])
            && CacheSourced(env, steps, worlds, LastForgotten(steps, k), k + 1, so'.cache)
  {
    hide EvalProgram, CacheKey, Facts, ViewRead;
    if record.id !in view {
      j := Absent;
      assert so.kept + [] == so.kept;
    } else {
      var key, facts := CacheKey(record.id, view[record.id]), FactsUsed(env, so.cache, record.id, view[record.id]);
      j := By(facts);
      KeyHasId(record.id, view[record.id]);
      if key !in so.cache {
        assert Tells(env, ViewRead(steps[k], worlds[k].s), key, facts);
      }
      assert Sourced(env, steps, worlds, LastForgotten(steps, k), k + 1, key, facts);
      hide Sourced;
      var cache' := so.cache[key := facts];
      forall other | other in cache'
        ensures Sourced(env, steps, worlds, LastForgotten(steps, k), k + 1, other, cache'[other])
      {
        if other != key {
          assert other in so.cache;
        }
      }
    }
  }

  lemma KeyHasId(id: string, record: PartialRecord)
    ensures CacheKey(id, record).id == id
  {
  }

  lemma KeptMore(program: MatchProgram, records: seq<TrafficRecord>, judged: seq<Judgement>, j: Judgement)
    requires |judged| < |records|
    ensures Kept(program, records, judged + [j]) ==
            Kept(program, records, judged)
            + if j.By? && EvalProgram(program, j.facts) then [records[|judged|]] else []
  {
    hide EvalProgram;
    assert (judged + [j])[..|judged|] == judged;
  }

  lemma JustifiedMore(env: Env, steps: seq<Step>, worlds: seq<World>, k: nat, records: seq<TrafficRecord>,
                      judged: seq<Judgement>, j: Judgement)
    requires k < |steps| && |worlds| == |steps| + 1 && |judged| < |records|
    requires AllJustified(env, steps, worlds, k + 1, records, judged)
    requires JustifiedAt(env, steps, worlds, k, records[|judged|], j)
    ensures AllJustified(env, steps, worlds, k + 1, records, judged + [j])
  {
    hide JustifiedAt;
    assert Justified(env, steps, worlds, k + 1, records[|judged|], j);
    hide Justified;
  }

  lemma SliceMore(records: seq<TrafficRecord>, from: nat, to: nat)
    requires from <= to < |records|
    ensures records[from..to + 1][..to - from] == records[from..to]
    ensures records[from..to + 1][to - from] == records[to]
  {
  }

  /** Sifting the first `m` records of a run's rest at step `k`. */
  lemma {:induction false} SiftJudges(env: Env, steps: seq<Step>, worlds: seq<World>, k: nat, run: Suspended,
                                      view: View, cache: FactsCache, before: seq<Judgement>, m: nat)
    returns (judged: seq<Judgement>)
    requires k < |steps| && |worlds| == |steps| + 1 && ViewRead(steps[k], worlds[k].s) == Some(view)
    requires CacheSourced(env, steps, worlds, LastForgotten(steps, k), k + 1, cache)
    requires Explains(env, steps, worlds, k + 1, run, before) && run.next + m <= |run.records|
    ensures var so := Sift(env, run.program, view, Sifted(run.matched, cache), run.records[run.next..run.next + m]);
            && Explains(env, steps, worlds, k + 1, run.(matched := so.kept, next := run.next + m), judged)
            && CacheSourced(env, steps, worlds, LastForgotten(steps, k), k + 1, so.cache)
  {
    hide SiftOne, CacheSourced, AllJustified, JustifiedAt, ViewRead, Kept;
    if m == 0 {
      judged := before;
      assert run.records[run.next..run.next] == [];
    } else {
      var n := run.next + m - 1;
      var front := SiftJudges(env, steps, worlds, k, run, view, cache, before, m - 1);
      var chunk := run.records[run.next..n + 1];
      SliceMore(run.records, run.next, n);
      var so := Sift(env, run.program, view, Sifted(run.matched, cache), chunk[..m - 1]);
      var j := OneJudged(env, steps, worlds, k, run.program, view, so, run.records[n]);
      judged := front + [j];
      KeptMore(run.program, run.records, front, j);
      JustifiedMore(env, steps, worlds, k, run.records, front, j);
    }
  }

  // ---- Each operation ----

  lemma PublishIsAccounted(env: Env, steps: seq<Step>, worlds: seq<World>, n: nat, s: State, run: Suspended)
    requires n <= |steps| && |worlds| == |steps| + 1 && AllExplained(env, steps, worlds, n, s)
    requires Explained(env, steps, worlds, n, run) && run.next >= |run.records| && IsCurrent(run, s) && Serves(run, s)
    ensures Accounted(env, steps, worlds, n, Publish(s, run))
  {
    hide AllJustified, RecordsSeen, Kept, AllExplained;
    var judged :| Explains(env, steps, worlds, n, run, judged);
    assert ShownBy(env, steps, worlds, n, run.program, run.matched, run.records, judged);
    SameRunsExplained(env, steps, worlds, n, s, Publish(s, run));
  }

  lemma SameRunsExplained(env: Env, steps: seq<Step>, worlds: seq<World>, n: nat, s: State, s': State)
    requires n <= |steps| && |worlds| == |steps| + 1 && AllExplained(env, steps, worlds, n, s)
    requires s'.suspended == s.suspended
    ensures AllExplained(env, steps, worlds, n, s')
  {
    hide Explained;
  }

  lemma SuspendIsAccounted(env: Env, steps: seq<Step>, worlds: seq<World>, n: nat, s: State, run: Suspended)
    requires n <= |steps| && |worlds| == |steps| + 1 && AllExplained(env, steps, worlds, n, s)
    requires Explained(env, steps, worlds, n, run) && s.isApplyingFilter
    ensures Accounted(env, steps, worlds, n, s.(suspended := s.suspended + [run]))
  {
    hide Explained, Shown;
  }

  /** The run that a step takes one chunk further, and the cache, stay explained. */
  lemma ChunkIsExplained(env: Env, steps: seq<Step>, worlds: seq<World>, k: nat, s: State, run: Suspended)
    requires k < |steps| && |worlds| == |steps| + 1 && ViewRead(steps[k], worlds[k].s) == Some(RunView(s, run))
    requires CacheSourced(env, steps, worlds, LastForgotten(steps, k), k + 1, s.factsCache)
    requires Explained(env, steps, worlds, k + 1, run) && run.next < |run.records|
    ensures var so := SiftChunk(env, s, run);
            && Explained(env, steps, worlds, k + 1, run.(matched := so.kept, next := ChunkEnd(run)))
            && CacheSourced(env, steps, worlds, LastForgotten(steps, k), k + 1, so.cache)
  {
    hide Sift, Explains, CacheSourced, RecordsSeen, ViewRead, RunView;
    var before :| Explains(env, steps, worlds, k + 1, run, before);
    assert run.next + (ChunkEnd(run) - run.next) == ChunkEnd(run);
    var judged := SiftJudges(env, steps, worlds, k, run, RunView(s, run), s.factsCache, before,
                             ChunkEnd(run) - run.next);
    var so := SiftChunk(env, s, run);
    assert Explains(env, steps, worlds, k + 1, run.(matched := so.kept, next := ChunkEnd(run)), judged);
  }

  lemma AdvanceIsAccounted(env: Env, steps: seq<Step>, worlds: seq<World>, k: nat, s: State, run: Suspended)
    requires k < |steps| && |worlds| == |steps| + 1 && ViewRead(steps[k], worlds[k].s) == Some(RunView(s, run))
    requires AllExplained(env, steps, worlds, k + 1, s) && Explained(env, steps, worlds, k + 1, run)
    requires CacheSourced(env, steps, worlds, LastForgotten(steps, k), k + 1, s.factsCache)
    requires IsCurrent(run, s) && Serves(run, s)
    ensures Accounted(env, steps, worlds, k + 1, Advance(env, s, run))
    ensures CacheSourced(env, steps, worlds, LastForgotten(steps, k), k + 1, Advance(env, s, run).factsCache)
  {
    hide AllExplained, Explained, CacheSourced, Accounted, SiftChunk, ViewRead, RunView, Advance;
    AdvanceUnfolds(env, s, run);
    if run.next >= |run.records| {
      PublishIsAccounted(env, steps, worlds, k + 1, s, run);
    } else {
      ChunkIsExplained(env, steps, worlds, k, s, run);
      var so := SiftChunk(env, s, run);
      var further, s' := run.(matched := so.kept, next := ChunkEnd(run)), s.(factsCache := so.cache);
      SameRunsExplained(env, steps, worlds, k + 1, s, s');
      if further.next < |run.records| {
        SuspendIsAccounted(env, steps, worlds, k + 1, s', further);
      } else {
        PublishIsAccounted(env, steps, worlds, k + 1, s', further);
      }
    }
  }

  lemma FreshRunIsExplained(env: Env, steps: seq<Step>, worlds: seq<World>, n: nat, run: Suspended)
    requires n <= |steps| && |worlds| == |steps| + 1
    requires RecordsSeen(worlds, n, run.records) && run.next == 0 && run.matched == []
    ensures Explained(env, steps, worlds, n, run)
  {
    assert Explains(env, steps, worlds, n, run, []);
  }

  /** The ground that an operation at step `k` stands on. */
  ghost predicate Ready(env: Env, steps: seq<Step>, worlds: seq<World>, k: nat, s: State)
    requires k < |steps| && |worlds| == |steps| + 1
  {
    && Accounted(env, steps, worlds, k + 1, s)
    && RecordsSeen(worlds, k + 1, s.trafficRecords)
    && CacheSourced(env, steps, worlds, LastForgotten(steps, k), k + 1, s.factsCache)
  }

  lemma RunApplyIsAccounted(env: Env, steps: seq<Step>, worlds: seq<World>, k: nat, s0: State)
    requires k < |steps| && |worlds| == |steps| + 1 && ViewRead(steps[k], worlds[k].s) == Some(s0.recordsByTrace)
    requires Compiled(env, s0) && RecordsSeen(worlds, k + 1, s0.trafficRecords)
    requires AllExplained(env, steps, worlds, k + 1, s0)
    requires CacheSourced(env, steps, worlds, LastForgotten(steps, k), k + 1, s0.factsCache)
    ensures Accounted(env, steps, worlds, k + 1, RunApply(env, s0))
    ensures CacheSourced(env, steps, worlds, LastForgotten(steps, k), k + 1, RunApply(env, s0).factsCache)
  {
    hide Advance, CompileMatchExpr, Trim, Explained, Shown, RecordsSeen, ViewRead, CacheSourced, RunApply;
    RunApplyUnfolds(env, s0);
    var s := s0.(generation := s0.generation + 1);
    if s.filterState == Valid {
      var run := Suspended(s.generation, s.submittedDsl, s.trafficRecords, s.compiledProgram.value, 0, [], None);
      FreshRunIsExplained(env, steps, worlds, k + 1, run);
      AdvanceIsAccounted(env, steps, worlds, k, s.(isApplyingFilter := true), run);
    }
  }

  lemma SubmitIsAccounted(env: Env, steps: seq<Step>, worlds: seq<World>, k: nat, s0: State, source: string)
    requires k < |steps| && |worlds| == |steps| + 1 && ViewRead(steps[k], worlds[k].s) == Some(s0.recordsByTrace)
    requires Ready(env, steps, worlds, k, s0)
    ensures Accounted(env, steps, worlds, k + 1, Submit(env, s0, source))
    ensures CacheSourced(env, steps, worlds, LastForgotten(steps, k), k + 1, Submit(env, s0, source).factsCache)
  {
    hide RunApply, CompileMatchExpr, Trim, Explained, Shown, RecordsSeen, ViewRead, CacheSourced, Submit;
    TrimIdempotent(source);
    SubmitUnfolds(env, s0, source);
    var trimmed := Trim(source);
    var s := s0.(timerPending := false, submittedDsl := trimmed, generation := s0.generation + 1,
                 isApplyingFilter := false);
    if trimmed != "" && CompileMatchExpr(env.grammar, trimmed).Ok? {
      var program := CompileMatchExpr(env.grammar, trimmed).value;
      RunApplyIsAccounted(env, steps, worlds, k,
                          s.(compiledProgram := Some(program), filterState := Valid, filterError := None));
    }
  }

  lemma TimerIsAccounted(env: Env, steps: seq<Step>, worlds: seq<World>, k: nat, s: State)
    requires k < |steps| && |worlds| == |steps| + 1 && ViewRead(steps[k], worlds[k].s) == Some(s.recordsByTrace)
    requires Ready(env, steps, worlds, k, s) && Consistent(env, s) && s.timerPending
    ensures Accounted(env, steps, worlds, k + 1, FireTimer(env, s))
    ensures CacheSourced(env, steps, worlds, LastForgotten(steps, k), k + 1, FireTimer(env, s).factsCache)
  {
    ConsistentCompiled(env, s);
    hide RunApply, Compiled, Consistent, Explained, Shown, RecordsSeen, ViewRead, CacheSourced;
    RunApplyIsAccounted(env, steps, worlds, k, s.(timerPending := false));
  }

  lemma ResumeIsAccounted(env: Env, steps: seq<Step>, worlds: seq<World>, k: nat, s: State, i: nat)
    requires k < |steps| && |worlds| == |steps| + 1 && i < |s.suspended|
    requires ViewRead(steps[k], worlds[k].s) == Some(RunView(s, s.suspended[i]))
    requires Ready(env, steps, worlds, k, s) && Consistent(env, s)
    ensures Accounted(env, steps, worlds, k + 1, Resume(env, s, i))
    ensures CacheSourced(env, steps, worlds, LastForgotten(steps, k), k + 1, Resume(env, s, i).factsCache)
  {
    hide Advance, Consistent, Explained, Shown, RecordsSeen, ViewRead, CacheSourced;
    var rest, run := s.(suspended := s.suspended[..i] + s.suspended[i + 1..]), s.suspended[i];
    WithoutRun(env, s, i);
    assert Explained(env, steps, worlds, k + 1, run);
    assert AllExplained(env, steps, worlds, k + 1, rest) && Accounted(env, steps, worlds, k + 1, rest);
    if IsCurrent(run, rest) {
      AdvanceIsAccounted(env, steps, worlds, k, rest, run);
    } else {
      SupersededDoesNothing(env, rest, run);
    }
  }

  /** Only the filter's outcome, the runs but for where they read, and the shown list count. */
  lemma SameOrderAccounted(env: Env, steps: seq<Step>, worlds: seq<World>, n: nat, s: State, s': State)
    requires n <= |steps| && |worlds| == |steps| + 1 && Accounted(env, steps, worlds, n, s) && SameOrder(s, s')
    ensures Accounted(env, steps, worlds, n, s')
  {
    hide Explained, Shown;
    forall i | 0 <= i < |s'.suspended| ensures Explained(env, steps, worlds, n, s'.suspended[i]) {
      DetachedExplained(env, steps, worlds, n, s.suspended[i], s'.suspended[i].detached);
    }
  }

  lemma DetachedExplained(env: Env, steps: seq<Step>, worlds: seq<World>, n: nat, run: Suspended,
                          detached: Option<View>)
    requires n <= |steps| && |worlds| == |steps| + 1 && Explained(env, steps, worlds, n, run)
    ensures Explained(env, steps, worlds, n, run.(detached := detached))
  {
    hide AllJustified, RecordsSeen, Kept;
    var judged :| Explains(env, steps, worlds, n, run, judged);
    assert Explains(env, steps, worlds, n, run.(detached := detached), judged);
  }

  lemma StepIsAccounted(env: Env, steps: seq<Step>, worlds: seq<World>, k: nat)
    requires k < |steps| && |worlds| == |steps| + 1 && StepTo(env, steps[k], worlds[k], worlds[k + 1])
    requires Consistent(env, worlds[k].s) && Accounted(env, steps, worlds, k, worlds[k].s)
    requires CacheSourced(env, steps, worlds, LastForgotten(steps, k), k, worlds[k].s.factsCache)
    ensures Accounted(env, steps, worlds, k + 1, worlds[k + 1].s)
    ensures CacheSourced(env, steps, worlds, LastForgotten(steps, k + 1), k + 1, worlds[k + 1].s.factsCache)
  {
    hide *;
    var step, s := steps[k], worlds[k].s;
    GroundHolds(env, steps, worlds, k);
    StillRemembered(steps, k);
    BusyStep(env, step, worlds[k], worlds[k + 1]);
    BusyReads(step, s);
    if step.Submits? {
      SubmitIsAccounted(env, steps, worlds, k, s, step.source);
    } else if step.TimerFires? {
      TimerIsAccounted(env, steps, worlds, k, s);
    } else if step.Resumes? {
      ResumeIsAccounted(env, steps, worlds, k, s, step.k);
    } else {
      QuietStep(env, step, worlds[k], worlds[k + 1]);
      GroundAccounted(env, steps, worlds, k, s);
      SameOrderAccounted(env, steps, worlds, k + 1, s, worlds[k + 1].s);
      NothingSourced(env, steps, worlds, k + 1);
    }
  }

  lemma GroundHolds(env: Env, steps: seq<Step>, worlds: seq<World>, k: nat)
    requires k < |steps| && |worlds| == |steps| + 1
    requires Accounted(env, steps, worlds, k, worlds[k].s)
    requires CacheSourced(env, steps, worlds, LastForgotten(steps, k), k, worlds[k].s.factsCache)
    ensures Ready(env, steps, worlds, k, worlds[k].s)
  {
    hide Accounted, CacheSourced;
    AccountedLater(env, steps, worlds, k, worlds[k].s);
    CacheSourcedLater(env, steps, worlds, LastForgotten(steps, k), k, worlds[k].s.factsCache);
  }

  lemma GroundAccounted(env: Env, steps: seq<Step>, worlds: seq<World>, k: nat, s: State)
    requires k < |steps| && |worlds| == |steps| + 1 && Ready(env, steps, worlds, k, s)
    ensures Accounted(env, steps, worlds, k + 1, s)
    ensures CacheSourced(env, steps, worlds, LastForgotten(steps, k), k + 1, s.factsCache)
  {
    hide Accounted, CacheSourced, RecordsSeen;
  }

  lemma StillRemembered(steps: seq<Step>, k: nat)
    requires k < |steps|
    ensures !steps[k].FactsWatcher? ==> LastForgotten(steps, k + 1) == LastForgotten(steps, k)
  {
  }

  lemma BusyReads(step: Step, s: State)
    ensures step.Submits? || step.TimerFires? ==> ViewRead(step, s) == Some(s.recordsByTrace)
    ensures step.Resumes? && step.k < |s.suspended| ==> ViewRead(step, s) == Some(RunView(s, s.suspended[step.k]))
  {
  }

  lemma NothingSourced(env: Env, steps: seq<Step>, worlds: seq<World>, n: nat)
    requires n <= |steps| && |worlds| == |steps| + 1
    ensures CacheSourced(env, steps, worlds, LastForgotten(steps, n), n, map[])
  {
  }

  lemma {:induction false} RunIsAccounted(env: Env, steps: seq<Step>, worlds: seq<World>, n: nat)
    requires Run(env, steps, worlds) && n <= |steps|
    ensures |worlds| == |steps| + 1
    ensures Accounted(env, steps, worlds, n, worlds[n].s)
    ensures CacheSourced(env, steps, worlds, LastForgotten(steps, n), n, worlds[n].s.factsCache)
    decreases n
  {
    hide *;
    RunStart(env, steps, worlds);
    if n == 0 {
      NothingShown(env, steps, worlds, worlds[0].s);
      NothingSourced(env, steps, worlds, 0);
    } else {
      RunIsConsistent(env, steps, worlds, n - 1);
      RunStep(env, steps, worlds, n - 1);
      RunIsAccounted(env, steps, worlds, n - 1);
      StepIsAccounted(env, steps, worlds, n - 1);
    }
  }

  lemma NothingShown(env: Env, steps: seq<Step>, worlds: seq<World>, s: State)
    requires |worlds| == |steps| + 1 && s == Initial(s.trafficRecords, s.recordsByTrace)
    ensures Accounted(env, steps, worlds, 0, s) && s.factsCache == map[]
  {
  }

  // ---- What is on display ----

  /** Nothing submitted: all records. An invalid expression: none. While a run is under way: the list last
      shown. A valid filter at rest: some earlier record list, filtered by the program that the submitted
      expression compiles to, each record judged by facts of its own trace that carry its key. */
  lemma DisplayIsFilter(env: Env, steps: seq<Step>, worlds: seq<World>, n: nat)
    requires Run(env, steps, worlds) && n <= |steps|
    ensures var s := worlds[n].s;
            match s.filterState
            case Idle => s.submittedDsl == "" && Effective(s) == s.trafficRecords
            case Loading => false
            case Invalid => CompileMatchExpr(env.grammar, s.submittedDsl).Err? && Effective(s) == []
            case Valid =>
              && CompileMatchExpr(env.grammar, s.submittedDsl).Ok?
              && if s.isApplyingFilter then Effective(s) == s.lastAppliedRecords
                 else Shown(env, steps, worlds, n, CompileMatchExpr(env.grammar, s.submittedDsl).value, Effective(s))
  {
    RunIsConsistent(env, steps, worlds, n);
    RunIsAccounted(env, steps, worlds, n);
    hide CompileMatchExpr, Trim, Shown, Explained, Run, RunsInOrder, CacheSourced;
  }
}
