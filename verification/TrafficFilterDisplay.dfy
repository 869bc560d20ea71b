/** What the filter shows while a run is under way, what error it tells, and that a run under way comes to its
    end. */
module TrafficFilterDisplay {
  import opened Wrappers
  import opened Text
  import opened Compile
  import opened TrafficRecords
  import opened TrafficFilter
  import opened TrafficFilterRuns
  import Fresh = TrafficFilterFresh

  // ---- The list shown last ----

  /** The step took up a filter and came to rest with it. */
  predicate Finishes(step: Step, w: World, w': World) {
    && (step.Submits? || step.TimerFires? || (step.Resumes? && w.s.isApplyingFilter))
    && w'.s.filterState == Valid && !w'.s.isApplyingFilter
  }

  predicate Clears(step: Step, w': World) {
    (step.Submits? || step.TimerFires?) && w'.s.submittedDsl == ""
  }

  predicate Publishes(step: Step, w: World, w': World) {
    Finishes(step, w, w') || Clears(step, w')
  }

  /** The world right after the last finished run or clearing, or the first. */
  function LastPublished(steps: seq<Step>, worlds: seq<World>, n: nat): (m: nat)
    requires n <= |steps| && |worlds| == |steps| + 1
    ensures m <= n
  {
    if n == 0 then 0
    else if Publishes(steps[n - 1], worlds[n - 1], worlds[n]) then n
    else LastPublished(steps, worlds, n - 1)
  }

  predicate ListsAre(s: State, list: seq<TrafficRecord>) {
    s.filteredRecords == list && s.lastAppliedRecords == list
  }

  /** Neither list changed, and the state came to no rest; or both are the list on display. */
  predicate ListsAfter(published: bool, s: State, s': State) {
    if published then ListsAre(s', Effective(s'))
    else s'.filteredRecords == s.filteredRecords && s'.lastAppliedRecords == s.lastAppliedRecords
  }

  lemma AdvanceLists(env: Env, s: State, run: Suspended)
    requires Compiled(env, s) && AllSuperseded(s) && IsCurrent(run, s) && Serves(run, s)
    ensures var s' := Advance(env, s, run);
            s'.filterState == Valid && s'.submittedDsl == s.submittedDsl && ListsAfter(!s'.isApplyingFilter, s, s')
  {
    hide SiftChunk, CompileMatchExpr, Trim;
    AdvanceUnfolds(env, s, run);
    hide Advance;
  }

  lemma RunApplyLists(env: Env, s0: State)
    requires Compiled(env, s0) && RunsInOrder(s0)
    ensures var s' := RunApply(env, s0);
            && s'.submittedDsl == s0.submittedDsl
            && ListsAfter((s'.filterState == Valid && !s'.isApplyingFilter) || s'.submittedDsl == "", s0, s')
  {
    hide Advance, CompileMatchExpr, Trim, RunApply;
    RunApplyUnfolds(env, s0);
    var s := s0.(generation := s0.generation + 1);
    if s.filterState == Valid {
      var run := Suspended(s.generation, s.submittedDsl, s.trafficRecords, s.compiledProgram.value, 0, [], None);
      AdvanceLists(env, s.(isApplyingFilter := true), run);
    }
  }

  lemma SubmitLists(env: Env, s0: State, source: string)
    requires Consistent(env, s0)
    ensures var s' := Submit(env, s0, source);
            ListsAfter((s'.filterState == Valid && !s'.isApplyingFilter) || s'.submittedDsl == "", s0, s')
  {
    hide RunApply, CompileMatchExpr, Trim, Submit;
    TrimIdempotent(source);
    SubmitUnfolds(env, s0, source);
    var trimmed := Trim(source);
    var s := s0.(timerPending := false, submittedDsl := trimmed, generation := s0.generation + 1,
                 isApplyingFilter := false);
    if trimmed != "" && CompileMatchExpr(env.grammar, trimmed).Ok? {
      var program := CompileMatchExpr(env.grammar, trimmed).value;
      RunApplyLists(env, s.(compiledProgram := Some(program), filterState := Valid, filterError := None));
    }
  }

  lemma TimerLists(env: Env, s: State)
    requires Consistent(env, s) && s.timerPending
    ensures var s' := FireTimer(env, s);
            ListsAfter((s'.filterState == Valid && !s'.isApplyingFilter) || s'.submittedDsl == "", s, s')
  {
    ConsistentCompiled(env, s);
    hide RunApply, Compiled, Trim;
    RunApplyLists(env, s.(timerPending := false));
  }

  lemma ResumeLists(env: Env, s: State, k: nat)
    requires Consistent(env, s) && k < |s.suspended|
    ensures var s' := Resume(env, s, k);
            ListsAfter(s.isApplyingFilter && s'.filterState == Valid && !s'.isApplyingFilter, s, s')
  {
    hide Advance, Compiled, RunsInOrder, Trim;
    var rest, run := s.(suspended := s.suspended[..k] + s.suspended[k + 1..]), s.suspended[k];
    WithoutRun(env, s, k);
    if IsCurrent(run, rest) {
      AdvanceLists(env, rest, run);
    } else {
      SupersededDoesNothing(env, rest, run);
    }
  }

  lemma StepLists(env: Env, step: Step, w: World, w': World)
    requires Consistent(env, w.s) && StepTo(env, step, w, w')
    ensures ListsAfter(Publishes(step, w, w'), w.s, w'.s)
  {
    hide Consistent, Submit, FireTimer, Resume, Schedule, ListsAfter, Effective;
    match step
    case Submits(source) => SubmitLists(env, w.s, source);
    case TimerFires => TimerLists(env, w.s);
    case Resumes(k) =>
      ResumeLists(env, w.s, k);
    case _ => QuietLists(env, step, w, w');
  }

  lemma QuietLists(env: Env, step: Step, w: World, w': World)
    requires StepTo(env, step, w, w') && !step.Submits? && !step.TimerFires? && !step.Resumes?
    ensures ListsAfter(false, w.s, w'.s)
  {
    hide Trim, IsQuiet;
  }

  /** Both lists kept are the one on display when the last run finished, or when the filter was last cleared. */
  lemma {:induction false} ListsAreLast(env: Env, steps: seq<Step>, worlds: seq<World>, n: nat)
    requires Run(env, steps, worlds) && n <= |steps| && |worlds| == |steps| + 1
    ensures var m := LastPublished(steps, worlds, n);
            ListsAre(worlds[n].s, if m == 0 then [] else Effective(worlds[m].s))
    decreases n
  {
    hide StepTo, Effective, Consistent, Publishes;
    RunStart(env, steps, worlds);
    if n > 0 {
      ListsAreLast(env, steps, worlds, n - 1);
      RunIsConsistent(env, steps, worlds, n - 1);
      RunStep(env, steps, worlds, n - 1);
      StepLists(env, steps[n - 1], worlds[n - 1], worlds[n]);
    }
    hide Run;
  }

  /** While a run is under way the display is what it was right after the last finished run or clearing: all the
      records there were, or some record list filtered by the program that the expression then in force compiles
      to. Before the first it is empty. */
  lemma DisplayDuringRun(env: Env, steps: seq<Step>, worlds: seq<World>, n: nat)
    requires Run(env, steps, worlds) && n <= |steps| && |worlds| == |steps| + 1
    requires worlds[n].s.filterState == Valid && worlds[n].s.isApplyingFilter
    ensures var m := LastPublished(steps, worlds, n);
            if m == 0 then Effective(worlds[n].s) == []
            else
              var s := worlds[m].s;
              && Effective(worlds[n].s) == Effective(s)
              && if s.submittedDsl == "" then Effective(s) == s.trafficRecords
                 else
                   && CompileMatchExpr(env.grammar, s.submittedDsl).Ok?
                   && Shown(env, steps, worlds, m, CompileMatchExpr(env.grammar, s.submittedDsl).value, Effective(s))
  {
    hide *;
    var m := LastPublished(steps, worlds, n);
    ListsAreLast(env, steps, worlds, n);
    DisplayIsFilter(env, steps, worlds, n);
    ListsUnfold(worlds[n].s, if m == 0 then [] else Effective(worlds[m].s));
    if m > 0 {
      LastIsPublished(steps, worlds, n);
      PublishedRests(steps[m - 1], worlds[m - 1], worlds[m]);
      RunIsConsistent(env, steps, worlds, m);
      BlankIsIdle(env, worlds[m].s);
      DisplayIsFilter(env, steps, worlds, m);
    }
  }

  lemma ListsUnfold(s: State, list: seq<TrafficRecord>)
    requires ListsAre(s, list)
    ensures s.lastAppliedRecords == list
  {
  }

  lemma {:induction false} LastIsPublished(steps: seq<Step>, worlds: seq<World>, n: nat)
    requires n <= |steps| && |worlds| == |steps| + 1 && LastPublished(steps, worlds, n) > 0
    ensures var m := LastPublished(steps, worlds, n); Publishes(steps[m - 1], worlds[m - 1], worlds[m])
    decreases n
  {
    hide Publishes;
    if n > 0 && !Publishes(steps[n - 1], worlds[n - 1], worlds[n]) {
      LastIsPublished(steps, worlds, n - 1);
    }
  }

  lemma PublishedRests(step: Step, w: World, w': World)
    requires Publishes(step, w, w')
    ensures w'.s.submittedDsl == "" || (w'.s.filterState == Valid && !w'.s.isApplyingFilter)
  {
  }

  lemma BlankIsIdle(env: Env, s: State)
    requires Consistent(env, s)
    ensures s.submittedDsl == "" <==> s.filterState == Idle
  {
    hide Trim, CompileMatchExpr, RunsInOrder, Settled;
  }

  // ---- The error told ----

  /** An invalid filter tells the error of its expression, and no other filter tells any. */
  predicate ErrorTold(env: Env, s: State) {
    match s.filterState
    case Invalid =>
      CompileMatchExpr(env.grammar, s.submittedDsl).Err? &&
      s.filterError == Some(CompileMatchExpr(env.grammar, s.submittedDsl).error)
    case _ => s.filterError == None
  }

  lemma AdvanceTells(env: Env, s: State, run: Suspended)
    ensures var s' := Advance(env, s, run);
            s'.filterState == s.filterState && s'.submittedDsl == s.submittedDsl && s'.filterError == s.filterError
  {
    hide Sift;
  }

  lemma RunApplyTells(env: Env, s: State)
    ensures var s' := RunApply(env, s);
            s'.filterState == s.filterState && s'.submittedDsl == s.submittedDsl && s'.filterError == s.filterError
  {
    RunApplyUnfolds(env, s);
    hide Advance, RunApply, Trim;
    var trimmed := Trim(s.submittedDsl);
    if trimmed != "" && s.filterState == Valid && s.compiledProgram.Some? {
      var s' := s.(generation := s.generation + 1, isApplyingFilter := true);
      AdvanceTells(
        env, s', Suspended(s'.generation, trimmed, s.trafficRecords, s.compiledProgram.value, 0, [], None));
    }
  }

  lemma SubmitTells(env: Env, s0: State, source: string)
    ensures ErrorTold(env, Submit(env, s0, source))
  {
    SubmitUnfolds(env, s0, source);
    hide Submit, RunApply, CompileMatchExpr, Trim;
    var trimmed := Trim(source);
    var s := s0.(timerPending := false, submittedDsl := trimmed, generation := s0.generation + 1,
                 isApplyingFilter := false);
    if trimmed != "" && CompileMatchExpr(env.grammar, trimmed).Ok? {
      var program := CompileMatchExpr(env.grammar, trimmed).value;
      RunApplyTells(env, s.(compiledProgram := Some(program), filterState := Valid, filterError := None));
    }
  }

  lemma StepTells(env: Env, step: Step, w: World, w': World)
    requires StepTo(env, step, w, w') && ErrorTold(env, w.s)
    ensures ErrorTold(env, w'.s)
  {
    hide Submit, RunApply, Advance, Trim, CompileMatchExpr, IsQuiet;
    match step
    case Submits(source) => SubmitTells(env, w.s, source);
    case TimerFires => RunApplyTells(env, w.s.(timerPending := false));
    case Resumes(k) =>
      AdvanceTells(env, w.s.(suspended := w.s.suspended[..k] + w.s.suspended[k + 1..]), w.s.suspended[k]);
    case _ =>
  }

  lemma {:induction false} ErrorIsTold(env: Env, steps: seq<Step>, worlds: seq<World>, n: nat)
    requires Run(env, steps, worlds) && n <= |steps| && |worlds| == |steps| + 1
    ensures ErrorTold(env, worlds[n].s)
    decreases n
  {
    hide StepTo, CompileMatchExpr;
    RunStart(env, steps, worlds);
    if n > 0 {
      ErrorIsTold(env, steps, worlds, n - 1);
      RunStep(env, steps, worlds, n - 1);
      StepTells(env, steps[n - 1], worlds[n - 1], worlds[n]);
    }
    hide Run;
  }

  // ---- Runs come to their end ----

  predicate IsUnderWay(s: State, k: nat) {
    k < |s.suspended| && IsCurrent(s.suspended[k], s) && s.suspended[k].next < |s.suspended[k].records|
  }

  /** A filter that is being applied has a run that will go on. */
  predicate SomeUnderWay(s: State) {
    s.isApplyingFilter ==> exists k | 0 <= k < |s.suspended| :: IsUnderWay(s, k)
  }

  lemma AdvanceUnderWay(env: Env, s: State, run: Suspended)
    requires IsCurrent(run, s)
    ensures SomeUnderWay(Advance(env, s, run))
  {
    hide SiftChunk;
    AdvanceUnfolds(env, s, run);
    var s' := Advance(env, s, run);
    hide Advance;
    if s'.isApplyingFilter {
      assert IsUnderWay(s', |s.suspended|);
    }
  }

  lemma RunApplyUnderWay(env: Env, s0: State)
    ensures SomeUnderWay(RunApply(env, s0))
  {
    RunApplyUnfolds(env, s0);
    hide Advance, RunApply, Trim;
    var s := s0.(generation := s0.generation + 1);
    if Trim(s.submittedDsl) != "" && s.filterState == Valid && s.compiledProgram.Some? {
      AdvanceUnderWay(
        env, s.(isApplyingFilter := true),
        Suspended(s.generation, Trim(s.submittedDsl), s.trafficRecords, s.compiledProgram.value, 0, [], None));
    }
  }

  lemma SubmitUnderWay(env: Env, s0: State, source: string)
    ensures SomeUnderWay(Submit(env, s0, source))
  {
    SubmitUnfolds(env, s0, source);
    hide Submit, RunApply, CompileMatchExpr, Trim;
    var trimmed := Trim(source);
    var s := s0.(timerPending := false, submittedDsl := trimmed, generation := s0.generation + 1,
                 isApplyingFilter := false);
    if trimmed != "" && CompileMatchExpr(env.grammar, trimmed).Ok? {
      var program := CompileMatchExpr(env.grammar, trimmed).value;
      RunApplyUnderWay(env, s.(compiledProgram := Some(program), filterState := Valid, filterError := None));
    }
  }

  lemma ResumeUnderWay(env: Env, s: State, k: nat)
    requires k < |s.suspended| && SomeUnderWay(s)
    ensures SomeUnderWay(Resume(env, s, k))
  {
    hide Advance;
    var rest, run := s.(suspended := s.suspended[..k] + s.suspended[k + 1..]), s.suspended[k];
    if IsCurrent(run, rest) {
      AdvanceUnderWay(env, rest, run);
    } else {
      SupersededDoesNothing(env, rest, run);
      if s.isApplyingFilter {
        var j :| 0 <= j < |s.suspended| && IsUnderWay(s, j);
        assert IsUnderWay(rest, if j < k then j else j - 1);
      }
    }
  }

  lemma StepUnderWay(env: Env, step: Step, w: World, w': World)
    requires StepTo(env, step, w, w') && SomeUnderWay(w.s) && !step.Unmounts?
    ensures SomeUnderWay(w'.s)
  {
    hide Submit, RunApply, Resume, Trim, IsQuiet;
    match step
    case Submits(source) => SubmitUnderWay(env, w.s, source);
    case TimerFires => RunApplyUnderWay(env, w.s.(timerPending := false));
    case Resumes(k) => ResumeUnderWay(env, w.s, k);
    case _ => QuietUnderWay(w.s, w'.s);
  }

  /** The same runs but for where they read. */
  lemma QuietUnderWay(s: State, s': State)
    requires SomeUnderWay(s)
    ensures SameOrder(s, s') && s'.generation == s.generation ==> SomeUnderWay(s')
  {
    if SameOrder(s, s') && s'.generation == s.generation && s.isApplyingFilter {
      var k :| 0 <= k < |s.suspended| && IsUnderWay(s, k);
      assert IsUnderWay(s', k);
    }
  }

  /** A filter never hangs: while it is being applied, and the component is there, a run of it is under way. */
  lemma {:induction false} NeverHangs(env: Env, steps: seq<Step>, worlds: seq<World>, n: nat)
    requires Run(env, steps, worlds) && n <= |steps| && |worlds| == |steps| + 1 && Fresh.Mounted(steps, n)
    ensures SomeUnderWay(worlds[n].s)
    decreases n
  {
    hide StepTo, IsUnderWay;
    RunStart(env, steps, worlds);
    if n > 0 {
      Fresh.MountedBefore(steps, n);
      NeverHangs(env, steps, worlds, n - 1);
      RunStep(env, steps, worlds, n - 1);
      StepUnderWay(env, steps[n - 1], worlds[n - 1], worlds[n]);
    }
    hide Run;
  }

  /** Taken up again, it gets four hundred records further, or to its end, and then comes to rest. */
  lemma RunGetsOn(env: Env, s: State, k: nat)
    requires Consistent(env, s) && IsUnderWay(s, k)
    ensures var run, s' := s.suspended[k], Resume(env, s, k);
            if run.next + 400 >= |run.records| then !s'.isApplyingFilter && s'.appliedForDsl == run.dsl
            else
              && s'.isApplyingFilter && s'.suspended != []
              && var again := s'.suspended[|s'.suspended| - 1];
                 IsCurrent(again, s') && again.records == run.records && again.next == run.next + 400
  {
    hide SiftChunk, CompileMatchExpr, Trim;
    var rest, run := s.(suspended := s.suspended[..k] + s.suspended[k + 1..]), s.suspended[k];
    WithoutRun(env, s, k);
    AdvanceUnfolds(env, rest, run);
    hide Advance, Compiled, RunsInOrder;
  }
}
