/** What the cached facts and the list on display owe to the records as they are now: once no watcher and no
    timer is outstanding, the list shown is that of the current records which the expression describes. */
module TrafficFilterFresh {
  import opened Wrappers
  import opened Text
  import opened DslAst
  import opened ExprParser
  import opened Masking
  import opened Eval
  import opened Compile
  import opened CompileMeaning
  import opened TrafficRecords
  import opened TrafficFilter
  import opened TrafficFilterRuns
  import TraceWindow

  // ---- A sound cache ----

  predicate TellsNow(env: Env, view: View, key: FactsKey, facts: RequestFacts) {
    && key.id in view
    && CacheKey(key.id, view[key.id]) == key
    && facts == Facts(env, view[key.id])
  }

  /** Whatever is cached is what would be computed from the records by trace. */
  ghost predicate CacheSound(env: Env, view: View, cache: FactsCache) {
    forall key | key in cache :: TellsNow(env, view, key, cache[key])
  }

  /** What is cached under the key of a current record is what would be computed from it. */
  ghost predicate CacheTells(env: Env, view: View, cache: FactsCache) {
    forall id | id in view :: FactsUsed(env, cache, id, view[id]) == Facts(env, view[id])
  }

  lemma SoundTells(env: Env, view: View, cache: FactsCache)
    requires CacheSound(env, view, cache)
    ensures CacheTells(env, view, cache)
  {
    hide Facts;
    forall id | id in view ensures FactsUsed(env, cache, id, view[id]) == Facts(env, view[id]) {
      KeyHasId(id, view[id]);
      var key := CacheKey(id, view[id]);
      assert key in cache ==> TellsNow(env, view, key, cache[key]);
    }
  }

  lemma CachingKeepsSound(env: Env, view: View, cache: FactsCache, id: string)
    requires CacheSound(env, view, cache) && id in view
    ensures CacheSound(env, view, cache[CacheKey(id, view[id]) := Facts(env, view[id])])
  {
    hide Facts;
    KeyHasId(id, view[id]);
    var key, facts := CacheKey(id, view[id]), Facts(env, view[id]);
    hide CacheKey;
    assert TellsNow(env, view, key, facts);
    var cache' := cache[key := facts];
    forall other | other in cache' ensures TellsNow(env, view, other, cache'[other]) {
    }
  }

  lemma CachingKeepsTelling(env: Env, view: View, cache: FactsCache, id: string)
    requires CacheTells(env, view, cache) && id in view
    ensures CacheTells(env, view, cache[CacheKey(id, view[id]) := Facts(env, view[id])])
  {
    hide Facts;
    forall other | other in view ensures CacheKey(other, view[other]).id == other {
      KeyHasId(other, view[other]);
    }
    hide CacheKey;
    var cache' := cache[CacheKey(id, view[id]) := Facts(env, view[id])];
    forall other | other in view ensures FactsUsed(env, cache', other, view[other]) == Facts(env, view[other]) {
      assert FactsUsed(env, cache, other, view[other]) == Facts(env, view[other]);
    }
  }

  lemma SiftOneIsFilter(env: Env, program: MatchProgram, view: View, so: Sifted, record: TrafficRecord)
    requires CacheTells(env, view, so.cache)
    ensures var so' := SiftOne(env, program, view, so, record);
            && so'.kept == so.kept + (if Accepts(env, program, view, record) then [record] else [])
            && CacheTells(env, view, so'.cache)
            && (CacheSound(env, view, so.cache) ==> CacheSound(env, view, so'.cache))
  {
    hide CacheSound, FactsUsed, EvalProgram, Facts, CacheKey;
    if record.id in view {
      CachingKeepsTelling(env, view, so.cache, record.id);
      if CacheSound(env, view, so.cache) {
        CachingKeepsSound(env, view, so.cache, record.id);
      }
    } else {
      assert so.kept + [] == so.kept;
    }
  }

  /** With a cache that tells the records' facts, sifting is plain filtering; and the cache stays such a one. */
  lemma {:induction false} SiftIsFilter(env: Env, program: MatchProgram, view: View, so: Sifted,
                                        records: seq<TrafficRecord>)
    requires CacheTells(env, view, so.cache)
    ensures var so' := Sift(env, program, view, so, records);
            && so'.kept == so.kept + Filter(env, program, view, records)
            && CacheTells(env, view, so'.cache)
            && (CacheSound(env, view, so.cache) ==> CacheSound(env, view, so'.cache))
  {
    hide CacheSound, CacheTells, SiftOne, Accepts;
    if records == [] {
      assert so.kept + [] == so.kept;
    } else {
      var front, last := records[..|records| - 1], records[|records| - 1];
      SiftIsFilter(env, program, view, so, front);
      SiftOneIsFilter(env, program, view, Sift(env, program, view, so, front), last);
      var more := if Accepts(env, program, view, last) then [last] else [];
      assert so.kept + Filter(env, program, view, front) + more == so.kept + (Filter(env, program, view, front) + more);
    }
  }

  lemma {:induction false} FilterConcat(env: Env, program: MatchProgram, view: View, a: seq<TrafficRecord>,
                                        b: seq<TrafficRecord>)
    ensures Filter(env, program, view, a + b) == Filter(env, program, view, a) + Filter(env, program, view, b)
  {
    hide Accepts;
    if b == [] {
      assert a + b == a;
      assert Filter(env, program, view, a) + [] == Filter(env, program, view, a);
    } else {
      var front, last := b[..|b| - 1], b[|b| - 1];
      FilterConcat(env, program, view, a, front);
      assert (a + b)[..|a + b| - 1] == a + front && (a + b)[|a + b| - 1] == last;
      var more := if Accepts(env, program, view, last) then [last] else [];
      assert Filter(env, program, view, a) + Filter(env, program, view, front) + more ==
             Filter(env, program, view, a) + (Filter(env, program, view, front) + more);
    }
  }

  // ---- In step with the records ----

  /** A run of the current records, judged so far as plain filtering judges them. */
  predicate InStep(env: Env, s: State, run: Suspended) {
    && run.detached.None? && run.records == s.trafficRecords && run.next <= |run.records|
    && run.matched == Filter(env, run.program, s.recordsByTrace, run.records[..run.next])
  }

  /** The runs under way are in step, and a list at rest is filtered by plain filtering. */
  predicate Fresh(env: Env, s: State) {
    && (forall i | 0 <= i < |s.suspended| && IsCurrent(s.suspended[i], s) :: InStep(env, s, s.suspended[i]))
    && (s.compiledProgram.Some? && !s.isApplyingFilter ==>
          s.filteredRecords == Filter(env, s.compiledProgram.value, s.recordsByTrace, s.trafficRecords))
  }

  /** Something has yet to run that will filter anew. */
  predicate Due(w: World) {
    w.s.timerPending || w.recordsWatch || w.factsWatch
  }

  predicate NoneDetached(s: State) {
    forall i | 0 <= i < |s.suspended| && IsCurrent(s.suspended[i], s) :: s.suspended[i].detached.None?
  }

  /** The cache is sound or about to be emptied, and no run under way reads replaced records. */
  ghost predicate CacheKept(env: Env, s: State, emptied: bool) {
    NoneDetached(s) && (emptied || CacheSound(env, s.recordsByTrace, s.factsCache))
  }

  ghost predicate DisplayKept(env: Env, s: State, due: bool) {
    s.filterState == Valid ==> due || Fresh(env, s)
  }

  /** The records by trace are never replaced as a whole while a run is under way. */
  predicate ReplacedAtRest(steps: seq<Step>, worlds: seq<World>, n: nat)
    requires n <= |steps| && |worlds| == |steps| + 1
  {
    forall i | 0 <= i < n && steps[i].Replaces? :: !worlds[i].s.isApplyingFilter
  }

  predicate Mounted(steps: seq<Step>, n: nat)
    requires n <= |steps|
  {
    forall i | 0 <= i < n :: !steps[i].Unmounts?
  }

  // ---- One chunk ----

  lemma SiftChunkIsFilter(env: Env, s: State, run: Suspended)
    requires CacheTells(env, s.recordsByTrace, s.factsCache) && run.detached.None? && run.next < |run.records|
    ensures CacheSound(env, s.recordsByTrace, s.factsCache) ==>
              CacheSound(env, s.recordsByTrace, SiftChunk(env, s, run).cache)
    ensures InStep(env, s, run) ==>
              InStep(env, s.(factsCache := SiftChunk(env, s, run).cache),
                     run.(matched := SiftChunk(env, s, run).kept, next := ChunkEnd(run)))
  {
    hide CacheSound, CacheTells, Sift, Filter;
    var view, end := s.recordsByTrace, ChunkEnd(run);
    var chunk := run.records[run.next..end];
    SiftIsFilter(env, run.program, view, Sifted(run.matched, s.factsCache), chunk);
    FilterConcat(env, run.program, view, run.records[..run.next], chunk);
    assert run.records[..run.next] + chunk == run.records[..end];
  }

  /** A run that goes on keeps the cache sound. */
  lemma AdvanceKeepsCache(env: Env, s: State, run: Suspended, emptied: bool)
    requires CacheKept(env, s, emptied) && run.detached.None?
    ensures CacheKept(env, Advance(env, s, run), emptied)
  {
    hide CacheSound, CacheTells, SiftChunk;
    AdvanceUnfolds(env, s, run);
    hide Advance;
    if run.next < |run.records| && !emptied {
      SoundTells(env, s.recordsByTrace, s.factsCache);
      SiftChunkIsFilter(env, s, run);
    }
  }

  lemma PublishIsFresh(env: Env, s: State, run: Suspended)
    requires AllSuperseded(s) && IsCurrent(run, s) && Serves(run, s)
    requires InStep(env, s, run) && run.next >= |run.records|
    ensures Fresh(env, Publish(s, run))
  {
    hide Filter;
    assert run.records[..run.next] == run.records;
  }

  lemma SuspendIsFresh(env: Env, s: State, run: Suspended)
    requires AllSuperseded(s) && IsCurrent(run, s) && Serves(run, s) && InStep(env, s, run)
    ensures Fresh(env, s.(suspended := s.suspended + [run]))
  {
    hide Filter;
  }

  /** A run in step stays so, or ends with plain filtering on display. */
  lemma AdvanceIsFresh(env: Env, s: State, run: Suspended)
    requires AllSuperseded(s) && IsCurrent(run, s) && Serves(run, s)
    requires CacheTells(env, s.recordsByTrace, s.factsCache) && InStep(env, s, run)
    ensures Fresh(env, Advance(env, s, run))
  {
    hide CacheSound, CacheTells, SiftChunk, InStep, Publish, Advance, Fresh;
    InStepUnfolds(env, s, run);
    AdvanceUnfolds(env, s, run);
    if run.next >= |run.records| {
      PublishIsFresh(env, s, run);
    } else {
      SiftChunkIsFilter(env, s, run);
      var so := SiftChunk(env, s, run);
      var further, s' := run.(matched := so.kept, next := ChunkEnd(run)), s.(factsCache := so.cache);
      if further.next < |run.records| {
        SuspendIsFresh(env, s', further);
      } else {
        PublishIsFresh(env, s', further);
      }
    }
  }

  lemma InStepUnfolds(env: Env, s: State, run: Suspended)
    requires InStep(env, s, run)
    ensures run.detached.None? && run.next <= |run.records|
  {
    hide Filter;
  }

  // ---- Each operation ----

  lemma RunApplyKeepsCache(env: Env, s0: State, emptied: bool)
    requires Compiled(env, s0) && CacheKept(env, s0, emptied) && NotAhead(s0)
    ensures CacheKept(env, RunApply(env, s0), emptied)
  {
    hide CacheSound, Advance, CompileMatchExpr, Trim, RunApply;
    RunApplyUnfolds(env, s0);
    var s := s0.(generation := s0.generation + 1);
    if s.filterState == Valid {
      var run := Suspended(s.generation, s.submittedDsl, s.trafficRecords, s.compiledProgram.value, 0, [], None);
      AdvanceKeepsCache(env, s.(isApplyingFilter := true), run, emptied);
    }
  }

  predicate NotAhead(s: State) {
    forall i | 0 <= i < |s.suspended| :: s.suspended[i].generation <= s.generation
  }

  lemma OrderedIsNotAhead(s: State)
    requires RunsInOrder(s)
    ensures NotAhead(s)
  {
  }

  /** A run that starts is in step; it shows plain filtering, unless something is due anyway. */
  lemma RunApplyKeepsDisplay(env: Env, s0: State, due: bool)
    requires Compiled(env, s0) && RunsInOrder(s0)
    requires due || CacheTells(env, s0.recordsByTrace, s0.factsCache)
    ensures DisplayKept(env, RunApply(env, s0), due)
  {
    hide CacheTells, Advance, CompileMatchExpr, Trim, RunApply, Filter, Fresh;
    RunApplyUnfolds(env, s0);
    var s := s0.(generation := s0.generation + 1);
    if s.filterState == Valid && !due {
      var run := Suspended(s.generation, s.submittedDsl, s.trafficRecords, s.compiledProgram.value, 0, [], None);
      var s' := s.(isApplyingFilter := true);
      StartsInStep(env, s', run);
      AdvanceIsFresh(env, s', run);
    }
  }

  lemma StartsInStep(env: Env, s: State, run: Suspended)
    requires run.detached.None? && run.records == s.trafficRecords && run.next == 0 && run.matched == []
    ensures InStep(env, s, run)
  {
    assert run.records[..0] == [];
  }

  lemma SubmitKeepsCache(env: Env, s0: State, source: string, emptied: bool)
    requires Consistent(env, s0) && CacheKept(env, s0, emptied)
    ensures CacheKept(env, Submit(env, s0, source), emptied)
  {
    hide RunApply, CompileMatchExpr, Trim, CacheSound, Submit;
    TrimIdempotent(source);
    SubmitUnfolds(env, s0, source);
    var trimmed := Trim(source);
    var s := s0.(timerPending := false, submittedDsl := trimmed, generation := s0.generation + 1,
                 isApplyingFilter := false);
    if trimmed != "" && CompileMatchExpr(env.grammar, trimmed).Ok? {
      var program := CompileMatchExpr(env.grammar, trimmed).value;
      RunApplyKeepsCache(env, s.(compiledProgram := Some(program), filterState := Valid, filterError := None), emptied);
    }
  }

  lemma SubmitKeepsDisplay(env: Env, s0: State, source: string, due: bool)
    requires Consistent(env, s0) && (due || CacheTells(env, s0.recordsByTrace, s0.factsCache))
    ensures DisplayKept(env, Submit(env, s0, source), due)
  {
    hide RunApply, CompileMatchExpr, Trim, CacheTells, Fresh, Submit;
    TrimIdempotent(source);
    SubmitUnfolds(env, s0, source);
    var trimmed := Trim(source);
    var s := s0.(timerPending := false, submittedDsl := trimmed, generation := s0.generation + 1,
                 isApplyingFilter := false);
    if trimmed != "" && CompileMatchExpr(env.grammar, trimmed).Ok? {
      var program := CompileMatchExpr(env.grammar, trimmed).value;
      RunApplyKeepsDisplay(env, s.(compiledProgram := Some(program), filterState := Valid, filterError := None), due);
    }
  }

  lemma TimerKeepsCache(env: Env, s: State, emptied: bool)
    requires Consistent(env, s) && s.timerPending && CacheKept(env, s, emptied)
    ensures CacheKept(env, FireTimer(env, s), emptied)
  {
    ConsistentCompiled(env, s);
    OrderedIsNotAhead(s);
    hide RunApply, Compiled, CacheSound, RunsInOrder, Settled;
    RunApplyKeepsCache(env, s.(timerPending := false), emptied);
  }

  lemma TimerKeepsDisplay(env: Env, s: State, due: bool)
    requires Consistent(env, s) && s.timerPending
    requires due || CacheTells(env, s.recordsByTrace, s.factsCache)
    ensures DisplayKept(env, FireTimer(env, s), due)
  {
    ConsistentCompiled(env, s);
    hide RunApply, Compiled, CacheTells, Fresh;
    RunApplyKeepsDisplay(env, s.(timerPending := false), due);
  }

  lemma ResumeKeepsCache(env: Env, s: State, k: nat, emptied: bool)
    requires Consistent(env, s) && k < |s.suspended| && CacheKept(env, s, emptied)
    ensures CacheKept(env, Resume(env, s, k), emptied)
  {
    hide Advance, Compiled, CacheSound, RunsInOrder;
    var rest, run := s.(suspended := s.suspended[..k] + s.suspended[k + 1..]), s.suspended[k];
    assert CacheKept(env, rest, emptied);
    if IsCurrent(run, rest) {
      AdvanceKeepsCache(env, rest, run, emptied);
    } else {
      SupersededDoesNothing(env, rest, run);
    }
  }

  lemma ResumeKeepsDisplay(env: Env, s: State, k: nat, due: bool)
    requires Consistent(env, s) && k < |s.suspended| && DisplayKept(env, s, due)
    requires due || CacheTells(env, s.recordsByTrace, s.factsCache)
    ensures DisplayKept(env, Resume(env, s, k), due)
  {
    hide Advance, Compiled, CacheTells, InStep, RunsInOrder, Filter;
    var rest, run := s.(suspended := s.suspended[..k] + s.suspended[k + 1..]), s.suspended[k];
    WithoutRun(env, s, k);
    InStepIgnoresRuns(env, s, rest);
    assert DisplayKept(env, rest, due);
    if IsCurrent(run, rest) {
      if !due {
        AdvanceIsFresh(env, rest, run);
      }
    } else {
      SupersededDoesNothing(env, rest, run);
    }
  }

  lemma InStepIgnoresRuns(env: Env, s: State, s': State)
    requires s' == s.(suspended := s'.suspended)
    ensures forall run :: InStep(env, s, run) <==> InStep(env, s', run)
  {
    hide Filter;
  }

  // ---- The changes of the records ----

  lemma {:induction false} SameFilter(env: Env, program: MatchProgram, view: View, view': View,
                                      records: seq<TrafficRecord>)
    requires forall id | id in view :: id in view' && SameParts(view[id], view'[id])
    requires forall r | r in records && r.id in view' :: r.id in view
    ensures Filter(env, program, view', records) == Filter(env, program, view, records)
  {
    hide EvalProgram;
    if records != [] {
      var front, last := records[..|records| - 1], records[|records| - 1];
      assert forall r | r in front :: r in records;
      SameFilter(env, program, view, view', front);
      assert last in records;
    }
  }

  /** What the store leaves unannounced is quiet: a patch that touches nothing the list shows, of a trace
      that has a record or is not listed. */
  lemma UnannouncedIsQuiet(s: State, id: string, patch: PartialRecord)
    requires !TraceWindow.PatchTouchesTrafficList(patch)
    requires id in s.recordsByTrace || forall r | r in s.trafficRecords :: r.id != id
    ensures var record := TraceWindow.MergePartialRequestRecord(TraceWindow.RecordOf(s.recordsByTrace, id), patch);
            IsQuiet(s, s.recordsByTrace[id := record])
  {
  }

  lemma QuietKeepsCache(env: Env, s: State, view: View)
    requires IsQuiet(s, view) && CacheSound(env, s.recordsByTrace, s.factsCache)
    ensures CacheSound(env, view, s.factsCache)
  {
    forall key | key in s.factsCache ensures TellsNow(env, view, key, s.factsCache[key]) {
      assert TellsNow(env, s.recordsByTrace, key, s.factsCache[key]);
    }
  }

  lemma QuietKeepsStep(env: Env, s: State, view: View, run: Suspended)
    requires IsQuiet(s, view) && InStep(env, s, run)
    ensures InStep(env, s.(recordsByTrace := view), run)
  {
    hide Filter, SameParts;
    SameFilter(env, run.program, s.recordsByTrace, view, run.records[..run.next]);
  }

  lemma QuietKeepsFresh(env: Env, s: State, view: View)
    requires IsQuiet(s, view) && Fresh(env, s)
    ensures Fresh(env, s.(recordsByTrace := view))
  {
    hide InStep, SameParts, Filter;
    if s.compiledProgram.Some? {
      SameFilter(env, s.compiledProgram.value, s.recordsByTrace, view, s.trafficRecords);
    }
    forall i | 0 <= i < |s.suspended| && IsCurrent(s.suspended[i], s)
      ensures InStep(env, s.(recordsByTrace := view), s.suspended[i])
    {
      QuietKeepsStep(env, s, view, s.suspended[i]);
    }
  }

  lemma ScheduleUnfolds(s: State)
    ensures Schedule(s) == s.(timerPending := Schedule(s).timerPending)
    ensures s.timerPending ==> Schedule(s).timerPending
    ensures s.filterState == Valid && s.compiledProgram.Some? && Trim(s.submittedDsl) != "" ==>
              Schedule(s).timerPending
  {
    hide Trim;
  }

  lemma ValidIsScheduled(env: Env, s: State)
    requires Consistent(env, s) && s.filterState == Valid
    ensures Schedule(s).timerPending
  {
    hide Trim, CompileMatchExpr, RunsInOrder, Settled;
  }

  lemma RestHasNoRuns(env: Env, s: State, i: nat)
    requires Consistent(env, s) && !s.isApplyingFilter && i < |s.suspended|
    ensures !IsCurrent(s.suspended[i], s)
  {
    hide Compiled, Settled;
  }

  // ---- Every step ----

  lemma ReplacingKeepsCache(env: Env, s: State, view: View)
    requires Consistent(env, s) && CacheKept(env, s, true) && !s.isApplyingFilter
    ensures CacheKept(env, ReplaceRecords(s, view), true)
  {
    hide CacheSound, Consistent;
    forall i | 0 <= i < |s.suspended| ensures !IsCurrent(s.suspended[i], s) {
      RestHasNoRuns(env, s, i);
    }
  }

  lemma WatcherKeepsCache(env: Env, s: State, emptied: bool)
    requires CacheKept(env, s, emptied)
    ensures CacheKept(env, Schedule(s), emptied) && CacheKept(env, ForgetFacts(s), false)
  {
    ScheduleUnfolds(s);
    ScheduleUnfolds(s.(factsCache := map[]));
    hide Schedule, Trim;
  }

  /** The steps that read no records. */
  lemma QuietStepKeepsCache(env: Env, step: Step, w: World, w': World)
    requires StepTo(env, step, w, w') && Consistent(env, w.s) && CacheKept(env, w.s, w.factsWatch)
    requires !step.Submits? && !step.TimerFires? && !step.Resumes?
    requires step.Replaces? ==> !w.s.isApplyingFilter
    ensures CacheKept(env, w'.s, w'.factsWatch)
  {
    hide CacheSound, IsQuiet, Schedule, ForgetFacts, ReplaceRecords, Consistent, InStep;
    match step
    case QuietChange(view) =>
      if !w.factsWatch {
        QuietKeepsCache(env, w.s, view);
      }
    case Replaces(view) => ReplacingKeepsCache(env, w.s, view);
    case RecordsWatcher => WatcherKeepsCache(env, w.s, w.factsWatch);
    case FactsWatcher => WatcherKeepsCache(env, w.s, w.factsWatch);
    case Unmounts => UnmountingLeavesNone(env, w.s);
    case _ =>
  }

  lemma UnmountingLeavesNone(env: Env, s: State)
    requires Consistent(env, s)
    ensures NoneDetached(Unmount(s))
  {
    hide Compiled, Settled;
  }

  lemma QuietStepKeepsDisplay(env: Env, step: Step, w: World, w': World)
    requires StepTo(env, step, w, w') && Consistent(env, w.s) && DisplayKept(env, w.s, Due(w))
    requires !step.Submits? && !step.TimerFires? && !step.Resumes? && !step.Unmounts?
    ensures DisplayKept(env, w'.s, Due(w'))
  {
    hide Fresh, IsQuiet, Schedule, Consistent, InStep;
    ScheduleUnfolds(w.s);
    ScheduleUnfolds(w.s.(factsCache := map[]));
    match step
    case QuietChange(view) =>
      if w.s.filterState == Valid && !Due(w) {
        QuietKeepsFresh(env, w.s, view);
      }
    case RecordsWatcher =>
      if w.s.filterState == Valid {
        ValidIsScheduled(env, w.s);
      }
    case FactsWatcher =>
      if w.s.filterState == Valid {
        ForgettingIsScheduled(env, w.s);
      }
    case _ =>
  }

  lemma ForgettingIsScheduled(env: Env, s: State)
    requires Consistent(env, s) && s.filterState == Valid
    ensures ForgetFacts(s).timerPending
  {
    hide Trim, CompileMatchExpr, RunsInOrder, Settled;
  }

  lemma StepKeepsCache(env: Env, step: Step, w: World, w': World)
    requires StepTo(env, step, w, w') && Consistent(env, w.s) && CacheKept(env, w.s, w.factsWatch)
    requires step.Replaces? ==> !w.s.isApplyingFilter
    ensures CacheKept(env, w'.s, w'.factsWatch)
  {
    hide *;
    BusyStep(env, step, w, w');
    if step.Submits? {
      SubmitKeepsCache(env, w.s, step.source, w.factsWatch);
    } else if step.TimerFires? {
      TimerKeepsCache(env, w.s, w.factsWatch);
    } else if step.Resumes? {
      ResumeKeepsCache(env, w.s, step.k, w.factsWatch);
    } else {
      QuietStepKeepsCache(env, step, w, w');
    }
  }

  lemma StepKeepsDisplay(env: Env, step: Step, w: World, w': World)
    requires StepTo(env, step, w, w') && Consistent(env, w.s) && DisplayKept(env, w.s, Due(w)) && !step.Unmounts?
    requires w.factsWatch || CacheTells(env, w.s.recordsByTrace, w.s.factsCache)
    ensures DisplayKept(env, w'.s, Due(w'))
  {
    hide *;
    BusyStep(env, step, w, w');
    if step.Submits? || step.TimerFires? || step.Resumes? {
      BusyDue(env, step, w, w');
    }
    if step.Submits? {
      SubmitKeepsDisplay(env, w.s, step.source, Due(w'));
    } else if step.TimerFires? {
      TimerKeepsDisplay(env, w.s, Due(w'));
    } else if step.Resumes? {
      ResumeKeepsDisplay(env, w.s, step.k, Due(w'));
    } else {
      QuietStepKeepsDisplay(env, step, w, w');
    }
  }

  /** The steps that read records leave the watchers to run, and resuming leaves the timer too. */
  lemma BusyDue(env: Env, step: Step, w: World, w': World)
    requires StepTo(env, step, w, w') && (step.Submits? || step.TimerFires? || step.Resumes?)
    ensures w.factsWatch ==> Due(w')
    ensures step.Resumes? ==> (Due(w') <==> Due(w))
  {
    hide Submit, FireTimer, Sift;
  }

  lemma {:induction false} RunKeepsCache(env: Env, steps: seq<Step>, worlds: seq<World>, n: nat)
    requires Run(env, steps, worlds) && n <= |steps|
    requires |worlds| == |steps| + 1 && ReplacedAtRest(steps, worlds, n)
    ensures CacheKept(env, worlds[n].s, worlds[n].factsWatch)
    decreases n
  {
    hide *;
    RunStart(env, steps, worlds);
    if n == 0 {
      StartKept(env, worlds[0].s);
    } else {
      RestBefore(steps, worlds, n);
      RunStep(env, steps, worlds, n - 1);
      RunIsConsistent(env, steps, worlds, n - 1);
      RunKeepsCache(env, steps, worlds, n - 1);
      StepKeepsCache(env, steps[n - 1], worlds[n - 1], worlds[n]);
    }
  }

  lemma StartKept(env: Env, s: State)
    requires s == Initial(s.trafficRecords, s.recordsByTrace)
    ensures CacheKept(env, s, false) && DisplayKept(env, s, false)
  {
  }

  lemma RestBefore(steps: seq<Step>, worlds: seq<World>, n: nat)
    requires 0 < n <= |steps| && |worlds| == |steps| + 1 && ReplacedAtRest(steps, worlds, n)
    ensures ReplacedAtRest(steps, worlds, n - 1)
    ensures steps[n - 1].Replaces? ==> !worlds[n - 1].s.isApplyingFilter
  {
  }

  /** Before every step the cache tells the facts of the records, or is about to be emptied. */
  ghost predicate ToldThroughout(env: Env, worlds: seq<World>, n: nat)
    requires n <= |worlds|
  {
    forall i | 0 <= i < n ::
      worlds[i].factsWatch || CacheTells(env, worlds[i].s.recordsByTrace, worlds[i].s.factsCache)
  }

  lemma {:induction false} RunKeepsDisplay(env: Env, steps: seq<Step>, worlds: seq<World>, n: nat)
    requires Run(env, steps, worlds) && n <= |steps|
    requires |worlds| == |steps| + 1 && ToldThroughout(env, worlds, n) && Mounted(steps, n)
    ensures DisplayKept(env, worlds[n].s, Due(worlds[n]))
    decreases n
  {
    hide *;
    RunStart(env, steps, worlds);
    if n == 0 {
      StartKept(env, worlds[0].s);
      LessKept(env, worlds[0].s, Due(worlds[0]));
    } else {
      MountedBefore(steps, n);
      ToldBefore(env, worlds, n);
      RunStep(env, steps, worlds, n - 1);
      RunIsConsistent(env, steps, worlds, n - 1);
      RunKeepsDisplay(env, steps, worlds, n - 1);
      StepKeepsDisplay(env, steps[n - 1], worlds[n - 1], worlds[n]);
    }
  }

  lemma ToldBefore(env: Env, worlds: seq<World>, n: nat)
    requires 0 < n <= |worlds| && ToldThroughout(env, worlds, n)
    ensures ToldThroughout(env, worlds, n - 1)
    ensures worlds[n - 1].factsWatch ||
            CacheTells(env, worlds[n - 1].s.recordsByTrace, worlds[n - 1].s.factsCache)
  {
    hide CacheTells;
  }

  lemma LessKept(env: Env, s: State, due: bool)
    requires DisplayKept(env, s, false)
    ensures DisplayKept(env, s, due)
  {
    hide Fresh;
  }

  lemma MountedBefore(steps: seq<Step>, n: nat)
    requires 0 < n <= |steps| && Mounted(steps, n)
    ensures Mounted(steps, n - 1) && !steps[n - 1].Unmounts?
  {
  }

  // ---- Verdicts and the display ----

  /** With no watcher of the records by trace outstanding, every record would be judged by its facts as they
      are now, whatever the cache holds. */
  lemma VerdictIsCurrent(env: Env, steps: seq<Step>, worlds: seq<World>, n: nat, id: string)
    requires Run(env, steps, worlds) && n <= |steps|
    requires |worlds| == |steps| + 1 && ReplacedAtRest(steps, worlds, n)
    requires !worlds[n].factsWatch && id in worlds[n].s.recordsByTrace
    ensures var s := worlds[n].s;
            FactsUsed(env, s.factsCache, id, s.recordsByTrace[id]) == Facts(env, s.recordsByTrace[id])
  {
    hide *;
    RunKeepsCache(env, steps, worlds, n);
    KeptIsSound(env, worlds[n].s);
    SoundTells(env, worlds[n].s.recordsByTrace, worlds[n].s.factsCache);
    Told(env, worlds[n].s, id);
  }

  lemma KeptIsSound(env: Env, s: State)
    requires CacheKept(env, s, false)
    ensures CacheSound(env, s.recordsByTrace, s.factsCache)
  {
    hide CacheSound;
  }

  lemma Told(env: Env, s: State, id: string)
    requires CacheTells(env, s.recordsByTrace, s.factsCache) && id in s.recordsByTrace
    ensures FactsUsed(env, s.factsCache, id, s.recordsByTrace[id]) == Facts(env, s.recordsByTrace[id])
  {
    hide FactsUsed, Facts;
  }

  lemma RestShowsFilter(env: Env, s: State)
    requires Consistent(env, s) && DisplayKept(env, s, false) && s.filterState == Valid && !s.isApplyingFilter
    ensures CompileMatchExpr(env.grammar, s.submittedDsl).Ok?
    ensures Effective(s) == Filter(env, CompileMatchExpr(env.grammar, s.submittedDsl).value, s.recordsByTrace,
                                   s.trafficRecords)
  {
    hide Filter, CompileMatchExpr, Trim, RunsInOrder, InStep;
  }

  // ---- What plain filtering means ----

  /** The view has the record, and the expression describes its facts. */
  ghost predicate Describes(env: Env, dsl: string, view: View, record: TrafficRecord) {
    && record.id in view
    && ParsesToExpr(env.grammar, dsl)
    && OrMeans(ParseProgram(env.grammar, dsl).value.expr.value.or, Facts(env, view[record.id]))
  }

  /** The plain filter keeps exactly the records whose facts the submitted expression describes. */
  lemma {:induction false} FilterMeansExpression(env: Env, dsl: string, program: MatchProgram, view: View,
                                                 records: seq<TrafficRecord>, record: TrafficRecord)
    requires CompileMatchExpr(env.grammar, dsl) == Ok(program)
    ensures record in Filter(env, program, view, records) <==>
            record in records && Describes(env, dsl, view, record)
  {
    hide CompileMatchExpr, Accepts, Describes;
    if records != [] {
      var last := records[|records| - 1];
      FilterMeansExpression(env, dsl, program, view, records[..|records| - 1], record);
      AcceptsMeansExpression(env, dsl, program, view, last);
      assert records == records[..|records| - 1] + [last];
    }
  }

  lemma AcceptsMeansExpression(env: Env, dsl: string, program: MatchProgram, view: View, record: TrafficRecord)
    requires CompileMatchExpr(env.grammar, dsl) == Ok(program)
    ensures Accepts(env, program, view, record) <==> Describes(env, dsl, view, record)
  {
    CompiledMeansSource(env.grammar, dsl, program);
    hide ParsesToExpr, OrMeans, EvalProgram, CompileMatchExpr, Facts;
  }

  // ---- What a key tells ----

  /** A row whose text shows where its name ends and where the row ends. */
  predicate ClearRow(row: (string, string)) {
    ':' !in row.0 && '\n' !in row.0 && '\n' !in row.1
  }

  predicate ClearRows(rows: seq<(string, string)>) {
    forall i | 0 <= i < |rows| :: ClearRow(rows[i])
  }

  predicate Clear(record: PartialRecord) {
    record.requestHeaders.Some? ==> ClearRows(record.requestHeaders.value)
  }

  /** No url is as good as an empty one, and no headers as good as an empty list. */
  ghost predicate AbsentLikeEmpty(env: Env) {
    && (forall verb, headers :: env.base(None, verb, headers) == env.base(Some(""), verb, headers))
    && forall url, verb :: env.base(url, verb, None) == env.base(url, verb, Some([]))
  }

  lemma NotShorter(c: char, x: string, t: string, y: string, u: string)
    requires c !in y && (t == "" || t[0] == c) && x + t == y + u
    ensures |y| <= |x|
  {
    assert |x + t| == |x| + |t| && |y + u| == |y| + |u|;
    assert t != "" ==> (x + t)[|x|] == c;
    assert forall i | 0 <= i < |y| :: (y + u)[i] == y[i] != c;
  }

  lemma CutAt(c: char, x: string, t: string, y: string, u: string)
    requires c !in x && c !in y && (t == "" || t[0] == c) && (u == "" || u[0] == c)
    requires x + t == y + u
    ensures x == y && t == u
  {
    NotShorter(c, x, t, y, u);
    NotShorter(c, y, u, x, t);
    assert x == (x + t)[..|x|] && y == (y + u)[..|y|];
    assert t == (x + t)[|x|..] && u == (y + u)[|y|..];
  }

  function RowText(row: (string, string)): string {
    row.0 + (":" + row.1)
  }

  lemma RowCut(a: (string, string), restA: string, b: (string, string), restB: string)
    requires ClearRow(a) && ClearRow(b) && RowText(a) + restA == RowText(b) + restB
    requires (restA == "" || restA[0] == '\n') && (restB == "" || restB[0] == '\n')
    ensures a == b && restA == restB
  {
    CutAt('\n', RowText(a), restA, RowText(b), restB);
    CutAt(':', a.0, ":" + a.1, b.0, ":" + b.1);
    assert (":" + a.1)[1..] == a.1 && (":" + b.1)[1..] == b.1;
  }

  function RestOf(rows: seq<(string, string)>): string
    requires rows != []
  {
    if |rows| == 1 then "" else "\n" + JoinRows(rows[1..])
  }

  lemma RowsUnfold(rows: seq<(string, string)>)
    requires rows != []
    ensures JoinRows(rows) == RowText(rows[0]) + RestOf(rows)
    ensures RestOf(rows) == "" || RestOf(rows)[0] == '\n'
    ensures |JoinRows(rows)| > 0
  {
    assert RowText(rows[0]) == rows[0].0 + ":" + rows[0].1;
    assert RowText(rows[0]) + "" == RowText(rows[0]);
    assert RowText(rows[0]) + ("\n" + JoinRows(rows[1..])) == RowText(rows[0]) + "\n" + JoinRows(rows[1..]);
  }

  lemma RestIsJoined(a: seq<(string, string)>, b: seq<(string, string)>)
    requires a != [] && b != [] && RestOf(a) == RestOf(b)
    ensures JoinRows(a[1..]) == JoinRows(b[1..]) && (|a| == 1 <==> |b| == 1)
  {
    assert |a| > 1 ==> RestOf(a)[1..] == JoinRows(a[1..]);
    assert |b| > 1 ==> RestOf(b)[1..] == JoinRows(b[1..]);
  }

  lemma {:induction false} RowsInjective(a: seq<(string, string)>, b: seq<(string, string)>)
    requires ClearRows(a) && ClearRows(b) && JoinRows(a) == JoinRows(b)
    ensures a == b
  {
    hide ClearRow, RowText, RestOf;
    if a != [] && b != [] {
      RowsUnfold(a);
      RowsUnfold(b);
      hide JoinRows;
      RowCut(a[0], RestOf(a), b[0], RestOf(b));
      RestIsJoined(a, b);
      RowsInjective(a[1..], b[1..]);
      assert a == [a[0]] + a[1..] && b == [b[0]] + b[1..];
    } else {
      NoRows(a);
      NoRows(b);
    }
  }

  lemma NoRows(rows: seq<(string, string)>)
    ensures rows == [] <==> JoinRows(rows) == ""
  {
    if rows != [] {
      RowsUnfold(rows);
    }
  }

  /** Records of one trace with the same key have the same facts if and only if they state the same method:
      the one pair of methods that a key confuses is a missing and an empty one. */
  lemma KeyTellsFacts(env: Env, id: string, a: PartialRecord, b: PartialRecord)
    requires AbsentLikeEmpty(env) && Clear(a) && Clear(b) && CacheKey(id, a) == CacheKey(id, b)
    ensures Facts(env, a) == Facts(env, b) <==> a.verb == b.verb
    ensures a.verb != b.verb ==> (a.verb.None? && b.verb == Some("")) || (a.verb == Some("") && b.verb.None?)
  {
    var rowsA := if a.requestHeaders.Some? then a.requestHeaders.value else [];
    var rowsB := if b.requestHeaders.Some? then b.requestHeaders.value else [];
    RowsInjective(rowsA, rowsB);
    if a.verb == b.verb {
      SameBase(env, a, b);
    }
    assert Upper("") == "" && Upper("GET") == "GET";
  }

  lemma SameBase(env: Env, a: PartialRecord, b: PartialRecord)
    requires AbsentLikeEmpty(env) && a.verb == b.verb && TextOf(a.url) == TextOf(b.url)
    requires (if a.requestHeaders.Some? then a.requestHeaders.value else []) ==
             if b.requestHeaders.Some? then b.requestHeaders.value else []
    ensures env.base(a.url, a.verb, a.requestHeaders) == env.base(b.url, b.verb, b.requestHeaders)
  {
    BaseOfParts(env, a);
    BaseOfParts(env, b);
  }

  lemma BaseOfParts(env: Env, a: PartialRecord)
    requires AbsentLikeEmpty(env)
    ensures env.base(a.url, a.verb, a.requestHeaders) ==
            env.base(Some(TextOf(a.url)), a.verb,
                     Some(if a.requestHeaders.Some? then a.requestHeaders.value else []))
  {
  }

  predicate PlainView(view: View) {
    forall id | id in view :: Clear(view[id]) && view[id].verb != Some("")
  }

  /** No step before the nth reads a record with an empty method or with rows that run together. */
  predicate PlainRun(steps: seq<Step>, worlds: seq<World>, n: nat)
    requires n <= |steps| && |worlds| == |steps| + 1
  {
    forall i | 0 <= i < n && ViewRead(steps[i], worlds[i].s).Some? :: PlainView(ViewRead(steps[i], worlds[i].s).value)
  }

  /** Where no record has an empty method, every verdict is that of the record as it is, even if the watcher
      of the records by trace never runs. */
  lemma VerdictNeedsNoWatcher(env: Env, steps: seq<Step>, worlds: seq<World>, n: nat, id: string)
    requires Run(env, steps, worlds) && n <= |steps| && |worlds| == |steps| + 1 && AbsentLikeEmpty(env)
    requires PlainRun(steps, worlds, n) && PlainView(worlds[n].s.recordsByTrace) && id in worlds[n].s.recordsByTrace
    ensures var s := worlds[n].s;
            FactsUsed(env, s.factsCache, id, s.recordsByTrace[id]) == Facts(env, s.recordsByTrace[id])
  {
    hide *;
    RunIsAccounted(env, steps, worlds, n);
    var record := worlds[n].s.recordsByTrace[id];
    KeyHasId(id, record);
    UsedUnfolds(env, worlds[n].s.factsCache, id, record);
    var key := CacheKey(id, record);
    if key in worlds[n].s.factsCache {
      var i := SourceOf(env, steps, worlds, n, key);
      PlainRecord(steps, worlds, n, i, id);
      PlainHas(worlds[n].s.recordsByTrace, id);
      KeyTellsFacts(env, id, ViewRead(steps[i], worlds[i].s).value[id], record);
    }
  }

  lemma UsedUnfolds(env: Env, cache: FactsCache, id: string, record: PartialRecord)
    ensures CacheKey(id, record) !in cache ==> FactsUsed(env, cache, id, record) == Facts(env, record)
    ensures CacheKey(id, record) in cache ==> FactsUsed(env, cache, id, record) == cache[CacheKey(id, record)]
  {
    hide Facts, CacheKey;
  }

  lemma SourceOf(env: Env, steps: seq<Step>, worlds: seq<World>, n: nat, key: FactsKey) returns (i: nat)
    requires n <= |steps| && |worlds| == |steps| + 1 && key in worlds[n].s.factsCache
    requires CacheSourced(env, steps, worlds, LastForgotten(steps, n), n, worlds[n].s.factsCache)
    ensures i < n && ViewRead(steps[i], worlds[i].s).Some? && key.id in ViewRead(steps[i], worlds[i].s).value
    ensures var record := ViewRead(steps[i], worlds[i].s).value[key.id];
            CacheKey(key.id, record) == key && worlds[n].s.factsCache[key] == Facts(env, record)
  {
    hide Facts, CacheKey, ViewRead;
    assert Sourced(env, steps, worlds, LastForgotten(steps, n), n, key, worlds[n].s.factsCache[key]);
    i :| LastForgotten(steps, n) <= i < n &&
         Tells(env, ViewRead(steps[i], worlds[i].s), key, worlds[n].s.factsCache[key]);
  }

  lemma PlainHas(view: View, id: string)
    requires PlainView(view) && id in view
    ensures Clear(view[id]) && view[id].verb != Some("")
  {
    hide Clear;
  }

  lemma PlainRecord(steps: seq<Step>, worlds: seq<World>, n: nat, i: nat, id: string)
    requires n <= |steps| && |worlds| == |steps| + 1 && PlainRun(steps, worlds, n) && i < n
    requires ViewRead(steps[i], worlds[i].s).Some? && id in ViewRead(steps[i], worlds[i].s).value
    ensures var record := ViewRead(steps[i], worlds[i].s).value[id]; Clear(record) && record.verb != Some("")
  {
    hide Clear, ViewRead;
    PlainHas(ViewRead(steps[i], worlds[i].s).value, id);
  }

  lemma OneSifted(env: Env, s: State, run: Suspended)
    requires s.factsCache == map[] && run.next == 0 && |run.records| == 1 && run.detached.None?
    requires run.records[0].id in s.recordsByTrace
    ensures var id := run.records[0].id;
            SiftChunk(env, s, run).cache == map[CacheKey(id, s.recordsByTrace[id]) := Facts(env, s.recordsByTrace[id])]
  {
    hide Facts, CacheKey, EvalProgram;
    var record := run.records[0];
    assert run.records[0..1] == [record] && [record][..0] == [];
    assert Sift(env, run.program, s.recordsByTrace, Sifted(run.matched, map[]), [record]) ==
           SiftOne(env, run.program, s.recordsByTrace, Sifted(run.matched, map[]), record);
  }

  lemma FirstSubmission(env: Env, source: string, s0: State)
    requires CompileMatchExpr(env.grammar, Trim(source)).Ok? && Trim(source) != ""
    requires |s0.trafficRecords| == 1 && s0.trafficRecords[0].id in s0.recordsByTrace && s0.factsCache == map[]
    ensures var id := s0.trafficRecords[0].id;
            && Submit(env, s0, source).factsCache ==
               map[CacheKey(id, s0.recordsByTrace[id]) := Facts(env, s0.recordsByTrace[id])]
            && Submit(env, s0, source).trafficRecords == s0.trafficRecords
            && Submit(env, s0, source).recordsByTrace == s0.recordsByTrace
  {
    hide *;
    TrimIdempotent(source);
    SubmitUnfolds(env, s0, source);
    var program := CompileMatchExpr(env.grammar, Trim(source)).value;
    var s := s0.(timerPending := false, submittedDsl := Trim(source), generation := s0.generation + 1,
                 isApplyingFilter := false, compiledProgram := Some(program), filterState := Valid,
                 filterError := None);
    RunApplyUnfolds(env, s);
    var s' := s.(generation := s.generation + 1, isApplyingFilter := true);
    var run := Suspended(s'.generation, Trim(source), s.trafficRecords, program, 0, [], None);
    OneSifted(env, s', run);
    OnlyRun(env, s', run);
  }

  lemma OnlyRun(env: Env, s: State, run: Suspended)
    requires run.next == 0 && |run.records| == 1 && run.generation == s.generation
    ensures var s' := Advance(env, s, run);
            && s'.factsCache == SiftChunk(env, s, run).cache
            && s'.trafficRecords == s.trafficRecords && s'.recordsByTrace == s.recordsByTrace
  {
    hide Sift;
  }

  /** A method that turns from missing to empty before the watcher runs: whatever was submitted, the record's
      verdict is still that of a GET request. */
  lemma EmptyMethodStale(env: Env, source: string, record: TrafficRecord, partialRecord: PartialRecord, w: World)
    requires CompileMatchExpr(env.grammar, Trim(source)).Ok? && Trim(source) != "" && partialRecord.verb == None
    requires w == World(Initial([record], map[record.id := partialRecord]), false, false)
    ensures var view' := map[record.id := partialRecord.(verb := Some(""))];
            var submitted := w.(s := Submit(env, w.s, source));
            var changed := submitted.(s := submitted.s.(recordsByTrace := view'), factsWatch := true);
            && Run(env, [Submits(source), FactsChange(view')], [w, submitted, changed])
            && FactsUsed(env, changed.s.factsCache, record.id, view'[record.id]).verb == "GET"
            && Facts(env, view'[record.id]).verb == ""
  {
    hide CompileMatchExpr, Trim, Submit;
    FirstSubmission(env, source, w.s);
    assert Upper("GET") == "GET" && Upper("") == "";
    assert CacheKey(record.id, partialRecord) == CacheKey(record.id, partialRecord.(verb := Some("")));
  }

  // ---- The list on display is that of the current records ----

  ghost predicate PlainThroughout(env: Env, steps: seq<Step>, worlds: seq<World>, n: nat)
    requires n <= |steps| && |worlds| == |steps| + 1
  {
    && AbsentLikeEmpty(env)
    && PlainRun(steps, worlds, n)
    && forall i | 0 <= i <= n :: PlainView(worlds[i].s.recordsByTrace)
  }

  lemma RestEarlier(steps: seq<Step>, worlds: seq<World>, n: nat, i: nat)
    requires i <= n <= |steps| && |worlds| == |steps| + 1 && ReplacedAtRest(steps, worlds, n)
    ensures ReplacedAtRest(steps, worlds, i)
  {
  }

  lemma PlainEarlier(env: Env, steps: seq<Step>, worlds: seq<World>, n: nat, i: nat)
    requires i <= n <= |steps| && |worlds| == |steps| + 1 && PlainThroughout(env, steps, worlds, n)
    ensures AbsentLikeEmpty(env) && PlainRun(steps, worlds, i) && PlainView(worlds[i].s.recordsByTrace)
  {
    hide AbsentLikeEmpty, PlainView, ViewRead;
  }

  lemma WorldTells(env: Env, steps: seq<Step>, worlds: seq<World>, n: nat, i: nat)
    requires Run(env, steps, worlds) && i <= n <= |steps| && |worlds| == |steps| + 1
    requires ReplacedAtRest(steps, worlds, n) || PlainThroughout(env, steps, worlds, n)
    ensures worlds[i].factsWatch || CacheTells(env, worlds[i].s.recordsByTrace, worlds[i].s.factsCache)
  {
    hide *;
    if ReplacedAtRest(steps, worlds, n) {
      RestEarlier(steps, worlds, n, i);
      RunKeepsCache(env, steps, worlds, i);
      if !worlds[i].factsWatch {
        KeptIsSound(env, worlds[i].s);
        SoundTells(env, worlds[i].s.recordsByTrace, worlds[i].s.factsCache);
      }
    } else {
      PlainEarlier(env, steps, worlds, n, i);
      forall id | id in worlds[i].s.recordsByTrace
        ensures FactsUsed(env, worlds[i].s.factsCache, id, worlds[i].s.recordsByTrace[id]) ==
                Facts(env, worlds[i].s.recordsByTrace[id])
      {
        VerdictNeedsNoWatcher(env, steps, worlds, i, id);
      }
      AllTold(env, worlds[i].s);
    }
  }

  lemma AllTold(env: Env, s: State)
    requires forall id | id in s.recordsByTrace ::
               FactsUsed(env, s.factsCache, id, s.recordsByTrace[id]) == Facts(env, s.recordsByTrace[id])
    ensures CacheTells(env, s.recordsByTrace, s.factsCache)
  {
    hide FactsUsed, Facts;
  }

  lemma RunTells(env: Env, steps: seq<Step>, worlds: seq<World>, n: nat)
    requires Run(env, steps, worlds) && n <= |steps| && |worlds| == |steps| + 1
    requires ReplacedAtRest(steps, worlds, n) || PlainThroughout(env, steps, worlds, n)
    ensures ToldThroughout(env, worlds, n)
  {
    hide CacheTells, Run, ReplacedAtRest, PlainThroughout;
    forall i | 0 <= i < n
      ensures worlds[i].factsWatch || CacheTells(env, worlds[i].s.recordsByTrace, worlds[i].s.factsCache)
    {
      WorldTells(env, steps, worlds, n, i);
    }
  }

  /** A valid filter at rest, with no watcher and no timer outstanding, shows the current records that the
      submitted expression describes, in their order. The records must not have been replaced as a whole during
      a run, or there was never an empty method. */
  lemma FreshAtRest(env: Env, steps: seq<Step>, worlds: seq<World>, n: nat)
    requires Run(env, steps, worlds) && n <= |steps|
    requires |worlds| == |steps| + 1 && Mounted(steps, n)
    requires ReplacedAtRest(steps, worlds, n) || PlainThroughout(env, steps, worlds, n)
    requires worlds[n].s.filterState == Valid && !worlds[n].s.isApplyingFilter && !Due(worlds[n])
    ensures var s := worlds[n].s;
            && CompileMatchExpr(env.grammar, s.submittedDsl).Ok?
            && Effective(s) == Filter(env, CompileMatchExpr(env.grammar, s.submittedDsl).value, s.recordsByTrace,
                                      s.trafficRecords)
            && forall record :: record in Effective(s) <==>
                 record in s.trafficRecords && Describes(env, s.submittedDsl, s.recordsByTrace, record)
  {
    hide *;
    var s := worlds[n].s;
    RunIsConsistent(env, steps, worlds, n);
    RunTells(env, steps, worlds, n);
    RunKeepsDisplay(env, steps, worlds, n);
    RestShowsFilter(env, s);
    var program := CompileMatchExpr(env.grammar, s.submittedDsl).value;
    forall record
      ensures record in Effective(s) <==>
              record in s.trafficRecords && Describes(env, s.submittedDsl, s.recordsByTrace, record)
    {
      FilterMeansExpression(env, s.submittedDsl, program, s.recordsByTrace, s.trafficRecords, record);
    }
  }
}
