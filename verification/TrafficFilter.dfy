/** The traffic list's filter. A submitted expression is compiled and applied to the records in chunks;
    between chunks anything may happen, and a newer run supersedes the older ones. The match engine is
    loaded. */
module TrafficFilter {
  import opened Wrappers
  import opened Text
  import opened DslAst
  import opened Eval
  import opened Compile
  import opened TrafficRecords

  const EVAL_CHUNK_SIZE := 400

  type View = map<string, PartialRecord>

  type HeaderRows = Option<seq<(string, string)>>

  /** The leaf grammar, and the facts that url, method and headers give the evaluator. */
  datatype Env = Env(grammar: LeafGrammar, base: (Option<string>, Option<string>, HeaderRows) -> RequestFacts)

  /** A record's facts. A missing method counts as GET. */
  function Facts(env: Env, record: PartialRecord): RequestFacts {
    env.base(record.url, record.verb, record.requestHeaders)
      .(verb := Upper(if record.verb.Some? then record.verb.value else "GET"))
  }

  // ---- The key that facts are cached under: a missing part counts as an empty one ----

  datatype FactsKey = FactsKey(id: string, url: string, verb: string, headers: string)

  function TextOf(part: Option<string>): string {
    if part.Some? then part.value else ""
  }

  function JoinRows(rows: seq<(string, string)>): string {
    if rows == [] then ""
    else if |rows| == 1 then rows[0].0 + ":" + rows[0].1
    else rows[0].0 + ":" + rows[0].1 + "\n" + JoinRows(rows[1..])
  }

  function CacheKey(id: string, record: PartialRecord): FactsKey {
    FactsKey(id, TextOf(record.url), TextOf(record.verb),
             if record.requestHeaders.Some? then JoinRows(record.requestHeaders.value) else "")
  }

  type FactsCache = map<FactsKey, RequestFacts>

  /** The facts that a record is judged by: the cached ones, if its key has any. */
  function FactsUsed(env: Env, cache: FactsCache, id: string, record: PartialRecord): RequestFacts {
    if CacheKey(id, record) in cache then cache[CacheKey(id, record)] else Facts(env, record)
  }

  datatype FilterState = Idle | Loading | Valid | Invalid

  /** A run that waits for the main thread before it goes on at record `next`. It reads the records by
      trace as they are when it goes on, or, once they have been replaced as a whole, as they last were. */
  datatype Suspended = Suspended(
    generation: nat,
    dsl: string,
    records: seq<TrafficRecord>,
    program: MatchProgram,
    next: nat,
    matched: seq<TrafficRecord>,
    detached: Option<View>)

  datatype State = State(
    filterState: FilterState,
    filterError: Option<CompileError>,
    submittedDsl: string,
    compiledProgram: Option<MatchProgram>,
    filteredRecords: seq<TrafficRecord>,
    lastAppliedRecords: seq<TrafficRecord>,
    appliedForDsl: string,
    isApplyingFilter: bool,
    generation: nat,
    timerPending: bool,
    suspended: seq<Suspended>,
    trafficRecords: seq<TrafficRecord>,
    recordsByTrace: View,
    factsCache: FactsCache)

  // ---- Filtering ----

  /** What filtering should keep: the records whose facts the program accepts. */
  predicate Accepts(env: Env, program: MatchProgram, view: View, record: TrafficRecord) {
    record.id in view && EvalProgram(program, Facts(env, view[record.id]))
  }

  function Filter(env: Env, program: MatchProgram, view: View, records: seq<TrafficRecord>): seq<TrafficRecord> {
    if records == [] then []
    else
      var last := records[|records| - 1];
      Filter(env, program, view, records[..|records| - 1]) + if Accepts(env, program, view, last) then [last] else []
  }

  datatype Sifted = Sifted(kept: seq<TrafficRecord>, cache: FactsCache)

  /** What filtering keeps, and the cache it leaves. */
  function SiftOne(env: Env, program: MatchProgram, view: View, so: Sifted, record: TrafficRecord): Sifted {
    if record.id !in view then so
    else
      var facts := FactsUsed(env, so.cache, record.id, view[record.id]);
      Sifted(so.kept + if EvalProgram(program, facts) then [record] else [],
             so.cache[CacheKey(record.id, view[record.id]) := facts])
  }

  function Sift(env: Env, program: MatchProgram, view: View, so: Sifted, records: seq<TrafficRecord>): Sifted {
    if records == [] then so
    else
      SiftOne(env, program, view, Sift(env, program, view, so, records[..|records| - 1]), records[|records| - 1])
  }

  // ---- One step of the state ----

  function Min(a: nat, b: nat): nat {
    if a < b then a else b
  }

  function SyncUnfiltered(s: State): State {
    s.(filteredRecords := s.trafficRecords, lastAppliedRecords := s.trafficRecords, appliedForDsl := "")
  }

  /** The end of a run: nothing is shown of one that was superseded. */
  function Publish(s: State, run: Suspended): State {
    if run.generation != s.generation then s
    else s.(filteredRecords := run.matched, lastAppliedRecords := run.matched, appliedForDsl := run.dsl,
            isApplyingFilter := false)
  }

  function RunView(s: State, run: Suspended): View {
    if run.detached.Some? then run.detached.value else s.recordsByTrace
  }

  function ChunkEnd(run: Suspended): nat {
    Min(run.next + EVAL_CHUNK_SIZE, |run.records|)
  }

  /** The run after its next chunk, and the cache. */
  function SiftChunk(env: Env, s: State, run: Suspended): Sifted
    requires run.next <= |run.records|
  {
    Sift(env, run.program, RunView(s, run), Sifted(run.matched, s.factsCache), run.records[run.next..ChunkEnd(run)])
  }

  /** A run goes on for one chunk. */
  function Advance(env: Env, s: State, run: Suspended): State {
    if run.next >= |run.records| then Publish(s, run)
    else if run.generation != s.generation then s
    else
      var sifted := SiftChunk(env, s, run);
      var further := run.(matched := sifted.kept, next := ChunkEnd(run));
      var s' := s.(factsCache := sifted.cache);
      if further.next < |run.records| then s'.(suspended := s'.suspended + [further]) else Publish(s', further)
  }

  function RunApply(env: Env, s0: State): State {
    var s := s0.(generation := s0.generation + 1);
    var trimmed := Trim(s.submittedDsl);
    if trimmed == "" then SyncUnfiltered(s.(isApplyingFilter := false))
    else if s.filterState != Valid || s.compiledProgram.None? then s.(isApplyingFilter := false)
    else
      Advance(env, s.(isApplyingFilter := true),
              Suspended(s.generation, trimmed, s.trafficRecords, s.compiledProgram.value, 0, [], None))
  }

  function Submit(env: Env, s0: State, source: string): State {
    var trimmed := Trim(source);
    var s := s0.(timerPending := false, submittedDsl := trimmed);
    if trimmed == "" then
      SyncUnfiltered(
        s.(generation := s.generation + 1, compiledProgram := None, filterState := Idle, filterError := None,
           isApplyingFilter := false))
    else
      match CompileMatchExpr(env.grammar, trimmed)
      case Err(error) =>
        s.(generation := s.generation + 1, compiledProgram := None, filterState := Invalid, filterError := Some(error),
           isApplyingFilter := false, appliedForDsl := trimmed)
      case Ok(program) =>
        RunApply(env,
                 s.(generation := s.generation + 1, compiledProgram := Some(program), filterState := Valid,
                    filterError := None, isApplyingFilter := false))
  }

  /** Both watchers ask for a later run, unless no valid filter is active. */
  function Schedule(s: State): State {
    if Trim(s.submittedDsl) == "" || s.filterState != Valid || s.compiledProgram.None? then s
    else s.(timerPending := true)
  }

  /** The watcher of the records by trace: no cached facts are kept. */
  function ForgetFacts(s: State): State {
    Schedule(s.(factsCache := map[]))
  }

  function FireTimer(env: Env, s: State): State
    requires s.timerPending
  {
    RunApply(env, s.(timerPending := false))
  }

  function Resume(env: Env, s: State, k: nat): State
    requires k < |s.suspended|
  {
    Advance(env, s.(suspended := s.suspended[..k] + s.suspended[k + 1..]), s.suspended[k])
  }

  /** The records by trace are replaced as a whole: runs under way keep the old ones. */
  function ReplaceRecords(s: State, view: View): State {
    s.(recordsByTrace := view,
       suspended := seq(|s.suspended|, i requires 0 <= i < |s.suspended| => Detached(s, s.suspended[i])))
  }

  function Detached(s: State, run: Suspended): Suspended {
    if run.detached.Some? then run else run.(detached := Some(s.recordsByTrace))
  }

  function Unmount(s: State): State {
    s.(timerPending := false, generation := s.generation + 1)
  }

  /** The list on display. */
  function Effective(s: State): seq<TrafficRecord> {
    var submitted := Trim(s.submittedDsl);
    if submitted == "" then s.trafficRecords
    else if s.appliedForDsl != submitted then if s.filterState == Invalid then [] else s.lastAppliedRecords
    else if s.filterState == Valid && !s.isApplyingFilter then s.filteredRecords
    else if s.filterState == Invalid then []
    else s.lastAppliedRecords
  }

  // ---- The filter's variables, updated in place ----

  class MatchFilter {
    const env: Env
    var filterState: FilterState
    var filterError: Option<CompileError>
    var submittedDsl: string
    var compiledProgram: Option<MatchProgram>
    var filteredRecords: seq<TrafficRecord>
    var lastAppliedRecords: seq<TrafficRecord>
    var appliedForDsl: string
    var isApplyingFilter: bool
    var applyGeneration: nat
    var timerPending: bool
    var suspended: seq<Suspended>
    var trafficRecords: seq<TrafficRecord>
    var recordsByTrace: View
    var factsCache: FactsCache

    constructor (env: Env, records: seq<TrafficRecord>, view: View)
      ensures this.env == env && Current() == Initial(records, view)
    {
      this.env := env;
      filterState, filterError, submittedDsl, compiledProgram := Idle, None, "", None;
      filteredRecords, lastAppliedRecords, appliedForDsl, isApplyingFilter := [], [], "", false;
      applyGeneration, timerPending, suspended, trafficRecords := 0, false, [], records;
      recordsByTrace, factsCache := view, map[];
    }

    ghost function Current(): State
      reads this
    {
      State(
        filterState, filterError, submittedDsl, compiledProgram, filteredRecords, lastAppliedRecords, appliedForDsl,
        isApplyingFilter, applyGeneration, timerPending, suspended, trafficRecords, recordsByTrace, factsCache)
    }

    /** Judges a record by cached facts, or by its own, which are then cached. */
    method Judge(program: MatchProgram, view: View, record: TrafficRecord, ghost kept: seq<TrafficRecord>)
      returns (accepted: bool)
      modifies this`factsCache
      ensures var so := Sifted(kept, old(factsCache));
              SiftOne(env, program, view, so, record) == Sifted(kept + if accepted then [record] else [], factsCache)
    {
      hide EvalProgram;
      if record.id !in view {
        assert kept + [] == kept;
        return false;
      }
      var partialRecord := view[record.id];
      var cacheKey := CacheKey(record.id, partialRecord);
      var facts;
      if cacheKey in factsCache {
        facts := factsCache[cacheKey];
        assert factsCache == factsCache[cacheKey := facts];
      } else {
        facts := Facts(env, partialRecord);
        factsCache := factsCache[cacheKey := facts];
      }
      return EvalProgram(program, facts);
    }

    /** Sifts a chunk, record by record. */
    method FilterChunk(run: Suspended, end: nat, view: View) returns (matched: seq<TrafficRecord>)
      requires run.next <= end <= |run.records|
      modifies this`factsCache
      ensures Sift(env, run.program, view, Sifted(run.matched, old(factsCache)), run.records[run.next..end]) ==
              Sifted(matched, factsCache)
    {
      hide SiftOne;
      matched := run.matched;
      ghost var so := Sifted(run.matched, factsCache);
      ghost var chunk := run.records[run.next..end];
      var index := run.next;
      assert chunk[..0] == [];
      while index < end
        invariant run.next <= index <= end
        invariant Sift(env, run.program, view, so, chunk[..index - run.next]) == Sifted(matched, factsCache)
      {
        ghost var n := index - run.next;
        assert chunk[..n + 1][..n] == chunk[..n] && chunk[n] == run.records[index];
        var accepted := Judge(run.program, view, run.records[index], matched);
        if accepted {
          matched := matched + [run.records[index]];
        } else {
          assert matched + [] == matched;
        }
        index := index + 1;
      }
      assert chunk[..index - run.next] == chunk;
    }

    /** Goes on with a run until it yields, is superseded, or publishes. */
    method GoOn(run: Suspended)
      modifies this
      ensures Current() == Advance(env, old(Current()), run)
    {
      hide Sift, Advance, Publish;
      AdvanceUnfolds(env, Current(), run);
      if run.next >= |run.records| {
        PublishRun(run);
        return;
      }
      if run.generation != applyGeneration {
        return;
      }
      var view := if run.detached.Some? then run.detached.value else recordsByTrace;
      ghost var s := Current();
      var matched := FilterChunk(run, ChunkEnd(run), view);
      var further := run.(matched := matched, next := ChunkEnd(run));
      assert Current() == s.(factsCache := SiftChunk(env, s, run).cache);
      if further.next < |run.records| {
        suspended := suspended + [further];
        return;
      }
      PublishRun(further);
    }

    method PublishRun(run: Suspended)
      modifies this`filteredRecords, this`lastAppliedRecords, this`appliedForDsl, this`isApplyingFilter
      ensures Current() == Publish(old(Current()), run)
    {
      if run.generation != applyGeneration {
        return;
      }
      filteredRecords := run.matched;
      lastAppliedRecords := run.matched;
      appliedForDsl := run.dsl;
      isApplyingFilter := false;
    }

    method SyncUnfilteredRecords()
      modifies this`filteredRecords, this`lastAppliedRecords, this`appliedForDsl
      ensures Current() == SyncUnfiltered(old(Current()))
    {
      filteredRecords := trafficRecords;
      lastAppliedRecords := trafficRecords;
      appliedForDsl := "";
    }

    method RunApplyFilter()
      modifies this
      ensures Current() == RunApply(env, old(Current()))
    {
      hide Advance, RunApply, SyncUnfiltered, Trim;
      RunApplyUnfolds(env, Current());
      applyGeneration := applyGeneration + 1;
      ghost var s := Current();
      var trimmed := Trim(submittedDsl);
      if trimmed == "" {
        isApplyingFilter := false;
        assert Current() == s.(isApplyingFilter := false);
        SyncUnfilteredRecords();
        return;
      }
      if filterState != Valid || compiledProgram.None? {
        isApplyingFilter := false;
        return;
      }
      isApplyingFilter := true;
      assert Current() == s.(isApplyingFilter := true);
      GoOn(Suspended(applyGeneration, trimmed, trafficRecords, compiledProgram.value, 0, [], None));
    }

    method ApplyFilter(source: string)
      modifies this
      ensures Current() == Submit(env, old(Current()), source)
    {
      hide *;
      SubmitUnfolds(env, Current(), source);
      var trimmed := Trim(source);
      BeginSubmission(trimmed);
      if trimmed == "" {
        Settle(None, Idle, None);
        SyncUnfilteredRecords();
        return;
      }
      var result := CompileMatchExpr(env.grammar, trimmed);
      if result.Err? {
        Settle(None, Invalid, Some(result.error));
        RejectSubmission(trimmed);
        return;
      }
      Settle(Some(result.value), Valid, None);
      RunApplyFilter();
    }

    method BeginSubmission(trimmed: string)
      modifies this`timerPending, this`submittedDsl, this`filterState, this`filterError, this`isApplyingFilter
      ensures Current() ==
              var s := old(Current()).(timerPending := false, submittedDsl := trimmed);
              if trimmed == "" then s
              else s.(filterState := Loading, filterError := None, isApplyingFilter := false)
    {
      timerPending := false;
      submittedDsl := trimmed;
      if trimmed != "" {
        filterState := Loading;
        filterError := None;
        isApplyingFilter := false;
      }
    }

    method RejectSubmission(trimmed: string)
      modifies this`appliedForDsl
      ensures Current() == old(Current()).(appliedForDsl := trimmed)
    {
      appliedForDsl := trimmed;
    }

    /** What every submission ends its compilation with: a new generation and the outcome. */
    method Settle(program: Option<MatchProgram>, outcome: FilterState, error: Option<CompileError>)
      modifies this`applyGeneration, this`compiledProgram, this`filterState, this`filterError, this`isApplyingFilter
      ensures Current() ==
              old(Current()).(generation := old(Current()).generation + 1, compiledProgram := program,
                              filterState := outcome, filterError := error, isApplyingFilter := false)
    {
      applyGeneration := applyGeneration + 1;
      compiledProgram := program;
      filterState := outcome;
      filterError := error;
      isApplyingFilter := false;
    }

    method ScheduleApply()
      modifies this`timerPending
      ensures Current() == Schedule(old(Current()))
    {
      if Trim(submittedDsl) == "" {
        return;
      }
      if filterState != Valid || compiledProgram.None? {
        return;
      }
      timerPending := true;
    }

    /** The watcher of the records by trace. */
    method RecordsByTraceChanged()
      modifies this`timerPending, this`factsCache
      ensures Current() == ForgetFacts(old(Current()))
    {
      factsCache := map[];
      ScheduleApply();
    }

    method TimerFired()
      requires timerPending
      modifies this
      ensures Current() == FireTimer(env, old(Current()))
    {
      hide RunApply;
      timerPending := false;
      RunApplyFilter();
    }

    method ResumeRun(k: nat)
      requires k < |suspended|
      modifies this
      ensures Current() == Resume(env, old(Current()), k)
    {
      hide Advance;
      var run := suspended[k];
      suspended := suspended[..k] + suspended[k + 1..];
      GoOn(run);
    }

    method BeforeUnmount()
      modifies this
      ensures Current() == Unmount(old(Current()))
    {
      timerPending := false;
      applyGeneration := applyGeneration + 1;
    }
  }

  lemma AdvanceUnfolds(env: Env, s: State, run: Suspended)
    ensures Advance(env, s, run) ==
            if run.next >= |run.records| then Publish(s, run)
            else if run.generation != s.generation then s
            else
              var sifted := SiftChunk(env, s, run);
              var further := run.(matched := sifted.kept, next := ChunkEnd(run));
              var s' := s.(factsCache := sifted.cache);
              if further.next < |run.records| then s'.(suspended := s'.suspended + [further]) else Publish(s', further)
  {
    hide Sift, Publish;
  }

  lemma RunApplyUnfolds(env: Env, s0: State)
    ensures var s := s0.(generation := s0.generation + 1);
            var trimmed := Trim(s.submittedDsl);
            RunApply(env, s0) ==
            if trimmed == "" then SyncUnfiltered(s.(isApplyingFilter := false))
            else if s.filterState != Valid || s.compiledProgram.None? then s.(isApplyingFilter := false)
            else
              Advance(env, s.(isApplyingFilter := true),
                      Suspended(s.generation, trimmed, s.trafficRecords, s.compiledProgram.value, 0, [], None))
  {
    hide Advance, SyncUnfiltered, Trim;
  }

  lemma SubmitUnfolds(env: Env, s0: State, source: string)
    ensures var trimmed := Trim(source);
            var s := s0.(timerPending := false, submittedDsl := trimmed, generation := s0.generation + 1,
                         isApplyingFilter := false);
            Submit(env, s0, source) ==
            if trimmed == ""
            then SyncUnfiltered(s.(compiledProgram := None, filterState := Idle, filterError := None))
            else match CompileMatchExpr(env.grammar, trimmed)
                 case Err(error) =>
                   s.(compiledProgram := None, filterState := Invalid, filterError := Some(error),
                      appliedForDsl := trimmed)
                 case Ok(program) =>
                   RunApply(env, s.(compiledProgram := Some(program), filterState := Valid, filterError := None))
  {
    hide RunApply, SyncUnfiltered, Trim, CompileMatchExpr;
  }

  function Initial(records: seq<TrafficRecord>, view: View): State {
    State(Idle, None, "", None, [], [], "", false, 0, false, [], records, view, map[])
  }
}
