/** Exactly what leaves the traffic cache, and what its pollers report, in every run. */
module EventPolls {
  import opened Wrappers
  import opened EventStore
  import opened EventRuns

  /** The trace came to an end, whichever way, and has neither an open tunnel nor an open websocket. */
  predicate IsOver(e: Entry) {
    && (e.status == Completed || e.status == Cancelled || e.status.Error?)
    && e.tunnel != Some(TunnelConnected)
    && (e.messages.Some? ==> e.messages.value.status != Start && e.messages.value.status != Connected)
  }

  lemma OverIsDeletable(steps: seq<Step>, states: seq<Cache>, i: nat, k: TraceId, now: nat)
    requires Run(steps, states) && i <= |steps| && k in states[i]
    ensures NeedsDeletion(states[i][k], now) <==> IsOver(states[i][k])
  {
    DeletableIsClosedAndTerminal(steps, states, i, k, now);
    hide Run, NeedsDeletion;
  }

  lemma StepOf(steps: seq<Step>, states: seq<Cache>, i: nat)
    requires Run(steps, states) && i < |steps|
    ensures StepTo(steps[i], states[i], states[i + 1])
  {
    hide StepTo;
  }

  // ---- Polls ----

  /** A poll for given traces takes out exactly those that are over, and changes nothing else. */
  lemma KeysPollLeaves(steps: seq<Step>, states: seq<Cache>, i: nat, k: TraceId)
    requires Run(steps, states) && i < |steps| && steps[i].PollKeys?
    ensures k in states[i + 1] <==> k in states[i] && !(k in steps[i].keys && IsOver(states[i][k]))
    ensures k in states[i + 1] ==> states[i + 1][k] == states[i][k]
  {
    StepOf(steps, states, i);
    if k in states[i] {
      OverIsDeletable(steps, states, i, k, steps[i].now);
    }
    hide Run, NeedsDeletion, IsOver;
  }

  /** A poll for new entries takes out exactly the new ones that are over, and the mark off the others. */
  lemma NewPollLeaves(steps: seq<Step>, states: seq<Cache>, i: nat, k: TraceId)
    requires Run(steps, states) && i < |steps| && steps[i].PollNew?
    ensures k in states[i + 1] <==> k in states[i] && !(states[i][k].isNew && IsOver(states[i][k]))
    ensures k in states[i + 1] ==> states[i + 1][k] == states[i][k].(isNew := false)
  {
    StepOf(steps, states, i);
    if k in states[i] {
      OverIsDeletable(steps, states, i, k, steps[i].now);
    }
    hide Run, NeedsDeletion, IsOver;
  }

  predicate IsReported(e: Entry) {
    e.isNew || e.status == Completed || e.status == Cancelled || e.status.Error?
  }

  /** Where each entry of a report comes from: one key asked for after the other. */
  ghost predicate ReportsAt(m: Cache, keys: seq<TraceId>, requests: seq<Entry>, at: seq<nat>) {
    && |at| == |requests|
    && (forall i | 0 <= i < |at| :: at[i] < |keys| && keys[at[i]] in m && requests[i] == m[keys[at[i]]])
    && (forall i, j | 0 <= i < j < |at| :: at[i] < at[j])
    && forall n: nat | n < |keys| :: n in at <==> keys[n] in m && IsReported(m[keys[n]])
  }

  /** A poll for given traces reports, in the order asked, exactly those that are new or came to an end. */
  lemma {:induction false} KeysPollReports(m: Cache, keys: seq<TraceId>) returns (at: seq<nat>)
    ensures ReportsAt(m, keys, Reported(m, keys), at)
  {
    hide IsReported;
    if keys == [] {
      at := [];
    } else {
      var more := KeysPollReports(m, keys[1..]);
      var later := seq(|more|, i requires 0 <= i < |more| => more[i] + 1);
      LaterReports(m, keys, Reported(m, keys[1..]), more, later);
      ReportedMore(m, keys);
      ReportedUnfolds(m, keys[0]);
      if keys[0] in m && IsReported(m[keys[0]]) {
        at := [0] + later;
        FirstReports(m, keys, Reported(m, keys[1..]), later);
      } else {
        at := later;
        NotReported(m, keys, later);
      }
    }
  }

  lemma ReportedUnfolds(m: Cache, k: TraceId)
    ensures k in m ==> (IsReported(m[k]) <==> m[k].isNew || Terminal(m[k].status))
  {
  }

  /** The report of all keys but the first, placed among all of them. */
  ghost predicate ReportsAfterFirst(m: Cache, keys: seq<TraceId>, requests: seq<Entry>, at: seq<nat>) {
    && |at| == |requests|
    && (forall i | 0 <= i < |at| :: 0 < at[i] < |keys| && keys[at[i]] in m && requests[i] == m[keys[at[i]]])
    && (forall i, j | 0 <= i < j < |at| :: at[i] < at[j])
    && forall n: nat | 0 < n < |keys| :: n in at <==> keys[n] in m && IsReported(m[keys[n]])
  }

  lemma LaterReports(m: Cache, keys: seq<TraceId>, requests: seq<Entry>, more: seq<nat>, later: seq<nat>)
    requires keys != [] && ReportsAt(m, keys[1..], requests, more)
    requires |later| == |more| && forall i | 0 <= i < |more| :: later[i] == more[i] + 1
    ensures ReportsAfterFirst(m, keys, requests, later)
  {
    hide IsReported;
    OneLater(more, later);
    assert forall n: nat | 0 < n < |keys| :: keys[n] == keys[1..][n - 1];
  }

  lemma OneLater(more: seq<nat>, later: seq<nat>)
    requires |later| == |more| && forall i | 0 <= i < |more| :: later[i] == more[i] + 1
    ensures forall n: nat | 0 < n :: n in later <==> n - 1 in more
  {
    forall n: nat | 0 < n ensures n in later <==> n - 1 in more {
      if n - 1 in more {
        var i :| 0 <= i < |more| && more[i] == n - 1;
        assert later[i] == n;
      }
      if n in later {
        var i :| 0 <= i < |later| && later[i] == n;
        assert more[i] == n - 1;
      }
    }
  }

  lemma FirstReports(m: Cache, keys: seq<TraceId>, requests: seq<Entry>, later: seq<nat>)
    requires keys != [] && keys[0] in m && IsReported(m[keys[0]]) && ReportsAfterFirst(m, keys, requests, later)
    ensures ReportsAt(m, keys, [m[keys[0]]] + requests, [0] + later)
  {
    hide IsReported;
    FirstIndex(later);
    forall i | 0 <= i < |later| + 1
      ensures var at := ([0] + later)[i];
              at < |keys| && keys[at] in m && ([m[keys[0]]] + requests)[i] == m[keys[at]]
    {
    }
  }

  lemma FirstIndex(later: seq<nat>)
    requires (forall i | 0 <= i < |later| :: 0 < later[i]) && forall i, j | 0 <= i < j < |later| :: later[i] < later[j]
    ensures forall i, j | 0 <= i < j < |later| + 1 :: ([0] + later)[i] < ([0] + later)[j]
    ensures 0 !in later && forall n: nat :: n in [0] + later <==> n == 0 || n in later
  {
  }

  lemma NotReported(m: Cache, keys: seq<TraceId>, later: seq<nat>)
    requires keys != [] && !(keys[0] in m && IsReported(m[keys[0]]))
    requires ReportsAfterFirst(m, keys, Reported(m, keys[1..]), later)
    ensures ReportsAt(m, keys, Reported(m, keys[1..]), later)
  {
    hide IsReported, Reported;
  }

  lemma RunLength(steps: seq<Step>, states: seq<Cache>)
    requires Run(steps, states)
    ensures |states| == |steps| + 1
  {
    hide StepTo;
  }

  /** A trace that left the cache stays away until it starts anew. */
  lemma {:induction false} GoneUntilStarted(steps: seq<Step>, states: seq<Cache>, i: nat, j: nat, k: TraceId)
    requires Run(steps, states) && i <= j <= |steps| && k !in states[i]
    requires forall n | i <= n < j :: !StartsTrace(steps[n], k)
    ensures k !in states[j]
    decreases j - i
  {
    hide Run, StepTo;
    RunLength(steps, states);
    if i < j {
      GoneUntilStarted(steps, states, i, j - 1, k);
      StepOf(steps, states, j - 1);
      StaysAway(steps[j - 1], states[j - 1], states[j], k);
    }
  }

  lemma StaysAway(step: Step, m: Cache, m': Cache, k: TraceId)
    requires StepTo(step, m, m') && k !in m && !StartsTrace(step, k)
    ensures k !in m'
  {
    hide Apply, NeedsDeletion, Evicted;
    if step.Handle? && step.event.OnRequestStart? {
      OnlyThere(BeforeEviction(step, m), step.now, m', k);
    }
  }

  lemma OnlyThere(m: Cache, now: nat, m': Cache, k: TraceId)
    requires Evicted(m, now, m') && k !in m
    ensures k !in m'
  {
    hide NeedsDeletion, IsOldest;
  }

  /** A trace that is over is reported by the poll that asks for it, and by no later one until it starts
      anew. */
  lemma OverIsReportedOnce(steps: seq<Step>, states: seq<Cache>, i: nat, j: nat, k: TraceId)
    requires Run(steps, states) && i < j <= |steps| && steps[i].PollKeys?
    requires k in steps[i].keys && k in states[i] && IsOver(states[i][k])
    requires forall n | i < n < j :: !StartsTrace(steps[n], k)
    ensures states[i][k] in Reported(states[i], steps[i].keys) && k !in states[j]
  {
    KeysPollLeaves(steps, states, i, k);
    GoneUntilStarted(steps, states, i + 1, j, k);
    hide Run;
    var at := KeysPollReports(states[i], steps[i].keys);
    var n :| 0 <= n < |steps[i].keys| && steps[i].keys[n] == k;
    hide Reported;
    AskedIsReported(states[i], steps[i].keys, Reported(states[i], steps[i].keys), at, n);
  }

  lemma AskedIsReported(m: Cache, keys: seq<TraceId>, requests: seq<Entry>, at: seq<nat>, n: nat)
    requires ReportsAt(m, keys, requests, at) && n < |keys| && keys[n] in m && IsReported(m[keys[n]])
    ensures m[keys[n]] in requests
  {
    hide IsReported;
    assert n in at;
    var i :| 0 <= i < |at| && at[i] == n;
    assert requests[i] == m[keys[n]];
  }

  // ---- Starts ----

  /** Over for more than ten minutes. */
  predicate OutOfTime(e: Entry, now: nat) {
    IsOver(e) && e.completedAt.Some? && now > e.completedAt.value + 600000
  }

  /** What a start leaves: the entries that are not out of time; and if those are more than ten, without one of
      those that are over, which ended no later than any other of them. */
  ghost predicate Leaves(b: Cache, now: nat, m': Cache) {
    var kept := map k | k in b && !OutOfTime(b[k], now) :: b[k];
    if |kept| <= 10 || forall k | k in kept :: !IsOver(kept[k]) then m' == kept
    else
      exists k ::
        && k in kept && IsOver(kept[k]) && kept[k].completedAt.Some? && m' == kept - {k}
        && forall other | other in kept && IsOver(kept[other]) ::
             kept[other].completedAt.Some? && kept[k].completedAt.value <= kept[other].completedAt.value
  }

  predicate AllOver(b: Cache, now: nat) {
    forall k | k in b :: (NeedsDeletion(b[k], now) <==> IsOver(b[k])) && (IsOver(b[k]) ==> b[k].completedAt.Some?)
  }

  lemma StartIsOver(steps: seq<Step>, states: seq<Cache>, i: nat)
    requires Run(steps, states) && i < |steps| && steps[i].Handle? && steps[i].event.OnRequestStart?
    ensures AllOver(BeforeEviction(steps[i], states[i]), steps[i].now)
  {
    var step, m := steps[i], states[i];
    forall k | k in m
      ensures NeedsDeletion(m[k], step.now) <==> IsOver(m[k])
      ensures IsOver(m[k]) ==> m[k].completedAt.Some?
    {
      OverIsDeletable(steps, states, i, k, step.now);
      DeletableIsClosedAndTerminal(steps, states, i, k, step.now);
    }
    hide Run;
    FreshIsNotOver(step.event.id, step.event.request, step.now);
    hide NeedsDeletion, IsOver, Started;
  }

  lemma FreshIsNotOver(id: TraceId, request: Request, now: nat)
    ensures !IsOver(Started(id, request, now)) && !NeedsDeletion(Started(id, request, now), now)
  {
  }

  lemma KeptIs(b: Cache, now: nat)
    requires AllOver(b, now)
    ensures b - Expired(b, now) == map k | k in b && !OutOfTime(b[k], now) :: b[k]
  {
    hide NeedsDeletion, IsOver;
    forall k | k in b ensures IsExpired(b[k], now) <==> OutOfTime(b[k], now) {
      if b[k].completedAt.Some? {
        SubtractionSaturates(now, b[k].completedAt.value);
      }
    }
    hide IsExpired, OutOfTime;
  }

  lemma OldestIs(kept: Cache, now: nat, k: TraceId)
    requires AllOver(kept, now) && IsOldest(kept, now, k)
    ensures k in kept && IsOver(kept[k]) && kept[k].completedAt.Some?
    ensures forall other | other in kept && IsOver(kept[other]) ::
              kept[other].completedAt.Some? && kept[k].completedAt.value <= kept[other].completedAt.value
  {
    hide NeedsDeletion, IsOver;
    forall other | other in kept && IsOver(kept[other])
      ensures kept[other].completedAt.Some? && kept[k].completedAt.value <= kept[other].completedAt.value
    {
      assert other in Deletable(kept, now);
    }
  }

  /** A start puts the trace's entry in anew; then entries out of time leave, and one more if there are still
      more than ten and any of them is over: none other, and nothing changes in those that stay. */
  lemma StartLeaves(steps: seq<Step>, states: seq<Cache>, i: nat)
    requires Run(steps, states) && i < |steps| && steps[i].Handle? && steps[i].event.OnRequestStart?
    ensures Leaves(BeforeEviction(steps[i], states[i]), steps[i].now, states[i + 1])
  {
    var step, b := steps[i], BeforeEviction(steps[i], states[i]);
    StartIsOver(steps, states, i);
    StepOf(steps, states, i);
    hide Run;
    StartEvicts(step, states[i], states[i + 1]);
    hide BeforeEviction, StepTo;
    EvictionLeaves(b, step.now, states[i + 1]);
  }

  lemma EvictionLeaves(b: Cache, now: nat, m': Cache)
    requires AllOver(b, now) && Evicted(b, now, m')
    ensures Leaves(b, now, m')
  {
    KeptIs(b, now);
    var kept := b - Expired(b, now);
    hide NeedsDeletion, IsOver, OutOfTime, IsExpired, Expired, IsOldest;
    assert AllOver(kept, now);
    assert Deletable(kept, now) == {} <==> forall k | k in kept :: !IsOver(kept[k]) by { DeletableAre(kept, now); }
    if |kept| > EVICT_THRESHOLD && Deletable(kept, now) != {} {
      var k :| IsOldest(kept, now, k) && m' == kept - {k};
      OldestIs(kept, now, k);
    }
  }

  lemma DeletableAre(kept: Cache, now: nat)
    requires AllOver(kept, now)
    ensures Deletable(kept, now) == {} <==> forall k | k in kept :: !IsOver(kept[k])
  {
    hide NeedsDeletion, IsOver;
    forall k | k in kept ensures k in Deletable(kept, now) <==> IsOver(kept[k]) {
    }
  }

  /** No other event of any trace takes an entry out or puts one in. */
  lemma EventsLeaveAll(steps: seq<Step>, states: seq<Cache>, i: nat)
    requires Run(steps, states) && i < |steps| && steps[i].Handle? && !steps[i].event.OnRequestStart?
    ensures states[i + 1].Keys == states[i].Keys
  {
    StepOf(steps, states, i);
    hide Run, Apply;
  }
}
