/** What holds in every state of every run of the traffic cache. */
module EventRuns {
  import opened Wrappers
  import opened EventStore

  ghost predicate Run(steps: seq<Step>, states: seq<Cache>) {
    && |states| == |steps| + 1
    && states[0] == map[]
    && forall i | 0 <= i < |steps| :: StepTo(steps[i], states[i], states[i + 1])
  }

  // ---- A completion time is there exactly when the status is terminal ----

  predicate Consistent(e: Entry) {
    e.completedAt.Some? <==> Terminal(e.status)
  }

  predicate AllConsistent(m: Cache) {
    KeyedByTrace(m) && forall k | k in m :: Consistent(m[k])
  }

  lemma ApplyKeepsConsistent(event: Event, now: nat, e: Entry)
    requires Consistent(e) && event.id == e.traceId
    ensures Consistent(Apply(event, now, e)) && Apply(event, now, e).traceId == e.traceId
  {
    hide LastOf, HasEmptyRequestBody, StatusOfMessage;
  }

  lemma StepKeepsConsistent(step: Step, m: Cache, m': Cache)
    requires AllConsistent(m) && StepTo(step, m, m')
    ensures AllConsistent(m')
  {
    hide Apply, Evicted, AfterPoll, AfterKeysPoll, Started, Consistent;
    match step
    case Handle(event, now) =>
      if event.OnRequestStart? {
        InsertKeepsConsistent(step, m, m');
      } else if event.id in m {
        ApplyKeepsConsistent(event, now, m[event.id]);
      }
    case PollNew(now) => PollKeepsConsistent(m, now);
    case PollKeys(keys, now) => KeysPollKeepsConsistent(m, keys, now);
    case Clear =>
  }

  lemma InsertKeepsConsistent(step: Step, m: Cache, m': Cache)
    requires AllConsistent(m) && step.Handle? && step.event.OnRequestStart? && StepTo(step, m, m')
    ensures AllConsistent(m')
  {
    hide *;
    StartedIsConsistent(step, m);
    StartEvicts(step, m, m');
    EvictionKeepsConsistent(BeforeEviction(step, m), step.now, m');
  }

  lemma StartedIsConsistent(step: Step, m: Cache)
    requires AllConsistent(m) && step.Handle? && step.event.OnRequestStart?
    ensures AllConsistent(BeforeEviction(step, m))
  {
  }

  lemma StartEvicts(step: Step, m: Cache, m': Cache)
    requires step.Handle? && step.event.OnRequestStart? && StepTo(step, m, m')
    ensures Evicted(BeforeEviction(step, m), step.now, m')
  {
    hide Evicted;
  }

  lemma EvictionKeepsConsistent(m: Cache, now: nat, m': Cache)
    requires AllConsistent(m) && Evicted(m, now, m')
    ensures AllConsistent(m')
  {
    hide Consistent, NeedsDeletion, Expired, IsOldest;
  }

  lemma PollKeepsConsistent(m: Cache, now: nat)
    requires AllConsistent(m)
    ensures AllConsistent(AfterPoll(m, now))
  {
    hide NeedsDeletion;
  }

  lemma KeysPollKeepsConsistent(m: Cache, keys: seq<TraceId>, now: nat)
    requires AllConsistent(m)
    ensures AllConsistent(AfterKeysPoll(m, keys, now))
  {
    hide NeedsDeletion, Consistent;
  }

  lemma {:induction false} RunIsConsistent(steps: seq<Step>, states: seq<Cache>, i: nat)
    requires Run(steps, states) && i <= |steps|
    ensures AllConsistent(states[i])
    decreases i
  {
    hide AllConsistent, StepTo;
    if i == 0 {
      NoneInconsistent();
    } else {
      RunIsConsistent(steps, states, i - 1);
      assert StepTo(steps[i - 1], states[i - 1], states[i - 1 + 1]);
      StepKeepsConsistent(steps[i - 1], states[i - 1], states[i]);
    }
  }

  lemma NoneInconsistent()
    ensures AllConsistent(map[])
  {
  }

  /** In every reachable state, an entry needs deletion exactly when it is terminal and has no open tunnel
      or websocket: the age of a pending entry never decides, whatever the clock says. */
  lemma DeletableIsClosedAndTerminal(steps: seq<Step>, states: seq<Cache>, i: nat, k: TraceId, now: nat)
    requires Run(steps, states) && i <= |steps| && k in states[i]
    ensures states[i][k].completedAt.Some? <==> Terminal(states[i][k].status)
    ensures NeedsDeletion(states[i][k], now) <==> Terminal(states[i][k].status) && !HasOpenConnection(states[i][k])
  {
    hide StepTo, HasOpenConnection, Terminal;
    RunIsConsistent(steps, states, i);
    assert Consistent(states[i][k]);
  }

  // ---- Who may leave ----

  predicate StartsTrace(step: Step, k: TraceId) {
    step.Handle? && step.event.OnRequestStart? && step.event.id == k
  }

  /** The cache that eviction is run on: the one with the started trace's entry put in. */
  function BeforeEviction(step: Step, m: Cache): Cache
    requires step.Handle? && step.event.OnRequestStart?
  {
    m[step.event.id := Started(step.event.id, step.event.request, step.now)]
  }

  lemma EvictedLeavers(m: Cache, now: nat, m': Cache, k: TraceId)
    requires Evicted(m, now, m') && k in m
    ensures k in m' ==> m'[k] == m[k]
    ensures k !in m' ==> NeedsDeletion(m[k], now)
    ensures forall k' | k' in m' :: k' in m && m'[k'] == m[k']
  {
    hide NeedsDeletion;
  }

  /** An entry with an open tunnel or websocket never leaves the cache, except when it is cleared: not by
      eviction, not by either poller, not even when its own trace starts anew. */
  lemma OpenEntryStays(steps: seq<Step>, states: seq<Cache>, i: nat, k: TraceId)
    requires Run(steps, states) && i < |steps| && steps[i] != Clear
    requires k in states[i] && HasOpenConnection(states[i][k])
    ensures k in states[i + 1]
  {
    StepLeavers(steps[i], states[i], states[i + 1], k);
  }

  /** The entries that a step drops are those that need deletion; a trace that just started stays. */
  lemma StepLeavers(step: Step, m: Cache, m': Cache, k: TraceId)
    requires StepTo(step, m, m') && step != Clear && k in m
    ensures k !in m' ==> NeedsDeletion(m[k], Now(step))
    ensures StartsTrace(step, k) ==> k in m'
  {
    hide Evicted, Apply;
    if step.Handle? && step.event.OnRequestStart? {
      EvictedLeavers(BeforeEviction(step, m), step.now, m', k);
    }
  }

  function Now(step: Step): nat {
    match step
    case Handle(_, now) => now
    case PollNew(now) => now
    case PollKeys(_, now) => now
    case Clear => 0
  }

  /** What a start evicts: entries of closed, terminal traces whose time to live has passed, or one that
      completed no later than any deletable entry that stays. */
  lemma VictimCompletedFirst(steps: seq<Step>, states: seq<Cache>, i: nat, k: TraceId)
    requires Run(steps, states) && i < |steps| && steps[i].Handle? && steps[i].event.OnRequestStart?
    requires k in states[i] && k !in states[i + 1]
    ensures Terminal(states[i][k].status) && !HasOpenConnection(states[i][k]) && states[i][k].completedAt.Some?
    ensures steps[i].now > states[i][k].completedAt.value + MAX_AGE_MS ||
            NoDeletableBefore(states[i + 1], steps[i].now, states[i][k].completedAt.value)
  {
    var step, m, m' := steps[i], states[i], states[i + 1];
    var now := step.now;
    RunIsConsistent(steps, states, i + 1);
    assert StepTo(step, m, m');
    StepLeavers(step, m, m', k);
    DeletableIsClosedAndTerminal(steps, states, i, k, now);
    hide *;
    SubtractionSaturates(now, m[k].completedAt.value);
    StartUnfolds(step, m, m', k);
    if !IsExpired(m[k], now) {
      VictimIsOldest(BeforeEviction(step, m), now, m', k);
    } else {
      ExpiredUnfolds(m[k], now);
    }
  }

  /** At most one of the entries that a start evicts has not outlived its time. */
  lemma OneUnexpiredVictim(steps: seq<Step>, states: seq<Cache>, i: nat, k1: TraceId, k2: TraceId)
    requires Run(steps, states) && i < |steps| && steps[i].Handle? && steps[i].event.OnRequestStart?
    requires k1 in states[i] && k1 !in states[i + 1] && k2 in states[i] && k2 !in states[i + 1] && k1 != k2
    ensures IsExpired(states[i][k1], steps[i].now) || IsExpired(states[i][k2], steps[i].now)
  {
    var step, m, m' := steps[i], states[i], states[i + 1];
    assert StepTo(step, m, m');
    hide *;
    StepLeavers(step, m, m', k1);
    StepLeavers(step, m, m', k2);
    StartUnfolds(step, m, m', k1);
    StartUnfolds(step, m, m', k2);
    var b := BeforeEviction(step, m);
    if !IsExpired(m[k1], step.now) && !IsExpired(m[k2], step.now) {
      UnexpiredVictim(b, step.now, m', k1);
      Unexpired(b, step.now, k2);
    }
  }

  ghost predicate NoDeletableBefore(m: Cache, now: nat, at: nat) {
    forall k | k in m && NeedsDeletion(m[k], now) :: m[k].completedAt.Some? && at <= m[k].completedAt.value
  }

  lemma StartUnfolds(step: Step, m: Cache, m': Cache, k: TraceId)
    requires step.Handle? && step.event.OnRequestStart? && StepTo(step, m, m') && k in m && k !in m'
    ensures Evicted(BeforeEviction(step, m), step.now, m')
    ensures k in BeforeEviction(step, m) && BeforeEviction(step, m)[k] == m[k]
  {
    hide Evicted;
    StepLeavers(step, m, m', k);
  }

  lemma ExpiredUnfolds(e: Entry, now: nat)
    requires IsExpired(e, now)
    ensures e.completedAt.Some? && SaturatingSub(now, e.completedAt.value) > MAX_AGE_MS
  {
    hide NeedsDeletion, SaturatingSub;
  }

  lemma VictimIsOldest(b: Cache, now: nat, m': Cache, k: TraceId)
    requires Evicted(b, now, m') && AllConsistent(m') && k in b && k !in m' && !IsExpired(b[k], now)
    requires b[k].completedAt.Some?
    ensures NoDeletableBefore(m', now, b[k].completedAt.value)
  {
    UnexpiredVictim(b, now, m', k);
    var kept := b - Expired(b, now);
    hide IsExpired, Evicted, Expired, HasOpenConnection, SaturatingSub;
    forall k' | k' in m' && NeedsDeletion(m'[k'], now)
      ensures m'[k'].completedAt.Some? && b[k].completedAt.value <= m'[k'].completedAt.value
    {
      assert Consistent(m'[k']);
      assert k' in Deletable(kept, now);
    }
  }

  lemma Unexpired(b: Cache, now: nat, k: TraceId)
    requires k in b && !IsExpired(b[k], now)
    ensures k in b - Expired(b, now)
  {
    hide IsExpired;
  }

  lemma SubtractionSaturates(now: nat, at: nat)
    ensures SaturatingSub(now, at) > MAX_AGE_MS <==> now > at + MAX_AGE_MS
  {
  }

  lemma UnexpiredVictim(b: Cache, now: nat, m': Cache, k: TraceId)
    requires Evicted(b, now, m') && k in b && k !in m' && !IsExpired(b[k], now)
    ensures IsOldest(b - Expired(b, now), now, k) && m' == b - Expired(b, now) - {k}
  {
    hide NeedsDeletion, IsExpired, IsOldest;
  }

  // ---- Size ----

  function Max(a: nat, b: nat): nat {
    if a > b then a else b
  }

  /** The greatest number of undeletable entries right after any insert among the first `n` steps. */
  function Peak(steps: seq<Step>, states: seq<Cache>, n: nat): nat
    requires n <= |steps| && |states| == |steps| + 1
  {
    if n == 0 then 0
    else
      var step := steps[n - 1];
      if step.Handle? && step.event.OnRequestStart?
      then Max(Peak(steps, states, n - 1), |Undeletable(states[n], step.now)|)
      else Peak(steps, states, n - 1)
  }

  lemma OldestIsThere(m: Cache, now: nat, k: TraceId)
    requires IsOldest(m, now, k)
    ensures k in m
  {
    hide NeedsDeletion;
  }

  lemma EvictedSize(m: Cache, now: nat, m': Cache)
    requires Evicted(m, now, m')
    ensures |m'| <= EVICT_THRESHOLD || |m'| < |m| || |m'| == |Undeletable(m', now)|
  {
    hide NeedsDeletion, IsExpired, IsOldest;
    var kept := m - Expired(m, now);
    Smaller(m, kept);
    if |kept| > EVICT_THRESHOLD {
      if Deletable(kept, now) == {} {
        assert forall k | k in kept :: k !in Deletable(kept, now);
        assert Undeletable(kept, now) == kept.Keys;
      } else {
        var k :| IsOldest(kept, now, k) && m' == kept - {k};
        OldestIsThere(kept, now, k);
        assert m'.Keys == kept.Keys - {k};
      }
    }
  }

  lemma Smaller(m: Cache, m': Cache)
    requires m'.Keys <= m.Keys
    ensures |m'| <= |m|
  {
    SubsetSize(m'.Keys, m.Keys);
  }

  lemma {:induction false} SubsetSize<T>(a: set<T>, b: set<T>)
    requires a <= b
    ensures |a| <= |b|
  {
    if a != {} {
      var x :| x in a;
      SubsetSize(a - {x}, b - {x});
    }
  }

  lemma StepSize(step: Step, m: Cache, m': Cache)
    requires StepTo(step, m, m')
    ensures if step.Handle? && step.event.OnRequestStart?
            then |m'| <= EVICT_THRESHOLD || |m'| <= |m| || |m'| == |Undeletable(m', step.now)|
            else |m'| <= |m|
  {
    hide Apply, NeedsDeletion, Started, Evicted;
    match step
    case Handle(event, now) =>
      if event.OnRequestStart? {
        var b := BeforeEviction(step, m);
        EvictedSize(b, now, m');
        assert b.Keys == m.Keys + {event.id};
      } else if event.id in m {
        assert m'.Keys == m.Keys;
      }
    case PollNew(now) => Smaller(m, m');
    case PollKeys(keys, now) => Smaller(m, m');
    case Clear =>
  }

  /** The cache never holds more entries than the larger of ten and the greatest number of undeletable
      entries that were there right after any insert so far. */
  lemma {:induction false} SizeIsBounded(steps: seq<Step>, states: seq<Cache>, i: nat)
    requires Run(steps, states) && i <= |steps|
    ensures |states[i]| <= Max(EVICT_THRESHOLD, Peak(steps, states, i))
    decreases i
  {
    hide StepTo, Undeletable;
    if i > 0 {
      SizeIsBounded(steps, states, i - 1);
      assert StepTo(steps[i - 1], states[i - 1], states[i - 1 + 1]);
      StepSize(steps[i - 1], states[i - 1], states[i]);
    }
  }
}
