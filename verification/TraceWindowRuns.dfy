/** What the trace window keeps over every run of stream events, trims and limit changes. */
module TraceWindowRuns {
  import opened Wrappers
  import opened Text
  import opened TrafficRecords
  import opened TraceWindow

  datatype Step =
    | Flushes(events: seq<Event>)
    | Subscribes(snapshots: seq<Event>)
    | Selects(id: Option<string>)
    | Clears
    | LimitChanges(limit: nat)
    | WatcherTrims
    | Reads

  function Next(display: Display, s: State, step: Step): State {
    match step
    case Flushes(events) => Flush(s, events)
    case Subscribes(snapshots) => Subscribe(s, snapshots)
    case Selects(id) => s.(selected := id)
    case Clears => Cleared(s)
    case LimitChanges(limit) => SetLimit(s, limit)
    case WatcherTrims => TrimWatcher(s)
    case Reads => ReadRows(display, s)
  }

  ghost predicate Run(display: Display, steps: seq<Step>, states: seq<State>) {
    && |states| == |steps| + 1
    && states[0] == Initial(states[0].limit)
    && forall i | 0 <= i < |steps| :: states[i + 1] == Next(display, states[i], steps[i])
  }

  // ---- The invariant ----

  predicate Distinct(order: seq<string>) {
    forall i, j | 0 <= i < j < |order| :: order[i] != order[j]
  }

  /** The list holds each trace once: exactly those whose record has a url. */
  ghost predicate Listed(s: State) {
    Distinct(s.order) && forall id :: id in s.order <==> Listable(s.records, id)
  }

  /** The same, but for one trace that is being updated. */
  ghost predicate ListedBut(s: State, id: string) {
    && Distinct(s.order)
    && (forall x | x != id :: x in s.order <==> Listable(s.records, x))
    && (id in s.order ==> Listable(s.records, id))
  }

  predicate Within(s: State) {
    |s.order| <= s.limit || s.trimPending
  }

  /** Rows that no notification is due for are as if built anew. */
  ghost predicate RowsCurrent(display: Display, s: State) {
    !s.stale && !s.notifyPending ==> s.rows == FreshRows(display, s.order, s.records)
  }

  // ---- Rows ----

  lemma {:induction false} SameRows(display: Display, order: seq<string>, a: Records, b: Records)
    requires forall id | id in order :: SameRow(display, id, a, b)
    ensures FreshRows(display, order, a) == FreshRows(display, order, b)
  {
    hide SameRow, Listable, BuildRow;
    if order != [] {
      var front, id := order[..|order| - 1], order[|order| - 1];
      assert forall x | x in front :: x in order;
      SameRows(display, front, a, b);
      SameRowMeans(display, id, a, b);
    }
  }

  predicate SameRow(display: Display, id: string, a: Records, b: Records) {
    Listable(a, id) == Listable(b, id) &&
    (Listable(a, id) ==> BuildRow(display, id, a[id]) == BuildRow(display, id, b[id]))
  }

  lemma SameRowMeans(display: Display, id: string, a: Records, b: Records)
    requires SameRow(display, id, a, b)
    ensures Listable(a, id) == Listable(b, id)
    ensures Listable(a, id) ==> id in a && id in b && BuildRow(display, id, a[id]) == BuildRow(display, id, b[id])
  {
    hide BuildRow;
  }

  /** A patch that asks for no notification changes the row of no trace, nor what is listed. */
  lemma QuietPatchKeepsRows(display: Display, records: Records, id: string, patch: PartialRecord, order: seq<string>)
    requires !PatchTouchesTrafficList(patch)
    ensures var records' := records[id := MergePartialRequestRecord(RecordOf(records, id), patch)];
            && FreshRows(display, order, records') == FreshRows(display, order, records)
            && forall x :: Listable(records', x) <==> Listable(records, x)
  {
    var records' := records[id := MergePartialRequestRecord(RecordOf(records, id), patch)];
    forall x ensures SameRow(display, x, records, records') {
    }
    hide SameRow, PatchTouchesTrafficList, MergePartialRequestRecord, BuildRow;
    SameRows(display, order, records, records');
    forall x ensures Listable(records', x) <==> Listable(records, x) {
      SameRowMeans(display, x, records, records');
    }
  }

  // ---- Each operation ----

  lemma UpdateUnfolds(s: State, id: string, patch: PartialRecord)
    ensures var s' := UpdateRecord(s, id, patch);
            && s'.order == s.order && s'.limit == s.limit && s'.trimPending == s.trimPending && s'.batched == s.batched
            && s'.rows == s.rows
            && s'.records == s.records[id := MergePartialRequestRecord(RecordOf(s.records, id), patch)]
            && (!s'.stale && !s'.notifyPending ==> !s.stale && !s.notifyPending && !PatchTouchesTrafficList(patch))
  {
    hide PatchTouchesTrafficList, MergePartialRequestRecord, RecordOf;
  }

  lemma UpdateKeepsRows(display: Display, s: State, id: string, patch: PartialRecord)
    requires RowsCurrent(display, s)
    ensures RowsCurrent(display, UpdateRecord(s, id, patch))
  {
    UpdateUnfolds(s, id, patch);
    hide UpdateRecord, PatchTouchesTrafficList, MergePartialRequestRecord, RecordOf, FreshRows, Listable;
    if !PatchTouchesTrafficList(patch) {
      QuietPatchKeepsRows(display, s.records, id, patch, s.order);
    }
  }

  lemma MergeListable(records: Records, id: string, patch: PartialRecord)
    requires patch.url != Some("")
    ensures var records' := records[id := MergePartialRequestRecord(RecordOf(records, id), patch)];
            && (forall x | x != id :: Listable(records', x) <==> Listable(records, x))
            && (Listable(records, id) ==> Listable(records', id))
            && (patch.url.None? ==> (Listable(records', id) <==> Listable(records, id)))
  {
  }

  lemma UpdateKeeps(display: Display, s: State, id: string, patch: PartialRecord)
    requires Listed(s) && Within(s) && RowsCurrent(display, s) && patch.url != Some("")
    ensures var s' := UpdateRecord(s, id, patch);
            && ListedBut(s', id) && Within(s') && RowsCurrent(display, s') && s'.batched == s.batched
            && (patch.url.None? ==> Listed(s'))
  {
    UpdateUnfolds(s, id, patch);
    UpdateKeepsRows(display, s, id, patch);
    MergeListable(s.records, id, patch);
    hide UpdateRecord, Listable, Distinct, FreshRows, MergePartialRequestRecord, RecordOf;
  }

  lemma DroppedAndKept(order: seq<string>, n: nat)
    requires Distinct(order) && n <= |order|
    ensures Distinct(order[n..])
    ensures forall id :: id in order[n..] <==> id in order && id !in order[..n]
  {
    assert order == order[..n] + order[n..];
    forall id | id in order[n..] ensures id !in order[..n] {
      var j :| 0 <= j < |order[n..]| && order[n..][j] == id;
      assert order[n + j] == id;
    }
  }

  lemma TrimUnfolds(s: State)
    ensures var s', n := TrimToMaxLogSize(s), |s.order| - s.limit;
            if n <= 0 then s' == s
            else
              && s'.order == s.order[n..] && s'.records == s.records - (set id | id in s.order[..n])
              && s'.limit == s.limit && s'.batched == s.batched && s'.trimPending == s.trimPending
              && (s'.stale || s'.notifyPending)
  {
  }

  lemma TrimKeeps(display: Display, s: State)
    requires Listed(s) && RowsCurrent(display, s)
    ensures var s' := TrimToMaxLogSize(s);
            Listed(s') && |s'.order| <= s'.limit && RowsCurrent(display, s') && s'.batched == s.batched
    ensures TrimToMaxLogSize(s).trimPending == s.trimPending
  {
    hide FreshRows, Listed, TrimToMaxLogSize;
    TrimUnfolds(s);
    if |s.order| > s.limit {
      TrimmedIsListed(s, TrimToMaxLogSize(s), |s.order| - s.limit);
    }
  }

  lemma TrimmedIsListed(s: State, s': State, n: nat)
    requires Listed(s) && n <= |s.order|
    requires s'.order == s.order[n..] && s'.records == s.records - set id | id in s.order[..n]
    ensures Listed(s')
  {
    hide Listable, Distinct;
    DroppedAndKept(s.order, n);
    forall id ensures id in s'.order <==> Listable(s'.records, id) {
      ListableAmong(s.records, (set x | x in s.order[..n]), id);
    }
  }

  lemma ListableAmong(records: Records, dropped: set<string>, id: string)
    ensures Listable(records - dropped, id) <==> id !in dropped && Listable(records, id)
  {
    hide IsRecordListable;
  }

  lemma PromoteKeeps(display: Display, s: State, id: string)
    requires ListedBut(s, id) && Within(s) && RowsCurrent(display, s)
    ensures var s' := PromoteToList(s, id);
            Listed(s') && Within(s') && RowsCurrent(display, s') && s'.batched == s.batched
  {
    hide FreshRows, IsRecordListable, TrimToMaxLogSize;
    if Listable(s.records, id) {
      var s1 := SetOrder(s, PromoteTraceToOrder(s.order, id));
      assert Distinct(s1.order);
      assert forall x :: x in s1.order <==> x in s.order || x == id;
      TrimKeeps(display, s1);
    }
  }

  lemma {:induction false} DemoteMembers(order: seq<string>, id: string)
    ensures forall x :: x in DemoteTraceFromOrder(order, id) <==> x in order && x != id
    ensures |DemoteTraceFromOrder(order, id)| <= |order|
  {
    if order != [] {
      DemoteMembers(order[..|order| - 1], id);
      assert order == order[..|order| - 1] + [order[|order| - 1]];
    }
  }

  lemma {:induction false} DemoteDistinct(order: seq<string>, id: string)
    requires Distinct(order)
    ensures Distinct(DemoteTraceFromOrder(order, id))
  {
    if order != [] {
      var front, last := order[..|order| - 1], order[|order| - 1];
      DemoteDistinct(front, id);
      DemoteMembers(front, id);
      if last == id {
        assert DemoteTraceFromOrder(front, id) + [] == DemoteTraceFromOrder(front, id);
      } else {
        SnocDistinct(DemoteTraceFromOrder(front, id), last);
      }
    }
  }

  lemma SnocDistinct(front: seq<string>, last: string)
    requires Distinct(front) && last !in front
    ensures Distinct(front + [last])
  {
  }

  lemma RemoveUnfolds(s: State, id: string)
    ensures var s' := RemoveRecord(s, id);
            && s'.order == DemoteTraceFromOrder(s.order, id) && s'.records == s.records - {id}
            && s'.limit == s.limit && s'.trimPending == s.trimPending && s'.batched == s.batched && s'.rows == s.rows
            && (!s'.stale && !s'.notifyPending ==>
                  !s.stale && !s.notifyPending && s'.records == s.records && s'.order == s.order)
  {
    hide DemoteTraceFromOrder;
    if id !in s.records {
      assert s.records - {id} == s.records;
    }
  }

  lemma RemoveKeeps(display: Display, s: State, id: string)
    requires Listed(s) && Within(s) && RowsCurrent(display, s)
    ensures var s' := RemoveRecord(s, id);
            Listed(s') && Within(s') && RowsCurrent(display, s') && s'.batched == s.batched
  {
    RemoveUnfolds(s, id);
    hide RemoveRecord, FreshRows, Listed, DemoteTraceFromOrder;
    DemoteShortens(s.order, id);
    RemovedIsListed(s, RemoveRecord(s, id), id);
  }

  lemma DemoteShortens(order: seq<string>, id: string)
    ensures |DemoteTraceFromOrder(order, id)| <= |order|
  {
    DemoteMembers(order, id);
  }

  lemma RemovedIsListed(s: State, s': State, id: string)
    requires Listed(s) && s'.order == DemoteTraceFromOrder(s.order, id) && s'.records == s.records - {id}
    ensures Listed(s')
  {
    hide Listable, Distinct, DemoteTraceFromOrder;
    DemoteDistinct(s.order, id);
    forall x ensures x in s'.order <==> Listable(s'.records, x) {
      DemoteMembers(s.order, id);
      ListableWithout(s.records, id, x);
    }
  }

  lemma ListableWithout(records: Records, id: string, x: string)
    ensures Listable(records - {id}, x) <==> x != id && Listable(records, x)
  {
    hide IsRecordListable;
  }

  lemma PatchHasUrl(event: Event, current: PartialRecord)
    requires !Ignored(event)
    ensures PatchOf(event, current).url != Some("")
    ensures !event.RequestStart? && !event.Snapshot? ==> PatchOf(event, current).url.None?
  {
  }

  lemma EventKeeps(display: Display, s: State, event: Event)
    requires Listed(s) && Within(s) && RowsCurrent(display, s)
    ensures var s' := HandleEvent(s, event);
            Listed(s') && Within(s') && RowsCurrent(display, s') && s'.batched == s.batched
  {
    hide Listed, ListedBut, Within, RowsCurrent, UpdateRecord, PromoteToList, RemoveRecord, PatchOf, Ignored, RecordOf,
      Listable;
    if !Ignored(event) {
      var patch := PatchOf(event, RecordOf(s.records, event.id));
      PatchHasUrl(event, RecordOf(s.records, event.id));
      UpdateKeeps(display, s, event.id, patch);
      var updated := UpdateRecord(s, event.id, patch);
      if event.RequestStart? || event.Snapshot? {
        PromoteKeeps(display, updated, event.id);
      } else if event.ResponseEnd? {
        RemoveKeeps(display, updated, event.id);
      }
    }
  }

  lemma {:induction false} EventsKeep(display: Display, s: State, events: seq<Event>)
    requires Listed(s) && Within(s) && RowsCurrent(display, s)
    ensures var s' := HandleAll(s, events);
            Listed(s') && Within(s') && RowsCurrent(display, s') && s'.batched == s.batched
  {
    hide Listed, Within, RowsCurrent, HandleEvent;
    if events != [] {
      EventsKeep(display, s, events[..|events| - 1]);
      EventKeeps(display, HandleAll(s, events[..|events| - 1]), events[|events| - 1]);
    }
  }

  /** Between batches no notification waits. */
  ghost predicate Kept(display: Display, s: State) {
    Listed(s) && Within(s) && RowsCurrent(display, s) && !s.batched && !s.notifyPending
  }

  lemma FlushKeeps(display: Display, s: State, events: seq<Event>)
    requires Kept(display, s)
    ensures Kept(display, Flush(s, events))
  {
    hide HandleAll, FreshRows, Distinct, Listable;
    EventsKeep(display, s.(batched := true), events);
  }

  lemma TrimKeepsQuiet(s: State)
    requires !s.batched && !s.notifyPending
    ensures !TrimToMaxLogSize(s).notifyPending
  {
  }

  lemma NextKeeps(display: Display, s: State, step: Step)
    requires Kept(display, s)
    ensures Kept(display, Next(display, s, step))
  {
    hide Flush, TrimToMaxLogSize, Distinct, FreshRows, IsRecordListable;
    match step
    case Flushes(events) => FlushKeeps(display, s, events);
    case Subscribes(snapshots) =>
      FlushKeeps(display, s, snapshots);
      TrimKeeps(display, Flush(s, snapshots));
      TrimKeepsQuiet(Flush(s, snapshots));
    case WatcherTrims =>
      TrimKeeps(display, s);
      TrimKeepsQuiet(s);
    case Clears => ClearKeeps(display, s);
    case _ =>
  }

  lemma ClearKeeps(display: Display, s: State)
    requires Kept(display, s)
    ensures Kept(display, Cleared(s))
  {
  }

  lemma {:induction false} RunKeeps(display: Display, steps: seq<Step>, states: seq<State>, i: nat)
    requires Run(display, steps, states) && i <= |steps|
    ensures Kept(display, states[i])
    decreases i
  {
    hide Next, Kept;
    if i == 0 {
      InitialIsKept(display, states[0].limit);
    } else {
      RunKeeps(display, steps, states, i - 1);
      assert states[i - 1 + 1] == Next(display, states[i - 1], steps[i - 1]);
      NextKeeps(display, states[i - 1], steps[i - 1]);
    }
  }

  lemma InitialIsKept(display: Display, limit: nat)
    ensures Kept(display, Initial(limit))
  {
  }

  /** After every run: no trace is listed twice; the listed traces are exactly those whose record has a url;
      the list is within the limit, unless the limit just changed and the watcher has yet to trim; and rows
      that are read are as if built anew. */
  lemma WindowIsKept(display: Display, steps: seq<Step>, states: seq<State>, i: nat)
    requires Run(display, steps, states) && i <= |steps|
    ensures var s := states[i];
            && (forall j, k | 0 <= j < k < |s.order| :: s.order[j] != s.order[k])
            && (forall id :: id in s.order <==>
              id in s.records && s.records[id].url.Some? && s.records[id].url.value != "")
            && (|s.order| <= s.limit || s.trimPending)
            && ReadRows(display, s).rows == FreshRows(display, s.order, s.records)
  {
    RunKeeps(display, steps, states, i);
    hide Run, FreshRows;
  }

  /** A read shows one row for each listed trace, in order. */
  lemma {:induction false} RowPerTrace(display: Display, order: seq<string>, records: Records)
    requires forall id | id in order :: Listable(records, id)
    ensures |FreshRows(display, order, records)| == |order|
    ensures forall i | 0 <= i < |order| ::
              order[i] in records
                && FreshRows(display, order, records)[i] == BuildRow(display, order[i], records[order[i]])
  {
    hide BuildRow, IsRecordListable;
    if order != [] {
      var front, last := order[..|order| - 1], order[|order| - 1];
      assert forall id | id in front :: id in order;
      RowPerTrace(display, front, records);
      assert order == front + [last];
    }
  }
}
