/** What the rows of the trace window show after each kind of event, and which traces a trim drops. */
module TraceWindowRows {
  import opened Wrappers
  import opened Text
  import opened TrafficRecords
  import opened TraceWindow
  import opened TraceWindowRuns

  // ---- What an event makes of its trace's row ----

  /** How a response's code reads: an error from four hundred on. */
  predicate ReadsAs(code: int, status: string) {
    status == if code < 400 then "success" else "error"
  }

  /** A row is that of a record: its fields, and where it has none a GET that is pending. */
  predicate Shows(display: Display, id: string, row: TrafficRecord, record: PartialRecord) {
    && row.id == id && row.url == display(record.url, id) && row.statusCode == record.statusCode
    && row.verb == (match record.verb case Some(verb) => verb case None => "GET")
    && row.status == (match record.status case Some(status) => status case None => "pending")
    && (record.requestType.Some? && !Blank(record.requestType.value) ==> row.requestType == record.requestType.value)
    && (record.requestType.None? || Blank(record.requestType.value) ==>
          row.requestType == match record.verb
                             case Some(verb) => if EqIgnoreCase(verb, "CONNECT") then "tunnel" else "fetch"
                             case None => "fetch")
  }

  /** What an event leaves of a record: the fields it brings, and all others as they were. */
  predicate Brings(event: Event, before: PartialRecord, after: PartialRecord) {
    match event
    case RequestStart(_, url, verb, _, headers, _) =>
      && after.verb == Some(verb) && after.status == Some("pending") && after.requestHeaders == Some(headers)
      && after.url == (if url.Some? && url.value != "" then url else before.url)
      && after.statusCode == before.statusCode
    case ResponseStart(_, code, _) =>
      && after == before.(status := after.status, statusCode := after.statusCode, details := after.details)
      && after.status.Some?
      && (match code
          case Some(c) => after.statusCode == Some(c) && ReadsAs(c, after.status.value)
          case None => after.statusCode == before.statusCode && after.status.value == "pending")
    case ResponseEnd(_, _) =>
      && after == before.(status := after.status, details := after.details)
      && after.status.Some?
      && (match before.statusCode
          case Some(c) => ReadsAs(c, after.status.value)
          case None => after.status.value == match before.status case Some(status) => status case None => "success")
    case Failure(_) => after == before.(status := Some("error"), details := after.details)
    case Detail(_, _) => after == before.(details := after.details)
    case Snapshot(_, _, url, verb, status, code, _, headers, _) =>
      && after.url == Some(url) && after.status == Some(status) && after.requestHeaders == Some(headers)
      && after.verb == (if verb.Some? then verb else before.verb)
      && after.statusCode == (if code.Some? then code else before.statusCode)
  }

  lemma UpperIs(verb: string)
    ensures Upper(verb) == "CONNECT" <==> EqIgnoreCase(verb, "CONNECT")
  {
    LowerIdempotent(verb);
    var w := "CONNECT";
    assert Upper(w) == w && |Lower(verb)| == |verb| == |Upper(verb)| && |Lower(w)| == |w|;
    if Lower(verb) == Lower(w) {
      forall i | 0 <= i < |verb| ensures Upper(verb)[i] == w[i] {
        assert Lower(verb)[i] == LowerChar(verb[i]) && Lower(w)[i] == LowerChar(w[i]);
        assert 'A' <= w[i] <= 'Z';
      }
    }
  }

  lemma RowShows(display: Display, id: string, record: PartialRecord)
    ensures Shows(display, id, BuildRow(display, id, record), record)
  {
    if record.verb.Some? {
      UpperIs(record.verb.value);
    }
    hide Upper, EqIgnoreCase;
    assert record.requestType.Some? ==> (Trim(record.requestType.value) == "" <==> Blank(record.requestType.value));
    hide Trim, Blank;
  }

  lemma PatchBrings(event: Event, before: PartialRecord)
    ensures Brings(event, before, MergePartialRequestRecord(before, PatchOf(event, before)))
  {
    hide InferRequestType;
  }

  // ---- Which records an event touches ----

  /** Traces that a trim drops are older than all that it keeps, and it keeps as many as it may. */
  predicate DropsOldest(order: seq<string>, limit: nat, order': seq<string>) {
    && |order'| == (if |order| < limit then |order| else limit)
    && forall i | 0 <= i < |order'| :: order'[i] == order[|order| - |order'| + i]
  }

  /** Of these traces with a record, those that are dropped lose it. */
  ghost predicate Trims(order: seq<string>, limit: nat, traces: set<string>, s': State) {
    && DropsOldest(order, limit, s'.order)
    && forall x :: x in s'.records <==> x in traces && !(exists i | 0 <= i < |order| - |s'.order| :: order[i] == x)
  }

  lemma TrimDrops(s: State)
    ensures Trims(s.order, s.limit, s.records.Keys, TrimToMaxLogSize(s))
    ensures forall x | x in TrimToMaxLogSize(s).records :: TrimToMaxLogSize(s).records[x] == s.records[x]
  {
    TrimUnfolds(s);
    if |s.order| > s.limit {
      var excess := |s.order| - s.limit;
      var dropped := s.order[..excess];
      forall x ensures x in dropped <==> exists i | 0 <= i < excess :: s.order[i] == x {
        if x in dropped {
          var i :| 0 <= i < excess && dropped[i] == x;
          assert s.order[i] == x;
        }
        if i :| 0 <= i < excess && s.order[i] == x {
          assert dropped[i] == x;
        }
      }
    }
    hide Notify, SetOrder;
  }

  /** A trace listed for the first time is listed last. */
  lemma NewIsLast(order: seq<string>, id: string)
    requires id !in order
    ensures PromoteTraceToOrder(order, id) == order + [id]
  {
  }

  /** What an event leaves: its trace's record brings what the event brings, unless the event prunes or trims it;
      every other record stays as it is, unless it is trimmed. */
  lemma EventTouches(s: State, event: Event)
    requires event.id != "" && (event.Snapshot? ==> event.started && event.pageUrl != "")
    ensures var s' := HandleEvent(s, event);
            && (event.id in s'.records ==> Brings(event, RecordOf(s.records, event.id), s'.records[event.id]))
            && forall x | x in s'.records && x != event.id :: x in s.records && s'.records[x] == s.records[x]
  {
    var patch := PatchOf(event, RecordOf(s.records, event.id));
    var updated := UpdateRecord(s, event.id, patch);
    PatchBrings(event, RecordOf(s.records, event.id));
    UpdateUnfolds(s, event.id, patch);
    hide Brings, MergePartialRequestRecord, PatchOf, UpdateRecord, RecordOf, PatchTouchesTrafficList;
    match event
    case RequestStart(id, _, _, _, _, _) => PromoteTouches(updated, id);
    case Snapshot(id, _, _, _, _, _, _, _, _) => PromoteTouches(updated, id);
    case ResponseEnd(id, _) => RemoveUnfolds(updated, id);
    case _ =>
  }

  lemma PromoteTouches(s: State, id: string)
    ensures var s' := PromoteToList(s, id);
            forall x | x in s'.records :: x in s.records && s'.records[x] == s.records[x]
  {
    TrimDrops(SetOrder(s, PromoteTraceToOrder(s.order, id)));
    hide TrimToMaxLogSize, PromoteTraceToOrder;
  }

  /** Nothing comes of an event without a trace, or a snapshot of a request that has not started or has no url. */
  lemma IgnoredChangesNothing(s: State, event: Event)
    requires event.id == "" || (event.Snapshot? && (!event.started || event.pageUrl == ""))
    ensures HandleEvent(s, event) == s
  {
  }

  // ---- Which traces an event lists and drops ----

  /** Whether the event, or the record before it, names a url. */
  predicate NamesUrl(s: State, event: Event) {
    || (event.RequestStart? && event.url.Some? && event.url.value != "")
    || event.Snapshot?
    || (event.id in s.records && s.records[event.id].url.Some? && s.records[event.id].url.value != "")
  }

  /** A request or snapshot with a url is listed, at the end unless it is there already, and the oldest traces beyond
      the limit go; the end of a response without a url takes its record away; nothing else comes or goes. */
  ghost predicate Lists(s: State, event: Event, s': State) {
    if (event.RequestStart? || event.Snapshot?) && NamesUrl(s, event) then
      var order := if event.id in s.order then s.order else s.order + [event.id];
      Trims(order, s.limit, s.records.Keys + {event.id}, s')
    else
      && s'.order == s.order
      && forall x :: x in s'.records <==>
           if x == event.id then !event.ResponseEnd? || NamesUrl(s, event) else x in s.records
  }

  lemma EventLists(s: State, event: Event)
    requires Listed(s) && event.id != "" && (event.Snapshot? ==> event.started && event.pageUrl != "")
    ensures Lists(s, event, HandleEvent(s, event))
  {
    var id := event.id;
    var patch := PatchOf(event, RecordOf(s.records, id));
    var updated := UpdateRecord(s, id, patch);
    UpdateUnfolds(s, id, patch);
    UrlAfter(s, event);
    assert NamesUrl(s, event) <==> Listable(updated.records, id);
    hide MergePartialRequestRecord, PatchOf, UpdateRecord, RecordOf, NamesUrl, Listed, Trims;
    assert updated.records.Keys == s.records.Keys + {id};
    match event
    case RequestStart(_, _, _, _, _, _) => PromoteLists(updated, id);
    case Snapshot(_, _, _, _, _, _, _, _, _) => PromoteLists(updated, id);
    case ResponseEnd(_, _) =>
      RemoveUnfolds(updated, id);
      if !NamesUrl(s, event) {
        UnlistedHasNoUrl(s, event);
        DemoteAbsent(s.order, id);
      }
    case _ =>
  }

  lemma UrlAfter(s: State, event: Event)
    requires event.id != "" && (event.Snapshot? ==> event.started && event.pageUrl != "")
    ensures var before := RecordOf(s.records, event.id);
            NamesUrl(s, event) <==> IsRecordListable(MergePartialRequestRecord(before, PatchOf(event, before)))
  {
    PatchBrings(event, RecordOf(s.records, event.id));
    hide PatchOf, MergePartialRequestRecord;
  }

  lemma UnlistedHasNoUrl(s: State, event: Event)
    requires Listed(s) && !NamesUrl(s, event)
    ensures event.id !in s.order
  {
    hide Distinct;
  }

  lemma {:induction false} DemoteAbsent(order: seq<string>, id: string)
    requires id !in order
    ensures DemoteTraceFromOrder(order, id) == order
  {
    if order != [] {
      DemoteAbsent(order[..|order| - 1], id);
    }
  }

  lemma PromoteLists(s: State, id: string)
    requires id in s.records
    ensures var s' := PromoteToList(s, id);
            if Listable(s.records, id) then
              var order := if id in s.order then s.order else s.order + [id];
              Trims(order, s.limit, s.records.Keys, s')
            else s' == s
  {
    TrimDrops(SetOrder(s, PromoteTraceToOrder(s.order, id)));
    hide TrimToMaxLogSize, Trims;
  }

  /** The selection goes exactly when the selected trace's record goes. */
  lemma SelectionFollows(s: State, event: Event)
    requires Listed(s) && event.id != ""
    ensures var s' := HandleEvent(s, event);
            s'.selected == if s.selected.Some? && Gone(s, event, s', s.selected.value) then None else s.selected
  {
    if !Ignored(event) {
      var id := event.id;
      var patch := PatchOf(event, RecordOf(s.records, id));
      var updated := UpdateRecord(s, id, patch);
      UpdateUnfolds(s, id, patch);
      SelectionStays(s, id, patch);
      UpdatedListed(s, id, patch);
      hide MergePartialRequestRecord, PatchOf, UpdateRecord, RecordOf, Listed;
      match event
      case RequestStart(_, _, _, _, _, _) => PromoteSelection(updated, id);
      case Snapshot(_, _, _, _, _, _, _, _, _) => PromoteSelection(updated, id);
      case ResponseEnd(_, _) =>
        RemoveUnfolds(updated, id);
        RemoveSelection(updated, id);
      case _ =>
    }
  }

  /** A trace that has a record, or is the event's, and has none afterwards. */
  predicate Gone(s: State, event: Event, s': State, x: string) {
    (x in s.records || (x == event.id && !Ignored(event))) && x !in s'.records
  }

  lemma SelectionStays(s: State, id: string, patch: PartialRecord)
    ensures UpdateRecord(s, id, patch).selected == s.selected
  {
    hide PatchTouchesTrafficList, MergePartialRequestRecord;
  }

  lemma UpdatedListed(s: State, id: string, patch: PartialRecord)
    requires Listed(s)
    ensures forall x | x in s.order :: x in UpdateRecord(s, id, patch).records
  {
    UpdateUnfolds(s, id, patch);
    hide UpdateRecord, MergePartialRequestRecord, Distinct;
  }

  lemma PromoteSelection(s: State, id: string)
    requires id in s.records && forall x | x in s.order :: x in s.records
    ensures var s' := PromoteToList(s, id);
            s'.selected ==
            if s.selected.Some? && s.selected.value in s.records && s.selected.value !in s'.records then None
            else s.selected
  {
    if Listable(s.records, id) {
      TrimSelection(SetOrder(s, PromoteTraceToOrder(s.order, id)));
    }
    hide TrimToMaxLogSize;
  }

  lemma TrimSelection(s: State)
    requires forall x | x in s.order :: x in s.records
    ensures var s' := TrimToMaxLogSize(s);
            s'.selected ==
            if s.selected.Some? && s.selected.value in s.records && s.selected.value !in s'.records then None
            else s.selected
  {
    var n := |s.order| - s.limit;
    if n > 0 {
      var dropped := s.order[..n];
      assert forall x | x in dropped :: x in s.order;
      assert forall x :: x in dropped <==> x in set y | y in dropped;
    }
    hide SetOrder;
  }

  lemma RemoveSelection(s: State, id: string)
    ensures RemoveRecord(s, id).selected == if s.selected == Some(id) then None else s.selected
  {
    hide DemoteTraceFromOrder;
  }

  // ---- Subscriptions and clears ----

  lemma {:induction false} EventsKeepLimit(s: State, events: seq<Event>)
    ensures HandleAll(s, events).limit == s.limit
  {
    hide HandleEvent;
    if events != [] {
      EventsKeepLimit(s, events[..|events| - 1]);
      EventKeepsLimit(HandleAll(s, events[..|events| - 1]), events[|events| - 1]);
    }
  }

  lemma EventKeepsLimit(s: State, event: Event)
    ensures HandleEvent(s, event).limit == s.limit
  {
    if !Ignored(event) {
      var updated := UpdateRecord(s, event.id, PatchOf(event, RecordOf(s.records, event.id)));
      UpdateUnfolds(s, event.id, PatchOf(event, RecordOf(s.records, event.id)));
      RemoveUnfolds(updated, event.id);
      TrimUnfolds(SetOrder(updated, PromoteTraceToOrder(updated.order, event.id)));
    }
    hide UpdateRecord, RemoveRecord, TrimToMaxLogSize, PatchOf, RecordOf, PromoteTraceToOrder;
  }

  /** After a subscription the list is within the limit, even if the limit was lowered and no trim came since. */
  lemma SubscribedIsWithin(s: State, snapshots: seq<Event>)
    ensures |Subscribe(s, snapshots).order| <= s.limit
  {
    EventsKeepLimit(s.(batched := true), snapshots);
    TrimDrops(Flush(s, snapshots));
    hide HandleAll, TrimToMaxLogSize;
  }

  /** A clear leaves no record, no row when the rows are read next, and nothing selected. */
  lemma ClearLeavesNothing(display: Display, s: State)
    ensures var s' := ReadRows(display, Cleared(s)); s'.records == map[] && s'.rows == [] && s'.selected == None
  {
  }

  // ---- A request and its response, read ----

  /** The row of a trace as the list shows it. */
  ghost predicate RowIs(display: Display, s: State, id: string, status: string, code: Option<int>, verb: string) {
    exists i ::
      && 0 <= i < |s.order| == |s.rows| && s.order[i] == id && s.rows[i].id == id
      && s.rows[i].status == status && s.rows[i].statusCode == code && s.rows[i].verb == verb
  }

  /** A flush and a read. */
  function FlushAndRead(display: Display, s: State, event: Event): State {
    ReadRows(display, Flush(s, [event]))
  }

  lemma ReadShows(display: Display, s: State, id: string)
    requires Kept(display, s) && id in s.order
    ensures var s' := ReadRows(display, s);
            id in s.records
            && RowIs(display, s', id, match s.records[id].status case Some(status) => status case None => "pending",
                     s.records[id].statusCode, match s.records[id].verb case Some(verb) => verb case None => "GET")
  {
    hide FreshRows;
    RowPerTrace(display, s.order, s.records);
    var i :| 0 <= i < |s.order| && s.order[i] == id;
    RowShows(display, id, s.records[id]);
    hide BuildRow;
    assert ReadRows(display, s).rows == FreshRows(display, s.order, s.records);
  }

  lemma FlushOne(s: State, event: Event)
    ensures Flush(s, [event]) == EndBatch(HandleEvent(s.(batched := true), event))
  {
    assert [event][..0] == [];
    assert HandleAll(s.(batched := true), []) == s.(batched := true);
    hide HandleEvent;
  }

  /** A request that starts, with a url, is listed at once: pending, with its method. */
  lemma RowAfterStart(display: Display, s: State, event: Event)
    requires Kept(display, s) && event.RequestStart? && event.id != "" && event.url.Some? && event.url.value != ""
    requires s.limit > 0 && !s.trimPending
    ensures RowIs(display, FlushAndRead(display, s, event), event.id, "pending",
                  RecordOf(s.records, event.id).statusCode, event.verb)
  {
    var id := event.id;
    var mid := s.(batched := true);
    FlushKeeps(display, s, [event]);
    FlushOne(s, event);
    StartIsListed(mid, event);
    EventTouches(mid, event);
    hide HandleEvent, Flush, HandleAll, FreshRows, Kept;
    var s' := Flush(s, [event]);
    ListedHasRecord(display, s', id);
    ReadShows(display, s', id);
  }

  lemma ListedHasRecord(display: Display, s: State, id: string)
    requires Kept(display, s)
    ensures id in s.order <==> Listable(s.records, id)
  {
    hide FreshRows, Distinct;
  }

  /** The trace of a request that starts is the last to be dropped. */
  lemma StartIsListed(s: State, event: Event)
    requires Listed(s) && Within(s) && event.RequestStart? && event.id != "" && event.url.Some? && event.url.value != ""
    requires s.limit > 0 && !s.trimPending
    ensures event.id in HandleEvent(s, event).order
  {
    var id := event.id;
    var patch := PatchOf(event, RecordOf(s.records, id));
    var updated := UpdateRecord(s, id, patch);
    UpdateUnfolds(s, id, patch);
    assert Listable(updated.records, id);
    hide UpdateRecord, Listable, PatchOf, MergePartialRequestRecord;
    var promoted := SetOrder(updated, PromoteTraceToOrder(s.order, id));
    TrimDrops(promoted);
    var order, order' := promoted.order, TrimToMaxLogSize(promoted).order;
    hide TrimToMaxLogSize;
    if id in s.order {
      assert order == s.order && |order| <= s.limit;
      assert order' == order;
    } else {
      assert order'[|order'| - 1] == order[|order| - 1] == id;
    }
  }

  /** A response with a code turns a listed trace's row to success, or to an error from four hundred on. */
  lemma RowAfterResponse(display: Display, s: State, event: Event, code: int)
    requires Kept(display, s) && event.ResponseStart? && event.id != "" && event.statusCode == Some(code)
    requires event.id in s.order
    ensures RowIs(display, FlushAndRead(display, s, event), event.id, if code < 400 then "success" else "error",
                  Some(code), match RecordOf(s.records, event.id).verb case Some(verb) => verb case None => "GET")
  {
    var id := event.id;
    var mid := s.(batched := true);
    FlushKeeps(display, s, [event]);
    FlushOne(s, event);
    EventTouches(mid, event);
    ResponseKeepsOrder(mid, event);
    hide HandleEvent, Flush, HandleAll, FreshRows, Kept;
    ReadShows(display, Flush(s, [event]), id);
  }

  lemma ResponseKeepsOrder(s: State, event: Event)
    requires event.ResponseStart? && event.id != ""
    ensures HandleEvent(s, event).order == s.order && event.id in HandleEvent(s, event).records
  {
    UpdateUnfolds(s, event.id, PatchOf(event, RecordOf(s.records, event.id)));
    hide UpdateRecord, MergePartialRequestRecord, PatchOf, RecordOf;
  }
}
