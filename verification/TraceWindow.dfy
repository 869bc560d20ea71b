/** The user interface's window of captured traces: records by trace, the order in which they are listed,
    and the rows computed from both. Records are changed in place, so the rows are computed anew only after
    a notification; within a batch of events notifications wait for its end. */
module TraceWindow {
  import opened Wrappers
  import opened Text
  import opened TrafficRecords

  type Records = map<string, PartialRecord>

  const NO_RECORD := PartialRecord(None, None, None, None, None, None, map[])

  // ---- Records and rows ----

  predicate IsRecordListable(record: PartialRecord) {
    record.url.Some? && record.url.value != ""
  }

  /** Whether a patch has any of the fields that list rows and filters look at. */
  predicate PatchTouchesTrafficList(patch: PartialRecord) {
    patch.verb.Some? || patch.url.Some? || patch.status.Some? || patch.statusCode.Some? || patch.requestType.Some?
    || patch.requestHeaders.Some?
  }

  function Else<T>(a: Option<T>, b: Option<T>): Option<T> {
    if a.Some? then a else b
  }

  /** The fields of the patch, and where it has none those of the record. */
  function MergePartialRequestRecord(current: PartialRecord, patch: PartialRecord): PartialRecord {
    PartialRecord(
      Else(patch.verb, current.verb),
      Else(patch.url, current.url),
      Else(patch.status, current.status),
      Else(patch.statusCode, current.statusCode),
      Else(patch.requestType, current.requestType),
      Else(patch.requestHeaders, current.requestHeaders),
      current.details + patch.details)
  }

  function InferRequestType(verb: Option<string>, requestType: Option<string>): string {
    if requestType.Some? && Trim(requestType.value) != "" then requestType.value
    else if verb.Some? && Upper(verb.value) == "CONNECT" then "tunnel"
    else "fetch"
  }

  /** How a url is displayed, given the trace it belongs to. */
  type Display = (Option<string>, string) -> string

  function BuildRow(display: Display, id: string, item: PartialRecord): TrafficRecord {
    TrafficRecord(
      id,
      display(item.url, id),
      if item.verb.Some? then item.verb.value else "GET",
      InferRequestType(item.verb, item.requestType),
      if item.status.Some? then item.status.value else "pending",
      item.statusCode)
  }

  function RecordOf(records: Records, id: string): PartialRecord {
    if id in records then records[id] else NO_RECORD
  }

  predicate Listable(records: Records, id: string) {
    id in records && IsRecordListable(records[id])
  }

  /** The rows of a list, freshly built. */
  function FreshRows(display: Display, order: seq<string>, records: Records): seq<TrafficRecord> {
    if order == [] then []
    else
      var front, id := order[..|order| - 1], order[|order| - 1];
      FreshRows(display, front, records) + if Listable(records, id) then [BuildRow(display, id, records[id])] else []
  }

  // ---- One step of the state ----

  /** `stale` says that the rows will be computed anew when they are next read. */
  datatype State = State(
    order: seq<string>,
    records: Records,
    selected: Option<string>,
    limit: nat,
    trimPending: bool,
    batched: bool,
    notifyPending: bool,
    stale: bool,
    rows: seq<TrafficRecord>)

  function Notify(s: State): State {
    if s.batched then s.(notifyPending := true) else s.(stale := true)
  }

  function SetOrder(s: State, order: seq<string>): State {
    s.(order := order, stale := s.stale || order != s.order)
  }

  function UpdateRecord(s: State, id: string, patch: PartialRecord): State {
    var s' := s.(records := s.records[id := MergePartialRequestRecord(RecordOf(s.records, id), patch)]);
    if PatchTouchesTrafficList(patch) || s.selected == Some(id) then Notify(s') else s'
  }

  /** The oldest traces beyond the limit go, with their records. */
  function TrimToMaxLogSize(s: State): State {
    if |s.order| <= s.limit then s
    else
      var excess := |s.order| - s.limit;
      var dropped := s.order[..excess];
      var s' := Notify(SetOrder(s, s.order[excess..]).(records := s.records - set id | id in dropped));
      if s'.selected.Some? && s'.selected.value in dropped then s'.(selected := None) else s'
  }

  function PromoteTraceToOrder(order: seq<string>, id: string): seq<string> {
    if id in order then order else order + [id]
  }

  function DemoteTraceFromOrder(order: seq<string>, id: string): seq<string> {
    if order == [] then []
    else
      var front, last := order[..|order| - 1], order[|order| - 1];
      DemoteTraceFromOrder(front, id) + if last == id then [] else [last]
  }

  function PromoteToList(s: State, id: string): State {
    if !Listable(s.records, id) then s else TrimToMaxLogSize(SetOrder(s, PromoteTraceToOrder(s.order, id)))
  }

  function DemoteFromList(s: State, id: string): State {
    var s' := SetOrder(s, DemoteTraceFromOrder(s.order, id));
    if s'.selected == Some(id) then s'.(selected := None) else s'
  }

  function RemoveRecord(s: State, id: string): State {
    if id !in s.records then DemoteFromList(s, id)
    else DemoteFromList(Notify(s.(records := s.records - {id})), id)
  }

  function PruneIfIncomplete(s: State, id: string): State {
    if Listable(s.records, id) then s else RemoveRecord(s, id)
  }

  /** Stream events, their payloads parsed. `Detail` stands for bodies, the end of a request and websocket
      frames, which carry nothing that the list shows. */
  datatype Event =
    | RequestStart(id: string, url: Option<string>, verb: string, requestType: Option<string>,
                   headers: seq<(string, string)>, details: map<string, string>)
    | ResponseStart(id: string, statusCode: Option<int>, details: map<string, string>)
    | ResponseEnd(id: string, details: map<string, string>)
    | Failure(id: string)
    | Detail(id: string, details: map<string, string>)
    | Snapshot(id: string, started: bool, pageUrl: string, knownVerb: Option<string>, status: string,
               statusCode: Option<int>, requestType: Option<string>, headers: seq<(string, string)>,
               details: map<string, string>)

  function StatusOfCode(code: int): string {
    if code >= 400 then "error" else "success"
  }

  function PatchOf(event: Event, current: PartialRecord): PartialRecord {
    match event
    case RequestStart(_, url, verb, requestType, headers, details) =>
      PartialRecord(Some(verb), if url == Some("") then None else url, Some("pending"), None,
                    Some(InferRequestType(Some(verb), requestType)), Some(headers), details)
    case ResponseStart(_, statusCode, details) =>
      PartialRecord(None, None, Some(if statusCode.Some? then StatusOfCode(statusCode.value) else "pending"),
                    statusCode, None, None, details)
    case ResponseEnd(_, details) =>
      var status :=
        if current.statusCode.Some? then StatusOfCode(current.statusCode.value)
        else if current.status.Some? then current.status.value
        else "success";
      PartialRecord(None, None, Some(status), None, None, None, details)
    case Failure(_) => PartialRecord(None, None, Some("error"), None, None, None, map[])
    case Detail(_, details) => PartialRecord(None, None, None, None, None, None, details)
    case Snapshot(_, _, url, verb, status, statusCode, requestType, headers, details) =>
      PartialRecord(verb, Some(url), Some(status), statusCode, Some(InferRequestType(verb, requestType)), Some(headers),
                    details)
  }

  /** An event without a trace id, or a snapshot of a request that has not started or has no url. */
  predicate Ignored(event: Event) {
    event.id == "" || (event.Snapshot? && (!event.started || event.pageUrl == ""))
  }

  function HandleEvent(s: State, event: Event): State {
    if Ignored(event) then s
    else
      var updated := UpdateRecord(s, event.id, PatchOf(event, RecordOf(s.records, event.id)));
      match event
      case RequestStart(id, _, _, _, _, _) => PromoteToList(updated, id)
      case Snapshot(id, _, _, _, _, _, _, _, _) => PromoteToList(updated, id)
      case ResponseEnd(id, _) => PruneIfIncomplete(updated, id)
      case _ => updated
  }

  function HandleAll(s: State, events: seq<Event>): State {
    if events == [] then s else HandleEvent(HandleAll(s, events[..|events| - 1]), events[|events| - 1])
  }

  function EndBatch(s: State): State {
    s.(batched := false, notifyPending := false, stale := s.stale || s.notifyPending)
  }

  /** All events queued since the last flush, in one batch. */
  function Flush(s: State, events: seq<Event>): State {
    EndBatch(HandleAll(s.(batched := true), events))
  }

  /** The snapshots that a subscription answers with, and a trim. */
  function Subscribe(s: State, snapshots: seq<Event>): State {
    TrimToMaxLogSize(Flush(s, snapshots))
  }

  function Cleared(s: State): State {
    s.(order := [], records := map[], selected := None, stale := true)
  }

  /** The limit changes at once; the watcher that trims runs later. */
  function SetLimit(s: State, limit: nat): State {
    s.(limit := limit, trimPending := s.trimPending || limit != s.limit)
  }

  function TrimWatcher(s: State): State {
    TrimToMaxLogSize(s).(trimPending := false)
  }

  function ReadRows(display: Display, s: State): State {
    if s.stale then s.(rows := FreshRows(display, s.order, s.records), stale := false) else s
  }

  // ---- The store, in place ----

  class RequestStreamStore {
    const display: Display
    var traceOrder: seq<string>
    var recordsByTrace: Records
    var selectedId: Option<string>
    var maxLogSize: nat
    var trimPending: bool
    var batched: bool
    var notifyPending: bool
    var stale: bool
    var rows: seq<TrafficRecord>
    var trafficRecordCache: map<string, TrafficRecord>

    constructor (display: Display, limit: nat)
      ensures this.display == display && Current() == Initial(limit)
    {
      this.display := display;
      traceOrder, recordsByTrace, selectedId, maxLogSize, trimPending := [], map[], None, limit, false;
      batched, notifyPending, stale, rows, trafficRecordCache := false, false, true, [], map[];
    }

    ghost function Current(): State
      reads this
    {
      State(traceOrder, recordsByTrace, selectedId, maxLogSize, trimPending, batched, notifyPending, stale, rows)
    }

    method NotifyRecordsByTrace()
      modifies this`notifyPending, this`stale
      ensures Current() == Notify(old(Current()))
    {
      if batched {
        notifyPending := true;
        return;
      }
      stale := true;
    }

    method AssignOrder(order: seq<string>)
      modifies this`traceOrder, this`stale
      ensures Current() == SetOrder(old(Current()), order)
    {
      stale := stale || order != traceOrder;
      traceOrder := order;
    }

    method AssignRecord(id: string, record: PartialRecord)
      modifies this`recordsByTrace
      ensures Current() == old(Current()).(records := old(recordsByTrace)[id := record])
    {
      recordsByTrace := recordsByTrace[id := record];
    }

    method Update(id: string, patch: PartialRecord)
      modifies this
      ensures Current() == UpdateRecord(old(Current()), id, patch)
    {
      hide Notify;
      AssignRecord(id, MergePartialRequestRecord(RecordOf(recordsByTrace, id), patch));
      if PatchTouchesTrafficList(patch) || selectedId == Some(id) {
        NotifyRecordsByTrace();
      }
    }

    method DeleteRecords(dropped: seq<string>)
      modifies this`recordsByTrace
      ensures Current() == old(Current()).(records := old(recordsByTrace) - set id | id in dropped)
    {
      var i := 0;
      while i < |dropped|
        invariant 0 <= i <= |dropped|
        invariant recordsByTrace == old(recordsByTrace) - set id | id in dropped[..i]
      {
        assert dropped[..i + 1] == dropped[..i] + [dropped[i]];
        recordsByTrace := recordsByTrace - {dropped[i]};
        i := i + 1;
      }
      assert dropped[..i] == dropped;
    }

    method Deselect(dropped: seq<string>)
      modifies this`selectedId
      ensures Current() ==
              var s := old(Current());
              if s.selected.Some? && s.selected.value in dropped then s.(selected := None) else s
    {
      if selectedId.Some? && selectedId.value in dropped {
        selectedId := None;
      }
    }

    method Trim()
      modifies this
      ensures Current() == TrimToMaxLogSize(old(Current()))
    {
      hide Notify, SetOrder;
      if |traceOrder| <= maxLogSize {
        return;
      }
      var excess := |traceOrder| - maxLogSize;
      var droppedIds := traceOrder[..excess];
      ghost var s := Current();
      assert SetOrder(s, s.order[excess..]).records == s.records
             && SetOrder(s, s.order[excess..]).selected == s.selected
        by { OrderAlone(s, s.order[excess..]); }
      AssignOrder(traceOrder[excess..]);
      DeleteRecords(droppedIds);
      NotifyRecordsByTrace();
      Deselect(droppedIds);
    }

    method Promote(id: string)
      modifies this
      ensures Current() == PromoteToList(old(Current()), id)
    {
      hide TrimToMaxLogSize, SetOrder;
      if id !in recordsByTrace || !IsRecordListable(recordsByTrace[id]) {
        return;
      }
      AssignOrder(PromoteTraceToOrder(traceOrder, id));
      Trim();
    }

    method Demote(id: string)
      modifies this
      ensures Current() == DemoteFromList(old(Current()), id)
    {
      hide SetOrder, DemoteTraceFromOrder;
      AssignOrder(DemoteTraceFromOrder(traceOrder, id));
      if selectedId == Some(id) {
        selectedId := None;
      }
    }

    method Remove(id: string)
      modifies this
      ensures Current() == RemoveRecord(old(Current()), id)
    {
      hide DemoteFromList, Notify;
      if id !in recordsByTrace {
        Demote(id);
        return;
      }
      DeleteRecords([id]);
      assert (set x | x in [id]) == {id};
      NotifyRecordsByTrace();
      Demote(id);
    }

    method HandleEventFrame(event: Event)
      modifies this
      ensures Current() == HandleEvent(old(Current()), event)
    {
      hide UpdateRecord, PatchOf, PromoteToList, RemoveRecord;
      if Ignored(event) {
        return;
      }
      Update(event.id, PatchOf(event, RecordOf(recordsByTrace, event.id)));
      match event {
        case RequestStart(id, _, _, _, _, _) =>
          Promote(id);
        case Snapshot(id, _, _, _, _, _, _, _, _) =>
          Promote(id);
        case ResponseEnd(id, _) =>
          if id !in recordsByTrace || !IsRecordListable(recordsByTrace[id]) {
            Remove(id);
          }
        case _ =>
      }
    }

    method FlushPendingEventFrames(frames: seq<Event>)
      modifies this
      ensures Current() == Flush(old(Current()), frames)
    {
      hide HandleEvent;
      batched := true;
      ghost var s := Current();
      var i := 0;
      while i < |frames|
        invariant 0 <= i <= |frames|
        invariant Current() == HandleAll(s, frames[..i])
      {
        assert frames[..i + 1][..i] == frames[..i];
        HandleEventFrame(frames[i]);
        i := i + 1;
      }
      assert frames[..i] == frames;
      FinishBatch();
    }

    /** The snapshots that a subscription answered with. */
    method TakeSnapshots(snapshots: seq<Event>)
      modifies this
      ensures Current() == Subscribe(old(Current()), snapshots)
    {
      hide Flush, TrimToMaxLogSize;
      FlushPendingEventFrames(snapshots);
      Trim();
    }

    method Clear()
      modifies this
      ensures Current() == Cleared(old(Current())) && trafficRecordCache == map[]
    {
      traceOrder := [];
      recordsByTrace := map[];
      trafficRecordCache := map[];
      selectedId := None;
      stale := true;
    }

    method FinishBatch()
      modifies this`batched, this`notifyPending, this`stale
      ensures Current() == EndBatch(old(Current()))
    {
      batched := false;
      if notifyPending {
        notifyPending := false;
        stale := true;
      }
    }

    /** The rows of the list. A cached row is used when it equals the one just built; rows of traces that
        are gone leave the cache. */
    method TrafficRecords() returns (result: seq<TrafficRecord>)
      modifies this`rows, this`stale, this`trafficRecordCache
      ensures Current() == ReadRows(display, old(Current())) && result == rows
    {
      if !stale {
        return rows;
      }
      result := [];
      var activeIds: set<string> := {};
      var i := 0;
      while i < |traceOrder|
        invariant 0 <= i <= |traceOrder| && Current() == old(Current())
        invariant result == FreshRows(display, traceOrder[..i], recordsByTrace)
      {
        hide BuildRow, IsRecordListable;
        var id := traceOrder[i];
        assert traceOrder[..i + 1][..i] == traceOrder[..i];
        i := i + 1;
        if id !in recordsByTrace || !IsRecordListable(recordsByTrace[id]) {
          continue;
        }
        activeIds := activeIds + {id};
        var nextRow := BuildRow(display, id, recordsByTrace[id]);
        if id in trafficRecordCache && trafficRecordCache[id] == nextRow {
          result := result + [trafficRecordCache[id]];
          continue;
        }
        trafficRecordCache := trafficRecordCache[id := nextRow];
        result := result + [nextRow];
      }
      assert traceOrder[..i] == traceOrder;
      trafficRecordCache := map id | id in trafficRecordCache && id in activeIds :: trafficRecordCache[id];
      rows := result;
      stale := false;
    }
  }

  lemma OrderAlone(s: State, order: seq<string>)
    ensures SetOrder(s, order).records == s.records && SetOrder(s, order).selected == s.selected
  {
  }

  function Initial(limit: nat): State {
    State([], map[], None, limit, false, false, false, true, [])
  }
}
