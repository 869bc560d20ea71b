/** The cache of captured traffic, one entry per trace, and the events that update it in place.
    Every clock reading of one operation is the same parameter `now`, in milliseconds. */
module EventStore {
  import opened Wrappers

  type TraceId = string

  type Bytes = seq<bv8>

  datatype Status = Initial | RequestStarted | Completed | Error(reason: string) | Cancelled

  datatype Request = Request(verb: string, url: string, headers: map<string, string>, body: Bytes)

  datatype Response = Response(code: nat, headers: map<string, string>, body: Bytes)

  datatype WebSocketMessage =
    | Text(body: Option<Bytes>)
    | Binary(body: Option<Bytes>)
    | Ping(body: Option<Bytes>)
    | Pong(body: Option<Bytes>)
    | Close(frame: Option<(nat, Bytes)>)

  datatype WebSocketLog = WebSocketLog(fromClient: bool, timestamp: nat, message: WebSocketMessage)

  datatype WebSocketStatus = Start | Connected | Disconnected | Failed(reason: string)

  datatype WebSocket = WebSocket(status: WebSocketStatus, log: seq<WebSocketLog>)

  datatype TunnelStatus = TunnelConnected | TunnelDisconnected

  datatype Timings = Timings(
    requestStart: Option<nat>,
    requestEnd: Option<nat>,
    requestBodyStart: Option<nat>,
    requestBodyEnd: Option<nat>,
    proxyStart: Option<nat>,
    proxyEnd: Option<nat>,
    responseBodyStart: Option<nat>,
    responseBodyEnd: Option<nat>,
    tunnelStart: Option<nat>,
    tunnelEnd: Option<nat>,
    websocketStart: Option<nat>,
    websocketEnd: Option<nat>)

  const NO_TIMINGS := Timings(None, None, None, None, None, None, None, None, None, None, None, None)

  datatype Entry = Entry(
    status: Status,
    traceId: TraceId,
    isNew: bool,
    request: Option<Request>,
    response: Option<Response>,
    messages: Option<WebSocket>,
    tunnel: Option<TunnelStatus>,
    timings: Timings,
    completedAt: Option<nat>)

  datatype Event =
    | OnRequestStart(id: TraceId, request: Request)
    | OnRequestBody(id: TraceId, data: Option<Bytes>)
    | OnRequestEnd(id: TraceId)
    | OnResponseStart(id: TraceId, response: Response)
    | OnResponseBody(id: TraceId, data: Option<Bytes>)
    | OnProxyStart(id: TraceId)
    | OnProxyEnd(id: TraceId)
    | OnWebSocketStart(id: TraceId)
    | OnWebSocketMessage(id: TraceId, log: WebSocketLog)
    | OnWebSocketEnd(id: TraceId)
    | OnWebSocketError(id: TraceId, reason: string)
    | OnTunnelStart(id: TraceId)
    | OnTunnelEnd(id: TraceId)
    | OnError(id: TraceId, reason: string)

  const MAX_WEBSOCKET_LOG_MESSAGES := 1000
  const EVICT_THRESHOLD := 10
  const MAX_AGE_MS := 10 * 60 * 1000
  const U64_MAX := 0xffff_ffff_ffff_ffff

  // ---- One entry ----

  predicate Terminal(status: Status) {
    status.Completed? || status.Error? || status.Cancelled?
  }

  predicate HasOpenConnection(e: Entry) {
    || e.tunnel == Some(TunnelConnected)
    || (e.messages.Some? && (e.messages.value.status.Start? || e.messages.value.status.Connected?))
  }

  function SaturatingSub(a: nat, b: nat): nat {
    if a >= b then a - b else 0
  }

  predicate NeedsDeletion(e: Entry, now: nat) {
    && !HasOpenConnection(e)
    && (Terminal(e.status) || (e.completedAt.Some? && SaturatingSub(now, e.completedAt.value) > MAX_AGE_MS))
  }

  function Started(id: TraceId, request: Request, now: nat): Entry {
    Entry(RequestStarted, id, true, Some(request), None, None, None, NO_TIMINGS.(requestStart := Some(now)), None)
  }

  /** A new status, and the completion time unless there is one already. */
  function Finished(e: Entry, status: Status, now: nat): Entry {
    e.(status := status, completedAt := if e.completedAt.None? then Some(now) else e.completedAt)
  }

  predicate HasEmptyRequestBody(e: Entry) {
    e.request.Some? && e.request.value.body == []
  }

  function StatusOfMessage(message: WebSocketMessage): WebSocketStatus {
    if message.Close? then Disconnected else Connected
  }

  function LastOf<T>(s: seq<T>, n: nat): seq<T> {
    if |s| > n then s[|s| - n..] else s
  }

  /** What an event makes of the entry of its trace. */
  function Apply(event: Event, now: nat, e: Entry): Entry {
    var t := e.timings;
    match event
    case OnRequestStart(id, request) => Started(id, request, now)
    case OnRequestBody(_, Some(data)) =>
      e.(request := if e.request.Some? then Some(e.request.value.(body := e.request.value.body + data)) else None,
         timings := t.(requestBodyStart := Some(now)))
    case OnRequestBody(_, None) =>
      e.(timings := t.(requestBodyStart := if HasEmptyRequestBody(e) then Some(now) else t.requestBodyStart,
                       requestBodyEnd := Some(now)))
    case OnRequestEnd(_) => Finished(e.(timings := t.(requestEnd := Some(now))), Completed, now)
    case OnResponseStart(_, response) => e.(response := Some(response))
    case OnResponseBody(_, Some(data)) =>
      e.(response := if e.response.Some? then Some(e.response.value.(body := e.response.value.body + data)) else None,
         timings := t.(responseBodyStart := Some(now)))
    case OnResponseBody(_, None) =>
      e.(timings := t.(responseBodyStart := if HasEmptyRequestBody(e) then Some(now) else t.responseBodyStart,
                       responseBodyEnd := Some(now)))
    case OnProxyStart(_) => e.(timings := t.(proxyStart := Some(now)))
    case OnProxyEnd(_) => e.(timings := t.(proxyEnd := Some(now)))
    case OnWebSocketStart(_) =>
      e.(timings := t.(websocketStart := Some(now)), messages := Some(WebSocket(Start, [])))
    case OnWebSocketMessage(_, log) =>
      var before := if e.messages.Some? then e.messages.value.log else [];
      e.(messages := Some(WebSocket(StatusOfMessage(log.message), LastOf(before + [log], MAX_WEBSOCKET_LOG_MESSAGES))))
    case OnWebSocketEnd(_) =>
      Finished(
        e.(timings := t.(websocketEnd := Some(now)),
           messages := if e.messages.Some? then Some(e.messages.value.(status := Disconnected)) else None),
        Completed, now)
    case OnWebSocketError(_, reason) =>
      Finished(
        e.(timings := t.(websocketEnd := Some(now)),
           messages := Some(WebSocket(Failed(reason), if e.messages.Some? then e.messages.value.log else []))),
        Completed, now)
    case OnTunnelStart(_) => e.(timings := t.(tunnelStart := Some(now)), tunnel := Some(TunnelConnected))
    case OnTunnelEnd(_) =>
      Finished(
        e.(timings := t.(tunnelEnd := Some(now), requestEnd := Some(now)),
           tunnel := if e.tunnel.Some? then Some(TunnelDisconnected) else None),
        Completed, now)
    case OnError(_, reason) => Finished(e.(timings := t.(requestEnd := Some(now))), Error(reason), now)
  }

  // ---- The cache ----

  type Cache = map<TraceId, Entry>

  function Expired(m: Cache, now: nat): set<TraceId> {
    set k | k in m && IsExpired(m[k], now)
  }

  predicate IsExpired(e: Entry, now: nat) {
    NeedsDeletion(e, now) && e.completedAt.Some? && SaturatingSub(now, e.completedAt.value) > MAX_AGE_MS
  }

  function Deletable(m: Cache, now: nat): set<TraceId> {
    set k | k in m && NeedsDeletion(m[k], now)
  }

  function Undeletable(m: Cache, now: nat): set<TraceId> {
    set k | k in m && !NeedsDeletion(m[k], now)
  }

  function CompletionRank(e: Entry): nat {
    if e.completedAt.Some? then e.completedAt.value else U64_MAX
  }

  ghost predicate IsOldest(m: Cache, now: nat, k: TraceId) {
    k in Deletable(m, now) && forall k' | k' in Deletable(m, now) :: CompletionRank(m[k]) <= CompletionRank(m[k'])
  }

  /** Every expired entry goes; then, above the threshold, one deletable entry that completed first. */
  ghost predicate Evicted(m: Cache, now: nat, m': Cache) {
    var kept := m - Expired(m, now);
    if |kept| <= EVICT_THRESHOLD || Deletable(kept, now) == {} then m' == kept
    else exists k :: IsOldest(kept, now, k) && m' == kept - {k}
  }

  /** New entries are reported and lose their mark; those that need deletion then leave. */
  function AfterPoll(m: Cache, now: nat): Cache {
    map k | k in m && !(m[k].isNew && NeedsDeletion(m[k], now)) :: m[k].(isNew := false)
  }

  function AfterKeysPoll(m: Cache, keys: seq<TraceId>, now: nat): Cache {
    m - KeysToDelete(m, keys, now)
  }

  function KeysIn(keys: seq<TraceId>): set<TraceId> {
    set k | k in keys
  }

  function KeysToDelete(m: Cache, keys: seq<TraceId>, now: nat): set<TraceId> {
    set k | k in keys && k in m && NeedsDeletion(m[k], now)
  }

  function Reported(m: Cache, keys: seq<TraceId>): seq<Entry> {
    if keys == [] then []
    else
      (if keys[0] in m && (m[keys[0]].isNew || Terminal(m[keys[0]].status)) then [m[keys[0]]] else [])
      + Reported(m, keys[1..])
  }

  lemma ReportedMore(m: Cache, keys: seq<TraceId>)
    requires keys != []
    ensures Reported(m, keys) ==
            if keys[0] in m && (m[keys[0]].isNew || Terminal(m[keys[0]].status))
            then [m[keys[0]]] + Reported(m, keys[1..]) else Reported(m, keys[1..])
  {
    hide Terminal;
  }

  lemma DeletedMore(m: Cache, keys: seq<TraceId>, done: seq<TraceId>, now: nat)
    requires keys != []
    ensures KeysIn(done) + KeysToDelete(m, keys, now) ==
            if keys[0] in m && NeedsDeletion(m[keys[0]], now)
            then KeysIn(done + [keys[0]]) + KeysToDelete(m, keys[1..], now)
            else KeysIn(done) + KeysToDelete(m, keys[1..], now)
  {
    hide NeedsDeletion;
    assert keys == [keys[0]] + keys[1..];
  }

  /** The new entries among the given keys, each once, in the order of some enumeration. */
  ghost predicate ListsNew(m: Cache, keys: set<TraceId>, requests: seq<Entry>) {
    && (forall r | r in requests :: r.isNew && r.traceId in m && r.traceId in keys && m[r.traceId] == r)
    && (forall k | k in m && k in keys && m[k].isNew :: m[k] in requests)
    && forall i, j | 0 <= i < j < |requests| :: requests[i].traceId != requests[j].traceId
  }

  function Unmarked(m: Cache, keys: set<TraceId>): Cache {
    map k | k in m :: if k in keys then m[k].(isNew := false) else m[k]
  }

  function NewDeletable(m: Cache, keys: set<TraceId>, now: nat): set<TraceId> {
    set k | k in m && k in keys && m[k].isNew && NeedsDeletion(m[k], now)
  }

  lemma ListNone(m: Cache)
    ensures ListsNew(m, {}, []) && Unmarked(m, {}) == m && forall now :: NewDeletable(m, {}, now) == {}
  {
  }

  lemma UnmarkMore(m: Cache, keys: set<TraceId>, k: TraceId)
    requires k in m && k !in keys
    ensures k in Unmarked(m, keys) && Unmarked(m, keys)[k] == m[k]
    ensures Unmarked(m, keys + {k}) ==
            if m[k].isNew then Unmarked(m, keys)[k := m[k].(isNew := false)] else Unmarked(m, keys)
  {
  }

  lemma DeletableMore(m: Cache, keys: set<TraceId>, k: TraceId, now: nat)
    requires k in m && k !in keys
    ensures NewDeletable(m, keys + {k}, now) ==
            NewDeletable(m, keys, now) + if m[k].isNew && NeedsDeletion(m[k], now) then {k} else {}
  {
    hide NeedsDeletion;
  }

  lemma ListMore(m: Cache, keys: set<TraceId>, k: TraceId, requests: seq<Entry>)
    requires KeyedByTrace(m) && k in m && k !in keys && ListsNew(m, keys, requests)
    ensures ListsNew(m, keys + {k}, if m[k].isNew then requests + [m[k]] else requests)
  {
  }

  datatype Step =
    | Handle(event: Event, now: nat)
    | PollNew(now: nat)
    | PollKeys(keys: seq<TraceId>, now: nat)
    | Clear

  ghost predicate StepTo(step: Step, m: Cache, m': Cache) {
    match step
    case Handle(event, now) =>
      if event.OnRequestStart? then Evicted(m[event.id := Started(event.id, event.request, now)], now, m')
      else if event.id in m then m' == m[event.id := Apply(event, now, m[event.id])]
      else m' == m
    case PollNew(now) => m' == AfterPoll(m, now)
    case PollKeys(keys, now) => m' == AfterKeysPoll(m, keys, now)
    case Clear => m' == map[]
  }

  predicate KeyedByTrace(m: Cache) {
    forall k | k in m :: m[k].traceId == k
  }

  class MessageEventCache {
    var entries: map<TraceId, Entry>

    constructor ()
      ensures entries == map[]
    {
      entries := map[];
    }

    method Clear()
      modifies this
      ensures StepTo(Step.Clear, old(entries), entries)
    {
      entries := map[];
    }

    /** The keys of the entries to evict by age, in the order of some enumeration. */
    method ExpiredKeys(now: nat) returns (expired: seq<TraceId>)
      ensures forall k :: k in expired <==> k in Expired(entries, now)
    {
      expired := [];
      var todo := entries.Keys;
      while todo != {}
        invariant todo <= entries.Keys
        invariant forall k :: k in expired <==> k in Expired(entries, now) && k !in todo
        decreases |todo|
      {
        var k :| k in todo;
        todo := todo - {k};
        if IsExpired(entries[k], now) {
          expired := expired + [k];
        }
      }
    }

    method OldestKey(now: nat) returns (oldest: Option<TraceId>)
      ensures oldest.None? ==> Deletable(entries, now) == {}
      ensures oldest.Some? ==> IsOldest(entries, now, oldest.value)
    {
      oldest := None;
      var todo := entries.Keys;
      while todo != {}
        invariant todo <= entries.Keys
        invariant oldest.None? ==> Deletable(entries, now) <= todo
        invariant oldest.Some? ==>
                    && oldest.value in Deletable(entries, now)
                    && forall k' | k' in Deletable(entries, now) && k' !in todo ::
                         CompletionRank(entries[oldest.value]) <= CompletionRank(entries[k'])
        decreases |todo|
      {
        var k :| k in todo;
        todo := todo - {k};
        if NeedsDeletion(entries[k], now) {
          if oldest.None? || CompletionRank(entries[k]) < CompletionRank(entries[oldest.value]) {
            oldest := Some(k);
          }
        }
      }
    }

    method RemoveOldestCompleted(now: nat)
      modifies this
      ensures Evicted(old(entries), now, entries)
    {
      hide IsExpired, NeedsDeletion, IsOldest;
      var expired := ExpiredKeys(now);
      RemoveAll(expired);
      assert (set k | k in expired) == Expired(old(entries), now);
      if |entries| > EVICT_THRESHOLD {
        var oldest := OldestKey(now);
        if oldest.Some? {
          entries := entries - {oldest.value};
        }
      }
    }

    method Insert(key: TraceId, value: Entry, now: nat)
      modifies this
      ensures Evicted(old(entries)[key := value], now, entries)
    {
      entries := entries[key := value];
      RemoveOldestCompleted(now);
    }

    method HandleEvent(event: Event, now: nat)
      modifies this
      ensures StepTo(Handle(event, now), old(entries), entries)
    {
      hide Apply;
      var id := event.id;
      if event.OnRequestStart? {
        var timings := NO_TIMINGS.(requestStart := Some(now));
        var value := Entry(Initial, id, true, None, None, None, None, NO_TIMINGS, None);
        value := value.(request := Some(event.request));
        value := value.(timings := timings);
        value := value.(status := RequestStarted);
        assert value == Started(id, event.request, now);
        Insert(id, value, now);
        return;
      }
      if id !in entries {
        return;
      }
      var value := Update(event, now, entries[id]);
      entries := entries[id := value];
    }

    /** Updates the fields of the entry that an event concerns, one by one. */
    static method Update(event: Event, now: nat, entry: Entry) returns (value: Entry)
      requires !event.OnRequestStart?
      ensures value == Apply(event, now, entry)
    {
      hide HasEmptyRequestBody, StatusOfMessage;
      value := entry;
      match event {
        case OnRequestBody(_, data) =>
          if data.Some? {
            if value.request.Some? {
              var request := value.request.value;
              value := value.(request := Some(request.(body := request.body + data.value)));
            }
            value := value.(timings := value.timings.(requestBodyStart := Some(now)));
          } else {
            if HasEmptyRequestBody(value) {
              value := value.(timings := value.timings.(requestBodyStart := Some(now)));
            }
            value := value.(timings := value.timings.(requestBodyEnd := Some(now)));
          }
        case OnRequestEnd(_) =>
          value := value.(timings := value.timings.(requestEnd := Some(now)));
          value := Finished(value, Completed, now);
        case OnError(_, reason) =>
          value := value.(timings := value.timings.(requestEnd := Some(now)));
          value := Finished(value, Error(reason), now);
        case OnResponseBody(_, data) =>
          if data.Some? {
            if value.response.Some? {
              var response := value.response.value;
              value := value.(response := Some(response.(body := response.body + data.value)));
            }
            value := value.(timings := value.timings.(responseBodyStart := Some(now)));
          } else {
            if HasEmptyRequestBody(value) {
              value := value.(timings := value.timings.(responseBodyStart := Some(now)));
            }
            value := value.(timings := value.timings.(responseBodyEnd := Some(now)));
          }
        case OnProxyStart(_) =>
          value := value.(timings := value.timings.(proxyStart := Some(now)));
        case OnProxyEnd(_) =>
          value := value.(timings := value.timings.(proxyEnd := Some(now)));
        case OnResponseStart(_, response) =>
          value := value.(response := Some(response));
        case OnWebSocketStart(_) =>
          value := value.(timings := value.timings.(websocketStart := Some(now)));
          value := value.(messages := Some(WebSocket(Start, [])));
        case OnWebSocketError(_, reason) =>
          value := value.(timings := value.timings.(websocketEnd := Some(now)));
          value := Finished(value, Completed, now);
          if value.messages.Some? {
            value := value.(messages := Some(value.messages.value.(status := Failed(reason))));
          } else {
            value := value.(messages := Some(WebSocket(Failed(reason), [])));
          }
        case OnWebSocketEnd(_) =>
          value := value.(timings := value.timings.(websocketEnd := Some(now)));
          value := Finished(value, Completed, now);
          if value.messages.Some? {
            value := value.(messages := Some(value.messages.value.(status := Disconnected)));
          }
        case OnWebSocketMessage(_, log) =>
          if value.messages.Some? {
            var all := value.messages.value.log + [log];
            if |all| > MAX_WEBSOCKET_LOG_MESSAGES {
              var drain := |all| - MAX_WEBSOCKET_LOG_MESSAGES;
              all := all[drain..];
            }
            value := value.(messages := Some(WebSocket(StatusOfMessage(log.message), all)));
          } else {
            value := value.(messages := Some(WebSocket(StatusOfMessage(log.message), [log])));
            assert [] + [log] == [log];
          }
        case OnTunnelEnd(_) =>
          value := value.(timings := value.timings.(tunnelEnd := Some(now)));
          value := value.(timings := value.timings.(requestEnd := Some(now)));
          value := Finished(value, Completed, now);
          if value.tunnel.Some? {
            value := value.(tunnel := Some(TunnelDisconnected));
          }
        case OnTunnelStart(_) =>
          value := value.(timings := value.timings.(tunnelStart := Some(now)));
          value := value.(tunnel := Some(TunnelConnected));
      }
    }

    /** Takes the mark off every new entry; returns the entries as they were, and which of them to drop. */
    method TakeNew(now: nat) returns (requests: seq<Entry>, deleteKeys: seq<TraceId>)
      requires KeyedByTrace(entries)
      modifies this
      ensures entries == Unmarked(old(entries), old(entries).Keys)
      ensures ListsNew(old(entries), old(entries).Keys, requests)
      ensures forall k :: k in deleteKeys <==> k in NewDeletable(old(entries), old(entries).Keys, now)
    {
      hide NeedsDeletion, ListsNew, Unmarked, NewDeletable;
      requests := [];
      deleteKeys := [];
      var todo := entries.Keys;
      ghost var m, done: set<TraceId> := entries, {};
      ListNone(m);
      while todo != {}
        invariant todo !! done && todo + done == m.Keys
        invariant entries == Unmarked(m, done)
        invariant ListsNew(m, done, requests)
        invariant forall k :: k in deleteKeys <==> k in NewDeletable(m, done, now)
        decreases |todo|
      {
        var k :| k in todo;
        UnmarkMore(m, done, k);
        var value := entries[k];
        DeletableMore(m, done, k, now);
        ListMore(m, done, k, requests);
        if value.isNew {
          if NeedsDeletion(value, now) {
            deleteKeys := deleteKeys + [value.traceId];
          }
          requests := requests + [value];
          entries := entries[k := entries[k].(isNew := false)];
        }
        todo, done := todo - {k}, done + {k};
      }
      assert done == m.Keys;
    }

    method GetNewRequests(now: nat) returns (requests: seq<Entry>)
      requires KeyedByTrace(entries)
      modifies this
      ensures StepTo(PollNew(now), old(entries), entries)
      ensures ListsNew(old(entries), old(entries).Keys, requests)
    {
      hide NeedsDeletion, ListsNew;
      var deleteKeys;
      requests, deleteKeys := TakeNew(now);
      RemoveAll(deleteKeys);
      assert entries == AfterPoll(old(entries), now);
    }

    method RemoveAll(keys: seq<TraceId>)
      modifies this
      ensures entries == old(entries) - KeysIn(keys)
    {
      var i := 0;
      while i < |keys|
        invariant 0 <= i <= |keys|
        invariant entries == old(entries) - KeysIn(keys[..i])
      {
        assert keys[..i + 1] == keys[..i] + [keys[i]];
        entries := entries - {keys[i]};
        i := i + 1;
      }
      assert keys[..i] == keys;
    }

    method GetRequestByKeys(keys: seq<TraceId>, now: nat) returns (requests: seq<Entry>)
      modifies this
      ensures StepTo(PollKeys(keys, now), old(entries), entries)
      ensures requests == Reported(old(entries), keys)
    {
      hide NeedsDeletion;
      requests := [];
      var deleteKeys: seq<TraceId> := [];
      var rest := keys;
      while rest != []
        invariant Reported(entries, keys) == requests + Reported(entries, rest)
        invariant KeysToDelete(entries, keys, now) == KeysIn(deleteKeys) + KeysToDelete(entries, rest, now)
        invariant entries == old(entries)
      {
        hide Reported, KeysToDelete, KeysIn, NeedsDeletion;
        var key := rest[0];
        ReportedMore(entries, rest);
        DeletedMore(entries, rest, deleteKeys, now);
        ghost var more := Reported(entries, rest[1..]);
        assert forall e :: requests + ([e] + more) == requests + [e] + more;
        if key in entries {
          var value := entries[key];
          if value.isNew || Terminal(value.status) {
            requests := requests + [value];
          }
          if NeedsDeletion(value, now) {
            deleteKeys := deleteKeys + [key];
          }
        }
        rest := rest[1..];
      }
      assert KeysToDelete(entries, [], now) == {};
      RemoveAll(deleteKeys);
    }
  }
}
