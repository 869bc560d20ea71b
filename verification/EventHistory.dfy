/** What a cached entry records, told from the history of events alone: whole bodies, the last thousand
    messages of a websocket, and how the exchange ended. */
module EventHistory {
  import opened Wrappers
  import opened EventStore
  import opened EventRuns

  datatype Stamped = Stamped(event: Event, at: nat)

  type History = seq<Stamped>

  type Kind = Event -> bool

  // ---- Reading a history ----

  /** The part of a history after the last event of a kind, or all of it. */
  function SinceLast(h: History, kind: Kind): History {
    if h == [] || kind(h[|h| - 1].event) then [] else SinceLast(h[..|h| - 1], kind) + [h[|h| - 1]]
  }

  function LastWhere(h: History, kind: Kind): (r: Option<Stamped>)
    ensures r.Some? ==> kind(r.value.event)
  {
    if h == [] then None
    else if kind(h[|h| - 1].event) then Some(h[|h| - 1])
    else LastWhere(h[..|h| - 1], kind)
  }

  function FirstWhere(h: History, kind: Kind): Option<Stamped> {
    if h == [] then None
    else if kind(h[0].event) then Some(h[0])
    else FirstWhere(h[1..], kind)
  }

  function RequestChunks(h: History): Bytes {
    if h == [] then []
    else RequestChunks(h[..|h| - 1]) + match h[|h| - 1].event case OnRequestBody(_, Some(data)) => data case _ => []
  }

  function ResponseChunks(h: History): Bytes {
    if h == [] then []
    else ResponseChunks(h[..|h| - 1]) + match h[|h| - 1].event case OnResponseBody(_, Some(data)) => data case _ => []
  }

  function Logs(h: History): seq<WebSocketLog> {
    if h == [] then []
    else Logs(h[..|h| - 1]) + match h[|h| - 1].event case OnWebSocketMessage(_, log) => [log] case _ => []
  }

  const FINAL: Kind := (e: Event) =>
    e.OnRequestEnd? || e.OnError? || e.OnWebSocketEnd? || e.OnWebSocketError? || e.OnTunnelEnd?

  const RESPONSE_START: Kind := (e: Event) => e.OnResponseStart?
  const WEBSOCKET_START: Kind := (e: Event) => e.OnWebSocketStart?
  const WEBSOCKET_OPENING: Kind := (e: Event) => e.OnWebSocketStart? || e.OnWebSocketMessage? || e.OnWebSocketError?
  const WEBSOCKET: Kind := (e: Event) => WEBSOCKET_OPENING(e) || e.OnWebSocketEnd?
  const TUNNEL_START: Kind := (e: Event) => e.OnTunnelStart?
  const TUNNEL: Kind := (e: Event) => e.OnTunnelStart? || e.OnTunnelEnd?

  function StatusAfter(last: Option<Stamped>): Status {
    match last
    case None => RequestStarted
    case Some(Stamped(OnError(_, reason), _)) => Error(reason)
    case Some(_) => Completed
  }

  function WebSocketStatusAfter(event: Event): WebSocketStatus {
    match event
    case OnWebSocketMessage(_, log) => if log.message.Close? then Disconnected else Connected
    case OnWebSocketError(_, reason) => Failed(reason)
    case OnWebSocketEnd(_) => Disconnected
    case _ => Start
  }

  // ---- What an entry records, part by part ----

  predicate EndRecorded(e: Entry, h: History) {
    && e.status == StatusAfter(LastWhere(h, FINAL))
    && e.completedAt == (match FirstWhere(h, FINAL) case None => None case Some(s) => Some(s.at))
  }

  predicate RequestRecorded(e: Entry, h: History, request: Request) {
    e.request == Some(request.(body := request.body + RequestChunks(h)))
  }

  predicate ResponseRecorded(e: Entry, h: History) {
    match LastWhere(h, RESPONSE_START)
    case None => e.response.None?
    case Some(s) => e.response == Some(Grown(s.event.response, ResponseChunks(SinceLast(h, RESPONSE_START))))
  }

  function Grown(response: Response, more: Bytes): Response {
    response.(body := response.body + more)
  }

  /** The last `n` of all, or all if there are no more. */
  predicate IsWindow<T(==)>(some: seq<T>, all: seq<T>, n: nat) {
    |some| == (if |all| < n then |all| else n) && all[|all| - |some|..] == some
  }

  predicate LogRecorded(e: Entry, h: History) {
    && (e.messages.Some? <==> LastWhere(h, WEBSOCKET_OPENING).Some?)
    && (e.messages.Some? ==>
          && LastWhere(h, WEBSOCKET).Some?
          && e.messages.value.status == WebSocketStatusAfter(LastWhere(h, WEBSOCKET).value.event)
          && IsWindow(e.messages.value.log, Logs(SinceLast(h, WEBSOCKET_START)), 1000))
    && (e.messages.None? ==> Logs(SinceLast(h, WEBSOCKET_START)) == [])
  }

  predicate TunnelRecorded(e: Entry, h: History) {
    match LastWhere(h, TUNNEL_START)
    case None => e.tunnel.None?
    case Some(_) =>
      && LastWhere(h, TUNNEL).Some?
      && e.tunnel ==
        Some(if LastWhere(h, TUNNEL).value.event.OnTunnelStart? then TunnelConnected else TunnelDisconnected)
  }

  const REQUEST_END: Kind := (e: Event) => e.OnRequestEnd? || e.OnError? || e.OnTunnelEnd?
  const REQUEST_BODY_END: Kind := (e: Event) => e.OnRequestBody? && e.data.None?
  const RESPONSE_BODY_END: Kind := (e: Event) => e.OnResponseBody? && e.data.None?
  const PROXY_START: Kind := (e: Event) => e.OnProxyStart?
  const PROXY_END: Kind := (e: Event) => e.OnProxyEnd?
  const TUNNEL_END: Kind := (e: Event) => e.OnTunnelEnd?
  const WEBSOCKET_END: Kind := (e: Event) => e.OnWebSocketEnd? || e.OnWebSocketError?

  function TimeOf(last: Option<Stamped>): Option<nat> {
    match last case None => None case Some(s) => Some(s.at)
  }

  /** The last event of a kind of body that had data, or came while the request body was empty: the end of
      a response body, too, looks at the request body. */
  function BodyStart(h: History, initial: Bytes, isBody: Kind): Option<nat> {
    if h == [] then None
    else
      var front, last := h[..|h| - 1], h[|h| - 1];
      if isBody(last.event) && (HasData(last.event) || initial + RequestChunks(front) == []) then Some(last.at)
      else BodyStart(front, initial, isBody)
  }

  predicate HasData(event: Event) {
    (event.OnRequestBody? || event.OnResponseBody?) && event.data.Some?
  }

  const REQUEST_BODY: Kind := (e: Event) => e.OnRequestBody?
  const RESPONSE_BODY: Kind := (e: Event) => e.OnResponseBody?

  /** Every timing is the time of the last event of its kind. */
  predicate TimingsRecorded(e: Entry, h: History, request: Request, start: nat) {
    e.timings == Timings(
      Some(start),
      TimeOf(LastWhere(h, REQUEST_END)),
      BodyStart(h, request.body, REQUEST_BODY),
      TimeOf(LastWhere(h, REQUEST_BODY_END)),
      TimeOf(LastWhere(h, PROXY_START)),
      TimeOf(LastWhere(h, PROXY_END)),
      BodyStart(h, request.body, RESPONSE_BODY),
      TimeOf(LastWhere(h, RESPONSE_BODY_END)),
      TimeOf(LastWhere(h, TUNNEL_START)),
      TimeOf(LastWhere(h, TUNNEL_END)),
      TimeOf(LastWhere(h, WEBSOCKET_START)),
      TimeOf(LastWhere(h, WEBSOCKET_END)))
  }

  predicate Recorded(e: Entry, h: History, request: Request, start: nat) {
    && TimingsRecorded(e, h, request, start)
    && EndRecorded(e, h)
    && RequestRecorded(e, h, request)
    && ResponseRecorded(e, h)
    && LogRecorded(e, h)
    && TunnelRecorded(e, h)
  }

  // ---- One more event ----

  lemma LastWhereMore(h: History, s: Stamped, kind: Kind)
    ensures LastWhere(h + [s], kind) == if kind(s.event) then Some(s) else LastWhere(h, kind)
    ensures SinceLast(h + [s], kind) == if kind(s.event) then [] else SinceLast(h, kind) + [s]
  {
    assert (h + [s])[..|h + [s]| - 1] == h;
  }

  lemma {:induction false} FirstWhereMore(h: History, s: Stamped, kind: Kind)
    ensures FirstWhere(h + [s], kind) ==
            if FirstWhere(h, kind).Some? then FirstWhere(h, kind) else if kind(s.event) then Some(s) else None
    ensures FirstWhere(h, kind).Some? <==> LastWhere(h, kind).Some?
  {
    LastIffFirst(h, kind);
    if h != [] {
      FirstWhereMore(h[1..], s, kind);
      assert (h + [s])[1..] == h[1..] + [s];
    }
  }

  lemma {:induction false} LastIffFirst(h: History, kind: Kind)
    ensures FirstWhere(h, kind).Some? <==> exists i | 0 <= i < |h| :: kind(h[i].event)
    ensures LastWhere(h, kind).Some? <==> exists i | 0 <= i < |h| :: kind(h[i].event)
  {
    FirstExists(h, kind);
    LastExists(h, kind);
  }

  lemma {:induction false} FirstExists(h: History, kind: Kind)
    ensures FirstWhere(h, kind).Some? <==> exists i | 0 <= i < |h| :: kind(h[i].event)
  {
    if h != [] {
      FirstExists(h[1..], kind);
      assert forall i | 1 <= i < |h| :: h[i] == h[1..][i - 1];
    }
  }

  lemma {:induction false} LastExists(h: History, kind: Kind)
    ensures LastWhere(h, kind).Some? <==> exists i | 0 <= i < |h| :: kind(h[i].event)
  {
    if h != [] {
      LastExists(h[..|h| - 1], kind);
      assert forall i | 0 <= i < |h| - 1 :: h[i] == h[..|h| - 1][i];
    }
  }

  lemma ListsMore(h: History, s: Stamped)
    ensures RequestChunks(h + [s]) ==
            RequestChunks(h) + match s.event case OnRequestBody(_, Some(data)) => data case _ => []
    ensures ResponseChunks(h + [s]) ==
            ResponseChunks(h) + match s.event case OnResponseBody(_, Some(data)) => data case _ => []
    ensures Logs(h + [s]) == Logs(h) + match s.event case OnWebSocketMessage(_, log) => [log] case _ => []
  {
    assert (h + [s])[..|h + [s]| - 1] == h;
  }

  lemma LastOfMore<T>(s: seq<T>, x: T, n: nat)
    ensures LastOf(LastOf(s, n) + [x], n) == LastOf(s + [x], n)
  {
  }

  lemma EndMore(e: Entry, h: History, s: Stamped)
    requires EndRecorded(e, h) && !s.event.OnRequestStart?
    ensures EndRecorded(Apply(s.event, s.at, e), h + [s])
  {
    LastWhereMore(h, s, FINAL);
    FirstWhereMore(h, s, FINAL);
    hide LastWhere, FirstWhere, SinceLast, LastOf, HasEmptyRequestBody, StatusOfMessage;
  }

  lemma RequestMore(e: Entry, h: History, s: Stamped, request: Request)
    requires RequestRecorded(e, h, request) && !s.event.OnRequestStart?
    ensures RequestRecorded(Apply(s.event, s.at, e), h + [s], request)
  {
    ListsMore(h, s);
    ApplyRequest(s.event, s.at, e);
    hide RequestChunks, Apply;
    var chunks := RequestChunks(h);
    assert chunks + [] == chunks;
    if s.event.OnRequestBody? && s.event.data.Some? {
      assert request.body + chunks + s.event.data.value == request.body + (chunks + s.event.data.value);
    }
  }

  lemma ApplyRequest(event: Event, now: nat, e: Entry)
    requires !event.OnRequestStart?
    ensures Apply(event, now, e).request ==
            if event.OnRequestBody? && event.data.Some? && e.request.Some?
            then Some(e.request.value.(body := e.request.value.body + event.data.value))
            else e.request
  {
    hide LastOf, HasEmptyRequestBody, StatusOfMessage;
  }

  lemma ApplyResponse(event: Event, now: nat, e: Entry)
    requires !event.OnRequestStart?
    ensures Apply(event, now, e).response ==
            if event.OnResponseStart? then Some(event.response)
            else if event.OnResponseBody? && event.data.Some? && e.response.Some?
            then Some(Grown(e.response.value, event.data.value))
            else e.response
  {
    hide LastOf, HasEmptyRequestBody, StatusOfMessage;
  }

  lemma GrownTwice(response: Response, a: Bytes, b: Bytes)
    ensures Grown(response, []) == response
    ensures Grown(Grown(response, a), b) == Grown(response, a + b)
  {
    assert response.body + [] == response.body;
    assert response.body + a + b == response.body + (a + b);
  }

  lemma ResponseMore(e: Entry, h: History, s: Stamped)
    requires ResponseRecorded(e, h) && !s.event.OnRequestStart?
    ensures ResponseRecorded(Apply(s.event, s.at, e), h + [s])
  {
    ApplyResponse(s.event, s.at, e);
    LastWhereMore(h, s, RESPONSE_START);
    var tail := SinceLast(h, RESPONSE_START);
    ListsMore(tail, s);
    var chunks := ResponseChunks(tail);
    assert ResponseChunks([]) == [];
    hide ResponseChunks, LastWhere, SinceLast, Apply, Grown;
    assert chunks + [] == chunks;
    if s.event.OnResponseStart? {
      GrownTwice(s.event.response, [], []);
    } else if e.response.Some? && s.event.OnResponseBody? && s.event.data.Some? {
      GrownTwice(LastWhere(h, RESPONSE_START).value.event.response, chunks, s.event.data.value);
    }
  }

  lemma ApplyMessages(event: Event, now: nat, e: Entry)
    requires !event.OnRequestStart?
    ensures Apply(event, now, e).messages ==
            var log := if e.messages.Some? then e.messages.value.log else [];
            if event.OnWebSocketStart? then Some(WebSocket(WebSocketStatusAfter(event), []))
            else if event.OnWebSocketMessage?
            then Some(WebSocket(WebSocketStatusAfter(event), LastOf(log + [event.log], MAX_WEBSOCKET_LOG_MESSAGES)))
            else if event.OnWebSocketError? then Some(WebSocket(WebSocketStatusAfter(event), log))
            else if event.OnWebSocketEnd? && e.messages.Some?
            then Some(WebSocket(WebSocketStatusAfter(event), log))
            else e.messages
  {
    hide LastOf, HasEmptyRequestBody;
  }

  lemma NoLogs()
    ensures Logs([]) == []
  {
  }

  lemma WindowIs(some: seq<WebSocketLog>, all: seq<WebSocketLog>)
    ensures IsWindow(some, all, 1000) <==> some == LastOf(all, MAX_WEBSOCKET_LOG_MESSAGES)
  {
    assert all[0..] == all;
  }

  lemma NothingOf()
    ensures LastOf<WebSocketLog>([], MAX_WEBSOCKET_LOG_MESSAGES) == []
  {
  }

  lemma LogMore(e: Entry, h: History, s: Stamped)
    requires LogRecorded(e, h) && !s.event.OnRequestStart?
    ensures LogRecorded(Apply(s.event, s.at, e), h + [s])
  {
    hide Logs, LastWhere, SinceLast, LastOf, Apply, WebSocketStatusAfter, IsWindow;
    forall some, all ensures IsWindow(some, all, 1000) <==> some == LastOf(all, MAX_WEBSOCKET_LOG_MESSAGES) {
      WindowIs(some, all);
    }
    NothingOf();
    ApplyMessages(s.event, s.at, e);
    LastWhereMore(h, s, WEBSOCKET_OPENING);
    LastWhereMore(h, s, WEBSOCKET);
    LastWhereMore(h, s, WEBSOCKET_START);
    var tail := SinceLast(h, WEBSOCKET_START);
    ListsMore(tail, s);
    NoLogs();
    var logs := Logs(tail);
    assert logs + [] == logs;
    if s.event.OnWebSocketMessage? {
      LastOfMore(logs, s.event.log, MAX_WEBSOCKET_LOG_MESSAGES);
    }
  }

  lemma TunnelMore(e: Entry, h: History, s: Stamped)
    requires TunnelRecorded(e, h) && !s.event.OnRequestStart?
    ensures TunnelRecorded(Apply(s.event, s.at, e), h + [s])
  {
    LastWhereMore(h, s, TUNNEL_START);
    LastWhereMore(h, s, TUNNEL);
    hide LastWhere, SinceLast, LastOf, HasEmptyRequestBody, StatusOfMessage;
  }

  lemma BodyStartMore(h: History, s: Stamped, initial: Bytes, isBody: Kind)
    ensures BodyStart(h + [s], initial, isBody) ==
            if isBody(s.event) && (HasData(s.event) || initial + RequestChunks(h) == []) then Some(s.at)
            else BodyStart(h, initial, isBody)
  {
    hide RequestChunks;
    assert (h + [s])[..|h + [s]| - 1] == h;
  }

  /** What an event makes of the timings, given whether the request body is empty. */
  lemma ApplyTimings(event: Event, now: nat, e: Entry)
    requires !event.OnRequestStart?
    ensures Apply(event, now, e).timings ==
            var t, at := e.timings, Some(now);
            var begins := HasData(event) || HasEmptyRequestBody(e);
            t.(requestEnd := if REQUEST_END(event) then at else t.requestEnd,
               requestBodyStart := if REQUEST_BODY(event) && begins then at else t.requestBodyStart,
               requestBodyEnd := if REQUEST_BODY_END(event) then at else t.requestBodyEnd,
               proxyStart := if PROXY_START(event) then at else t.proxyStart,
               proxyEnd := if PROXY_END(event) then at else t.proxyEnd,
               responseBodyStart := if RESPONSE_BODY(event) && begins then at else t.responseBodyStart,
               responseBodyEnd := if RESPONSE_BODY_END(event) then at else t.responseBodyEnd,
               tunnelStart := if TUNNEL_START(event) then at else t.tunnelStart,
               tunnelEnd := if TUNNEL_END(event) then at else t.tunnelEnd,
               websocketStart := if WEBSOCKET_START(event) then at else t.websocketStart,
               websocketEnd := if WEBSOCKET_END(event) then at else t.websocketEnd)
  {
    hide LastOf, HasEmptyRequestBody, StatusOfMessage;
  }

  lemma TimeMore(h: History, s: Stamped, kind: Kind)
    ensures TimeOf(LastWhere(h + [s], kind)) == if kind(s.event) then Some(s.at) else TimeOf(LastWhere(h, kind))
  {
    LastWhereMore(h, s, kind);
    hide LastWhere, SinceLast;
  }

  lemma TimingsMore(e: Entry, h: History, s: Stamped, request: Request, start: nat)
    requires TimingsRecorded(e, h, request, start) && RequestRecorded(e, h, request) && !s.event.OnRequestStart?
    ensures TimingsRecorded(Apply(s.event, s.at, e), h + [s], request, start)
  {
    assert HasEmptyRequestBody(e) <==> request.body + RequestChunks(h) == [];
    ApplyTimings(s.event, s.at, e);
    hide Apply, HasEmptyRequestBody, HasData, LastWhere, BodyStart, TimeOf, RequestRecorded, RequestChunks;
    hide REQUEST_END, REQUEST_BODY, REQUEST_BODY_END, PROXY_START, PROXY_END, RESPONSE_BODY, RESPONSE_BODY_END,
      TUNNEL_START, TUNNEL_END, WEBSOCKET_START, WEBSOCKET_END;
    TimeMore(h, s, REQUEST_END);
    BodyStartMore(h, s, request.body, REQUEST_BODY);
    TimeMore(h, s, REQUEST_BODY_END);
    TimeMore(h, s, PROXY_START);
    TimeMore(h, s, PROXY_END);
    BodyStartMore(h, s, request.body, RESPONSE_BODY);
    TimeMore(h, s, RESPONSE_BODY_END);
    TimeMore(h, s, TUNNEL_START);
    TimeMore(h, s, TUNNEL_END);
    TimeMore(h, s, WEBSOCKET_START);
    TimeMore(h, s, WEBSOCKET_END);
  }

  lemma RecordedMore(e: Entry, h: History, s: Stamped, request: Request, start: nat)
    requires Recorded(e, h, request, start) && !s.event.OnRequestStart?
    ensures Recorded(Apply(s.event, s.at, e), h + [s], request, start)
  {
    hide Apply, TimingsRecorded, EndRecorded, RequestRecorded, ResponseRecorded, LogRecorded, TunnelRecorded;
    TimingsMore(e, h, s, request, start);
    EndMore(e, h, s);
    RequestMore(e, h, s, request);
    ResponseMore(e, h, s);
    LogMore(e, h, s);
    TunnelMore(e, h, s);
  }

  lemma StartedIsRecorded(id: TraceId, request: Request, now: nat)
    ensures Recorded(Started(id, request, now), [], request, now)
  {
    assert request.body + [] == request.body;
  }

  lemma PolledIsRecorded(e: Entry, h: History, request: Request, start: nat)
    requires Recorded(e, h, request, start)
    ensures Recorded(e.(isNew := false), h, request, start)
  {
    hide BodyStart, TimeOf, LastWhere, FirstWhere, RequestChunks, ResponseChunks, Logs, SinceLast, LastOf;
  }

  // ---- Runs ----

  /** The step that last started a trace. */
  function LastStart(steps: seq<Step>, id: TraceId): (r: Option<nat>)
    ensures r.Some? ==> r.value < |steps| && StartsTrace(steps[r.value], id)
    ensures forall i | (if r.Some? then r.value else -1) < i < |steps| :: !StartsTrace(steps[i], id)
  {
    if steps == [] then None
    else if StartsTrace(steps[|steps| - 1], id) then Some(|steps| - 1)
    else LastStart(steps[..|steps| - 1], id)
  }

  function Concerning(steps: seq<Step>, id: TraceId): History {
    if steps == [] then []
    else
      var front, last := Concerning(steps[..|steps| - 1], id), steps[|steps| - 1];
      if last.Handle? && last.event.id == id then front + [Stamped(last.event, last.now)] else front
  }

  predicate Polled(steps: seq<Step>) {
    exists i | 0 <= i < |steps| :: steps[i].PollNew?
  }

  /** The entry records what happened to its trace since the step that last started it. */
  ghost predicate Tells(e: Entry, steps: seq<Step>, id: TraceId) {
    && LastStart(steps, id).Some?
    && var k := LastStart(steps, id).value;
       && Recorded(e, Concerning(steps[k + 1..], id), steps[k].event.request, steps[k].now)
       && (e.isNew <==> !Polled(steps[k + 1..]))
  }

  lemma TellsAfterStart(steps: seq<Step>, step: Step, id: TraceId)
    requires StartsTrace(step, id)
    ensures Tells(Started(id, step.event.request, step.now), steps + [step], id)
  {
    var all := steps + [step];
    assert all[|all| - 1] == step;
    assert LastStart(all, id) == Some(|all| - 1);
    assert all[|all|..] == [];
    StartedIsRecorded(id, step.event.request, step.now);
    hide Recorded;
  }

  lemma TailMore(steps: seq<Step>, step: Step, id: TraceId)
    requires LastStart(steps, id).Some? && !StartsTrace(step, id)
    ensures LastStart(steps + [step], id) == LastStart(steps, id)
    ensures var k := LastStart(steps, id).value;
            (steps + [step])[k] == steps[k] && (steps + [step])[k + 1..] == steps[k + 1..] + [step]
  {
    hide StartsTrace, Polled;
    assert (steps + [step])[..|steps + [step]| - 1] == steps;
  }

  lemma ConcerningMore(steps: seq<Step>, step: Step, id: TraceId)
    ensures Concerning(steps + [step], id) ==
            Concerning(steps, id)
            + (if step.Handle? && step.event.id == id then [Stamped(step.event, step.now)] else [])
  {
    assert (steps + [step])[..|steps + [step]| - 1] == steps;
    assert Concerning(steps, id) + [] == Concerning(steps, id);
  }

  lemma PolledMore(steps: seq<Step>, step: Step)
    ensures Polled(steps + [step]) <==> Polled(steps) || step.PollNew?
  {
    assert (steps + [step])[|steps|] == step;
    assert forall i | 0 <= i < |steps| :: (steps + [step])[i] == steps[i];
  }

  lemma TellsAfterEvent(e: Entry, steps: seq<Step>, step: Step, id: TraceId)
    requires Tells(e, steps, id) && step.Handle? && step.event.id == id && !step.event.OnRequestStart?
    ensures Tells(Apply(step.event, step.now, e), steps + [step], id)
  {
    hide Recorded, Concerning, LastStart, Polled, Apply;
    TailMore(steps, step, id);
    var k := LastStart(steps, id).value;
    ConcerningMore(steps[k + 1..], step, id);
    PolledMore(steps[k + 1..], step);
    RecordedMore(e, Concerning(steps[k + 1..], id), Stamped(step.event, step.now), steps[k].event.request,
                 steps[k].now);
    ApplyKeepsMark(step.event, step.now, e);
  }

  lemma ApplyKeepsMark(event: Event, now: nat, e: Entry)
    requires !event.OnRequestStart?
    ensures Apply(event, now, e).isNew == e.isNew
  {
  }

  lemma TellsAfterOther(e: Entry, steps: seq<Step>, step: Step, id: TraceId)
    requires Tells(e, steps, id) && !(step.Handle? && step.event.id == id)
    ensures Tells(if step.PollNew? then e.(isNew := false) else e, steps + [step], id)
  {
    hide Recorded, Concerning, LastStart, Polled;
    TailMore(steps, step, id);
    var k := LastStart(steps, id).value;
    var h := Concerning(steps[k + 1..], id);
    ConcerningMore(steps[k + 1..], step, id);
    PolledMore(steps[k + 1..], step);
    assert h + [] == h;
    PolledIsRecorded(e, h, steps[k].event.request, steps[k].now);
  }

  /** While a trace stays cached, its entry is a function of the events handled since its last start. */
  lemma {:induction false} EntryTellsItsHistory(steps: seq<Step>, states: seq<Cache>, i: nat, id: TraceId)
    requires Run(steps, states) && i <= |steps| && id in states[i]
    ensures Tells(states[i][id], steps[..i], id)
    decreases i
  {
    hide StepTo, Tells;
    if i > 0 {
      var step, m, m' := steps[i - 1], states[i - 1], states[i];
      assert StepTo(steps[i - 1], states[i - 1], states[i - 1 + 1]);
      assert steps[..i] == steps[..i - 1] + [step];
      StepEntry(step, m, m', id);
      if StartsTrace(step, id) {
        TellsAfterStart(steps[..i - 1], step, id);
      } else {
        EntryTellsItsHistory(steps, states, i - 1, id);
        if step.Handle? && step.event.id == id {
          TellsAfterEvent(m[id], steps[..i - 1], step, id);
        } else {
          TellsAfterOther(m[id], steps[..i - 1], step, id);
        }
      }
    }
  }

  /** Where the entry of a trace after a step comes from. Only the events of a trace touch its entry. */
  lemma StepEntry(step: Step, m: Cache, m': Cache, id: TraceId)
    requires StepTo(step, m, m') && id in m'
    ensures if StartsTrace(step, id) then m'[id] == Started(id, step.event.request, step.now)
            else
              && id in m
              && m'[id] == if step.Handle? && step.event.id == id then Apply(step.event, step.now, m[id])
                           else if step.PollNew? then m[id].(isNew := false)
                           else m[id]
  {
    hide Apply, Started, NeedsDeletion, Evicted;
    if step.Handle? && step.event.OnRequestStart? {
      EvictedStayers(BeforeEviction(step, m), step.now, m', id);
    }
  }

  lemma EvictedStayers(m: Cache, now: nat, m': Cache, k: TraceId)
    requires Evicted(m, now, m') && k in m'
    ensures k in m && m'[k] == m[k]
  {
    hide NeedsDeletion, IsOldest;
  }
}
