/** The `/test/` wildcard route of server.js: every request under `/test/` is
    matched against the registry on its exact (path, method), logged once, and
    answered from the matched endpoint. The decision is a pure function of the
    registry and the request; the server class performs it. */
module Dispatch {
  import opened Wrappers
  import opened Paths
  import opened Logs
  import opened SseEvents
  import opened SseStream
  import opened Endpoints

  const PREFLIGHT: string := "OPTIONS"

  /** The parts of an incoming request the route looks at. `wildcard` is what
      matched the `*`; `request` stands for the headers, query and body that are
      copied into the log. */
  datatype HttpRequest = HttpRequest(
    httpMethod: string, wildcard: string, userId: string, ip: string,
    request: string, timestamp: int)

  /** `'/test/' + req.params[0]`. */
  function RequestPath(req: HttpRequest): string {
    Root(Http) + req.wildcard
  }

  /** The statuses Node's `writeHead` accepts; for any other it throws
      `ERR_HTTP_INVALID_STATUS_CODE` before a byte of the reply is sent. */
  predicate SendableStatus(status: int) {
    100 <= status <= 999
  }

  /** How the route answers.
      - `EventStream`: the status, the chunks written one by one, and the gap
        between two chunks in milliseconds;
      - `Body`: the status, the content type and the stored body, verbatim;
      - `HeadThrows`: the stored status is not sendable, so writing the head
        (`flushHeaders` for a stream, `send` and its retry in the `catch` for a
        body) throws and the handler rejects without answering. */
  datatype Reply =
    | NoContent
    | NotFound(path: string)
    | WebSocketOnly(path: string)
    | EventStream(status: int, events: seq<string>, gapMs: real)
    | Body(status: int, contentType: string, body: string)
    | HeadThrows(status: int)

  /** `findOne({ path: requestPath, method: req.method })` for a non-preflight request. */
  function Match(store: seq<Endpoint>, req: HttpRequest): (r: Option<nat>)
    ensures r.Some? ==> r.value < |store| && req.httpMethod != PREFLIGHT
    ensures r.Some? ==>
      store[r.value].path == RequestPath(req) && store[r.value].httpMethod == req.httpMethod
    ensures r.None? && req.httpMethod != PREFLIGHT ==>
      forall i :: 0 <= i < |store| ==>
        !(store[i].path == RequestPath(req) && store[i].httpMethod == req.httpMethod)
  {
    if req.httpMethod == PREFLIGHT then None
    else FindByKey(store, RequestPath(req), req.httpMethod)
  }

  /** The one log entry the route appends: none for a preflight; otherwise an
      HTTP entry of the request, owned by the matched endpoint's owner (with that
      endpoint's id), or by the requester when nothing matched. */
  function DispatchLog(store: seq<Endpoint>, req: HttpRequest): (r: Option<LogEntry>)
    ensures r.None? <==> req.httpMethod == PREFLIGHT
    ensures r.Some? ==>
      && r.value.HttpLog?
      && r.value.httpMethod == req.httpMethod && r.value.path == RequestPath(req)
      && r.value.ip == req.ip && r.value.request == req.request
      && r.value.timestamp == req.timestamp
      && (r.value.matched <==> Match(store, req).Some?)
    ensures r.Some? && Match(store, req).None? ==>
      r.value.userId == req.userId && r.value.endpointId.None?
    ensures Match(store, req).Some? ==>
      r.value.userId == store[Match(store, req).value].userId
      && r.value.endpointId == Some(store[Match(store, req).value].id)
  {
    if req.httpMethod == PREFLIGHT then None
    else
      var m := Match(store, req);
      var path := RequestPath(req);
      if m.None? then
        Some(HttpLog(req.userId, false, None, req.httpMethod, path, req.ip, req.request, req.timestamp))
      else
        var e := store[m.value];
        Some(HttpLog(e.userId, true, Some(e.id), req.httpMethod, path, req.ip, req.request, req.timestamp))
  }

  /** The answer of the route once the log entry is written. */
  function DispatchReply(store: seq<Endpoint>, req: HttpRequest): (r: Reply)
    ensures req.httpMethod == PREFLIGHT <==> r.NoContent?
    ensures r.NotFound? <==> req.httpMethod != PREFLIGHT && Match(store, req).None?
    ensures r.NotFound? || r.WebSocketOnly? ==> r.path == RequestPath(req)
    ensures Match(store, req).Some? ==>
      var e := store[Match(store, req).value];
      && (e.isWebSocket <==> r.WebSocketOnly?)
      && (!e.isWebSocket && !SendableStatus(e.statusCode) <==> r.HeadThrows?)
      && (r.HeadThrows? ==> r.status == e.statusCode)
      && (!e.isWebSocket && SendableStatus(e.statusCode) && IsEventStreamContentType(Some(e.contentType))
          <==> r.EventStream?)
      && (r.EventStream? ==>
            && r.status == e.statusCode && r.events == SseEvents.SseEvents(Some(e.response))
            && r.gapMs == FixedGap(e.sseDurationMs, |r.events|))
      && (r.Body? ==> r == Body(e.statusCode, e.contentType, e.response))
  {
    if req.httpMethod == PREFLIGHT then NoContent
    else
      var m := Match(store, req);
      if m.None? then NotFound(RequestPath(req))
      else
        var e := store[m.value];
        if e.isWebSocket then WebSocketOnly(RequestPath(req))
        else if !SendableStatus(e.statusCode) then HeadThrows(e.statusCode)
        else if IsEventStreamContentType(Some(e.contentType)) then
          var events := SseEvents.SseEvents(Some(e.response));
          EventStream(e.statusCode, events, FixedGap(e.sseDurationMs, |events|))
        else Body(e.statusCode, e.contentType, e.response)
  }

  /** In a registry that keeps the unique index, a request under an endpoint's
      exact path and method is answered from that endpoint and logged for its
      owner, or the head of the reply throws when its stored status is not
      sendable; which endpoint `findOne` picks is then not a choice at all. */
  lemma RequestReachesItsEndpoint(store: seq<Endpoint>, req: HttpRequest, i: nat)
    requires KeysUnique(store) && i < |store|
    requires req.httpMethod != PREFLIGHT
    requires store[i].path == RequestPath(req) && store[i].httpMethod == req.httpMethod
    ensures Match(store, req) == Some(i)
    ensures DispatchLog(store, req).value.userId == store[i].userId
    ensures DispatchLog(store, req).value.matched
    ensures !store[i].isWebSocket && !SendableStatus(store[i].statusCode) ==>
      DispatchReply(store, req) == HeadThrows(store[i].statusCode)
    ensures (!store[i].isWebSocket && SendableStatus(store[i].statusCode)
             && !IsEventStreamContentType(Some(store[i].contentType))) ==>
      DispatchReply(store, req) == Body(store[i].statusCode, store[i].contentType, store[i].response)
  {
    KeyLookupIsUnique(store, i, RequestPath(req), req.httpMethod);
  }
}
