/** The endpoint registry behind `/api/endpoints` (create, update, delete). The
    Mongo collection is a sequence of endpoint records; the unique index on
    (path, method) becomes the invariant `KeysUnique`. Every handler is a pure
    function from the stored records and the request to an outcome. */
module Endpoints {
  import opened Wrappers
  import opened JsString
  import opened Paths
  import opened SseEvents

  const DEFAULT_METHOD: string := "GET"
  const DEFAULT_STATUS: int := 200
  const DEFAULT_CONTENT_TYPE: string := "application/json"
  const DEFAULT_RESPONSE: string := "{\"message\": \"Hello World\"}"
  /** Stands for the sample chat-completion stream used as the default body of an
      event-stream endpoint. */
  const DEFAULT_SSE_RESPONSE: string := "data: {\"object\":\"chat.completion.chunk\"}\n\ndata: [DONE]\n"

  const BAD_REQUEST: nat := 400
  const NOT_FOUND: nat := 404
  const CONFLICT: nat := 409

  /** A stored endpoint document; `sseDurationMs` is `sseDurationSeconds` in
      milliseconds. */
  datatype Endpoint = Endpoint(
    id: string, userId: string, path: string, httpMethod: string, response: string,
    statusCode: int, contentType: string, sseDurationMs: nat, isWebSocket: bool,
    createdAt: int)

  /** The JSON body of a create or update request. */
  datatype EndpointBody = EndpointBody(
    path: Field<string>, httpMethod: Field<string>, response: Field<string>,
    statusCode: Field<int>, contentType: Field<string>, sseDurationSeconds: Field<Seconds>,
    isWebSocket: Field<bool>)

  /** The answer of a handler: the stored endpoint, an HTTP error status, or the
      save failing on the unique index (the handler then throws and sends nothing). */
  datatype Outcome = Done(endpoint: Endpoint) | Fail(status: nat) | IndexRejected

  /** `Number(value)` for a body field: `undefined` is NaN and `null` is 0. */
  function NumberOf(f: Field<Seconds>): Seconds {
    match f
    case Absent => NonFinite
    case Null => FiniteMs(0)
    case Present(v) => v
  }

  predicate SameKey(a: Endpoint, b: Endpoint) {
    a.path == b.path && a.httpMethod == b.httpMethod
  }

  /** The unique index on (path, method): no two stored endpoints share a key. */
  predicate KeysUnique(store: seq<Endpoint>) {
    forall i, j :: 0 <= i < j < |store| ==> !SameKey(store[i], store[j])
  }

  predicate IdsUnique(store: seq<Endpoint>) {
    forall i, j :: 0 <= i < j < |store| ==> store[i].id != store[j].id
  }

  /** Only event-stream endpoints carry a duration. */
  predicate DurationsNormal(store: seq<Endpoint>) {
    forall i :: 0 <= i < |store| ==>
      store[i].sseDurationMs != 0 ==> IsEventStreamContentType(Some(store[i].contentType))
  }

  predicate ValidStore(store: seq<Endpoint>) {
    KeysUnique(store) && IdsUnique(store) && DurationsNormal(store)
  }

  predicate Fresh(store: seq<Endpoint>, id: string) {
    forall i :: 0 <= i < |store| ==> store[i].id != id
  }

  /** The `findOne` filters the handlers use. */
  datatype Query =
    | ByKey(path: string, httpMethod: string)                    // { path, method }
    | OtherWithKey(path: string, httpMethod: string, id: string) // { path, method, _id: { $ne: id } }
    | Owned(id: string, userId: string)                          // { _id: id, userId }
    | WebSocketAt(path: string)                                  // { path, isWebSocket: true }

  predicate Matches(q: Query, e: Endpoint) {
    match q
    case ByKey(path, httpMethod) => e.path == path && e.httpMethod == httpMethod
    case OtherWithKey(path, httpMethod, id) => e.path == path && e.httpMethod == httpMethod && e.id != id
    case Owned(id, userId) => e.id == id && e.userId == userId
    case WebSocketAt(path) => e.path == path && e.isWebSocket
  }

  /** `findOne`: the first stored endpoint that the filter matches. */
  function FirstMatch(store: seq<Endpoint>, q: Query): (r: Option<nat>)
    ensures r.Some? ==> r.value < |store| && Matches(q, store[r.value])
    ensures r.Some? ==> forall j :: 0 <= j < r.value ==> !Matches(q, store[j])
    ensures r.None? ==> forall j :: 0 <= j < |store| ==> !Matches(q, store[j])
  {
    if store == [] then None
    else if Matches(q, store[0]) then Some(0)
    else
      var r := FirstMatch(store[1..], q);
      if r.None? then None else Some(r.value + 1)
  }

  function FindByKey(store: seq<Endpoint>, path: string, httpMethod: string): Option<nat> {
    FirstMatch(store, ByKey(path, httpMethod))
  }

  function FindConflict(store: seq<Endpoint>, path: string, httpMethod: string, id: string): Option<nat> {
    FirstMatch(store, OtherWithKey(path, httpMethod, id))
  }

  function FindOwned(store: seq<Endpoint>, id: string, userId: string): Option<nat> {
    FirstMatch(store, Owned(id, userId))
  }

  /** The method is not looked at, so several endpoints may qualify; the first
      one is taken. */
  function FindWebSocket(store: seq<Endpoint>, path: string): Option<nat> {
    FirstMatch(store, WebSocketAt(path))
  }

  function KindOf(isWebSocket: bool): PathKind {
    if isWebSocket then WebSocket else Http
  }

  /** The record `Endpoint.create` stores for an accepted body: every missing or
      falsy field takes its default, event-stream endpoints get the sample stream
      as default body and a normalised duration, all others a duration of zero. */
  function NewEndpoint(userId: string, path: string, body: EndpointBody, newId: string, now: int)
    : (e: Endpoint)
    ensures e.id == newId && e.userId == userId && e.createdAt == now && e.path == path
    ensures e.isWebSocket == IsTrue(body.isWebSocket)
    ensures e.httpMethod == StringOr(body.httpMethod, DEFAULT_METHOD)
    ensures e.statusCode == IntOr(body.statusCode, DEFAULT_STATUS)
    ensures e.contentType == StringOr(body.contentType, DEFAULT_CONTENT_TYPE)
    ensures e.response != ""
    ensures body.response.Present? && body.response.value != "" ==> e.response == body.response.value
    ensures !IsEventStreamContentType(Some(e.contentType)) ==> e.sseDurationMs == 0
    ensures IsEventStreamContentType(Some(e.contentType)) ==>
      e.sseDurationMs == NormalizeSseDuration(NumberOf(body.sseDurationSeconds))
  {
    var contentType := StringOr(body.contentType, DEFAULT_CONTENT_TYPE);
    var isStream := IsEventStreamContentType(Some(contentType));
    assert |DEFAULT_RESPONSE| > 0 && |DEFAULT_SSE_RESPONSE| > 0;
    var response := StringOr(body.response, if isStream then DEFAULT_SSE_RESPONSE else DEFAULT_RESPONSE);
    Endpoint(
      newId, userId, path, StringOr(body.httpMethod, DEFAULT_METHOD), response,
      IntOr(body.statusCode, DEFAULT_STATUS), contentType,
      if isStream then NormalizeSseDuration(NumberOf(body.sseDurationSeconds)) else 0,
      IsTrue(body.isWebSocket), now)
  }

  /** The path a create request asks for, normalised under the flag it sends. */
  function RequestedPath(body: EndpointBody): Option<string> {
    Normalize(body.path.ToOption(), KindOf(IsTrue(body.isWebSocket)))
  }

  /** POST /api/endpoints.
      - 400 exactly when no path was sent (the normalised path always carries the
        required root, so the prefix check never fails otherwise);
      - 409 exactly when some endpoint, of any owner, already has the key;
      - otherwise the new record, under the normalised path. */
  function CreateEndpoint(store: seq<Endpoint>, userId: string, body: EndpointBody,
                          newId: string, now: int): (r: Outcome)
    ensures r != IndexRejected
    ensures r == Fail(BAD_REQUEST) <==> !body.path.Present?
    ensures r == Fail(CONFLICT) <==>
      body.path.Present?
      && FindByKey(store, RequestedPath(body).value, StringOr(body.httpMethod, DEFAULT_METHOD)).Some?
    ensures r.Fail? ==> r.status in {BAD_REQUEST, CONFLICT}
    ensures r.Done? ==> r.endpoint == NewEndpoint(userId, RequestedPath(body).value, body, newId, now)
  {
    var kind := KindOf(IsTrue(body.isWebSocket));
    var normalized := RequestedPath(body);
    if normalized.None? || !(Root(kind) <= normalized.value) then Fail(BAD_REQUEST)
    else
      var httpMethod := StringOr(body.httpMethod, DEFAULT_METHOD);
      if FindByKey(store, normalized.value, httpMethod).Some? then Fail(CONFLICT)
      else Done(NewEndpoint(userId, normalized.value, body, newId, now))
  }

  /** A created endpoint lives under the root its flag requires, with no `//` in its path. */
  lemma CreatedPathIsRooted(store: seq<Endpoint>, userId: string, body: EndpointBody, newId: string, now: int)
    requires CreateEndpoint(store, userId, body, newId, now).Done?
    ensures var e := CreateEndpoint(store, userId, body, newId, now).endpoint;
      Root(KindOf(e.isWebSocket)) <= e.path && NoDoubleSlash(e.path)
  {
  }

  /** Adding the created record keeps the registry valid (the id being fresh). */
  lemma CreatePreservesValid(store: seq<Endpoint>, userId: string, body: EndpointBody,
                             newId: string, now: int)
    requires ValidStore(store) && Fresh(store, newId)
    requires CreateEndpoint(store, userId, body, newId, now).Done?
    ensures ValidStore(store + [CreateEndpoint(store, userId, body, newId, now).endpoint])
  {
    var e := CreateEndpoint(store, userId, body, newId, now).endpoint;
    assert FindByKey(store, e.path, e.httpMethod).None?;
    AppendPreservesValid(store, e);
  }

  /** A record whose key is free, whose id is fresh and whose duration is normal
      can join a valid registry. */
  lemma AppendPreservesValid(store: seq<Endpoint>, e: Endpoint)
    requires ValidStore(store) && Fresh(store, e.id)
    requires FindByKey(store, e.path, e.httpMethod).None?
    requires e.sseDurationMs != 0 ==> IsEventStreamContentType(Some(e.contentType))
    ensures ValidStore(store + [e])
  {
    var s := store + [e];
    assert forall j :: 0 <= j < |store| ==> !Matches(ByKey(e.path, e.httpMethod), store[j]);
    assert forall j :: 0 <= j < |store| ==> s[j] == store[j];
    assert s[|store|] == e;
  }

  /** Mock paths are one namespace: once a (path, method) key is taken, nobody,
      not even another owner, can create it again. */
  lemma CreateTakenKeyConflicts(store: seq<Endpoint>, i: nat, userId: string,
                                body: EndpointBody, newId: string, now: int)
    requires i < |store| && body.path.Present?
    requires store[i].path == RequestedPath(body).value
    requires store[i].httpMethod == StringOr(body.httpMethod, DEFAULT_METHOD)
    ensures CreateEndpoint(store, userId, body, newId, now) == Fail(CONFLICT)
  {
  }

  /** The updated record: given fields replace stored ones (`??`, and `||` for the
      method); the duration is renormalised against the new content type. The
      path is whatever the handler decided. */
  function Patched(prev: Endpoint, path: string, body: EndpointBody): (e: Endpoint)
    ensures e.id == prev.id && e.userId == prev.userId && e.createdAt == prev.createdAt
    ensures e.sseDurationMs != 0 ==> IsEventStreamContentType(Some(e.contentType))
  {
    var contentType := body.contentType.OrElse(prev.contentType);
    prev.(
      path := path,
      httpMethod := StringOr(body.httpMethod, prev.httpMethod),
      response := body.response.OrElse(prev.response),
      statusCode := body.statusCode.OrElse(prev.statusCode),
      contentType := contentType,
      isWebSocket := body.isWebSocket.OrElse(prev.isWebSocket),
      sseDurationMs :=
        if IsEventStreamContentType(Some(contentType))
        then NormalizeSseDuration(body.sseDurationSeconds.OrElse(FiniteMs(prev.sseDurationMs)))
        else 0)
  }

  /** PUT /api/endpoints/:id.
      - 404 unless the caller owns an endpoint with that id;
      - with a path (even `null`): normalised under the flag `isWebSocket ?? stored`,
        400 when that yields nothing, 409 when another endpoint has the new key;
      - without a path: no conflict check at all; the path is kept as stored even
        when the flag changes, and a new method that hits a taken key is refused by
        the unique index when the document is saved. */
  function UpdateEndpoint(store: seq<Endpoint>, id: string, userId: string, body: EndpointBody)
    : (r: Outcome)
    ensures r == Fail(NOT_FOUND) <==> FindOwned(store, id, userId).None?
    ensures r == Fail(BAD_REQUEST) <==> FindOwned(store, id, userId).Some? && body.path.Null?
    ensures r == Fail(CONFLICT) ==> body.path.Present?
    ensures r == IndexRejected ==> body.path.Absent?
    ensures r.Fail? ==> r.status in {BAD_REQUEST, NOT_FOUND, CONFLICT}
    ensures r.Done? ==> FindOwned(store, id, userId).Some?
    ensures r.Done? ==>
      r.endpoint == Patched(store[FindOwned(store, id, userId).value],
                            r.endpoint.path, body)
    ensures r.Done? && body.path.Absent? ==>
      r.endpoint.path == store[FindOwned(store, id, userId).value].path
    ensures r.Done? && body.path.Present? ==>
      r.endpoint.path == Normalize(Some(body.path.value),
        KindOf(body.isWebSocket.OrElse(store[FindOwned(store, id, userId).value].isWebSocket))).value
    ensures r.Done? ==> FindConflict(store, r.endpoint.path, r.endpoint.httpMethod, id).None?
  {
    var found := FindOwned(store, id, userId);
    if found.None? then Fail(NOT_FOUND)
    else
      var prev := store[found.value];
      var httpMethod := StringOr(body.httpMethod, prev.httpMethod);
      if !body.path.Absent? then
        var kind := KindOf(body.isWebSocket.OrElse(prev.isWebSocket));
        var normalized := Normalize(body.path.ToOption(), kind);
        if normalized.None? || !(Root(kind) <= normalized.value) then Fail(BAD_REQUEST)
        else if FindConflict(store, normalized.value, httpMethod, id).Some? then Fail(CONFLICT)
        else Done(Patched(prev, normalized.value, body))
      else if FindConflict(store, prev.path, httpMethod, id).Some? then IndexRejected
      else Done(Patched(prev, prev.path, body))
  }

  /** When update checks for a conflict, and what it answers: with a path, 409
      exactly when another record has the new key; without one, the unique index
      refuses the save exactly when another record has the stored path under the
      new method. */
  lemma UpdateConflictRules(store: seq<Endpoint>, id: string, userId: string, body: EndpointBody, k: nat)
    requires FindOwned(store, id, userId) == Some(k)
    ensures body.path.Present? ==>
      var path := Normalize(Some(body.path.value), KindOf(body.isWebSocket.OrElse(store[k].isWebSocket))).value;
      (UpdateEndpoint(store, id, userId, body) == Fail(CONFLICT) <==>
        FindConflict(store, path, StringOr(body.httpMethod, store[k].httpMethod), id).Some?)
    ensures body.path.Absent? ==>
      (UpdateEndpoint(store, id, userId, body) == IndexRejected <==>
        FindConflict(store, store[k].path, StringOr(body.httpMethod, store[k].httpMethod), id).Some?)
  {
    if body.path.Present? {
      var kind := KindOf(body.isWebSocket.OrElse(store[k].isWebSocket));
      assert Normalize(body.path.ToOption(), kind) == Normalize(Some(body.path.value), kind);
    }
  }

  /** Writing an updated record back keeps the registry valid. */
  lemma UpdatePreservesValid(store: seq<Endpoint>, id: string, userId: string, body: EndpointBody)
    requires ValidStore(store)
    requires UpdateEndpoint(store, id, userId, body).Done?
    ensures ValidStore(store[FindOwned(store, id, userId).value :=
                             UpdateEndpoint(store, id, userId, body).endpoint])
  {
    var k := FindOwned(store, id, userId).value;
    var e := UpdateEndpoint(store, id, userId, body).endpoint;
    assert e == Patched(store[k], e.path, body);
    assert e.id == id && FindConflict(store, e.path, e.httpMethod, id).None?;
    ReplaceAtPreservesValid(store, k, e);
  }

  /** A record can take the place of the one with its id when no other record has
      its key and its duration is normal. */
  lemma ReplaceAtPreservesValid(store: seq<Endpoint>, k: nat, e: Endpoint)
    requires ValidStore(store) && k < |store| && e.id == store[k].id
    requires FindConflict(store, e.path, e.httpMethod, e.id).None?
    requires e.sseDurationMs != 0 ==> IsEventStreamContentType(Some(e.contentType))
    ensures ValidStore(store[k := e])
  {
    var s := store[k := e];
    assert forall j :: 0 <= j < |store| && j != k ==> store[j].id != e.id;
    assert forall j :: 0 <= j < |store| ==> !Matches(OtherWithKey(e.path, e.httpMethod, e.id), store[j]);
    assert forall j :: 0 <= j < |s| && j != k ==> s[j] == store[j];
  }

  /** The WebSocket flag and the path root are not tied together: an update that
      only flips the flag keeps an HTTP path on a WebSocket endpoint. */
  lemma FlagFlipKeepsPath()
    ensures
      var prev := Endpoint("e1", "u1", "/test/u1/echo", "GET", "{}", 200, "application/json", 0, false, 0);
      var body := EndpointBody(Absent, Absent, Absent, Absent, Absent, Absent, Present(true));
      var r := UpdateEndpoint([prev], "e1", "u1", body);
      r.Done? && r.endpoint.isWebSocket && r.endpoint.path == "/test/u1/echo"
      && !(Root(WebSocket) <= r.endpoint.path)
  {
    var prev := Endpoint("e1", "u1", "/test/u1/echo", "GET", "{}", 200, "application/json", 0, false, 0);
    var body := EndpointBody(Absent, Absent, Absent, Absent, Absent, Absent, Present(true));
    assert FindOwned([prev], "e1", "u1") == Some(0);
    assert FindConflict([prev], prev.path, "GET", "e1").None?;
    assert Root(WebSocket) == "/testws/";
    assert "/test/u1/echo"[6] != "/testws/"[6];
  }

  /** An update that only changes the method onto a taken key gets no 409 from the
      handler; it is the unique index that refuses it. */
  lemma MethodOnlyUpdateSkipsConflictCheck()
    ensures
      var a := Endpoint("e1", "u1", "/test/x", "GET", "{}", 200, "application/json", 0, false, 0);
      var b := Endpoint("e2", "u1", "/test/x", "POST", "{}", 200, "application/json", 0, false, 0);
      var body := EndpointBody(Absent, Present("GET"), Absent, Absent, Absent, Absent, Absent);
      UpdateEndpoint([a, b], "e2", "u1", body) == IndexRejected
  {
    var a := Endpoint("e1", "u1", "/test/x", "GET", "{}", 200, "application/json", 0, false, 0);
    var b := Endpoint("e2", "u1", "/test/x", "POST", "{}", 200, "application/json", 0, false, 0);
    assert [a, b][1..] == [b];
    assert FindOwned([b], "e2", "u1") == Some(0);
    assert FindOwned([a, b], "e2", "u1") == Some(1);
    assert FindConflict([a, b], "/test/x", "GET", "e2") == Some(0);
  }

  /** DELETE /api/endpoints/:id: removes the caller's endpoint with that id; `None`
      is the 404 for a missing or foreign id. */
  function DeleteEndpoint(store: seq<Endpoint>, id: string, userId: string): (r: Option<seq<Endpoint>>)
    ensures r.None? <==> FindOwned(store, id, userId).None?
    ensures r.Some? ==> |r.value| == |store| - 1
  {
    var found := FindOwned(store, id, userId);
    if found.None? then None
    else Some(store[..found.value] + store[found.value + 1..])
  }

  /** Deleting removes exactly the one record with that id, keeps the others in
      order, and keeps the registry valid. */
  lemma DeleteRemovesOnlyTarget(store: seq<Endpoint>, id: string, userId: string)
    requires ValidStore(store)
    requires DeleteEndpoint(store, id, userId).Some?
    ensures var rest := DeleteEndpoint(store, id, userId).value;
      && ValidStore(rest)
      && (forall e :: e in rest <==> e in store && e.id != id)
  {
    var k := FindOwned(store, id, userId).value;
    RemoveAtKeepsOthers(store, k);
  }

  /** Removing the record at `k` from a valid registry keeps it valid and keeps
      every other record, the ids being unique. */
  lemma RemoveAtKeepsOthers(store: seq<Endpoint>, k: nat)
    requires ValidStore(store) && k < |store|
    ensures var rest := store[..k] + store[k + 1..];
      && ValidStore(rest)
      && (forall e :: e in rest <==> e in store && e.id != store[k].id)
  {
    var rest := store[..k] + store[k + 1..];
    assert forall i :: 0 <= i < |rest| ==> rest[i] == store[if i < k then i else i + 1];
    RemoveAtMembers(store, k);
  }

  lemma RemoveAtMembers(store: seq<Endpoint>, k: nat)
    requires IdsUnique(store) && k < |store|
    ensures forall e :: e in store[..k] + store[k + 1..] <==> e in store && e.id != store[k].id
  {
    var rest := store[..k] + store[k + 1..];
    forall e | e in store && e.id != store[k].id ensures e in rest {
      var i :| 0 <= i < |store| && store[i] == e;
      if i < k {
        assert rest[i] == e;
      } else {
        assert rest[i - 1] == e;
      }
    }
    forall e | e in rest ensures e in store && e.id != store[k].id {
      var i :| 0 <= i < |rest| && rest[i] == e;
      assert rest[i] == store[if i < k then i else i + 1];
    }
  }

  /** With the unique index in force, a (path, method) lookup has one possible
      answer: any endpoint with that key is the one `findOne` returns. */
  lemma KeyLookupIsUnique(store: seq<Endpoint>, i: nat, path: string, httpMethod: string)
    requires KeysUnique(store) && i < |store|
    requires store[i].path == path && store[i].httpMethod == httpMethod
    ensures FindByKey(store, path, httpMethod) == Some(i)
  {
    var r := FindByKey(store, path, httpMethod);
    assert r.Some?;
    if r.value < i {
      assert SameKey(store[r.value], store[i]);
    }
  }
}
