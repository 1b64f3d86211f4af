/** The module-level state of server.js and the handlers that change it: the
    endpoint registry, the request log, the log subscribers (`logClients`), the
    business WebSocket connections (`testWsConnections`), and the sockets
    themselves. A socket is an id into a table of records with an `open` flag
    and the frames sent to it so far; the handlers that a connection attaches
    to its socket are kept as that socket's `Session`. */
module Server {
  import opened Wrappers
  import opened Logs
  import opened Endpoints
  import opened Dispatch
  import opened SseEvents
  import opened SseStream
  import opened Requests

  type SocketId = nat

  /** What the server sends on a socket: a log push to a subscriber, the greeting
      of a business connection, or a relayed message. */
  datatype Frame = LogPush(entry: LogEntry) | Connected(connectionId: string) | Relay(message: string)

  /** `open` is `readyState === OPEN`; `closeCode` is the code the server closed with. */
  datatype Socket = Socket(open: bool, outbox: seq<Frame>, closeCode: Option<int>)

  /** The handlers a connection left on its socket. */
  datatype Session =
    | Subscriber(userId: string)
    | Business(endpointId: string, connectionId: string, owner: string, clientUserId: string, ip: string)

  const LOGS_TYPE: string := "logs"
  const NOT_FOUND_CLOSE: int := 4004

  function IsOpen(sockets: map<SocketId, Socket>, id: SocketId): bool {
    id in sockets && sockets[id].open
  }

  /** Sending `f` to every open socket among `targets`: a socket gains the frame
      exactly when it is an open target, and no socket opens, closes or appears. */
  function Deliver(sockets: map<SocketId, Socket>, targets: set<SocketId>, f: Frame): (r: map<SocketId, Socket>)
    ensures r.Keys == sockets.Keys
    ensures forall id :: id in r ==> r[id].open == sockets[id].open && r[id].closeCode == sockets[id].closeCode
    ensures forall id :: id in r ==>
      r[id].outbox == (if id in targets && sockets[id].open then sockets[id].outbox + [f] else sockets[id].outbox)
  {
    map id | id in sockets ::
      if id in targets && sockets[id].open then sockets[id].(outbox := sockets[id].outbox + [f]) else sockets[id]
  }

  /** Sending never opens or closes a socket. */
  lemma DeliverKeepsOpen(sockets: map<SocketId, Socket>, targets: set<SocketId>, f: Frame, id: SocketId)
    ensures IsOpen(Deliver(sockets, targets, f), id) == IsOpen(sockets, id)
  {
  }

  /** `client.send(f)` guarded by `readyState === OPEN`. */
  function Push(sockets: map<SocketId, Socket>, id: SocketId, f: Frame): map<SocketId, Socket> {
    if IsOpen(sockets, id) then sockets[id := sockets[id].(outbox := sockets[id].outbox + [f])] else sockets
  }

  /** Delivering to one more target. */
  lemma DeliverStep(sockets: map<SocketId, Socket>, done: set<SocketId>, id: SocketId, f: Frame)
    requires id !in done
    ensures Deliver(sockets, done + {id}, f) == Push(Deliver(sockets, done, f), id, f)
  {
  }

  /** `logClients.get(userId)`, an absent set being empty. */
  function Members(logClients: map<string, set<SocketId>>, userId: string): set<SocketId> {
    if userId in logClients then logClients[userId] else {}
  }

  /** `log.userId ? logClients.get(log.userId) : null`: nobody for an empty owner. */
  function Subscribers(logClients: map<string, set<SocketId>>, userId: string): set<SocketId> {
    if userId != "" then Members(logClients, userId) else {}
  }

  /** The sockets registered under the connection ids in `ids`. */
  function SocketsOf(conns: map<string, SocketId>, ids: set<string>): set<SocketId> {
    set c | c in conns && c in ids :: conns[c]
  }

  /** The connection ids in `ids` whose socket is open. */
  function OpenAmong(conns: map<string, SocketId>, sockets: map<SocketId, Socket>, ids: set<string>): set<string> {
    set c | c in conns && c in ids && IsOpen(sockets, conns[c])
  }

  /** No socket is registered under two connection ids. */
  predicate Injective(conns: map<string, SocketId>) {
    forall c, d :: c in conns && d in conns && c != d ==> conns[c] != conns[d]
  }

  /** The `forEach` over a set of sockets, each sent `f` when it is open. */
  method SendEach(sockets: map<SocketId, Socket>, targets: set<SocketId>, f: Frame)
    returns (after: map<SocketId, Socket>)
    ensures after == Deliver(sockets, targets, f)
  {
    after := sockets;
    var remaining := targets;
    assert Deliver(sockets, {}, f) == sockets;
    while remaining != {}
      invariant remaining <= targets
      invariant after == Deliver(sockets, targets - remaining, f)
      decreases |remaining|
    {
      var id :| id in remaining;
      DeliverStep(sockets, targets - remaining, id, f);
      assert targets - remaining + {id} == targets - (remaining - {id});
      after := Push(after, id, f);
      remaining := remaining - {id};
    }
    assert targets - remaining == targets;
  }

  /** Before the first connection nothing is sent and nothing is counted. */
  lemma SendNone(sockets: map<SocketId, Socket>, conns: map<string, SocketId>, f: Frame)
    ensures Deliver(sockets, SocketsOf(conns, {}), f) == sockets
    ensures |OpenAmong(conns, sockets, {})| == 0
  {
    assert SocketsOf(conns, {}) == {} && OpenAmong(conns, sockets, {}) == {};
    assert Deliver(sockets, {}, f) == sockets;
  }

  /** The body of that `forEach` for the connection `c`: an open socket is sent
      `f` and counted. */
  method SendOne(sockets: map<SocketId, Socket>, conns: map<string, SocketId>, ghost done: set<string>,
                 c: string, f: Frame, after: map<SocketId, Socket>, sent: nat)
    returns (after': map<SocketId, Socket>, sent': nat)
    requires Injective(conns) && c in conns && c !in done
    requires Relayed(sockets, conns, f, done, after, sent)
    ensures Relayed(sockets, conns, f, done + {c}, after', sent')
  {
    var sid := conns[c];
    SendStep(conns, sockets, done, c, f, after, sent);
    sent' := if IsOpen(after, sid) then sent + 1 else sent;
    after' := Push(after, sid, f);
  }

  /** What the relay loop has done once the connections in `done` are handled. */
  predicate Relayed(sockets: map<SocketId, Socket>, conns: map<string, SocketId>, f: Frame,
                    done: set<string>, after: map<SocketId, Socket>, sent: nat) {
    after == Deliver(sockets, SocketsOf(conns, done), f) && sent == |OpenAmong(conns, sockets, done)|
  }

  /** The `forEach` over a connection map with `sent++` for each open socket. */
  method SendCounting(sockets: map<SocketId, Socket>, conns: map<string, SocketId>, f: Frame)
    returns (after: map<SocketId, Socket>, sent: nat)
    requires Injective(conns)
    ensures sent == |OpenAmong(conns, sockets, conns.Keys)|
    ensures after == Deliver(sockets, SocketsOf(conns, conns.Keys), f)
  {
    after := sockets;
    sent := 0;
    ghost var done: set<string> := {};
    var remaining := conns.Keys;
    SendNone(sockets, conns, f);
    while remaining != {}
      invariant done <= conns.Keys && remaining == conns.Keys - done
      invariant Relayed(sockets, conns, f, done, after, sent)
      decreases remaining
    {
      var c :| c in remaining;
      after, sent := SendOne(sockets, conns, done, c, f, after, sent);
      done := done + {c};
      remaining := remaining - {c};
    }
    assert done == conns.Keys;
  }

  /** The event-stream branch of the `/test/` route: the stored response is cut
      into events and the `sendNext` loop starts, writing the first one at once. */
  method OpenEventStream(response: string, gapMs: real, now: real) returns (stream: FixedGapStream)
    ensures fresh(stream) && stream.Valid() && !stream.destroyed && !stream.ended
    ensures stream.events == SseEvents.SseEvents(Some(response)) && |stream.events| > 0
    ensures stream.gapMs == gapMs && stream.startTime == now
    ensures stream.written == [stream.events[0]] && stream.timer == Some(now + gapMs)
  {
    var events := BuildSseEventsFromResponse(Some(response));
    stream := new FixedGapStream(events, gapMs, now);
  }

  /** The answering half of the `/test/` route: the reply `DispatchReply` chooses
      and, for an event stream, the running `sendNext` loop. */
  method Respond(store: seq<Endpoint>, req: HttpRequest, now: real) returns (reply: Reply, stream: FixedGapStream?)
    ensures reply == DispatchReply(store, req)
    ensures stream != null <==> reply.EventStream?
    ensures stream != null ==>
      && fresh(stream) && stream.Valid() && !stream.destroyed && !stream.ended
      && stream.events == reply.events && stream.gapMs == reply.gapMs && stream.startTime == now
      && stream.written == [reply.events[0]] && stream.timer.Some?
  {
    reply := DispatchReply(store, req);
    stream := null;
    if reply.EventStream? {
      var e := store[Match(store, req).value];
      assert reply.events == SseEvents.SseEvents(Some(e.response));
      stream := OpenEventStream(e.response, reply.gapMs, now);
    }
  }

  /** Every registered socket exists, and no socket is registered twice under
      one endpoint. */
  ghost predicate Registered(logClients: map<string, set<SocketId>>,
                             testWsConnections: map<string, map<string, SocketId>>,
                             sockets: map<SocketId, Socket>)
  {
    && (forall u, id :: u in logClients && id in logClients[u] ==> id in sockets)
    && (forall e, c :: e in testWsConnections && c in testWsConnections[e] ==>
          testWsConnections[e][c] in sockets)
    && (forall e, c, d ::
          e in testWsConnections && c in testWsConnections[e] && d in testWsConnections[e] && c != d
          ==> testWsConnections[e][c] != testWsConnections[e][d])
  }

  /** A log subscriber is registered only under the user its session records,
      so it sits in one user's set and no other. */
  ghost predicate SubscribersRecorded(logClients: map<string, set<SocketId>>, sessions: map<SocketId, Session>) {
    forall u, id :: u in logClients && id in logClients[u] ==> id in sessions && sessions[id] == Subscriber(u)
  }

  /** Broadcast isolation: a subscriber registered under `v` receives an entry
      exactly when it is open and the entry's owner is `v` (and not empty); an
      entry owned by anyone else never reaches it. */
  lemma BroadcastReachesOnlyOwner(logClients: map<string, set<SocketId>>, sessions: map<SocketId, Session>,
                                  sockets: map<SocketId, Socket>, e: LogEntry, v: string, id: SocketId)
    requires SubscribersRecorded(logClients, sessions)
    requires v in logClients && id in logClients[v] && id in sockets
    ensures Deliver(sockets, Subscribers(logClients, e.userId), LogPush(e))[id].outbox ==
      if v == e.userId && v != "" && sockets[id].open then sockets[id].outbox + [LogPush(e)] else sockets[id].outbox
  {
    var targets := Subscribers(logClients, e.userId);
    if id in targets {
      assert e.userId in logClients && id in logClients[e.userId];
      assert sessions[id] == Subscriber(e.userId) && sessions[id] == Subscriber(v);
    }
  }

  /** Under that invariant no socket subscribes to two users' logs. */
  lemma OneUserPerSubscriber(logClients: map<string, set<SocketId>>, sessions: map<SocketId, Session>,
                             u: string, v: string, id: SocketId)
    requires SubscribersRecorded(logClients, sessions)
    requires u in logClients && v in logClients && id in logClients[u] && id in logClients[v]
    ensures u == v
  {
    assert sessions[id] == Subscriber(u) && sessions[id] == Subscriber(v);
  }

  class MockServer {
    var endpoints: seq<Endpoint>
    var logs: seq<LogEntry>
    var logClients: map<string, set<SocketId>>
    var testWsConnections: map<string, map<string, SocketId>>
    var sockets: map<SocketId, Socket>
    var sessions: map<SocketId, Session>

    /** The registry keeps the unique index, the buffer its bound, every
        registered socket exists, a log subscriber sits only in its own user's
        set, and no socket is registered twice under one endpoint. */
    ghost predicate Valid()
      reads this
    {
      && ValidStore(endpoints)
      && |logs| <= MAX_LOGS
      && Registered(logClients, testWsConnections, sockets)
      && SubscribersRecorded(logClients, sessions)
    }

    constructor ()
      ensures Valid()
      ensures endpoints == [] && logs == [] && logClients == map[] && testWsConnections == map[]
      ensures sockets == map[] && sessions == map[]
    {
      endpoints := [];
      logs := [];
      logClients := map[];
      testWsConnections := map[];
      sockets := map[];
      sessions := map[];
    }

    /** `broadcastLog`: pushes the entry to the open sockets subscribed under its owner. */
    method BroadcastLog(e: LogEntry)
      modifies this`sockets
      ensures sockets == Deliver(old(sockets), Subscribers(logClients, e.userId), LogPush(e))
    {
      sockets := SendEach(sockets, Subscribers(logClients, e.userId), LogPush(e));
    }

    /** `addLog`: the entry goes to the front of the bounded buffer, then to its
        owner's subscribers. */
    method AddLog(e: LogEntry)
      requires Valid()
      modifies this`logs, this`sockets
      ensures Valid()
      ensures logs == Unshift(old(logs), e)
      ensures sockets == Deliver(old(sockets), Subscribers(logClients, e.userId), LogPush(e))
      ensures forall v, id :: v in logClients && id in logClients[v] && v != e.userId ==>
        id in sockets && sockets[id] == old(sockets)[id]
    {
      UnshiftBounded(logs, e);
      logs := Unshift(logs, e);
      BroadcastLog(e);
      forall v, id | v in logClients && id in logClients[v] && v != e.userId
        ensures id in sockets && sockets[id] == old(sockets)[id]
      {
        BroadcastReachesOnlyOwner(logClients, sessions, old(sockets), e, v, id);
      }
    }

    /** GET /api/logs. */
    function LogsOf(userId: string): (r: seq<LogEntry>)
      reads this
      ensures forall e :: e in r <==> e in logs && e.userId == userId
    {
      OwnedByMembersAll(logs, userId);
      OwnedBy(logs, userId)
    }

    /** DELETE /api/logs: the backward `splice` loop. */
    method ClearLogs(userId: string)
      requires Valid()
      modifies this`logs
      ensures Valid()
      ensures logs == NotOwnedBy(old(logs), userId)
    {
      ghost var before := logs;
      var i := |logs|;
      assert before[i..] == [];
      while i > 0
        invariant 0 <= i <= |before|
        invariant logs == before[..i] + NotOwnedBy(before[i..], userId)
        invariant |logs| <= |before|
      {
        i := i - 1;
        assert logs[i] == before[i];
        assert before[i..] == [before[i]] + before[i + 1..];
        if logs[i].userId == userId {
          logs := logs[..i] + logs[i + 1..];
          assert logs == before[..i] + NotOwnedBy(before[i..], userId);
        } else {
          assert logs == before[..i] + NotOwnedBy(before[i..], userId);
        }
      }
      assert before[..0] == [];
    }
    /** POST /api/endpoints: stores the record `CreateEndpoint` accepts. */
    method Create(userId: string, body: EndpointBody, newId: string, now: int) returns (r: Outcome)
      requires Valid() && Fresh(endpoints, newId)
      modifies this`endpoints
      ensures Valid()
      ensures r == CreateEndpoint(old(endpoints), userId, body, newId, now)
      ensures r.Done? ==> endpoints == old(endpoints) + [r.endpoint]
      ensures !r.Done? ==> endpoints == old(endpoints)
    {
      r := CreateEndpoint(endpoints, userId, body, newId, now);
      if r.Done? {
        CreatePreservesValid(endpoints, userId, body, newId, now);
        endpoints := endpoints + [r.endpoint];
      }
    }

    /** PUT /api/endpoints/:id: the stored record is overwritten in place. */
    method Update(id: string, userId: string, body: EndpointBody) returns (r: Outcome)
      requires Valid()
      modifies this`endpoints
      ensures Valid()
      ensures r == UpdateEndpoint(old(endpoints), id, userId, body)
      ensures r.Done? ==>
        endpoints == old(endpoints)[FindOwned(old(endpoints), id, userId).value := r.endpoint]
      ensures !r.Done? ==> endpoints == old(endpoints)
    {
      r := UpdateEndpoint(endpoints, id, userId, body);
      if r.Done? {
        UpdatePreservesValid(endpoints, id, userId, body);
        endpoints := endpoints[FindOwned(endpoints, id, userId).value := r.endpoint];
      }
    }

    /** DELETE /api/endpoints/:id; `false` is the 404. */
    method Delete(id: string, userId: string) returns (deleted: bool)
      requires Valid()
      modifies this`endpoints
      ensures Valid()
      ensures deleted <==> FindOwned(old(endpoints), id, userId).Some?
      ensures deleted ==> endpoints == DeleteEndpoint(old(endpoints), id, userId).value
      ensures !deleted ==> endpoints == old(endpoints)
    {
      var r := DeleteEndpoint(endpoints, id, userId);
      deleted := r.Some?;
      if deleted {
        DeleteRemovesOnlyTarget(endpoints, id, userId);
        endpoints := r.value;
      }
    }

    /** The logging half of the `/test/` route: every request but a preflight
        adds one entry, owned as `DispatchLog` says. */
    method LogRequest(req: HttpRequest)
      requires Valid()
      modifies this`logs, this`sockets
      ensures Valid()
      ensures DispatchLog(endpoints, req).None? ==> logs == old(logs) && sockets == old(sockets)
      ensures DispatchLog(endpoints, req).Some? ==>
        var e := DispatchLog(endpoints, req).value;
        logs == Unshift(old(logs), e)
        && sockets == Deliver(old(sockets), Subscribers(logClients, e.userId), LogPush(e))
    {
      var entry := DispatchLog(endpoints, req);
      if entry.Some? {
        AddLog(entry.value);
      }
    }

    /** The `/test/` wildcard route: at most one log entry, then the reply; an
        event-stream reply also starts the `sendNext` loop, whose first chunk is
        written at once. */
    method HandleTest(req: HttpRequest, now: real) returns (reply: Reply, stream: FixedGapStream?)
      requires Valid()
      modifies this`logs, this`sockets
      ensures Valid()
      ensures reply == DispatchReply(endpoints, req)
      ensures DispatchLog(endpoints, req).None? ==> logs == old(logs) && sockets == old(sockets)
      ensures DispatchLog(endpoints, req).Some? ==>
        var e := DispatchLog(endpoints, req).value;
        logs == Unshift(old(logs), e)
        && sockets == Deliver(old(sockets), Subscribers(logClients, e.userId), LogPush(e))
      ensures stream != null <==> reply.EventStream?
      ensures stream != null ==>
        && fresh(stream) && stream.Valid() && !stream.destroyed && !stream.ended
        && stream.events == reply.events && stream.gapMs == reply.gapMs && stream.startTime == now
        && stream.written == [reply.events[0]] && stream.timer.Some?
    {
      LogRequest(req);
      reply, stream := Respond(endpoints, req, now);
    }

    /** No socket is registered anywhere under `id` yet. */
    ghost predicate Unregistered(id: SocketId)
      reads this
    {
      && id !in sessions
      && (forall u :: u in logClients ==> id !in logClients[u])
      && (forall e, c :: e in testWsConnections && c in testWsConnections[e] ==> testWsConnections[e][c] != id)
    }

    /** The `connection` handler of the WebSocket server. `requestType` is the
        `type` query parameter, `clientUserId` the cookie user of the request
        (`CookieUser` of its cookie header), `connectionId` the fresh uuid of the
        connection.
        - `type=logs`: the socket subscribes to the logs of its cookie user (or
          `guest`);
        - otherwise the first endpoint flagged WebSocket whose path is the URL's
          path takes it: registered under a fresh connection id, greeted, and
          logged for the endpoint's owner;
        - with no such endpoint the socket is closed with 4004 and nothing is
          registered. */
    method WsConnect(id: SocketId, requestType: Option<string>, pathname: string,
                     clientUserId: string, connectionId: string, ip: string, headers: string, now: int)
      requires Valid() && IsOpen(sockets, id) && Unregistered(id)
      requires forall e :: e in testWsConnections ==> connectionId !in testWsConnections[e]
      modifies this
      ensures Valid()
      ensures endpoints == old(endpoints)
      ensures requestType == Some(LOGS_TYPE) ==>
          && logClients == old(logClients)[clientUserId := Members(old(logClients), clientUserId) + {id}]
          && sessions == old(sessions)[id := Subscriber(clientUserId)]
          && testWsConnections == old(testWsConnections)
          && sockets == old(sockets) && logs == old(logs)
      ensures requestType != Some(LOGS_TYPE) && FindWebSocket(old(endpoints), pathname).None? ==>
          && sockets == old(sockets)[id := old(sockets)[id].(open := false, closeCode := Some(NOT_FOUND_CLOSE))]
          && logClients == old(logClients) && testWsConnections == old(testWsConnections)
          && sessions == old(sessions) && logs == old(logs)
      ensures requestType != Some(LOGS_TYPE) && FindWebSocket(old(endpoints), pathname).Some? ==>
          var ep := old(endpoints)[FindWebSocket(old(endpoints), pathname).value];
          var entry := WsLog(ep.userId, Connect, ep.id, connectionId, clientUserId, Some(ip), Some(headers), None, now);
          && testWsConnections == old(testWsConnections)[ep.id := Connections(old(testWsConnections), ep.id)[connectionId := id]]
          && sessions == old(sessions)[id := Business(ep.id, connectionId, ep.userId, clientUserId, ip)]
          && logClients == old(logClients)
          && logs == Unshift(old(logs), entry)
          && sockets == Deliver(Greeted(old(sockets), id, connectionId), Subscribers(logClients, ep.userId), LogPush(entry))
    {
      if requestType == Some(LOGS_TYPE) {
        Subscribe(id, clientUserId);
      } else {
        var m := FindWebSocket(endpoints, pathname);
        if m.None? {
          Reject(id);
        } else {
          Register(id, endpoints[m.value], connectionId, clientUserId, ip, headers, now);
        }
      }
    }

    /** A log subscription: the socket joins the set of its user, created if needed. */
    method Subscribe(id: SocketId, u: string)
      requires Valid() && id in sockets && Unregistered(id)
      modifies this`logClients, this`sessions
      ensures Valid()
      ensures logClients == old(logClients)[u := Members(old(logClients), u) + {id}]
      ensures sessions == old(sessions)[id := Subscriber(u)]
    {
      logClients := logClients[u := Members(logClients, u) + {id}];
      sessions := sessions[id := Subscriber(u)];
    }

    /** `ws.close(4004, ...)` for a path no WebSocket endpoint has. */
    method Reject(id: SocketId)
      requires Valid() && id in sockets
      modifies this`sockets
      ensures Valid()
      ensures sockets == old(sockets)[id := old(sockets)[id].(open := false, closeCode := Some(NOT_FOUND_CLOSE))]
    {
      sockets := sockets[id := sockets[id].(open := false, closeCode := Some(NOT_FOUND_CLOSE))];
    }

    /** A business connection to endpoint `ep`: registered, greeted, logged. */
    method Register(id: SocketId, ep: Endpoint, connectionId: string, u: string, ip: string,
                    headers: string, now: int)
      requires Valid() && IsOpen(sockets, id) && Unregistered(id)
      modifies this`testWsConnections, this`sockets, this`sessions, this`logs
      ensures Valid()
      ensures testWsConnections == old(testWsConnections)[ep.id := Connections(old(testWsConnections), ep.id)[connectionId := id]]
      ensures sessions == old(sessions)[id := Business(ep.id, connectionId, ep.userId, u, ip)]
      ensures var entry := WsLog(ep.userId, Connect, ep.id, connectionId, u, Some(ip), Some(headers), None, now);
        && logs == Unshift(old(logs), entry)
        && sockets == Deliver(Greeted(old(sockets), id, connectionId), Subscribers(logClients, ep.userId), LogPush(entry))
    {
      var conns := Connections(testWsConnections, ep.id);
      testWsConnections := testWsConnections[ep.id := conns[connectionId := id]];
      sockets := Greeted(sockets, id, connectionId);
      sessions := sessions[id := Business(ep.id, connectionId, ep.userId, u, ip)];
      AddLog(WsLog(ep.userId, Connect, ep.id, connectionId, u, Some(ip), Some(headers), None, now));
    }

    /** The `message` handler: a business connection logs the text for the
        endpoint's owner; a log subscriber has no such handler. */
    method WsMessage(id: SocketId, message: string, now: int)
      requires Valid()
      modifies this`logs, this`sockets
      ensures Valid()
      ensures id in sessions && sessions[id].Business? ==>
        var s := sessions[id];
        var entry := WsLog(s.owner, Message, s.endpointId, s.connectionId, s.clientUserId, Some(s.ip), None, Some(message), now);
        logs == Unshift(old(logs), entry)
        && sockets == Deliver(old(sockets), Subscribers(logClients, s.owner), LogPush(entry))
      ensures !(id in sessions && sessions[id].Business?) ==> logs == old(logs) && sockets == old(sockets)
    {
      if id in sessions && sessions[id].Business? {
        var s := sessions[id];
        AddLog(WsLog(s.owner, Message, s.endpointId, s.connectionId, s.clientUserId, Some(s.ip), None, Some(message), now));
      }
    }

    /** The client starts the closing handshake: the socket stops being open but
        stays registered until its `close` event. */
    method SocketClosing(id: SocketId)
      requires Valid() && id in sockets
      modifies this`sockets
      ensures Valid()
      ensures sockets == old(sockets)[id := old(sockets)[id].(open := false)]
    {
      sockets := sockets[id := sockets[id].(open := false)];
    }

    /** The `close` event: a subscriber leaves its user's set; a business
        connection removes exactly its own connection id and logs the
        disconnect for the endpoint's owner. */
    method SocketClosed(id: SocketId, now: int)
      requires Valid() && id in sockets
      modifies this
      ensures Valid()
      ensures endpoints == old(endpoints)
      ensures id !in sessions && sessions == old(sessions) - {id}
      ensures id in old(sessions) && old(sessions)[id].Subscriber? ==>
        var u := old(sessions)[id].userId;
        && logClients == (if u in old(logClients) then old(logClients)[u := old(logClients)[u] - {id}] else old(logClients))
        && testWsConnections == old(testWsConnections) && logs == old(logs)
        && sockets == old(sockets)[id := old(sockets)[id].(open := false)]
      ensures id in old(sessions) && old(sessions)[id].Business? ==>
        var s := old(sessions)[id];
        var entry := WsLog(s.owner, Disconnect, s.endpointId, s.connectionId, s.clientUserId, None, None, None, now);
        && testWsConnections == (if s.endpointId in old(testWsConnections)
             then old(testWsConnections)[s.endpointId := old(testWsConnections)[s.endpointId] - {s.connectionId}]
             else old(testWsConnections))
        && logClients == old(logClients)
        && logs == Unshift(old(logs), entry)
        && sockets == Deliver(old(sockets)[id := old(sockets)[id].(open := false)],
                              Subscribers(logClients, s.owner), LogPush(entry))
      ensures id !in old(sessions) ==>
        && logClients == old(logClients) && testWsConnections == old(testWsConnections)
        && logs == old(logs) && sockets == old(sockets)[id := old(sockets)[id].(open := false)]
    {
      sockets := sockets[id := sockets[id].(open := false)];
      if id in sessions {
        var s := sessions[id];
        sessions := sessions - {id};
        match s
        case Subscriber(u) =>
          if u in logClients {
            logClients := logClients[u := logClients[u] - {id}];
          }
        case Business(endpointId, connectionId, owner, clientUserId, _) =>
          if endpointId in testWsConnections {
            testWsConnections := testWsConnections[endpointId := testWsConnections[endpointId] - {connectionId}];
          }
          AddLog(WsLog(owner, Disconnect, endpointId, connectionId, clientUserId, None, None, None, now));
      }
    }

    /** The `forEach` over an endpoint's connections: every open one gets the
        message, and `sent` counts them. */
    method RelayToAll(conns: map<string, SocketId>, message: string) returns (sent: nat)
      requires Injective(conns)
      modifies this`sockets
      ensures sent == |OpenAmong(conns, old(sockets), conns.Keys)|
      ensures sockets == Deliver(old(sockets), SocketsOf(conns, conns.Keys), Relay(message))
    {
      sockets, sent := SendCounting(sockets, conns, Relay(message));
    }

    /** POST /api/ws/send. `connectionId == ""` stands for a missing or falsy id.
        - 404 unless the caller owns the endpoint and it has a connection map;
        - with a connection id: 200 and one delivery when that connection is
          open, 404 otherwise;
        - without: 200, delivered to every open connection of the endpoint,
          `sent` being their number. */
    method WsSend(userId: string, endpointId: string, connectionId: string, message: string)
      returns (status: nat, sent: nat)
      requires Valid()
      modifies this`sockets
      ensures Valid()
      ensures status == 200 || status == 404
      ensures status == 404 ==> sent == 0 && sockets == old(sockets)
      ensures FindOwned(endpoints, endpointId, userId).None? || endpointId !in testWsConnections ==> status == 404
      ensures FindOwned(endpoints, endpointId, userId).Some? && endpointId in testWsConnections ==>
        var conns := testWsConnections[endpointId];
        && (connectionId != "" ==>
              && (status == 200 <==> connectionId in conns && IsOpen(old(sockets), conns[connectionId]))
              && (status == 200 ==>
                    sent == 1 && sockets == Deliver(old(sockets), {conns[connectionId]}, Relay(message))))
        && (connectionId == "" ==>
              && status == 200
              && sent == |OpenAmong(conns, old(sockets), conns.Keys)|
              && sockets == Deliver(old(sockets), SocketsOf(conns, conns.Keys), Relay(message)))
    {
      sent := 0;
      if FindOwned(endpoints, endpointId, userId).None? || endpointId !in testWsConnections {
        status := 404;
        return;
      }
      var conns := testWsConnections[endpointId];
      if connectionId != "" {
        if connectionId in conns && IsOpen(sockets, conns[connectionId]) {
          sockets := Deliver(sockets, {conns[connectionId]}, Relay(message));
          status, sent := 200, 1;
        } else {
          status := 404;
        }
        return;
      }
      sent := RelayToAll(conns, message);
      status := 200;
    }
  }

  /** The connection map of an endpoint, an absent one being empty. */
  function Connections(t: map<string, map<string, SocketId>>, endpointId: string): map<string, SocketId> {
    if endpointId in t then t[endpointId] else map[]
  }

  /** The greeting frame sent to a newly registered business connection. */
  function Greeted(sockets: map<SocketId, Socket>, id: SocketId, connectionId: string): map<SocketId, Socket>
    requires id in sockets
  {
    sockets[id := sockets[id].(outbox := sockets[id].outbox + [Connected(connectionId)])]
  }

  /** One more connection adds its socket, which no other connection has. */
  lemma SocketsOfStep(conns: map<string, SocketId>, done: set<string>, c: string)
    requires Injective(conns) && c in conns && c !in done
    ensures conns[c] !in SocketsOf(conns, done)
    ensures SocketsOf(conns, done + {c}) == SocketsOf(conns, done) + {conns[c]}
  {
  }

  /** One more connection adds one to the open count exactly when its socket is open. */
  lemma OpenAmongStep(conns: map<string, SocketId>, sockets: map<SocketId, Socket>, done: set<string>, c: string)
    requires c in conns && c !in done
    ensures OpenAmong(conns, sockets, done + {c}) ==
      OpenAmong(conns, sockets, done) + (if IsOpen(sockets, conns[c]) then {c} else {})
    ensures |OpenAmong(conns, sockets, done + {c})| ==
      |OpenAmong(conns, sockets, done)| + (if IsOpen(sockets, conns[c]) then 1 else 0)
  {
    assert c !in OpenAmong(conns, sockets, done);
  }

  /** One more connection in the relay loop: its socket is new among the targets,
      and it adds one to the count exactly when its socket is open. */
  lemma SendStep(conns: map<string, SocketId>, sockets: map<SocketId, Socket>, done: set<string>, c: string, f: Frame,
                 after: map<SocketId, Socket>, sent: nat)
    requires Injective(conns) && c in conns && c !in done
    requires after == Deliver(sockets, SocketsOf(conns, done), f)
    requires sent == |OpenAmong(conns, sockets, done)|
    ensures Push(after, conns[c], f) == Deliver(sockets, SocketsOf(conns, done + {c}), f)
    ensures sent + (if IsOpen(after, conns[c]) then 1 else 0) == |OpenAmong(conns, sockets, done + {c})|
  {
    SocketsOfStep(conns, done, c);
    OpenAmongStep(conns, sockets, done, c);
    DeliverStep(sockets, SocketsOf(conns, done), conns[c], f);
    DeliverKeepsOpen(sockets, SocketsOf(conns, done), f, conns[c]);
  }

  /** A business connection that opens and then closes leaves its endpoint's
      connection map as it found it, the connection id being fresh. */
  lemma ConnectThenCloseRestores(t: map<string, map<string, SocketId>>, e: string, c: string, id: SocketId)
    requires c !in Connections(t, e)
    ensures var t' := t[e := Connections(t, e)[c := id]];
      e in t' && t'[e] - {c} == Connections(t, e)
  {
  }

  /** Likewise for a log subscriber and its user's set. */
  lemma SubscribeThenCloseRestores(logClients: map<string, set<SocketId>>, u: string, id: SocketId)
    requires id !in Members(logClients, u)
    ensures var l := logClients[u := Members(logClients, u) + {id}];
      u in l && l[u] - {id} == Members(logClients, u)
  {
  }
}
