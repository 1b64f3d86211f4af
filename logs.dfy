/** The in-memory request log of server.js: a buffer of at most 500 entries,
    newest first, read and cleared per owner. */
module Logs {
  import opened Wrappers

  const MAX_LOGS: nat := 500

  datatype WsAction = Connect | Message | Disconnect

  /** One traffic record. `userId` is the owner whose subscribers see it; the
      request's headers, query and body are kept as one opaque string. */
  datatype LogEntry =
    | HttpLog(userId: string, matched: bool, endpointId: Option<string>, httpMethod: string,
              path: string, ip: string, request: string, timestamp: int)
    | WsLog(userId: string, action: WsAction, wsEndpointId: string, connectionId: string,
            clientUserId: string, wsIp: Option<string>, headers: Option<string>,
            message: Option<string>, timestamp: int)

  /** `requestLogs.unshift(log)` followed by one `pop()` when the buffer has grown
      past the bound. */
  function Unshift(logs: seq<LogEntry>, e: LogEntry): (r: seq<LogEntry>)
    ensures |r| > 0 && r[0] == e
    ensures |logs| < MAX_LOGS ==> r == [e] + logs
    ensures |logs| >= MAX_LOGS ==> r == [e] + logs[..|logs| - 1]
  {
    var grown := [e] + logs;
    if |grown| > MAX_LOGS then grown[..|grown| - 1] else grown
  }

  /** A buffer within the bound stays within it. */
  lemma UnshiftBounded(logs: seq<LogEntry>, e: LogEntry)
    requires |logs| <= MAX_LOGS
    ensures |Unshift(logs, e)| <= MAX_LOGS
    ensures |Unshift(logs, e)| == Min(|logs| + 1, MAX_LOGS)
  {
  }

  function Min(a: int, b: int): int {
    if a <= b then a else b
  }

  /** Appending `es` one by one, oldest first. */
  function UnshiftAll(logs: seq<LogEntry>, es: seq<LogEntry>): seq<LogEntry> {
    if es == [] then logs else Unshift(UnshiftAll(logs, es[..|es| - 1]), es[|es| - 1])
  }

  function Reverse<T>(s: seq<T>): (r: seq<T>)
    ensures |r| == |s|
    ensures forall i :: 0 <= i < |s| ==> r[i] == s[|s| - 1 - i]
  {
    if s == [] then [] else [s[|s| - 1]] + Reverse(s[..|s| - 1])
  }

  /** After any number of appends the buffer holds the newest entries, newest
      first, followed by as many of the previous ones as still fit. */
  lemma {:induction false} UnshiftAllKeepsNewest(logs: seq<LogEntry>, es: seq<LogEntry>)
    requires |logs| <= MAX_LOGS
    ensures UnshiftAll(logs, es) == (Reverse(es) + logs)[..Min(MAX_LOGS, |es| + |logs|)]
  {
    if es == [] {
      assert Reverse(es) + logs == logs;
    } else {
      var pre, last := es[..|es| - 1], es[|es| - 1];
      UnshiftAllKeepsNewest(logs, pre);
      var k := Min(MAX_LOGS, |pre| + |logs|);
      var before := (Reverse(pre) + logs)[..k];
      assert Reverse(es) == [last] + Reverse(pre);
      assert Reverse(es) + logs == [last] + (Reverse(pre) + logs);
      if k < MAX_LOGS {
        assert Unshift(before, last) == [last] + before;
      } else {
        assert Unshift(before, last) == [last] + before[..k - 1];
      }
    }
  }

  /** 501 appends keep exactly the 500 most recent entries, most recent first. */
  lemma BufferKeepsNewest500(logs: seq<LogEntry>, es: seq<LogEntry>)
    requires |logs| <= MAX_LOGS && |es| >= MAX_LOGS
    ensures |UnshiftAll(logs, es)| == MAX_LOGS
    ensures forall i :: 0 <= i < MAX_LOGS ==> UnshiftAll(logs, es)[i] == es[|es| - 1 - i]
  {
    UnshiftAllKeepsNewest(logs, es);
  }

  /** The entry alone if it is the owner's, else nothing. */
  function IfOwned(e: LogEntry, userId: string): seq<LogEntry> {
    if e.userId == userId then [e] else []
  }

  /** The entry alone if it is not the owner's, else nothing. */
  function IfNotOwned(e: LogEntry, userId: string): seq<LogEntry> {
    if e.userId != userId then [e] else []
  }

  /** GET /api/logs: `requestLogs.filter(log => log.userId === userId)`. */
  function OwnedBy(logs: seq<LogEntry>, userId: string): seq<LogEntry> {
    if logs == [] then [] else IfOwned(logs[0], userId) + OwnedBy(logs[1..], userId)
  }

  /** The entries left after DELETE /api/logs: all entries of other owners. */
  function NotOwnedBy(logs: seq<LogEntry>, userId: string): seq<LogEntry> {
    if logs == [] then [] else IfNotOwned(logs[0], userId) + NotOwnedBy(logs[1..], userId)
  }

  /** The owner filter returns exactly the owner's entries. */
  lemma {:induction false} OwnedByMembers(logs: seq<LogEntry>, userId: string, e: LogEntry)
    ensures e in OwnedBy(logs, userId) <==> e in logs && e.userId == userId
  {
    if logs != [] {
      OwnedByMembers(logs[1..], userId, e);
      assert logs == [logs[0]] + logs[1..];
    }
  }

  /** Every entry of the owner filter, in both directions. */
  lemma OwnedByMembersAll(logs: seq<LogEntry>, userId: string)
    ensures forall e :: e in OwnedBy(logs, userId) <==> e in logs && e.userId == userId
  {
    forall e ensures e in OwnedBy(logs, userId) <==> e in logs && e.userId == userId {
      OwnedByMembers(logs, userId, e);
    }
  }

  /** The owner filter keeps buffer order: it works entry by entry. */
  lemma {:induction false} OwnedByAppend(a: seq<LogEntry>, b: seq<LogEntry>, userId: string)
    ensures OwnedBy(a + b, userId) == OwnedBy(a, userId) + OwnedBy(b, userId)
  {
    if a == [] {
      assert a + b == b;
    } else {
      assert (a + b)[0] == a[0] && (a + b)[1..] == a[1..] + b;
      OwnedByAppend(a[1..], b, userId);
    }
  }

  /** A freshly appended entry is the first one its owner reads back. */
  lemma {:induction false} OwnedByAfterUnshift(logs: seq<LogEntry>, e: LogEntry)
    ensures OwnedBy(Unshift(logs, e), e.userId)[0] == e
  {
    var r := Unshift(logs, e);
    assert r == [e] + r[1..];
    OwnedByAppend([e], r[1..], e.userId);
  }

  /** Clearing removes every entry of the owner... */
  lemma {:induction false} NotOwnedByClears(logs: seq<LogEntry>, userId: string)
    ensures OwnedBy(NotOwnedBy(logs, userId), userId) == []
  {
    if logs != [] {
      NotOwnedByClears(logs[1..], userId);
      var head := IfNotOwned(logs[0], userId);
      OwnedByAppend(head, NotOwnedBy(logs[1..], userId), userId);
    }
  }

  /** ...and leaves every other owner's entries as they were, in order. */
  lemma {:induction false} NotOwnedByKeepsOthers(logs: seq<LogEntry>, userId: string, other: string)
    requires other != userId
    ensures OwnedBy(NotOwnedBy(logs, userId), other) == OwnedBy(logs, other)
  {
    if logs != [] {
      NotOwnedByKeepsOthers(logs[1..], userId, other);
      var head := IfNotOwned(logs[0], userId);
      OwnedByAppend(head, NotOwnedBy(logs[1..], userId), other);
    }
  }

  lemma {:induction false} NotOwnedByAppend(a: seq<LogEntry>, b: seq<LogEntry>, userId: string)
    ensures NotOwnedBy(a + b, userId) == NotOwnedBy(a, userId) + NotOwnedBy(b, userId)
  {
    if a == [] {
      assert a + b == b;
    } else {
      assert (a + b)[0] == a[0] && (a + b)[1..] == a[1..] + b;
      NotOwnedByAppend(a[1..], b, userId);
    }
  }
}
