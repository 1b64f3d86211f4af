/** The two ways server.js paces an event stream.

    `EvenlyPacedStream` models `streamSseEvents`: it spreads the events evenly over
    the configured duration, aiming event `i` at `startTime + round(i * totalMs /
    max(1, n - 1))`, and can be cancelled. `FixedGapStream` models the `sendNext`
    loop that the dispatcher of the `/test/` wildcard route actually runs: a fixed gap of
    `duration / n` milliseconds (30 ms when the duration is zero) after every write,
    and `res.end()` one gap after the last write, or as soon as the request closes.

    Timers are explicit: `timer` holds the due time of the pending callback and the
    event loop calls `Fire` with the current time. */
module SseStream {
  import opened Wrappers
  import opened SseEvents

  /** `Math.round(i * totalMs / denom)` for non-negative operands, in exact
      arithmetic: the integer nearest to the quotient, halves rounded up. */
  function TargetOffset(i: nat, totalMs: nat, denom: nat): (r: nat)
    requires denom > 0
    ensures 2 * denom * r <= 2 * i * totalMs + denom < 2 * denom * r + 2 * denom
  {
    (2 * i * totalMs + denom) / (2 * denom)
  }

  lemma MulMonotone(a: nat, b: nat, c: nat)
    requires a <= b
    ensures a * c <= b * c
  {
  }

  lemma MulCancel(a: int, b: int, c: int)
    requires c > 0 && a * c < b * c
    ensures a < b
  {
  }

  /** Later events are never aimed earlier than earlier ones. */
  lemma TargetOffsetMonotone(i: nat, j: nat, totalMs: nat, denom: nat)
    requires denom > 0 && i <= j
    ensures TargetOffset(i, totalMs, denom) <= TargetOffset(j, totalMs, denom)
  {
    var ri, rj := TargetOffset(i, totalMs, denom), TargetOffset(j, totalMs, denom);
    MulMonotone(i, j, totalMs);
    MulCancel(ri, rj + 1, 2 * denom);
  }

  /** The first event is aimed at the start. */
  lemma TargetOffsetFirst(totalMs: nat, denom: nat)
    requires denom > 0
    ensures TargetOffset(0, totalMs, denom) == 0
  {
  }

  /** With at least two events, the last one is aimed exactly at the end of the
      configured duration. */
  lemma TargetOffsetLast(totalMs: nat, n: nat)
    requires n >= 2
    ensures TargetOffset(n - 1, totalMs, Max(1, n - 1)) == totalMs
  {
    var d := n - 1;
    var r := TargetOffset(d, totalMs, d);
    assert 2 * d * r <= 2 * d * totalMs + d < 2 * d * r + 2 * d;
    MulCancel(r, totalMs + 1, 2 * d);
    MulCancel(totalMs, r + 1, 2 * d);
  }

  /** No event is aimed past the end of the duration. */
  lemma TargetOffsetBounded(i: nat, totalMs: nat, n: nat)
    requires i <= Max(1, n - 1)
    ensures TargetOffset(i, totalMs, Max(1, n - 1)) <= totalMs
  {
    var d := Max(1, n - 1);
    TargetOffsetMonotone(i, d, totalMs, d);
    if n >= 2 {
      TargetOffsetLast(totalMs, n);
    } else {
      assert TargetOffset(d, totalMs, d) == (2 * totalMs + 1) / 2;
    }
  }

  /** `streamSseEvents(req, res, events, durationSeconds)`. */
  class EvenlyPacedStream {
    const events: seq<string>
    const totalMs: nat
    const startTime: int
    const denom: nat

    // closure state of streamSseEvents
    var index: nat
    var timer: Option<int>     // due time of the pending setTimeout, if any
    var closed: bool

    // the response as seen by the client
    var written: seq<string>   // chunks passed to res.write, in order
    var endCalls: nat          // how many times res.end ran
    var destroyed: bool        // res.destroyed
    ghost var writtenAt: seq<int>  // the time of each write

    /** The state every step keeps: exactly the first `index` events have been
        written, in order, and the response was ended at most once, only after all
        of them. */
    ghost predicate Core()
      reads this
    {
      && denom == Max(1, |events| - 1)
      && index <= |events|
      && written == events[..index]
      && |writtenAt| == index
      && endCalls <= 1
      && (endCalls == 1 ==> index == |events| && closed)
    }

    /** Between callbacks: a timer is pending exactly while the stream is open, and
        only once the first event is out and some event is still to come. */
    ghost predicate Valid()
      reads this
    {
      && Core()
      && (closed <==> timer.None?)
      && (timer.Some? ==> 0 < index < |events|)
    }

    /** The delay `writeNext` passes to setTimeout before writing event `i`. */
    function Delay(i: nat, now: int): (d: int)
      reads this
      requires denom > 0
      ensures d >= 0 && now + d >= startTime + TargetOffset(i, totalMs, denom)
    {
      Max(0, startTime + TargetOffset(i, totalMs, denom) - now)
    }

    /** Starts the stream and writes the first event synchronously. */
    constructor (events: seq<string>, duration: Seconds, now: int, writeThrows: bool)
      ensures Valid()
      ensures this.events == events && totalMs == NormalizeSseDuration(duration)
      ensures startTime == now && !destroyed
      ensures |events| == 0 ==> written == [] && endCalls == 1 && closed
      ensures |events| > 0 && writeThrows ==> written == [] && endCalls == 0 && closed
      ensures |events| > 0 && !writeThrows ==>
        && written == [events[0]] && writtenAt == [now]
        && (|events| == 1 ==> endCalls == 1 && closed)
        && (|events| > 1 ==> timer == Some(now + Delay(1, now)))
    {
      this.events := events;
      totalMs := NormalizeSseDuration(duration);
      startTime := now;
      denom := Max(1, |events| - 1);
      index := 0;
      timer := None;
      closed := false;
      written := [];
      endCalls := 0;
      destroyed := false;
      writtenAt := [];
      new;
      WriteNext(now, writeThrows);
    }

    /** `cleanup`: marks the stream closed and clears the pending timer. */
    method Cleanup()
      modifies this
      ensures closed && timer.None?
      ensures index == old(index) && written == old(written) && writtenAt == old(writtenAt)
      ensures endCalls == old(endCalls) && destroyed == old(destroyed)
    {
      closed := true;
      timer := None;
    }

    /** `writeNext`, run with no timer pending and the stream not yet closed.
        `writeThrows` says whether `res.write` throws. */
    method WriteNext(now: int, writeThrows: bool)
      requires Core() && !closed && timer.None?
      modifies this
      ensures Valid()
      ensures destroyed == old(destroyed)
      ensures old(destroyed) ==>
        closed && written == old(written) && writtenAt == old(writtenAt) && endCalls == old(endCalls)
      ensures !old(destroyed) && old(index) == |events| ==>
        closed && written == old(written) && writtenAt == old(writtenAt) && endCalls == 1
      ensures !old(destroyed) && old(index) < |events| && writeThrows ==>
        closed && written == old(written) && writtenAt == old(writtenAt) && endCalls == 0
      ensures !old(destroyed) && old(index) < |events| && !writeThrows ==>
        && index == old(index) + 1
        && written == old(written) + [events[old(index)]]
        && writtenAt == old(writtenAt) + [now]
        && (index == |events| ==> closed && endCalls == 1)
        && (index < |events| ==> timer == Some(now + Delay(index, now)))
    {
      if closed || endCalls > 0 || destroyed {
        Cleanup();
        return;
      }
      if index >= |events| {
        Cleanup();
        endCalls := endCalls + 1;
        return;
      }
      if writeThrows {
        Cleanup();
        return;
      }
      written := written + [events[index]];
      writtenAt := writtenAt + [now];
      index := index + 1;
      if index >= |events| {
        Cleanup();
        endCalls := endCalls + 1;
        return;
      }
      timer := Some(now + Delay(index, now));
    }

    /** The pending setTimeout callback runs at time `now`. */
    method Fire(now: int, writeThrows: bool)
      requires Valid() && timer.Some?
      modifies this
      ensures Valid()
      ensures destroyed == old(destroyed)
      ensures old(destroyed) ==>
        closed && written == old(written) && writtenAt == old(writtenAt) && endCalls == old(endCalls)
      ensures !old(destroyed) && writeThrows ==>
        closed && written == old(written) && writtenAt == old(writtenAt) && endCalls == 0
      ensures !old(destroyed) && !writeThrows ==>
        && index == old(index) + 1
        && written == old(written) + [events[old(index)]]
        && writtenAt == old(writtenAt) + [now]
        && (index == |events| ==> closed && endCalls == 1)
        && (index < |events| ==> timer == Some(now + Delay(index, now)))
    {
      timer := None;
      WriteNext(now, writeThrows);
    }

    /** `req.on('close')`, `req.on('error')` and `res.on('error')`: cleanup. Once
        closed, nothing is written or ended again. */
    method Cancel()
      requires Valid()
      modifies this
      ensures Valid() && closed
      ensures index == old(index) && written == old(written) && writtenAt == old(writtenAt)
      ensures endCalls == old(endCalls) && destroyed == old(destroyed)
    {
      Cleanup();
    }

    /** The transport is destroyed; the next callback notices and cleans up. */
    method Destroy()
      requires Valid()
      modifies this`destroyed
      ensures Valid() && destroyed
    {
      destroyed := true;
    }
  }

  /** A stream that is never cancelled and whose timers fire on time writes every
      event at its target offset and then ends, exactly once; with two or more
      events it ends exactly `totalMs` after the start. */
  method RunEvenlyPaced(s: EvenlyPacedStream)
    requires s.Valid() && !s.destroyed && (s.closed ==> s.endCalls == 1)
    requires forall i :: 0 <= i < |s.writtenAt| ==>
      s.writtenAt[i] == s.startTime + TargetOffset(i, s.totalMs, s.denom)
    requires s.timer.Some? ==> s.timer.value == s.startTime + TargetOffset(s.index, s.totalMs, s.denom)
    modifies s
    ensures s.Valid() && s.written == s.events && s.endCalls == 1 && s.closed
    ensures |s.writtenAt| == |s.events|
    ensures forall i :: 0 <= i < |s.events| ==>
      s.writtenAt[i] == s.startTime + TargetOffset(i, s.totalMs, s.denom)
    ensures |s.events| >= 2 ==> s.writtenAt[|s.events| - 1] == s.startTime + s.totalMs
  {
    while s.timer.Some?
      invariant s.Valid() && !s.destroyed && (s.closed ==> s.endCalls == 1)
      invariant forall i :: 0 <= i < |s.writtenAt| ==>
        s.writtenAt[i] == s.startTime + TargetOffset(i, s.totalMs, s.denom)
      invariant s.timer.Some? ==> s.timer.value == s.startTime + TargetOffset(s.index, s.totalMs, s.denom)
      decreases |s.events| - s.index
    {
      var now := s.timer.value;
      s.Fire(now, false);
      if s.timer.Some? {
        TargetOffsetMonotone(s.index - 1, s.index, s.totalMs, s.denom);
      }
    }
    if |s.events| >= 2 {
      TargetOffsetLast(s.totalMs, |s.events|);
    }
  }

  /** The gap the dispatcher waits after each write: the duration divided by the
      number of events, or 30 ms when no duration is configured. */
  function FixedGap(durationMs: nat, n: nat): (gap: real)
    requires n > 0
    ensures gap > 0.0
    ensures durationMs == 0 ==> gap == 30.0
  {
    if durationMs > 0 then (durationMs as real) / (n as real) else 30.0
  }

  /** With a duration configured, the `n` gaps span exactly that duration, so the
      stream ends one gap after its last write, at the configured duration. */
  lemma FixedGapSpansDuration(durationMs: nat, n: nat)
    requires n > 0 && durationMs > 0
    ensures FixedGap(durationMs, n) * (n as real) == durationMs as real
  {
  }

  /** The `sendNext` loop of the dispatcher of the `/test/` wildcard route (server.js:818-840). */
  class FixedGapStream {
    const events: seq<string>
    const gapMs: real
    const startTime: real

    var index: nat
    var timer: Option<real>    // due time of the pending setTimeout, if any
    var written: seq<string>   // chunks passed to res.write, in order
    ghost var writtenAt: seq<real>
    var ended: bool            // res.writableEnded
    var destroyed: bool        // res.destroyed
    ghost var completed: bool  // the loop itself called res.end
    ghost var completedAt: real

    ghost predicate Valid()
      reads this
    {
      && index <= |events|
      && written == events[..index]
      && |writtenAt| == index
      && (completed ==> ended && index == |events| && timer.None?)
      && (timer.None? ==> ended || destroyed)
    }

    /** Sets the stream up and runs the first `sendNext` synchronously. */
    constructor (events: seq<string>, gapMs: real, now: real)
      ensures Valid()
      ensures this.events == events && this.gapMs == gapMs && startTime == now
      ensures !destroyed
      ensures |events| > 0 ==>
        written == [events[0]] && writtenAt == [now] && timer == Some(now + gapMs) && !ended
      ensures |events| == 0 ==> written == [] && ended && completed && completedAt == now
    {
      this.events := events;
      this.gapMs := gapMs;
      startTime := now;
      index := 0;
      timer := None;
      written := [];
      writtenAt := [];
      ended := false;
      destroyed := false;
      completed := false;
      completedAt := now;
      new;
      SendNext(now);
    }

    /** `sendNext`, with no timer pending. */
    method SendNext(now: real)
      requires timer.None?
      requires index <= |events| && written == events[..index] && |writtenAt| == index
      requires completed ==> ended && index == |events|
      modifies this
      ensures Valid()
      ensures destroyed == old(destroyed)
      ensures old(destroyed) || old(ended) ==>
        written == old(written) && writtenAt == old(writtenAt) && ended == old(ended) && completed == old(completed) && timer.None?
      ensures !old(destroyed) && !old(ended) && old(index) < |events| ==>
        && index == old(index) + 1
        && written == old(written) + [events[old(index)]]
        && writtenAt == old(writtenAt) + [now]
        && timer == Some(now + gapMs) && !ended
      ensures !old(destroyed) && !old(ended) && old(index) == |events| ==>
        written == old(written) && writtenAt == old(writtenAt) && ended && completed && completedAt == now
    {
      if destroyed || ended {
        return;
      }
      if index < |events| {
        written := written + [events[index]];
        writtenAt := writtenAt + [now];
        index := index + 1;
        timer := Some(now + gapMs);
      } else {
        ended := true;
        completed := true;
        completedAt := now;
      }
    }

    /** The pending setTimeout callback runs at time `now`. */
    method Fire(now: real)
      requires Valid() && timer.Some?
      modifies this
      ensures Valid()
      ensures destroyed == old(destroyed)
      ensures old(destroyed) || old(ended) ==>
        written == old(written) && writtenAt == old(writtenAt) && ended == old(ended) && timer.None?
      ensures !old(destroyed) && !old(ended) && old(index) < |events| ==>
        && index == old(index) + 1
        && written == old(written) + [events[old(index)]]
        && writtenAt == old(writtenAt) + [now]
        && timer == Some(now + gapMs) && !ended
      ensures !old(destroyed) && !old(ended) && old(index) == |events| ==>
        written == old(written) && writtenAt == old(writtenAt) && ended && completed && completedAt == now
    {
      timer := None;
      SendNext(now);
    }

    /** `req.on('close', () => res.end())`: the response is ended at once; a
        pending callback still runs later but writes nothing. */
    method RequestClosed()
      requires Valid()
      modifies this`ended
      ensures Valid() && ended
    {
      ended := true;
    }

    /** The transport is destroyed; later callbacks write nothing. */
    method Destroy()
      requires Valid()
      modifies this`destroyed
      ensures Valid() && destroyed
    {
      destroyed := true;
    }
  }

  /** A dispatcher stream that is never closed and whose timers fire on time
      writes event `i` at `startTime + i * gap` and ends one gap after the last
      event, that is `n * gap` after the start. */
  method RunFixedGap(s: FixedGapStream)
    requires s.Valid() && !s.destroyed && !s.ended && s.timer.Some?
    requires forall i :: 0 <= i < |s.writtenAt| ==> s.writtenAt[i] == s.startTime + (i as real) * s.gapMs
    requires s.timer.value == s.startTime + (s.index as real) * s.gapMs
    modifies s
    ensures s.Valid() && s.written == s.events && s.completed
    ensures |s.writtenAt| == |s.events|
    ensures forall i :: 0 <= i < |s.events| ==> s.writtenAt[i] == s.startTime + (i as real) * s.gapMs
    ensures s.completedAt == s.startTime + (|s.events| as real) * s.gapMs
  {
    while !s.ended
      invariant s.Valid() && !s.destroyed
      invariant !s.ended ==> s.timer.Some? && s.timer.value == s.startTime + (s.index as real) * s.gapMs
      invariant forall i :: 0 <= i < |s.writtenAt| ==> s.writtenAt[i] == s.startTime + (i as real) * s.gapMs
      invariant s.ended ==> s.completed && s.completedAt == s.startTime + (|s.events| as real) * s.gapMs
      decreases |s.events| - s.index, if s.ended then 0 else 1
    {
      ghost var before := s.writtenAt;
      var now := s.timer.value;
      s.Fire(now);
      assert forall i :: 0 <= i < |before| ==> s.writtenAt[i] == before[i];
    }
  }
}
