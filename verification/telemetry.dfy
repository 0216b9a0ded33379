/**
 The bounded telemetry queue (internal/telemetry/telemetry.go): critical events are admitted once and
 accounted once, diagnostics give way.
 */
module Telemetry {

  /** Usage events are critical; diagnostics carry the request detail that the Service attaches itself. */
  datatype Event = Critical(id: nat) | Diagnostic(id: nat)

  function Criticals(queue: seq<Event>): seq<Event> {
    if queue == [] then []
    else Criticals(queue[..|queue| - 1]) + (if queue[|queue| - 1].Critical? then [queue[|queue| - 1]] else [])
  }

  lemma CriticalsSnoc(queue: seq<Event>, event: Event)
    ensures Criticals(queue + [event]) == Criticals(queue) + (if event.Critical? then [event] else [])
  {
    assert (queue + [event])[..|queue|] == queue;
  }

  lemma {:induction false} CriticalsJoin(a: seq<Event>, b: seq<Event>)
    ensures Criticals(a + b) == Criticals(a) + Criticals(b)
    decreases |b|
  {
    if b == [] {
      assert a + b == a;
    } else {
      var front, last := b[..|b| - 1], b[|b| - 1];
      CriticalsJoin(a, front);
      CriticalsSnoc(a + front, last);
      assert a + b == a + front + [last];
    }
  }

  predicate HasDiagnostic(queue: seq<Event>) {
    exists i :: 0 <= i < |queue| && queue[i].Diagnostic?
  }

  /** The queue without its oldest diagnostic. */
  function Evicted(queue: seq<Event>): (rest: seq<Event>)
    ensures if HasDiagnostic(queue) then |rest| == |queue| - 1 else rest == queue
  {
    if queue == [] then []
    else if queue[0].Diagnostic? then queue[1..]
    else
      assert HasDiagnostic(queue) ==> HasDiagnostic(queue[1..]) by {
        if i :| 0 <= i < |queue| && queue[i].Diagnostic? { assert queue[1..][i - 1].Diagnostic?; }
      }
      assert HasDiagnostic(queue[1..]) ==> HasDiagnostic(queue) by {
        if i :| 0 <= i < |queue[1..]| && queue[1..][i].Diagnostic? { assert queue[i + 1].Diagnostic?; }
      }
      [queue[0]] + Evicted(queue[1..])
  }

  lemma {:induction false} EvictedAt(queue: seq<Event>, i: nat)
    requires i < |queue| && queue[i].Diagnostic? && forall k :: 0 <= k < i ==> queue[k].Critical?
    ensures Evicted(queue) == queue[..i] + queue[i + 1..]
  {
    if i > 0 {
      EvictedAt(queue[1..], i - 1);
      assert [queue[0]] + (queue[1..][..i - 1] + queue[1..][i..]) == queue[..i] + queue[i + 1..];
    }
  }

  lemma CriticalsWithout(before: seq<Event>, event: Event, after: seq<Event>)
    requires event.Diagnostic?
    ensures Criticals(before + [event] + after) == Criticals(before + after)
  {
    CriticalsSnoc(before, event);
    CriticalsJoin(before + [event], after);
    CriticalsJoin(before, after);
  }

  /** Eviction leaves every critical event, in order. */
  lemma EvictionKeepsCriticals(queue: seq<Event>)
    ensures Criticals(Evicted(queue)) == Criticals(queue)
  {
    if HasDiagnostic(queue) {
      var i := OldestDiagnostic(queue);
      EvictedAt(queue, i);
      assert queue == queue[..i] + [queue[i]] + queue[i + 1..];
      CriticalsWithout(queue[..i], queue[i], queue[i + 1..]);
    }
  }

  lemma {:induction false} OldestDiagnostic(queue: seq<Event>) returns (i: nat)
    requires HasDiagnostic(queue)
    ensures i < |queue| && queue[i].Diagnostic? && forall k :: 0 <= k < i ==> queue[k].Critical?
  {
    if queue[0].Diagnostic? {
      return 0;
    }
    var j :| 0 <= j < |queue| && queue[j].Diagnostic?;
    assert queue[1..][j - 1].Diagnostic?;
    i := OldestDiagnostic(queue[1..]);
    i := i + 1;
  }

  class Service {
    const maxRecords: nat
    const hasSink: bool
    var queue: seq<Event>
    var closed: bool
    var written: nat
    var lost: nat
    var degraded: bool

    constructor (maxRecords: nat, hasSink: bool)
      requires maxRecords > 0
      ensures this.maxRecords == maxRecords && this.hasSink == hasSink
      ensures queue == [] && !closed && written == 0 && lost == 0 && !degraded
    {
      this.maxRecords, this.hasSink := maxRecords, hasSink;
      queue, closed, written, lost, degraded := [], false, 0, 0, false;
    }

    /** enqueue: refused when the queue is full or the service closed. */
    method Enqueue(event: Event) returns (ok: bool)
      modifies this`queue
      ensures ok <==> !closed && |old(queue)| < maxRecords
      ensures queue == if ok then old(queue) + [event] else old(queue)
    {
      ok := !closed && |queue| < maxRecords;
      if ok {
        queue := queue + [event];
      }
    }

    /** evictDiagnostic: the scan for the oldest diagnostic. */
    method EvictDiagnostic() returns (ok: bool)
      modifies this`queue
      ensures ok <==> HasDiagnostic(old(queue))
      ensures queue == Evicted(old(queue)) && Criticals(queue) == Criticals(old(queue))
    {
      EvictionKeepsCriticals(queue);
      var i := 0;
      while i < |queue|
        invariant 0 <= i <= |queue| && queue == old(queue)
        invariant forall k :: 0 <= k < i ==> queue[k].Critical?
      {
        if queue[i].Diagnostic? {
          EvictedAt(queue, i);
          queue := queue[..i] + queue[i + 1..];
          return true;
        }
        i := i + 1;
      }
      return false;
    }

    /** takeBatch: the oldest events, at most `n`. */
    method TakeBatch(n: nat) returns (batch: seq<Event>)
      modifies this`queue
      ensures batch + queue == old(queue) && |batch| == (if n < |old(queue)| then n else |old(queue)|)
      ensures Criticals(old(queue)) == Criticals(batch) + Criticals(queue)
    {
      var count := if n < |queue| then n else |queue|;
      batch := queue[..count];
      CriticalsJoin(queue[..count], queue[count..]);
      assert queue[..count] + queue[count..] == queue;
      queue := queue[count..];
    }

    /** flush: the usage events of a batch go to the sink together. Without a sink they are counted nowhere. */
    method Flush(batch: seq<Event>)
      modifies this`written, this`lost, this`degraded
      ensures written >= old(written) && lost >= old(lost)
      ensures (written - old(written)) + (lost - old(lost)) == if hasSink then |Criticals(batch)| else 0
      ensures lost > old(lost) ==> degraded && written == old(written)
      ensures batch == [] ==> degraded == old(degraded)
    {
      if |batch| == 0 {
        return;
      }
      var failed, usage := false, [];
      var i := 0;
      while i < |batch|
        invariant 0 <= i <= |batch| && usage == Criticals(batch[..i])
        invariant written == old(written) && lost == old(lost)
      {
        CriticalsSnoc(batch[..i], batch[i]);
        assert batch[..i + 1] == batch[..i] + [batch[i]];
        if batch[i].Diagnostic? {
          var detailFails: bool := *;
          failed := failed || detailFails;
        } else {
          usage := usage + [batch[i]];
        }
        i := i + 1;
      }
      assert batch[..|batch|] == batch;
      if hasSink && |usage| > 0 {
        var sinkFails: bool := *;
        if sinkFails {
          failed := true;
          lost := lost + |usage|;
        } else {
          written := written + |usage|;
        }
      }
      degraded := failed;
    }

    /** Record with no other goroutine between its steps and the service open: a critical event is lost
        only when the queue is full of critical ones, and a diagnostic gives way to it otherwise. */
    method Record(event: Event)
      requires !closed && |queue| <= maxRecords && maxRecords > 0
      modifies this`queue, this`lost
      ensures |queue| <= maxRecords
      ensures lost == old(lost) + (if event.Critical? && |old(queue)| == maxRecords && !HasDiagnostic(old(queue)) then 1 else 0)
      ensures queue == if |old(queue)| < maxRecords then old(queue) + [event]
                       else if event.Critical? && HasDiagnostic(old(queue)) then Evicted(old(queue)) + [event]
                       else old(queue)
    {
      var ok := Enqueue(event);
      if ok || event.Diagnostic? {
        return;
      }
      ok := Enqueue(event);
      if ok {
        return;
      }
      var room := EvictDiagnostic();
      if room {
        ok := Enqueue(event);
        if ok {
          return;
        }
      }
      lost := lost + 1;
    }
  }
}
