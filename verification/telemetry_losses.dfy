/**
 When a critical event is lost (internal/telemetry/telemetry.go). Record says only when the queue is full
 of critical events; what decides is the queue at two of its steps.
 */
module TelemetryLosses {
  import opened Telemetry
  import opened TelemetryRuns

  // ------------------------------------------------------------ what decides a loss

  /** The step at which a call finds no way left: no diagnostic to evict, or no room after evicting one. */
  predicate Decides(k: Config, s: State, a: Action, c: nat) {
    || (a == Evict(c) && !HasDiagnostic(s.queue))
    || (a == TryLast(c) && !Room(k, s))
  }

  /** One of these steps is such a step. */
  predicate Decided(k: Config, s: State, actions: seq<Action>, c: nat)
    requires Run(k, s, actions)
    decreases |actions|
  {
    actions != [] && (Decides(k, s, actions[0], c) || Decided(k, Step(k, s, actions[0]), actions[1..], c))
  }

  predicate IsLosing(s: State, c: nat) { c < |s.calls| && s.calls[c].Losing? }

  lemma StepLosing(k: Config, s: State, a: Action, c: nat)
    requires Enabled(s, a)
    ensures IsLosing(Step(k, s, a), c) <==> (IsLosing(s, c) && a != Lose(c)) || Decides(k, s, a, c)
    ensures a == Lose(c) ==> IsLosing(s, c)
  {
  }

  lemma {:induction false} LosingIff(k: Config, s: State, actions: seq<Action>, c: nat)
    requires Run(k, s, actions)
    ensures Lose(c) in actions || IsLosing(After(k, s, actions), c) <==> IsLosing(s, c) || Decided(k, s, actions, c)
    decreases |actions|
  {
    if actions != [] {
      var a, rest := actions[0], actions[1..];
      StepLosing(k, s, a, c);
      LosingIff(k, Step(k, s, a), rest, c);
      assert Lose(c) in actions <==> a == Lose(c) || Lose(c) in rest;
    }
  }

  /** On every run a call's event is lost, or about to be, exactly when the queue held no diagnostic at its
      Evict step or there was no room at its last attempt. */
  lemma LostIff(k: Config, actions: seq<Action>, c: nat)
    requires Run(k, EMPTY, actions)
    ensures Lose(c) in actions || IsLosing(After(k, EMPTY, actions), c) <==> Decided(k, EMPTY, actions, c)
  {
    LosingIff(k, EMPTY, actions, c);
  }

  // ------------------------------------------------------------ what Record says of the queue then

  /** The queue is full and holds only critical events. */
  predicate FullOfCriticals(k: Config, s: State) {
    |s.queue| == k.maxRecords && !HasDiagnostic(s.queue)
  }

  function Diagnostics(queue: seq<Event>): nat { Tally(queue, (e: Event) => e.Diagnostic?) }

  lemma {:induction false} NoDiagnostics(queue: seq<Event>)
    ensures Diagnostics(queue) == 0 <==> !HasDiagnostic(queue)
  {
    if queue != [] {
      var front, last := queue[..|queue| - 1], queue[|queue| - 1];
      NoDiagnostics(front);
      if HasDiagnostic(front) {
        var i :| 0 <= i < |front| && front[i].Diagnostic?;
        assert queue[i].Diagnostic?;
      }
      if i :| 0 <= i < |queue| && queue[i].Diagnostic? && last.Critical? {
        assert front[i].Diagnostic?;
      }
    }
  }

  /** The event an attempt to enqueue puts into the queue, if any. */
  function Entering(k: Config, s: State, a: Action): seq<Event>
    requires Enabled(s, a)
  {
    if !Room(k, s) then []
    else match a
      case Try(c) => [s.calls[c].event]
      case TryAgain(c) => [s.calls[c].event]
      case TryLast(c) => [s.calls[c].event]
      case _ => []
  }

  /** The events a step takes or evicts. */
  function Leaving(s: State, a: Action): seq<Event>
    requires Enabled(s, a)
  {
    match a
    case Take(n) => s.queue[..if n < |s.queue| then n else |s.queue|]
    case Evict(_) => if HasDiagnostic(s.queue) then [s.queue[FirstDiagnostic(s.queue)]] else []
    case _ => []
  }

  function FirstDiagnostic(queue: seq<Event>): (i: nat)
    requires HasDiagnostic(queue)
    ensures i < |queue| && queue[i].Diagnostic? && forall j :: 0 <= j < i ==> queue[j].Critical?
  {
    if queue[0].Diagnostic? then 0
    else
      assert HasDiagnostic(queue[1..]) by {
        var j :| 0 <= j < |queue| && queue[j].Diagnostic?;
        assert queue[1..][j - 1].Diagnostic?;
      }
      1 + FirstDiagnostic(queue[1..])
  }

  function Entered(k: Config, s: State, actions: seq<Action>): seq<Event>
    requires Run(k, s, actions)
    decreases |actions|
  {
    if actions == [] then [] else Entering(k, s, actions[0]) + Entered(k, Step(k, s, actions[0]), actions[1..])
  }

  function Left(k: Config, s: State, actions: seq<Action>): seq<Event>
    requires Run(k, s, actions)
    decreases |actions|
  {
    if actions == [] then [] else Leaving(s, actions[0]) + Left(k, Step(k, s, actions[0]), actions[1..])
  }

  lemma EvictedTally(queue: seq<Event>, p: Choice)
    requires HasDiagnostic(queue)
    ensures Tally(Evicted(queue), p) + Weight(queue[FirstDiagnostic(queue)], p) == Tally(queue, p)
    ensures |Evicted(queue)| + 1 == |queue|
  {
    var i := FirstDiagnostic(queue);
    EvictedAt(queue, i);
    TallyJoin(queue[..i], queue[i + 1..], p);
    TallySnoc(queue[..i], queue[i], p);
    TallyJoin(queue[..i] + [queue[i]], queue[i + 1..], p);
    assert queue == queue[..i] + [queue[i]] + queue[i + 1..];
  }

  lemma One(e: Event, p: Choice)
    ensures Tally([e], p) == Weight(e, p)
  {
    TallySnoc([], e, p);
    assert [] + [e] == [e];
  }

  lemma AttemptTally(k: Config, s: State, c: nat, e: Event, otherwise: Phase, p: Choice)
    requires c < |s.calls|
    ensures var entering := if Room(k, s) then [e] else [];
            && Tally(Attempt(k, s, c, e, otherwise).queue, p) == Tally(s.queue, p) + Tally(entering, p)
            && |Attempt(k, s, c, e, otherwise).queue| == |s.queue| + |entering|
  {
    TallySnoc(s.queue, e, p);
    One(e, p);
  }

  /** One step: what the queue holds is what it held, and what entered, less what left. */
  lemma StepTally(k: Config, s: State, a: Action, p: Choice)
    requires Enabled(s, a)
    ensures Tally(Step(k, s, a).queue, p) + Tally(Leaving(s, a), p) == Tally(s.queue, p) + Tally(Entering(k, s, a), p)
    ensures |Step(k, s, a).queue| + |Leaving(s, a)| == |s.queue| + |Entering(k, s, a)|
  {
    match a
    case Take(n) =>
      var m := if n < |s.queue| then n else |s.queue|;
      TallyJoin(s.queue[..m], s.queue[m..], p);
      assert s.queue[..m] + s.queue[m..] == s.queue;
    case Evict(c) =>
      if HasDiagnostic(s.queue) {
        EvictedTally(s.queue, p);
        One(s.queue[FirstDiagnostic(s.queue)], p);
      }
    case Try(c) => var e := s.calls[c].event; AttemptTally(k, s, c, e, if e.Diagnostic? then Done else Waiting(e), p);
    case TryAgain(c) => AttemptTally(k, s, c, s.calls[c].event, Evicting(s.calls[c].event), p);
    case TryLast(c) => AttemptTally(k, s, c, s.calls[c].event, Losing(s.calls[c].event), p);
    case _ =>
  }

  lemma {:induction false} RunTally(k: Config, s: State, actions: seq<Action>, p: Choice)
    requires Run(k, s, actions)
    ensures Tally(After(k, s, actions).queue, p) + Tally(Left(k, s, actions), p) == Tally(s.queue, p) + Tally(Entered(k, s, actions), p)
    ensures |After(k, s, actions).queue| + |Left(k, s, actions)| == |s.queue| + |Entered(k, s, actions)|
    decreases |actions|
  {
    if actions != [] {
      var a, rest := actions[0], actions[1..];
      var n := Step(k, s, a);
      StepTally(k, s, a, p);
      RunTally(k, n, rest, p);
      TallyJoin(Leaving(s, a), Left(k, n, rest), p);
      TallyJoin(Entering(k, s, a), Entered(k, n, rest), p);
    }
  }

  /** Between any two moments of a run, and so from the attempt that found the queue full to the step that
      decides the loss: the queue is then full of critical events exactly when what entered and left in
      between makes up its bound and leaves no diagnostic. */
  lemma FullOfCriticalsIff(k: Config, s: State, actions: seq<Action>)
    requires Run(k, s, actions)
    ensures FullOfCriticals(k, After(k, s, actions)) <==>
            && |s.queue| + |Entered(k, s, actions)| == k.maxRecords + |Left(k, s, actions)|
            && Diagnostics(s.queue) + Diagnostics(Entered(k, s, actions)) == Diagnostics(Left(k, s, actions))
  {
    RunTally(k, s, actions, (e: Event) => e.Diagnostic?);
    NoDiagnostics(After(k, s, actions).queue);
  }

  /** In particular: refused at a full queue, a call that loses its event at Evict does so as Record says if
      and only if as many events have entered the queue since as have left it. */
  lemma LossAtEvictIff(k: Config, s: State, between: seq<Action>, c: nat)
    requires Run(k, s, between) && |s.queue| == k.maxRecords && Decides(k, After(k, s, between), Evict(c), c)
    ensures FullOfCriticals(k, After(k, s, between)) <==> |Entered(k, s, between)| == |Left(k, s, between)|
  {
    RunTally(k, s, between, (e: Event) => e.Diagnostic?);
  }

  /** And one that loses it at its last attempt, the service open, if and only if as many diagnostics have
      left since it evicted one as were still queued and entered. */
  lemma LossAtLastIff(k: Config, s: State, between: seq<Action>, c: nat)
    requires Run(k, s, between) && Kept(k, After(k, s, between))
    requires !After(k, s, between).closed && Decides(k, After(k, s, between), TryLast(c), c)
    ensures FullOfCriticals(k, After(k, s, between)) <==>
            Diagnostics(s.queue) + Diagnostics(Entered(k, s, between)) == Diagnostics(Left(k, s, between))
  {
    RunTally(k, s, between, (e: Event) => e.Diagnostic?);
    NoDiagnostics(After(k, s, between).queue);
  }

  // ------------------------------------------------------------ no other step in between

  /** With no other step between its own, and the service open, a waiting call loses its event exactly when
      the queue is full of critical events. */
  lemma UndisturbedLossIff(k: Config, s: State, c: nat)
    requires Kept(k, s) && Enabled(s, TryAgain(c)) && !s.closed && k.maxRecords > 0
    ensures var n := Step(k, s, TryAgain(c));
            n.calls[c].Evicting? ==>
              var m := Step(k, n, Evict(c));
              (m.calls[c].Losing? <==> FullOfCriticals(k, s))
              && (m.calls[c].Retrying? ==> Step(k, m, TryLast(c)).calls[c].Done? && Step(k, m, TryLast(c)).queue == Evicted(s.queue) + [s.calls[c].event])
  {
  }

  // ------------------------------------------------------------ traces

  /** An event lost while the queue is empty: a batch took everything before the scan for a diagnostic. */
  lemma LostWithEmptyQueue(f: Event, e: Event) returns (actions: seq<Action>)
    requires f.Critical? && e.Critical?
    ensures var k := Config(1, true);
            Run(k, EMPTY, actions) && var s := After(k, EMPTY, actions); s.ledger.lost == [e] && s.queue == [] && !s.closed
  {
    var k := Config(1, true);
    var s1 := Step(k, EMPTY, Admit(f));
    var s2 := Step(k, s1, Try(0));
    var s3 := Step(k, s2, Admit(e));
    var s4 := Step(k, s3, Try(1));
    assert s4.calls == [Done, Waiting(e)] && s4.queue == [f] && s4.ledger.lost == [];
    actions := TakenBeforeScan(s4, e, f);
    RunStep(k, s3, Try(1), actions);
    actions := [Try(1)] + actions;
    RunStep(k, s2, Admit(e), actions);
    actions := [Admit(e)] + actions;
    RunStep(k, s1, Try(0), actions);
    actions := [Try(0)] + actions;
    RunStep(k, EMPTY, Admit(f), actions);
    actions := [Admit(f)] + actions;
  }

  lemma TakenBeforeScan(s: State, e: Event, f: Event) returns (actions: seq<Action>)
    requires e.Critical? && f.Critical? && s.batch == []
    requires s.calls == [Done, Waiting(e)] && s.queue == [f] && s.ledger.lost == [] && !s.closed
    ensures var k := Config(1, true);
            Run(k, s, actions) && var n := After(k, s, actions); n.ledger.lost == [e] && n.queue == [] && !n.closed
  {
    var k := Config(1, true);
    var s5 := Step(k, s, TryAgain(1));
    var s6 := Step(k, s5, Take(1));
    assert s6.batch == [f] && s6.queue == [] && s6.calls == [Done, Evicting(e)];
    var s7 := Step(k, s6, Flush(true));
    var s8 := Step(k, s7, Evict(1));
    assert s8.calls == [Done, Losing(e)];
    RunStep(k, s8, Lose(1), []);
    actions := [Lose(1)] + [];
    RunStep(k, s7, Evict(1), actions);
    actions := [Evict(1)] + actions;
    RunStep(k, s6, Flush(true), actions);
    actions := [Flush(true)] + actions;
    RunStep(k, s5, Take(1), actions);
    actions := [Take(1)] + actions;
    RunStep(k, s, TryAgain(1), actions);
    actions := [TryAgain(1)] + actions;
  }

  /** An event admitted just before Close is lost although the queue is empty. */
  lemma LostAfterClose(e: Event) returns (actions: seq<Action>)
    requires e.Critical?
    ensures var k := Config(1, true);
            Run(k, EMPTY, actions) && var s := After(k, EMPTY, actions); s.ledger.lost == [e] && s.queue == []
  {
    var k := Config(1, true);
    var s1 := Step(k, EMPTY, Admit(e));
    var s2 := Step(k, s1, Close);
    var s3 := Step(k, s2, Try(0));
    var s4 := Step(k, s3, TryAgain(0));
    var s5 := Step(k, s4, Evict(0));
    assert s5.calls == [Losing(e)];
    RunStep(k, s5, Lose(0), []);
    actions := [Lose(0)] + [];
    RunStep(k, s4, Evict(0), actions);
    actions := [Evict(0)] + actions;
    RunStep(k, s3, TryAgain(0), actions);
    actions := [TryAgain(0)] + actions;
    RunStep(k, s2, Try(0), actions);
    actions := [Try(0)] + actions;
    RunStep(k, s1, Close, actions);
    actions := [Close] + actions;
    RunStep(k, EMPTY, Admit(e), actions);
    actions := [Admit(e)] + actions;
  }
}
