/**
 Any number of requests recording at once, one batcher, and Close at any moment
 (internal/telemetry/telemetry.go): one step for every region under the queue's lock.
 */
module TelemetryRuns {
  import opened Telemetry

  /** Where a call of Record is, by what it does next. */
  datatype Phase =
    | Trying(event: Event)
    | Waiting(event: Event)
    | Evicting(event: Event)
    | Retrying(event: Event)
    | Losing(event: Event)
    | Done

  /** What happened to events: admitted by Record, enqueued and taken in order, evicted or shed, written,
      lost, or flushed without a sink. */
  datatype Ledger = Ledger(admitted: seq<Event>, enqueued: seq<Event>, taken: seq<Event>,
                           written: seq<Event>, lost: seq<Event>, unsunk: seq<Event>)

  datatype Config = Config(maxRecords: nat, hasSink: bool)

  /** `batch` has been taken from the queue and not flushed. */
  datatype State = State(queue: seq<Event>, batch: seq<Event>, closed: bool, calls: seq<Phase>, ledger: Ledger)

  datatype Action =
    | Admit(event: Event)  // Record, past its check for closed
    | Try(call: nat)       // enqueue; a refused diagnostic is shed, a critical event waits
    | TryAgain(call: nat)  // enqueue after the pause
    | Evict(call: nat)     // evictDiagnostic
    | TryLast(call: nat)   // enqueue into the room made
    | Lose(call: nat)      // lost.Add(1)
    | Take(n: nat)         // takeBatch
    | Flush(ok: bool)      // flush, with the sink's answer
    | Close

  predicate Room(k: Config, s: State) { !s.closed && |s.queue| < k.maxRecords }

  function Only(event: Event): seq<Event> {
    if event.Critical? then [event] else []
  }

  function Enqueued(s: State, event: Event): State {
    s.(queue := s.queue + [event], ledger := s.ledger.(enqueued := s.ledger.enqueued + Only(event)))
  }

  /** One attempt to enqueue: the call ends if there is room, else it goes on at `otherwise`. */
  function Attempt(k: Config, s: State, call: nat, event: Event, otherwise: Phase): State
    requires call < |s.calls|
  {
    if Room(k, s) then Enqueued(s, event).(calls := s.calls[call := Done]) else s.(calls := s.calls[call := otherwise])
  }

  predicate Enabled(s: State, a: Action) {
    match a
    case Admit(_) => !s.closed
    case Try(c) => c < |s.calls| && s.calls[c].Trying?
    case TryAgain(c) => c < |s.calls| && s.calls[c].Waiting?
    case Evict(c) => c < |s.calls| && s.calls[c].Evicting?
    case TryLast(c) => c < |s.calls| && s.calls[c].Retrying?
    case Lose(c) => c < |s.calls| && s.calls[c].Losing?
    case Take(_) => s.batch == []
    case Flush(_) => s.batch != []
    case Close => true
  }

  function DoAdmit(s: State, e: Event): State {
    s.(calls := s.calls + [Trying(e)], ledger := s.ledger.(admitted := s.ledger.admitted + [e]))
  }

  function DoEvict(s: State, c: nat): State
    requires Enabled(s, Evict(c))
  {
    if HasDiagnostic(s.queue) then s.(queue := Evicted(s.queue), calls := s.calls[c := Retrying(s.calls[c].event)])
    else s.(calls := s.calls[c := Losing(s.calls[c].event)])
  }

  function DoLose(s: State, c: nat): State
    requires Enabled(s, Lose(c))
  {
    s.(calls := s.calls[c := Done], ledger := s.ledger.(lost := s.ledger.lost + [s.calls[c].event]))
  }

  function DoTake(s: State, n: nat): State {
    var k := if n < |s.queue| then n else |s.queue|;
    s.(queue := s.queue[k..], batch := s.queue[..k], ledger := s.ledger.(taken := s.ledger.taken + Criticals(s.queue[..k])))
  }

  function DoFlush(k: Config, s: State, ok: bool): State {
    var usage := Criticals(s.batch);
    if !k.hasSink then s.(batch := [], ledger := s.ledger.(unsunk := s.ledger.unsunk + usage))
    else if ok then s.(batch := [], ledger := s.ledger.(written := s.ledger.written + usage))
    else s.(batch := [], ledger := s.ledger.(lost := s.ledger.lost + usage))
  }

  function Step(k: Config, s: State, a: Action): State
    requires Enabled(s, a)
  {
    match a
    case Admit(e) => DoAdmit(s, e)
    case Try(c) => var e := s.calls[c].event; Attempt(k, s, c, e, if e.Diagnostic? then Done else Waiting(e))
    case TryAgain(c) => var e := s.calls[c].event; Attempt(k, s, c, e, Evicting(e))
    case Evict(c) => DoEvict(s, c)
    case TryLast(c) => var e := s.calls[c].event; Attempt(k, s, c, e, Losing(e))
    case Lose(c) => DoLose(s, c)
    case Take(n) => DoTake(s, n)
    case Flush(ok) => DoFlush(k, s, ok)
    case Close => s.(closed := true)
  }

  const EMPTY := State([], [], false, [], Ledger([], [], [], [], [], []))

  predicate Run(k: Config, s: State, actions: seq<Action>)
    decreases |actions|
  {
    if actions == [] then true
    else Enabled(s, actions[0]) && Run(k, Step(k, s, actions[0]), actions[1..])
  }

  function After(k: Config, s: State, actions: seq<Action>): State
    requires Run(k, s, actions)
    decreases |actions|
  {
    if actions == [] then s else After(k, Step(k, s, actions[0]), actions[1..])
  }

  // ------------------------------------------------------------ counting

  /** A choice among the critical events: one of them, some or all. */
  type Choice = Event -> bool

  ghost predicate OfCriticals(p: Choice) { forall e :: p(e) ==> e.Critical? }

  function Weight(e: Event, p: Choice): nat { if p(e) then 1 else 0 }

  function Tally(events: seq<Event>, p: Choice): nat {
    if events == [] then 0 else Tally(events[..|events| - 1], p) + Weight(events[|events| - 1], p)
  }

  lemma TallySnoc(events: seq<Event>, e: Event, p: Choice)
    ensures Tally(events + [e], p) == Tally(events, p) + Weight(e, p)
  {
    assert (events + [e])[..|events|] == events;
  }

  lemma {:induction false} TallyJoin(a: seq<Event>, b: seq<Event>, p: Choice)
    ensures Tally(a + b, p) == Tally(a, p) + Tally(b, p)
    decreases |b|
  {
    if b == [] {
      assert a + b == a;
    } else {
      var front, last := b[..|b| - 1], b[|b| - 1];
      TallyJoin(a, front, p);
      TallySnoc(a + front, last, p);
      assert a + b == a + front + [last];
    }
  }

  lemma {:induction false} TallyCriticals(events: seq<Event>, p: Choice)
    requires OfCriticals(p)
    ensures Tally(Criticals(events), p) == Tally(events, p)
  {
    if events != [] {
      var front, last := events[..|events| - 1], events[|events| - 1];
      TallyCriticals(front, p);
      TallyJoin(Criticals(front), Only(last), p);
      TallySnoc([], last, p);
      assert [] + [last] == [last];
    }
  }

  function Carried(phase: Phase, p: Choice): nat { if phase.Done? then 0 else Weight(phase.event, p) }

  function InCalls(calls: seq<Phase>, p: Choice): nat {
    if calls == [] then 0 else InCalls(calls[..|calls| - 1], p) + Carried(calls[|calls| - 1], p)
  }

  lemma {:induction false} InCallsUpdate(calls: seq<Phase>, c: nat, phase: Phase, p: Choice)
    requires c < |calls|
    ensures InCalls(calls[c := phase], p) + Carried(calls[c], p) == InCalls(calls, p) + Carried(phase, p)
    decreases |calls|
  {
    var n := |calls| - 1;
    var next := calls[c := phase];
    if c == n {
      assert next[..n] == calls[..n];
    } else {
      InCallsUpdate(calls[..n], c, phase, p);
      assert next[..n] == calls[..n][c := phase];
    }
  }

  // ------------------------------------------------------------ conservation

  /** How many of the chosen events are written, lost, flushed without a sink, queued, in the batch being
      flushed, or still in their call of Record. */
  function Accounted(s: State, p: Choice): nat {
    Tally(s.ledger.written, p) + Tally(s.ledger.lost, p) + Tally(s.ledger.unsunk, p)
    + Tally(s.queue, p) + Tally(s.batch, p) + InCalls(s.calls, p)
  }

  predicate Conserved(s: State, p: Choice) { Tally(s.ledger.admitted, p) == Accounted(s, p) }

  /** A call past its first attempt carries a critical event. */
  predicate CriticalCalls(calls: seq<Phase>) {
    forall c :: 0 <= c < |calls| && !calls[c].Done? && !calls[c].Trying? ==> calls[c].event.Critical?
  }

  lemma AttemptConserves(k: Config, s: State, c: nat, otherwise: Phase, p: Choice)
    requires Conserved(s, p) && c < |s.calls| && !s.calls[c].Done? && Carried(otherwise, p) == Carried(s.calls[c], p)
    ensures Conserved(Attempt(k, s, c, s.calls[c].event, otherwise), p)
  {
    if Room(k, s) {
      InCallsUpdate(s.calls, c, Done, p);
      TallySnoc(s.queue, s.calls[c].event, p);
      assert Tally(s.queue + [s.calls[c].event], p) + InCalls(s.calls[c := Done], p) == Tally(s.queue, p) + InCalls(s.calls, p);
    } else {
      InCallsUpdate(s.calls, c, otherwise, p);
    }
  }

  lemma EvictConserves(s: State, c: nat, p: Choice)
    requires Conserved(s, p) && Enabled(s, Evict(c)) && OfCriticals(p)
    ensures Conserved(DoEvict(s, c), p)
  {
    if HasDiagnostic(s.queue) {
      InCallsUpdate(s.calls, c, Retrying(s.calls[c].event), p);
      EvictionKeepsCriticals(s.queue);
      TallyCriticals(s.queue, p);
      TallyCriticals(Evicted(s.queue), p);
    } else {
      InCallsUpdate(s.calls, c, Losing(s.calls[c].event), p);
    }
  }

  lemma LoseConserves(s: State, c: nat, p: Choice)
    requires Conserved(s, p) && Enabled(s, Lose(c))
    ensures Conserved(DoLose(s, c), p)
  {
    var e := s.calls[c].event;
    InCallsUpdate(s.calls, c, Done, p);
    TallySnoc(s.ledger.lost, e, p);
    var n := DoLose(s, c);
    assert Tally(n.ledger.lost, p) + InCalls(n.calls, p) == Tally(s.ledger.lost, p) + InCalls(s.calls, p);
  }

  lemma AdmitConserves(s: State, e: Event, p: Choice)
    requires Conserved(s, p)
    ensures Conserved(DoAdmit(s, e), p)
  {
    TallySnoc(s.ledger.admitted, e, p);
    assert (s.calls + [Trying(e)])[..|s.calls|] == s.calls;
  }

  lemma TakeConserves(s: State, n: nat, p: Choice)
    requires Conserved(s, p) && s.batch == []
    ensures Conserved(DoTake(s, n), p)
  {
    var k := if n < |s.queue| then n else |s.queue|;
    TallyJoin(s.queue[..k], s.queue[k..], p);
    assert s.queue[..k] + s.queue[k..] == s.queue;
  }

  lemma FlushConserves(k: Config, s: State, ok: bool, p: Choice)
    requires Conserved(s, p) && OfCriticals(p)
    ensures Conserved(DoFlush(k, s, ok), p)
  {
    var usage := Criticals(s.batch);
    TallyCriticals(s.batch, p);
    TallyJoin(s.ledger.written, usage, p);
    TallyJoin(s.ledger.lost, usage, p);
    TallyJoin(s.ledger.unsunk, usage, p);
  }

  lemma StepConserves(k: Config, s: State, a: Action, p: Choice)
    requires Conserved(s, p) && Enabled(s, a) && OfCriticals(p)
    ensures Conserved(Step(k, s, a), p)
  {
    match a
    case Admit(e) => AdmitConserves(s, e, p);
    case Try(c) =>
      var e := s.calls[c].event;
      AttemptConserves(k, s, c, if e.Diagnostic? then Done else Waiting(e), p);
    case TryAgain(c) => AttemptConserves(k, s, c, Evicting(s.calls[c].event), p);
    case Evict(c) => EvictConserves(s, c, p);
    case TryLast(c) => AttemptConserves(k, s, c, Losing(s.calls[c].event), p);
    case Lose(c) => LoseConserves(s, c, p);
    case Take(n) => TakeConserves(s, n, p);
    case Flush(ok) => FlushConserves(k, s, ok, p);
    case Close =>
  }

  /** Order, bound, and what is lost: critical events leave the queue in the order they entered, the queue
      keeps its bound, only critical events are lost, and with a sink none is dropped uncounted. */
  predicate Kept(k: Config, s: State) {
    && s.ledger.enqueued == s.ledger.taken + Criticals(s.queue)
    && |s.queue| <= k.maxRecords
    && CriticalCalls(s.calls)
    && (forall i :: 0 <= i < |s.ledger.lost| ==> s.ledger.lost[i].Critical?)
    && (k.hasSink ==> s.ledger.unsunk == [])
  }

  lemma EnqueueKeeps(k: Config, s: State, e: Event)
    requires Kept(k, s) && Room(k, s)
    ensures Kept(k, Enqueued(s, e))
  {
    CriticalsSnoc(s.queue, e);
    assert s.ledger.taken + Criticals(s.queue) + Only(e) == s.ledger.taken + (Criticals(s.queue) + Only(e));
  }

  lemma AttemptKeeps(k: Config, s: State, c: nat, otherwise: Phase)
    requires Kept(k, s) && c < |s.calls| && !s.calls[c].Done? && (otherwise.Done? || otherwise.event.Critical?)
    ensures Kept(k, Attempt(k, s, c, s.calls[c].event, otherwise))
  {
    if Room(k, s) {
      EnqueueKeeps(k, s, s.calls[c].event);
    }
  }

  lemma TakeKeeps(k: Config, s: State, n: nat)
    requires Kept(k, s)
    ensures Kept(k, DoTake(s, n))
  {
    var m := if n < |s.queue| then n else |s.queue|;
    CriticalsJoin(s.queue[..m], s.queue[m..]);
    assert s.queue[..m] + s.queue[m..] == s.queue;
    assert s.ledger.taken + (Criticals(s.queue[..m]) + Criticals(s.queue[m..])) == s.ledger.taken + Criticals(s.queue[..m]) + Criticals(s.queue[m..]);
  }

  lemma {:induction false} AllCritical(events: seq<Event>)
    ensures forall i :: 0 <= i < |Criticals(events)| ==> Criticals(events)[i].Critical?
  {
    if events != [] {
      AllCritical(events[..|events| - 1]);
    }
  }

  lemma StepKeeps(k: Config, s: State, a: Action)
    requires Kept(k, s) && Enabled(s, a)
    ensures Kept(k, Step(k, s, a))
  {
    match a
    case Try(c) =>
      var e := s.calls[c].event;
      AttemptKeeps(k, s, c, if e.Diagnostic? then Done else Waiting(e));
    case TryAgain(c) => AttemptKeeps(k, s, c, Evicting(s.calls[c].event));
    case TryLast(c) => AttemptKeeps(k, s, c, Losing(s.calls[c].event));
    case Evict(c) => EvictionKeepsCriticals(s.queue);
    case Take(n) => TakeKeeps(k, s, n);
    case Flush(_) => AllCritical(s.batch);
    case _ =>
  }

  lemma {:induction false} RunKeeps(k: Config, s: State, actions: seq<Action>, p: Choice)
    requires Kept(k, s) && Conserved(s, p) && OfCriticals(p) && Run(k, s, actions)
    ensures Kept(k, After(k, s, actions)) && Conserved(After(k, s, actions), p)
    decreases |actions|
  {
    if actions != [] {
      StepKeeps(k, s, actions[0]);
      StepConserves(k, s, actions[0], p);
      RunKeeps(k, Step(k, s, actions[0]), actions[1..], p);
    }
  }

  /** None of the chosen events is unaccounted for: those admitted are as many as those written, lost,
      queued, in the batch being flushed or still in their call of Record. */
  predicate AllAccounted(s: State, p: Choice) {
    Tally(s.ledger.admitted, p) == Tally(s.ledger.written, p) + Tally(s.ledger.lost, p)
                                   + Tally(s.queue, p) + Tally(s.batch, p) + InCalls(s.calls, p)
  }

  /** On every run, whichever critical events are chosen, one alone or all: they are all accounted for exactly
      when none of them was flushed without a sink, which none is when there is one. Critical events leave the
      queue only with a batch and in order, and the queue keeps its bound. */
  lemma CriticalsConserved(k: Config, actions: seq<Action>, p: Choice)
    requires Run(k, EMPTY, actions) && OfCriticals(p)
    ensures var s := After(k, EMPTY, actions);
            && (AllAccounted(s, p) <==> Tally(s.ledger.unsunk, p) == 0)
            && (k.hasSink ==> s.ledger.unsunk == [] && AllAccounted(s, p))
            && s.ledger.enqueued == s.ledger.taken + Criticals(s.queue)
            && |s.queue| <= k.maxRecords
            && forall i :: 0 <= i < |s.ledger.lost| ==> s.ledger.lost[i].Critical?
  {
    RunKeeps(k, EMPTY, actions, p);
  }

  lemma {:induction false} NoCallsCarry(calls: seq<Phase>, p: Choice)
    requires forall c :: 0 <= c < |calls| ==> calls[c].Done?
    ensures InCalls(calls, p) == 0
  {
    if calls != [] {
      NoCallsCarry(calls[..|calls| - 1], p);
    }
  }

  /** Once the queue is drained and every call has returned, each admitted critical event has been written
      or counted as lost, as often as it was admitted, exactly if none was flushed without a sink. */
  lemma DrainedIsAccounted(k: Config, actions: seq<Action>, p: Choice)
    requires Run(k, EMPTY, actions) && OfCriticals(p)
    requires var s := After(k, EMPTY, actions); s.queue == [] && s.batch == [] && forall c :: 0 <= c < |s.calls| ==> s.calls[c].Done?
    ensures var s := After(k, EMPTY, actions);
            && (Tally(s.ledger.admitted, p) == Tally(s.ledger.written, p) + Tally(s.ledger.lost, p) <==> Tally(s.ledger.unsunk, p) == 0)
            && (k.hasSink ==> Tally(s.ledger.unsunk, p) == 0)
  {
    CriticalsConserved(k, actions, p);
    NoCallsCarry(After(k, EMPTY, actions).calls, p);
  }

  // ------------------------------------------------------------ where the promises need their conditions

  lemma RunStep(k: Config, s: State, a: Action, rest: seq<Action>)
    requires Enabled(s, a) && Run(k, Step(k, s, a), rest)
    ensures Run(k, s, [a] + rest) && After(k, s, [a] + rest) == After(k, Step(k, s, a), rest)
  {
    assert ([a] + rest)[1..] == rest;
  }

  /** A critical event is lost while the queue holds a diagnostic: another request's diagnostic takes the
      room that was made for it. */
  lemma RoomTaken(e: Event, d: Event, d2: Event) returns (actions: seq<Action>)
    requires e.Critical? && d.Diagnostic? && d2.Diagnostic?
    ensures var k := Config(1, true);
            Run(k, EMPTY, actions) && var s := After(k, EMPTY, actions); s.ledger.lost == [e] && s.queue == [d2] && !s.closed
  {
    var k := Config(1, true);
    var s1 := Step(k, EMPTY, Admit(d));
    var s2 := Step(k, s1, Try(0));
    var s3 := Step(k, s2, Admit(e));
    var s4 := Step(k, s3, Try(1));
    assert s4.calls == [Done, Waiting(e)] && s4.queue == [d] && s4.ledger.lost == [];
    actions := LostToAnother(s4, e, d, d2);
    RunStep(k, s3, Try(1), actions);
    actions := [Try(1)] + actions;
    RunStep(k, s2, Admit(e), actions);
    actions := [Admit(e)] + actions;
    RunStep(k, s1, Try(0), actions);
    actions := [Try(0)] + actions;
    RunStep(k, EMPTY, Admit(d), actions);
    actions := [Admit(d)] + actions;
  }

  lemma LostToAnother(s: State, e: Event, d: Event, d2: Event) returns (actions: seq<Action>)
    requires e.Critical? && d.Diagnostic? && d2.Diagnostic?
    requires s.calls == [Done, Waiting(e)] && s.queue == [d] && s.ledger.lost == [] && !s.closed
    ensures var k := Config(1, true);
            Run(k, s, actions) && var n := After(k, s, actions); n.ledger.lost == [e] && n.queue == [d2] && !n.closed
  {
    var k := Config(1, true);
    var s5 := Step(k, s, TryAgain(1));
    assert s5.calls == [Done, Evicting(e)] && s5.queue == [d];
    assert s5.queue[0].Diagnostic?;
    var s6 := Step(k, s5, Evict(1));
    assert s6.calls == [Done, Retrying(e)] && s6.queue == [];
    actions := RoomTakenThen(s6, e, d2);
    RunStep(k, s5, Evict(1), actions);
    actions := [Evict(1)] + actions;
    RunStep(k, s, TryAgain(1), actions);
    actions := [TryAgain(1)] + actions;
  }

  lemma RoomTakenThen(s: State, e: Event, d2: Event) returns (actions: seq<Action>)
    requires e.Critical? && d2.Diagnostic?
    requires s.calls == [Done, Retrying(e)] && s.queue == [] && s.ledger.lost == [] && !s.closed
    ensures var k := Config(1, true);
            Run(k, s, actions) && var n := After(k, s, actions); n.ledger.lost == [e] && n.queue == [d2] && !n.closed
  {
    var k := Config(1, true);
    var s7 := Step(k, s, Admit(d2));
    var s8 := Step(k, s7, Try(2));
    var s9 := Step(k, s8, TryLast(1));
    assert s9.queue == [d2] && s9.calls[1] == Losing(e);
    RunStep(k, s9, Lose(1), []);
    actions := [Lose(1)] + [];
    RunStep(k, s8, TryLast(1), actions);
    actions := [TryLast(1)] + actions;
    RunStep(k, s7, Try(2), actions);
    actions := [Try(2)] + actions;
    RunStep(k, s, Admit(d2), actions);
    actions := [Admit(d2)] + actions;
  }

  /** Without a sink, and with room for one event, some run flushes a critical event that is neither written
      nor lost. */
  lemma SinkNeeded(k: Config, e: Event) returns (actions: seq<Action>)
    requires e.Critical? && !k.hasSink && k.maxRecords > 0
    ensures Run(k, EMPTY, actions)
    ensures var s := After(k, EMPTY, actions);
            && s.ledger.admitted == [e] == s.ledger.unsunk && s.ledger.written == [] && s.ledger.lost == [] && s.queue == [] && s.batch == []
  {
    var s1 := Step(k, EMPTY, Admit(e));
    var s2 := Step(k, s1, Try(0));
    assert s2.queue == [e];
    var s3 := Step(k, s2, Take(1));
    assert s3.batch == [e] && s3.queue == [];
    var s4 := Step(k, s3, Flush(true));
    assert Criticals([e]) == [e] by { assert [e][..0] == []; }
    RunStep(k, s3, Flush(true), []);
    actions := [Flush(true)] + [];
    RunStep(k, s2, Take(1), actions);
    actions := [Take(1)] + actions;
    RunStep(k, s1, Try(0), actions);
    actions := [Try(0)] + actions;
    RunStep(k, EMPTY, Admit(e), actions);
    actions := [Admit(e)] + actions;
  }

  /** With room for nothing, nothing is flushed. */
  lemma {:induction false} NoRoomNoFlush(k: Config, s: State, actions: seq<Action>)
    requires k.maxRecords == 0 && s.queue == [] && s.batch == [] && s.ledger.unsunk == [] && Run(k, s, actions)
    ensures After(k, s, actions).ledger.unsunk == []
    decreases |actions|
  {
    if actions != [] {
      NoRoomNoFlush(k, Step(k, s, actions[0]), actions[1..]);
    }
  }

  ghost predicate AlwaysAccounted(k: Config) {
    forall actions, p :: Run(k, EMPTY, actions) && OfCriticals(p) ==> AllAccounted(After(k, EMPTY, actions), p)
  }

  /** What becomes of a batch: with a sink its critical events are written when the sink takes them and lost when
      it does not; without one they are neither. */
  lemma FlushByAnswer(k: Config, s: State, ok: bool)
    requires Enabled(s, Flush(ok))
    ensures var n := Step(k, s, Flush(ok));
            && n.batch == [] && n.queue == s.queue && n.calls == s.calls && n.closed == s.closed
            && n.ledger.written == s.ledger.written + (if k.hasSink && ok then Criticals(s.batch) else [])
            && n.ledger.lost == s.ledger.lost + (if k.hasSink && !ok then Criticals(s.batch) else [])
            && n.ledger.unsunk == s.ledger.unsunk + (if k.hasSink then [] else Criticals(s.batch))
  {
  }

  /** A Service accounts for every critical event on every run exactly when it has a sink, or room for
      nothing. */
  lemma SinkNeededIff(k: Config)
    ensures AlwaysAccounted(k) <==> k.hasSink || k.maxRecords == 0
  {
    if k.hasSink || k.maxRecords == 0 {
      forall actions, p | Run(k, EMPTY, actions) && OfCriticals(p)
        ensures AllAccounted(After(k, EMPTY, actions), p)
      {
        CriticalsConserved(k, actions, p);
        if k.maxRecords == 0 { NoRoomNoFlush(k, EMPTY, actions); }
      }
    } else {
      var e := Critical(0);
      var p: Choice := x => x == e;
      var actions := SinkNeeded(k, e);
      CriticalsConserved(k, actions, p);
      TallySnoc([], e, p);
      assert [] + [e] == [e];
      assert !AllAccounted(After(k, EMPTY, actions), p);
    }
  }
}
