/**
 requestLogger (internal/app/request_log.go): any number of loggers hand lines to a drain that exists
 only while there is something to write. One step for every channel or atomic operation.
 */
module RequestLog {

  const REQUEST_LOG_QUEUE: nat := 512

  type Tid = nat
  type Line(!new, ==)

  /** Where a thread is. A logger: Offering, Queued, Won. A drain: Draining, Holding, Emptied, Released, Rechecking. */
  datatype Phase =
    | Offering(line: Line)
    | Queued
    | Won
    | Draining
    | Holding(line: Line)
    | Emptied
    | Released
    | Rechecking
    | Gone

  datatype State = State(queue: seq<Line>, running: bool, threads: map<Tid, Phase>,
                         accepted: seq<Line>, dropped: seq<Line>, written: seq<Line>)

  function At(threads: map<Tid, Phase>, t: Tid): Phase {
    if t in threads then threads[t] else Gone
  }

  /** Thread `t` is at `phase` now, the others where they were. */
  ghost predicate Moved(before: map<Tid, Phase>, after: map<Tid, Phase>, t: Tid, phase: Phase) {
    At(after, t) == phase && forall u: Tid :: u != t ==> At(after, u) == At(before, u)
  }

  ghost predicate Init(s: State) {
    s.queue == [] && !s.running && s.threads == map[] && s.accepted == [] && s.dropped == [] && s.written == []
  }

  datatype Action =
    | Begin(line: Line)  // a request finishes
    | Offer              // the channel send, or the drop when the queue is full
    | Raise              // the logger's CompareAndSwap(false, true)
    | Start(drain: Tid)  // go l.drain()
    | Take               // the drain's receive, or its default when the queue is empty
    | Write              // logRequest
    | Release            // running.Store(false)
    | Look               // len(l.queue) == 0
    | Retake             // the drain's CompareAndSwap(false, true)

  ghost predicate Next(s: State, n: State, t: Tid, a: Action) {
    match a
    case Begin(line) =>
      && At(s.threads, t).Gone? && Moved(s.threads, n.threads, t, Offering(line))
      && n.queue == s.queue && n.running == s.running && n.accepted == s.accepted && n.dropped == s.dropped && n.written == s.written
    case Offer =>
      && At(s.threads, t).Offering? && n.running == s.running && n.written == s.written
      && var line := At(s.threads, t).line;
         if |s.queue| < REQUEST_LOG_QUEUE then
           && Moved(s.threads, n.threads, t, Queued)
           && n.queue == s.queue + [line] && n.accepted == s.accepted + [line] && n.dropped == s.dropped
         else
           && Moved(s.threads, n.threads, t, Gone)
           && n.queue == s.queue && n.accepted == s.accepted && n.dropped == s.dropped + [line]
    case Raise =>
      && At(s.threads, t).Queued? && Moved(s.threads, n.threads, t, if s.running then Gone else Won) && n.running
      && n.queue == s.queue && n.accepted == s.accepted && n.dropped == s.dropped && n.written == s.written
    case Start(drain) =>
      && At(s.threads, t).Won? && At(s.threads, drain).Gone? && At(n.threads, t).Gone? && At(n.threads, drain).Draining?
      && (forall u: Tid :: u != t && u != drain ==> At(n.threads, u) == At(s.threads, u))
      && n.running == s.running && n.queue == s.queue && n.accepted == s.accepted && n.dropped == s.dropped && n.written == s.written
    case Take =>
      && At(s.threads, t).Draining? && n.running == s.running
      && n.accepted == s.accepted && n.dropped == s.dropped && n.written == s.written
      && if s.queue != [] then Moved(s.threads, n.threads, t, Holding(s.queue[0])) && n.queue == s.queue[1..]
         else Moved(s.threads, n.threads, t, Emptied) && n.queue == s.queue
    case Write =>
      && At(s.threads, t).Holding? && Moved(s.threads, n.threads, t, Draining) && n.written == s.written + [At(s.threads, t).line]
      && n.running == s.running && n.queue == s.queue && n.accepted == s.accepted && n.dropped == s.dropped
    case Release =>
      && At(s.threads, t).Emptied? && Moved(s.threads, n.threads, t, Released) && !n.running
      && n.queue == s.queue && n.accepted == s.accepted && n.dropped == s.dropped && n.written == s.written
    case Look =>
      && At(s.threads, t).Released? && Moved(s.threads, n.threads, t, if s.queue == [] then Gone else Rechecking)
      && n.running == s.running && n.queue == s.queue && n.accepted == s.accepted && n.dropped == s.dropped && n.written == s.written
    case Retake =>
      && At(s.threads, t).Rechecking? && Moved(s.threads, n.threads, t, if s.running then Gone else Draining) && n.running
      && n.queue == s.queue && n.accepted == s.accepted && n.dropped == s.dropped && n.written == s.written
  }

  /** A run: states and the steps between them. */
  ghost predicate Run(states: seq<State>, threads: seq<Tid>, actions: seq<Action>) {
    && |states| == |threads| + 1 == |actions| + 1 && Init(states[0])
    && forall i :: 0 <= i < |actions| ==> Next(states[i], states[i + 1], threads[i], actions[i])
  }

  // ------------------------------------------------------------ what every step keeps

  /** The thread that owns draining: the logger that is to start a drain, or the drain until it lets go. */
  predicate Owns(p: Phase) { p.Won? || p.Draining? || p.Holding? || p.Emptied? }

  /** A thread that has yet to look at `running` after the queue last filled. */
  predicate WillLook(p: Phase) { p.Queued? || p.Released? || p.Rechecking? }

  ghost predicate OneOwner(s: State) {
    && (s.running <==> exists t: Tid :: Owns(At(s.threads, t)))
    && forall t: Tid, u: Tid :: Owns(At(s.threads, t)) && Owns(At(s.threads, u)) ==> t == u
  }

  ghost predicate Awake(s: State) {
    s.queue != [] && !s.running ==> exists t: Tid :: WillLook(At(s.threads, t))
  }

  /** Nothing is lost or reordered: what was accepted is written, in hand, or queued, in that order. */
  ghost predicate Conserved(s: State) {
    && |s.queue| <= REQUEST_LOG_QUEUE
    && (forall t: Tid :: At(s.threads, t).Holding? ==> s.accepted == s.written + [At(s.threads, t).line] + s.queue)
    && ((forall t: Tid :: !At(s.threads, t).Holding?) ==> s.accepted == s.written + s.queue)
  }

  ghost predicate Inv(s: State) { OneOwner(s) && Awake(s) && Conserved(s) }

  lemma OwnerStep(s: State, n: State, t: Tid, a: Action)
    requires OneOwner(s) && Next(s, n, t, a)
    ensures OneOwner(n)
  {
    assert Owns(At(s.threads, t)) ==> s.running;
    if s.running && !Owns(At(s.threads, t)) {
      var owner: Tid :| Owns(At(s.threads, owner));
      assert At(n.threads, owner) == At(s.threads, owner);
    }
    assert Owns(At(n.threads, t)) || !Owns(At(n.threads, t));
    if a.Start? {
      assert Owns(At(n.threads, a.drain));
    }
  }

  lemma AwakeStep(s: State, n: State, t: Tid, a: Action)
    requires OneOwner(s) && Awake(s) && Next(s, n, t, a)
    ensures Awake(n)
  {
    if n.queue != [] && !n.running {
      if (a.Offer? && |s.queue| < REQUEST_LOG_QUEUE) || a.Release? {
        assert WillLook(At(n.threads, t));
      } else {
        assert Owns(At(s.threads, t)) ==> s.running;
        var u: Tid :| WillLook(At(s.threads, u));
        assert u == t ==> WillLook(At(n.threads, t));
        assert WillLook(At(n.threads, u));
      }
    }
  }

  lemma ConservedStep(s: State, n: State, t: Tid, a: Action)
    requires OneOwner(s) && Conserved(s) && Next(s, n, t, a)
    ensures Conserved(n)
  {
    match a
    case Take =>
      NoneHolding(s, t);
      if s.queue != [] {
        assert s.queue == [s.queue[0]] + s.queue[1..];
        assert At(n.threads, t).Holding?;
      }
    case Write =>
      assert s.written + [At(s.threads, t).line] + s.queue == n.written + n.queue;
      OnlyOneHolds(s, t);
    case Offer =>
      if u: Tid :| At(s.threads, u).Holding? {
        assert At(n.threads, u).Holding?;
        var line := At(s.threads, t).line;
        assert s.written + [At(s.threads, u).line] + s.queue + [line] == s.written + [At(s.threads, u).line] + (s.queue + [line]);
      } else {
        assert s.written + s.queue + [At(s.threads, t).line] == s.written + (s.queue + [At(s.threads, t).line]);
      }
    case _ =>
      forall u: Tid
        ensures At(s.threads, u).Holding? <==> At(n.threads, u).Holding?
      {
      }
  }

  lemma NoneHolding(s: State, t: Tid)
    requires OneOwner(s) && At(s.threads, t).Draining?
    ensures forall u: Tid :: !At(s.threads, u).Holding?
  {
    forall u: Tid
      ensures !At(s.threads, u).Holding?
    {
      assert Owns(At(s.threads, t));
      assert Owns(At(s.threads, u)) ==> u == t;
    }
  }

  lemma OnlyOneHolds(s: State, t: Tid)
    requires OneOwner(s) && At(s.threads, t).Holding?
    ensures forall u: Tid :: u != t ==> !At(s.threads, u).Holding?
  {
    forall u: Tid | u != t
      ensures !At(s.threads, u).Holding?
    {
      assert Owns(At(s.threads, t));
      assert Owns(At(s.threads, u)) ==> u == t;
    }
  }

  lemma {:induction false} RunKeeps(states: seq<State>, threads: seq<Tid>, actions: seq<Action>, i: nat)
    requires Run(states, threads, actions) && i < |states|
    ensures Inv(states[i])
    decreases i
  {
    if i == 0 {
      assert forall t: Tid :: At(states[0].threads, t).Gone?;
    } else {
      RunKeeps(states, threads, actions, i - 1);
      assert Next(states[i - 1], states[i], threads[i - 1], actions[i - 1]);
      OwnerStep(states[i - 1], states[i], threads[i - 1], actions[i - 1]);
      AwakeStep(states[i - 1], states[i], threads[i - 1], actions[i - 1]);
      ConservedStep(states[i - 1], states[i], threads[i - 1], actions[i - 1]);
    }
  }

  /** No thread is between looking at the queue and acting on it. */
  ghost predicate Settled(s: State) {
    forall t: Tid :: var p := At(s.threads, t); p.Gone? || Owns(p)
  }

  /** On every run: running says whether exactly one thread owns draining, and once no thread is mid-step
      a queue that is not empty has that owner. */
  lemma NoLostWakeup(states: seq<State>, threads: seq<Tid>, actions: seq<Action>, i: nat)
    requires Run(states, threads, actions) && i < |states|
    ensures states[i].running <==> exists t: Tid :: Owns(At(states[i].threads, t))
    ensures forall t: Tid, u: Tid :: Owns(At(states[i].threads, t)) && Owns(At(states[i].threads, u)) ==> t == u
    ensures Settled(states[i]) && states[i].queue != [] ==> exists t: Tid :: Owns(At(states[i].threads, t))
  {
    RunKeeps(states, threads, actions, i);
  }

  /** When every thread has finished, every accepted line has been written, in the order accepted, and
      the flag is down for the next logger. */
  lemma AllWritten(states: seq<State>, threads: seq<Tid>, actions: seq<Action>, i: nat)
    requires Run(states, threads, actions) && i < |states|
    requires forall t: Tid :: At(states[i].threads, t).Gone?
    ensures states[i].written == states[i].accepted && states[i].queue == [] && !states[i].running
  {
    RunKeeps(states, threads, actions, i);
    assert states[i].written + [] == states[i].written;
  }

  /** On every run a line offered is accepted, or dropped, and dropped exactly when the queue holds 512; no
      other step touches what was accepted or dropped. */
  lemma AcceptedOrDropped(states: seq<State>, threads: seq<Tid>, actions: seq<Action>, i: nat)
    requires Run(states, threads, actions) && i < |actions|
    ensures states[0].accepted == [] && states[0].dropped == [] && |states[i].queue| <= 512
    ensures var s, n := states[i], states[i + 1];
            if actions[i].Offer? && At(s.threads, threads[i]).Offering? then
              if |s.queue| == 512 then n.accepted == s.accepted && n.dropped == s.dropped + [At(s.threads, threads[i]).line]
              else n.accepted == s.accepted + [At(s.threads, threads[i]).line] && n.dropped == s.dropped
            else n.accepted == s.accepted && n.dropped == s.dropped
  {
    RunKeeps(states, threads, actions, i);
    assert Next(states[i], states[i + 1], threads[i], actions[i]);
  }
}
