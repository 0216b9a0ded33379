/**
 Whether every candidate of dispatchAttempts (internal/ingress/dispatch.go) gets its turn, and when the
 budget of ten requests a model (internal/ingress/combo_serving.go) starves a later one.
 */
module DispatchTurns {
  import opened Prelude
  import opened DispatchScript
  import opened DispatchTheorems

  ghost predicate Reached(events: seq<Event>, i: nat) { exists j :: 0 <= j < |events| && events[j].slot == i }

  lemma ReachedAfter(a: seq<Event>, b: seq<Event>, i: nat)
    ensures Reached(a + b, i) <==> Reached(a, i) || Reached(b, i)
  {
    if j :| 0 <= j < |a| && a[j].slot == i {
      assert (a + b)[j].slot == i;
    }
    if j :| 0 <= j < |b| && b[j].slot == i {
      assert (a + b)[|a| + j].slot == i;
    }
  }

  lemma StoppedAfter(a: seq<Event>, b: seq<Event>)
    ensures Stopped(a + b) <==> if b == [] then Stopped(a) else Stopped(b)
  {
    if b == [] {
      assert a + b == a;
    }
  }

  lemma RestNotStopped(a: seq<Event>, b: seq<Event>, used: nat, cap: nat)
    requires !Stopped(a) && !Stopped(a + b) && used + SentIn(a + b) < cap
    ensures !Stopped(b) && used + SentIn(a) + SentIn(b) < cap
  {
    SentConcat(a, b);
    StoppedAfter(a, b);
  }

  lemma FirstReached(events: seq<Event>, i: nat)
    requires events != [] && AllAt(events, i)
    ensures Reached(events, i)
  {
    assert events[0].slot == i;
  }

  ghost predicate EventsThereAt(events: seq<Event>, i: nat, used: nat, cap: nat) {
    AllAt(events, i) && (events == [] ==> used == cap) && used + SentIn(events) <= cap
  }

  lemma {:induction false} InOrderReaches(at: (nat, nat) -> seq<Event>, count: nat, cap: nat, index: nat, used: nat, i: nat)
    requires index <= i < count && used <= cap
    requires forall j, u :: 0 <= j < count && 0 <= u <= cap ==> EventsThereAt(at(j, u), j, u, cap)
    requires var all := InOrder(at, count, index, used); !Stopped(all) && used + SentIn(all) < cap
    ensures Reached(InOrder(at, count, index, used), i)
    decreases i - index
  {
    var events := at(index, used);
    assert EventsThereAt(events, index, used, cap);
    var rest := InOrder(at, count, index + 1, used + SentIn(events));
    RestNotStopped(events, rest, used, cap);
    FirstReached(events, index);
    if index < i {
      InOrderReaches(at, count, cap, index + 1, used + SentIn(events), i);
    }
    ReachedAfter(events, rest, i);
  }

  /** A request that ends unanswered, with budget left, has had every candidate considered. */
  lemma EveryCandidateConsidered(w: World, k: Route, i: nat)
    requires i < |k.slots| && !Stopped(WholeWalk(w, k)) && SentIn(WholeWalk(w, k)) < k.cap
    ensures Reached(WholeWalk(w, k), i)
  {
    forall j, u | 0 <= j < |k.slots| && 0 <= u <= k.cap
      ensures EventsThereAt(EventsIn(w, k)(j, u), j, u, k.cap)
    {
      EventsThere(w, k, j, u);
      EventsShaped(w, k, j, u);
    }
    InOrderReaches(EventsIn(w, k), |k.slots|, k.cap, 0, 0, i);
  }

  /** Every candidate fails in a way that lets the next one be tried, and nobody leaves. */
  ghost predicate Failing(w: World) {
    && Calm(w)
    && (forall i :: w.prep(i).NoCredential? ==> !w.prep(i).required)
    && forall i, pass :: FailingTurn(w.turn(i, pass))
  }

  predicate FailingTurn(t: Turn) {
    match t
    case NotAllowed => false
    case Success(_, _, _, reports, _) => reports.GetOr(Stand).AllowsFallback()
    case Refusal(_, _, readable, _, outcome, _, _) => readable && outcome.AllowsFallback()
    case _ => true
  }

  function Share(slot: Slot): nat { if slot.unavailable.Some? then 0 else Most(slot) }

  /** The requests these candidates can take together. */
  function Needed(slots: seq<Slot>): nat {
    if slots == [] then 0 else Share(slots[0]) + Needed(slots[1..])
  }

  /** Where every candidate fails, only a used-up budget ends the request early. */
  lemma FailingStopsAtCap(w: World, k: Route, e: Event, used: nat)
    requires Failing(w) && Genuine(w, k, e, used) && HasMore(k, e.slot) && used < k.cap
    ensures !Stops(e)
  {
    if e.Turned? {
      var pass, retry, escalated :| e.turn == w.turn(e.slot, pass)
        && e.step == StepOf(e.turn, e.slot, k.slots[e.slot], HasMore(k, e.slot), used, k.cap, e.endpointAttempt, retry, escalated);
      assert CalmTurn(w.turn(e.slot, pass)) && FailingTurn(w.turn(e.slot, pass));
    }
  }

  lemma FailingGoesOn(w: World, k: Route, index: nat, used: nat)
    requires Failing(w) && index < |k.slots| && HasMore(k, index)
    requires used + Share(k.slots[index]) < k.cap
    ensures var events := EventsOf(w, k, index, used); events != [] && !Stopped(events)
  {
    var events := EventsOf(w, k, index, used);
    EventsThere(w, k, index, used);
    EventsShaped(w, k, index, used);
    EventsGenuine(w, k, index, used);
    GenuineAt(w, k, events, used, |events| - 1);
    assert events[..|events| - 1 + 1] == events;
    FailingStopsAtCap(w, k, events[|events| - 1], used + SentIn(events));
  }

  /** A walk is its first candidate's events and, unless they end it, the walk after them. */
  lemma Split(w: World, k: Route, index: nat, used: nat) returns (events: seq<Event>, rest: seq<Event>, now: nat)
    requires index < |k.slots|
    ensures events == EventsOf(w, k, index, used) && now == used + SentIn(events) && Walk(w, k, index, used) == events + rest
    ensures rest == if events == [] || Stopped(events) then [] else Walk(w, k, index + 1, now)
  {
    events := EventsOf(w, k, index, used);
    now := used + SentIn(events);
    rest := if events == [] || Stopped(events) then [] else Walk(w, k, index + 1, now);
  }

  /** A candidate that leaves budget passes the request on. */
  lemma FailingPassesOn(w: World, k: Route, index: nat, used: nat) returns (events: seq<Event>, now: nat)
    requires Failing(w) && index < |k.slots| && HasMore(k, index) && used + Share(k.slots[index]) < k.cap
    ensures now <= used + Share(k.slots[index]) && Walk(w, k, index, used) == events + Walk(w, k, index + 1, now)
  {
    FailingGoesOn(w, k, index, used);
    EventsShaped(w, k, index, used);
    var rest;
    events, rest, now := Split(w, k, index, used);
  }

  lemma HereReached(w: World, k: Route, index: nat, used: nat)
    requires index < |k.slots| && used < k.cap
    ensures Reached(Walk(w, k, index, used), index)
  {
    var events := EventsOf(w, k, index, used);
    EventsThere(w, k, index, used);
    assert Walk(w, k, index, used)[0] == events[0];
  }

  lemma {:induction false} EnoughReaches(w: World, k: Route, index: nat, used: nat, i: nat)
    requires Failing(w) && index <= i < |k.slots| && used + Needed(k.slots[index..i]) < k.cap
    ensures Reached(Walk(w, k, index, used), i)
    decreases i - index
  {
    if index == i {
      HereReached(w, k, index, used);
    } else {
      assert k.slots[index..i][1..] == k.slots[index + 1..i];
      var events, now := FailingPassesOn(w, k, index, used);
      EnoughReaches(w, k, index + 1, now, i);
      ReachedAfter(events, Walk(w, k, index + 1, now), i);
    }
  }

  /** Hosts refuse with 401 but for the last; that one refuses the wire with 400, if the request may be
      replayed on another, and answers 409: a candidate takes all the requests it can. */
  function BusyTurn(slot: Slot, pass: nat): Turn {
    if pass + 1 < Hosts(slot) then Refusal(401, false, true, false, FallBack, false, 0)
    else if pass + 1 == Hosts(slot) && slot.rewires then Refusal(400, false, true, true, FallBack, false, 0)
    else Refusal(409, false, true, false, RetrySameAccount, false, 0)
  }

  /** Where a busy candidate's loop stands at a turn. */
  predicate BusyAt(slot: Slot, pass: nat, endpointAttempt: nat, retry: nat, escalated: bool) {
    && retry < 2
    && if pass < Hosts(slot) then endpointAttempt == pass && retry == 0 && !escalated
       else endpointAttempt == Hosts(slot) - 1 && (slot.rewires ==> escalated)
  }

  ghost predicate BusyAll(w: World, k: Route) {
    && (forall i :: w.prep(i) == Ready && !w.waitLeft(i) && !w.escalated(i))
    && forall i, pass :: 0 <= i < |k.slots| ==> w.turn(i, pass) == BusyTurn(k.slots[i], pass)
  }

  /** One turn of a busy candidate: it has another exactly while it has requests and budget left. */
  lemma BusyStep(index: nat, slot: Slot, used: nat, cap: nat, pass: nat, endpointAttempt: nat, retry: nat, escalated: bool)
    requires BusyAt(slot, pass, endpointAttempt, retry, escalated)
    ensures var step := StepOf(BusyTurn(slot, pass), index, slot, true, used, cap, endpointAttempt, retry, escalated);
            && (step.Again? <==> used < cap && Remaining(slot, endpointAttempt, retry, escalated) > 1)
            && (step.Again? ==> BusyAt(slot, pass + 1, step.endpointAttempt, step.retry, step.escalated))
  {
  }

  lemma {:induction false} BusyTurns(w: World, k: Route, index: nat, used: nat, pass: nat, endpointAttempt: nat, retry: nat, escalated: bool)
    requires BusyAll(w, k) && index < |k.slots| && HasMore(k, index) && used <= k.cap
    requires BusyAt(k.slots[index], pass, endpointAttempt, retry, escalated)
    ensures SentIn(Turns(w, k, index, used, pass, endpointAttempt, retry, escalated)) ==
            Min(k.cap - used, Remaining(k.slots[index], endpointAttempt, retry, escalated))
    decreases k.cap - used
  {
    if used < k.cap {
      var slot, t := k.slots[index], w.turn(index, pass);
      assert t == BusyTurn(slot, pass);
      var step := StepOf(t, index, slot, true, used + 1, k.cap, endpointAttempt, retry, escalated);
      BusyStep(index, slot, used + 1, k.cap, pass, endpointAttempt, retry, escalated);
      AgainUsesOne(t, index, slot, true, used + 1, k.cap, endpointAttempt, retry, escalated);
      OneShaped(Turned(index, t, endpointAttempt, step));
      if step.Again? {
        BusyTurns(w, k, index, used + 1, pass + 1, step.endpointAttempt, step.retry, step.escalated);
        SentConcat([Turned(index, t, endpointAttempt, step)], Turns(w, k, index, used + 1, pass + 1, step.endpointAttempt, step.retry, step.escalated));
      }
    }
  }

  /** A busy candidate takes its share of the budget. */
  lemma BusyTakes(w: World, k: Route, index: nat, used: nat)
    requires BusyAll(w, k) && index < |k.slots| && HasMore(k, index) && used <= k.cap
    ensures Min(k.cap, used + Share(k.slots[index])) <= used + SentIn(EventsOf(w, k, index, used)) <= k.cap
  {
    EventsShaped(w, k, index, used);
    if k.slots[index].unavailable.None? {
      BusyTurns(w, k, index, used, 0, 0, 0, false);
    }
  }

  lemma BusyPassesOn(w: World, k: Route, index: nat, used: nat) returns (events: seq<Event>, rest: seq<Event>, now: nat)
    requires BusyAll(w, k) && index < |k.slots| && HasMore(k, index) && used <= k.cap
    ensures Walk(w, k, index, used) == events + rest && (rest == [] || rest == Walk(w, k, index + 1, now))
    ensures AllAt(events, index) && now <= k.cap && now >= Min(k.cap, used + Share(k.slots[index]))
  {
    BusyTakes(w, k, index, used);
    EventsThere(w, k, index, used);
    events, rest, now := Split(w, k, index, used);
  }

  lemma {:induction false} BusyStarves(w: World, k: Route, index: nat, used: nat, i: nat)
    requires BusyAll(w, k) && index <= i < |k.slots| && k.slots[i].unavailable.None?
    requires used <= k.cap <= used + Needed(k.slots[index..i])
    ensures !Reached(Walk(w, k, index, used), i)
    decreases i - index
  {
    if index < i {
      var events, rest, now := BusyPassesOn(w, k, index, used);
      assert k.slots[index..i][1..] == k.slots[index + 1..i];
      if rest != [] {
        BusyStarves(w, k, index + 1, now, i);
      }
      ReachedAfter(events, rest, i);
    }
  }

  function Busy(k: Route): World {
    World(i => false, i => Ready, i => false, (i: nat, pass: nat) => if i < |k.slots| then BusyTurn(k.slots[i], pass) else Lost(false, 0), false)
  }

  lemma BusyFails(k: Route)
    ensures BusyAll(Busy(k), k) && Failing(Busy(k))
  {
  }

  /** A candidate that has an account is tried whatever happens to those before it, as long as
      they all fail, exactly when the requests they can take together leave budget. */
  lemma NeverStarvedIff(k: Route, i: nat)
    requires i < |k.slots| && k.slots[i].unavailable.None?
    ensures (forall w :: Failing(w) ==> Reached(WholeWalk(w, k), i)) <==> Needed(k.slots[..i]) < k.cap
  {
    assert k.slots[0..i] == k.slots[..i];
    if Needed(k.slots[..i]) < k.cap {
      forall w | Failing(w)
        ensures Reached(WholeWalk(w, k), i)
      {
        EnoughReaches(w, k, 0, 0, i);
      }
    } else {
      BusyFails(k);
      BusyStarves(Busy(k), k, 0, 0, i);
      assert !Reached(WholeWalk(Busy(k), k), i);
    }
  }

  lemma {:induction false} PlainNeeds(slots: seq<Slot>)
    requires forall i :: 0 <= i < |slots| ==> slots[i].unavailable.None? && !slots[i].kiro && !slots[i].rewires
    ensures Needed(slots) == 2 * |slots|
  {
    if slots != [] {
      PlainNeeds(slots[1..]);
    }
  }

  /** Ten accounts of the first of two models, each retried once, leave the second model untried: the budget
      of ten requests a model does not keep a later model from starving. */
  lemma EarlierModelStarves(k: Route)
    requires k.cap == 20 && |k.slots| > 10 && k.slots[10].unavailable.None?
    requires forall i :: 0 <= i < 10 ==> k.slots[i].unavailable.None? && !k.slots[i].kiro && !k.slots[i].rewires
    ensures exists w :: Failing(w) && !Reached(WholeWalk(w, k), 10)
  {
    PlainNeeds(k.slots[..10]);
    NeverStarvedIff(k, 10);
  }
}
