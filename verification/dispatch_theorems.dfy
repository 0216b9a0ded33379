/**
 What the script of dispatchAttempts (internal/ingress/dispatch.go) promises: where requests go and how
 many, which accounts are cooled, and whether every candidate gets its turn.
 */
module DispatchTheorems {
  import opened Prelude
  import opened DispatchScript

  // ------------------------------------------------------------ the shape of a walk

  /** A turn after which the same candidate has another. */
  predicate Quiet(e: Event) { e.Turned? && e.turn.Refusal? && e.step.Again? }

  /** Candidates in order, and only the last event of a candidate may pass on or stop. */
  predicate Shaped(events: seq<Event>) {
    && (forall j, l :: 0 <= j < l < |events| ==> events[j].slot < events[l].slot || (events[j].slot == events[l].slot && Quiet(events[j])))
    && (forall j :: 0 <= j < |events| - 1 ==> !Stops(events[j]))
  }

  predicate From(events: seq<Event>, index: nat, count: nat) {
    forall j :: 0 <= j < |events| ==> index <= events[j].slot < count
  }

  /** Endpoints a candidate's provider walks. */
  function Hosts(slot: Slot): nat { if slot.kiro then Max(slot.hosts, 1) else 1 }

  /** Requests a candidate has left: each endpoint once, one retry, and one replay on another wire. */
  function Remaining(slot: Slot, endpointAttempt: nat, retry: nat, escalated: bool): nat
    requires endpointAttempt < Hosts(slot) && retry < 2
  {
    Hosts(slot) - endpointAttempt + (1 - retry) + if escalated || !slot.rewires then 0 else 1
  }

  /** The most requests one candidate can take. */
  function Most(slot: Slot): nat { Hosts(slot) + if slot.rewires then 2 else 1 }

  /** The outcome of an answer that was read whole. */
  function OutcomeIn(t: Turn): Outcome {
    if t.Success? then t.reports.GetOr(Stand) else if t.Refusal? then t.outcome else Stand
  }

  predicate ReadIn(t: Turn) { t.Refusal? ==> t.readable }

  /** Another turn of the same candidate comes only after a refusal, and uses up one of its requests. */
  lemma AgainUsesOne(t: Turn, index: nat, slot: Slot, hasMore: bool, used: nat, cap: nat, endpointAttempt: nat, retry: nat, escalated: bool)
    requires endpointAttempt < Hosts(slot) && retry < 2
    ensures var step := StepOf(t, index, slot, hasMore, used, cap, endpointAttempt, retry, escalated);
            step.Again? ==> && t.Refusal? && step.endpointAttempt < Hosts(slot) && step.retry < 2 && used < cap
                            && Remaining(slot, step.endpointAttempt, step.retry, step.escalated) == Remaining(slot, endpointAttempt, retry, escalated) - 1
  {
  }

  lemma OneShaped(e: Event)
    ensures Shaped([e]) && SentIn([e]) == if IsSend(e) then 1 else 0
  {
    assert [e][..0] == [];
  }

  lemma ShapedAfter(e: Event, rest: seq<Event>)
    requires Quiet(e) && AllAt(rest, e.slot) && Shaped(rest)
    ensures Shaped([e] + rest) && AllAt([e] + rest, e.slot)
  {
  }

  lemma ShapedJoin(a: seq<Event>, b: seq<Event>, index: nat, count: nat)
    requires AllAt(a, index) && Shaped(a) && !Stopped(a) && From(b, index + 1, count) && Shaped(b) && index < count
    ensures Shaped(a + b) && From(a + b, index, count)
  {
  }

  /** The turns of a candidate from here on. */
  lemma {:induction false} TurnsShaped(w: World, k: Route, index: nat, used: nat, pass: nat, endpointAttempt: nat, retry: nat, escalated: bool)
    requires index < |k.slots| && used <= k.cap && retry < 2 && endpointAttempt < Hosts(k.slots[index])
    ensures var turns := Turns(w, k, index, used, pass, endpointAttempt, retry, escalated);
            Shaped(turns) && AllAt(turns, index) && SentIn(turns) <= Remaining(k.slots[index], endpointAttempt, retry, escalated) && used + SentIn(turns) <= k.cap
    decreases k.cap - used
  {
    if used < k.cap {
      var t := w.turn(index, pass);
      var now := used + if Sends(t) then 1 else 0;
      var hasMore := k.combo || index + 1 < |k.slots|;
      var step := StepOf(t, index, k.slots[index], hasMore, now, k.cap, endpointAttempt, retry, escalated);
      var e := Turned(index, t, endpointAttempt, step);
      AgainUsesOne(t, index, k.slots[index], hasMore, now, k.cap, endpointAttempt, retry, escalated);
      OneShaped(e);
      var rest := if step.Again? then Turns(w, k, index, now, pass + 1, step.endpointAttempt, step.retry, step.escalated) else [];
      assert Turns(w, k, index, used, pass, endpointAttempt, retry, escalated) == [e] + rest;
      if step.Again? {
        TurnsShaped(w, k, index, now, pass + 1, step.endpointAttempt, step.retry, step.escalated);
        SentConcat([e], rest);
        ShapedAfter(e, rest);
      }
    }
  }

  // ------------------------------------------------------------ requests

  /** Requests sent to one candidate. */
  function SentTo(events: seq<Event>, i: nat): nat {
    if events == [] then 0
    else SentTo(events[..|events| - 1], i) + if IsSend(events[|events| - 1]) && events[|events| - 1].slot == i then 1 else 0
  }

  lemma {:induction false} SentToConcat(a: seq<Event>, b: seq<Event>, i: nat)
    ensures SentTo(a + b, i) == SentTo(a, i) + SentTo(b, i)
  {
    if b == [] {
      assert a + b == a;
    } else {
      var front := b[..|b| - 1];
      assert (a + b)[..|a + b| - 1] == a + front;
      SentToConcat(a, front, i);
    }
  }

  lemma {:induction false} SentToOne(events: seq<Event>, index: nat, i: nat)
    requires AllAt(events, index)
    ensures SentTo(events, i) == if i == index then SentIn(events) else 0
  {
    if events != [] {
      SentToOne(events[..|events| - 1], index, i);
    }
  }

  lemma {:induction false} SentToNone(events: seq<Event>, index: nat, count: nat, i: nat)
    requires From(events, index, count) && i < index
    ensures SentTo(events, i) == 0
  {
    if events != [] {
      SentToNone(events[..|events| - 1], index, count, i);
    }
  }

  /** Requests go to candidates that have an account and could be readied. */
  predicate ToReadied(w: World, k: Route, events: seq<Event>) {
    forall j :: 0 <= j < |events| && events[j].Turned? && events[j].slot < |k.slots| ==>
      k.slots[events[j].slot].unavailable.None? && w.prep(events[j].slot).Ready?
  }

  /** A candidate's events: one, none, or its turns. */
  lemma EventsShaped(w: World, k: Route, index: nat, used: nat)
    requires index < |k.slots| && used <= k.cap
    ensures var events := EventsOf(w, k, index, used);
            && Shaped(events) && AllAt(events, index) && SentIn(events) <= Most(k.slots[index]) && used + SentIn(events) <= k.cap
            && (k.slots[index].unavailable.Some? ==> SentIn(events) == 0)
  {
    var events := EventsOf(w, k, index, used);
    if !LeftWaiting(w, k, index) && k.slots[index].unavailable.None? && used < k.cap && w.prep(index).Ready? {
      TurnsShaped(w, k, index, used, 0, 0, 0, w.escalated(index));
    } else if events != [] {
      OneShaped(events[0]);
      assert events == [events[0]] && !IsSend(events[0]);
    }
  }

  lemma EventsReadied(w: World, k: Route, index: nat, used: nat)
    requires index < |k.slots| && used <= k.cap
    ensures ToReadied(w, k, EventsOf(w, k, index, used))
  {
    EventsThere(w, k, index, used);
  }

  /** What a walk from candidate `index` on keeps. */
  ghost predicate Keeps(w: World, k: Route, events: seq<Event>, index: nat, used: nat) {
    && Shaped(events) && From(events, index, |k.slots|) && ToReadied(w, k, events) && used + SentIn(events) <= k.cap
    && forall i :: 0 <= i < |k.slots| ==> SentTo(events, i) <= Most(k.slots[i])
  }

  /** One candidate's requests and those of the candidates after it. */
  lemma SentToJoin(events: seq<Event>, rest: seq<Event>, index: nat, count: nat, i: nat)
    requires AllAt(events, index) && From(rest, index + 1, count)
    ensures SentTo(events + rest, i) == if i == index then SentIn(events) else SentTo(rest, i)
  {
    SentToConcat(events, rest, i);
    SentToOne(events, index, i);
    if i == index {
      SentToNone(rest, index + 1, count, i);
    }
  }

  lemma ReadiedJoin(w: World, k: Route, a: seq<Event>, b: seq<Event>)
    requires ToReadied(w, k, a) && ToReadied(w, k, b)
    ensures ToReadied(w, k, a + b)
  {
  }

  /** One candidate's events keep it, and so do those of the candidates after it. */
  lemma JoinKeeps(w: World, k: Route, events: seq<Event>, rest: seq<Event>, index: nat, used: nat)
    requires index < |k.slots| && Shaped(events) && AllAt(events, index) && ToReadied(w, k, events)
    requires SentIn(events) <= Most(k.slots[index]) && !Stopped(events) && Keeps(w, k, rest, index + 1, used + SentIn(events))
    ensures Keeps(w, k, events + rest, index, used)
  {
    ShapedJoin(events, rest, index, |k.slots|);
    ReadiedJoin(w, k, events, rest);
    SentConcat(events, rest);
    forall i | 0 <= i < |k.slots|
      ensures SentTo(events + rest, i) <= Most(k.slots[i])
    {
      SentToJoin(events, rest, index, |k.slots|, i);
    }
  }

  lemma FirstKept(w: World, k: Route, i: nat, used: nat)
    requires i < |k.slots| && used <= k.cap
    ensures var events := EventsOf(w, k, i, used); Keeps(w, k, events, i, used) && used + SentIn(events) <= k.cap
  {
    var events := EventsOf(w, k, i, used);
    EventsShaped(w, k, i, used);
    EventsReadied(w, k, i, used);
    forall j | 0 <= j < |k.slots|
      ensures SentTo(events, j) <= Most(k.slots[j])
    {
      SentToOne(events, i, j);
    }
  }

  lemma RestKept(w: World, k: Route, i: nat, used: nat, rest: seq<Event>)
    requires i < |k.slots| && used <= k.cap
    requires var events := EventsOf(w, k, i, used); !Stopped(events) && Keeps(w, k, rest, i + 1, used + SentIn(events))
    ensures Keeps(w, k, EventsOf(w, k, i, used) + rest, i, used)
  {
    EventsShaped(w, k, i, used);
    EventsReadied(w, k, i, used);
    JoinKeeps(w, k, EventsOf(w, k, i, used), rest, i, used);
  }

  /** What each candidate's events keep, alone and before those of later candidates, a walk keeps. */
  lemma {:induction false} InOrderInduction(at: (nat, nat) -> seq<Event>, count: nat, cap: nat, keeps: (seq<Event>, nat, nat) -> bool, index: nat, used: nat)
    requires index <= count && used <= cap
    requires forall i, u :: 0 <= i < count && 0 <= u <= cap ==> keeps(at(i, u), i, u) && u + SentIn(at(i, u)) <= cap
    requires forall i, u, rest {:trigger keeps(at(i, u) + rest, i, u)} ::
               0 <= i < count && 0 <= u <= cap && !Stopped(at(i, u)) && keeps(rest, i + 1, u + SentIn(at(i, u))) ==> keeps(at(i, u) + rest, i, u)
    requires forall u :: 0 <= u <= cap ==> keeps([], count, u)
    ensures keeps(InOrder(at, count, index, used), index, used)
    decreases count - index
  {
    if index < count && at(index, used) != [] && !Stopped(at(index, used)) {
      InOrderInduction(at, count, cap, keeps, index + 1, used + SentIn(at(index, used)));
    }
  }

  lemma WalkKeeps(w: World, k: Route)
    ensures Keeps(w, k, WholeWalk(w, k), 0, 0)
  {
    var at := EventsIn(w, k);
    var keeps := (events: seq<Event>, i: nat, u: nat) => Keeps(w, k, events, i, u);
    forall i, u | 0 <= i < |k.slots| && 0 <= u <= k.cap
      ensures keeps(at(i, u), i, u) && u + SentIn(at(i, u)) <= k.cap
    {
      FirstKept(w, k, i, u);
    }
    forall i, u, rest | 0 <= i < |k.slots| && 0 <= u <= k.cap && !Stopped(at(i, u)) && keeps(rest, i + 1, u + SentIn(at(i, u)))
      ensures keeps(at(i, u) + rest, i, u)
    {
      RestKept(w, k, i, u, rest);
    }
    InOrderInduction(at, |k.slots|, k.cap, keeps, 0, 0);
  }

  /** The requests of a whole walk stay within the budget, go out in candidate order, only to candidates
      that have an account and could be readied, and to each at most once for every endpoint of its
      provider, once more for a retry and once more for a replay on another wire. */
  lemma RequestsBounded(w: World, k: Route)
    ensures var log := WholeWalk(w, k);
            && Shaped(log) && From(log, 0, |k.slots|) && ToReadied(w, k, log) && SentIn(log) <= k.cap
            && forall i :: 0 <= i < |k.slots| ==> SentTo(log, i) <= Most(k.slots[i])
  {
    WalkKeeps(w, k);
  }

  // ------------------------------------------------------------ accounts cooled for a refused credential

  /** The event shows the account's credential missing or refused. */
  predicate Marks(slots: seq<Slot>, e: Event) { CoolsAlways(e) || CoolsOnce(slots, e) }

  /** Two events of which at most one is a refusal by an upstream's status. */
  ghost predicate TwoMarks(slots: seq<Slot>, events: seq<Event>) {
    exists i, j :: 0 <= i < j < |events| && Marks(slots, events[i]) && Marks(slots, events[j]) && (CoolsAlways(events[i]) || CoolsAlways(events[j]))
  }

  lemma {:induction false} SomeCooledIff(slots: seq<Slot>, events: seq<Event>)
    ensures Cooled(slots, events) != [] <==> exists i :: 0 <= i < |events| && Marks(slots, events[i])
  {
    if events != [] {
      var front, last := events[..|events| - 1], events[|events| - 1];
      SomeCooledIff(slots, front);
      if i :| 0 <= i < |front| && Marks(slots, front[i]) {
        assert Marks(slots, events[i]);
      }
    }
  }

  /** A refusal seen before keeps further ones from cooling: two of them are not two marks. */
  lemma TwoMarksSnoc(slots: seq<Slot>, front: seq<Event>, last: Event)
    ensures TwoMarks(slots, front + [last]) <==>
            || TwoMarks(slots, front)
            || (CoolsAlways(last) && exists i :: 0 <= i < |front| && Marks(slots, front[i]))
            || (CoolsOnce(slots, last) && exists i :: 0 <= i < |front| && CoolsAlways(front[i]))
  {
    var events := front + [last];
    assert events[|front|] == last;
    if TwoMarks(slots, front) {
      var i, j :| 0 <= i < j < |front| && Marks(slots, front[i]) && Marks(slots, front[j]) && (CoolsAlways(front[i]) || CoolsAlways(front[j]));
      assert events[i] == front[i] && events[j] == front[j];
    }
    if i :| CoolsAlways(last) && 0 <= i < |front| && Marks(slots, front[i]) {
      assert events[i] == front[i];
    }
    if i :| CoolsOnce(slots, last) && 0 <= i < |front| && CoolsAlways(front[i]) {
      assert events[i] == front[i];
    }
    if TwoMarks(slots, events) {
      var i, j :| 0 <= i < j < |events| && Marks(slots, events[i]) && Marks(slots, events[j]) && (CoolsAlways(events[i]) || CoolsAlways(events[j]));
      assert events[i] == front[i];
      if j < |front| {
        assert events[j] == front[j];
      }
    }
  }

  /** A second candidate is cooled exactly when two events mark one and at most one of the two is a refusal
      by status. */
  lemma {:induction false} TwoCooledIff(slots: seq<Slot>, events: seq<Event>)
    ensures |Cooled(slots, events)| >= 2 <==> TwoMarks(slots, events)
  {
    if events != [] {
      var front, last := events[..|events| - 1], events[|events| - 1];
      assert front + [last] == events;
      TwoCooledIff(slots, front);
      SomeCooledIff(slots, front);
      TwoMarksSnoc(slots, front, last);
    }
  }

  /** How many events record their account whatever came before. */
  function Unguarded(events: seq<Event>): nat {
    if events == [] then 0 else Unguarded(events[..|events| - 1]) + if CoolsAlways(events[|events| - 1]) then 1 else 0
  }

  lemma {:induction false} CooledCount(slots: seq<Slot>, events: seq<Event>)
    ensures |Cooled(slots, events)| == Unguarded(events) + if RefusalSeen(slots, events) then 1 else 0
  {
    if events != [] {
      var front, last := events[..|events| - 1], events[|events| - 1];
      assert front + [last] == events;
      CooledCount(slots, front);
      SeenSnoc(slots, front, last);
    }
  }

  predicate Increasing(s: seq<nat>) { forall i, j :: 0 <= i < j < |s| ==> s[i] < s[j] }

  ghost predicate MarkedIn(slots: seq<Slot>, events: seq<Event>, c: nat) {
    exists j :: 0 <= j < |events| && Marks(slots, events[j]) && events[j].slot == c
  }

  lemma {:induction false} CooledIsMarked(slots: seq<Slot>, events: seq<Event>, c: nat)
    requires c in Cooled(slots, events)
    ensures MarkedIn(slots, events, c)
  {
    var front, last := events[..|events| - 1], events[|events| - 1];
    if c in Cooled(slots, front) {
      CooledIsMarked(slots, front, c);
      var j :| 0 <= j < |front| && Marks(slots, front[j]) && front[j].slot == c;
      assert events[j] == front[j];
    }
  }

  lemma {:induction false} CooledInOrder(slots: seq<Slot>, events: seq<Event>)
    requires Shaped(events)
    ensures Increasing(Cooled(slots, events))
  {
    if events != [] {
      var front, last := events[..|events| - 1], events[|events| - 1];
      CooledInOrder(slots, front);
      var before := Cooled(slots, front);
      forall i | 0 <= i < |before|
        ensures before[i] <= last.slot && (Marks(slots, last) ==> before[i] < last.slot)
      {
        CooledIsMarked(slots, front, before[i]);
        var j :| 0 <= j < |front| && Marks(slots, front[j]) && front[j].slot == before[i];
        assert events[j] == front[j] && !Quiet(front[j]);
      }
    }
  }

  /** The candidates cooled are distinct and in order; a second one is cooled exactly when two events of the
      walk mark a candidate and at most one of the two is a refusal by status. All refusals by status together
      cool one candidate, while missing credentials and failures reported in a success each cool theirs. */
  lemma SecondCooledIff(w: World, k: Route)
    ensures var log := WholeWalk(w, k); var cooled := Cooled(k.slots, log);
            && Increasing(cooled)
            && (|cooled| >= 2 <==> TwoMarks(k.slots, log))
            && |cooled| == Unguarded(log) + if RefusalSeen(k.slots, log) then 1 else 0
  {
    RequestsBounded(w, k);
    CooledInOrder(k.slots, WholeWalk(w, k));
    TwoCooledIff(k.slots, WholeWalk(w, k));
    CooledCount(k.slots, WholeWalk(w, k));
  }

  function Min(a: nat, b: nat): nat { if a < b then a else b }

  /** A success that reports the credential refused. */
  function Reported(text: int): Turn { Success(200, Whole, false, Some(AuthRefreshRequired), text) }

  /** Every candidate is ready, nobody leaves while waiting, and every answer is a success reporting the
      credential refused. */
  ghost predicate ReportsAll(w: World, text: int) {
    (forall i :: w.prep(i) == Ready && !w.waitLeft(i)) && forall i, pass :: w.turn(i, pass) == Reported(text)
  }

  function ReportedAt(k: Route, text: int, i: nat): Event {
    Turned(i, Reported(text), 0, if PassesOver(AuthRefreshRequired, true, k.combo || i + 1 < |k.slots|, i + 1, k.cap) then Next else Answered)
  }

  predicate ReportedFrom(k: Route, text: int, events: seq<Event>, index: nat) {
    forall j :: 0 <= j < |events| ==> events[j] == ReportedAt(k, text, index + j)
  }

  lemma ReportedOne(w: World, k: Route, text: int, index: nat)
    requires ReportsAll(w, text) && index < k.cap && index < |k.slots| && k.slots[index].unavailable.None?
    ensures EventsOf(w, k, index, index) == [ReportedAt(k, text, index)] && !LeftWaiting(w, k, index)
  {
    assert w.turn(index, 0) == Reported(text);
  }

  lemma ReportedAfter(k: Route, text: int, index: nat, rest: seq<Event>)
    requires ReportedFrom(k, text, rest, index + 1)
    ensures ReportedFrom(k, text, [ReportedAt(k, text, index)] + rest, index)
  {
    var events := [ReportedAt(k, text, index)] + rest;
    forall j | 0 <= j < |events|
      ensures events[j] == ReportedAt(k, text, index + j)
    {
      if j > 0 {
        assert events[j] == rest[j - 1] && index + j == index + 1 + (j - 1);
      }
    }
  }

  lemma ReportedStep(w: World, k: Route, text: int, index: nat) returns (rest: seq<Event>)
    requires ReportsAll(w, text) && index < Min(|k.slots|, k.cap) && k.slots[index].unavailable.None?
    ensures Walk(w, k, index, index) == [ReportedAt(k, text, index)] + rest
    ensures rest == Walk(w, k, index + 1, index + 1) || (rest == [] && index + 1 == Min(|k.slots|, k.cap))
  {
    var e := ReportedAt(k, text, index);
    ReportedOne(w, k, text, index);
    OneShaped(e);
    rest := if Stops(e) then [] else Walk(w, k, index + 1, index + 1);
  }

  lemma {:induction false} ReportedWalk(w: World, k: Route, text: int, index: nat)
    requires ReportsAll(w, text) && index <= Min(|k.slots|, k.cap) && forall i :: 0 <= i < |k.slots| ==> k.slots[i].unavailable.None?
    ensures var events := Walk(w, k, index, index); |events| == Min(|k.slots|, k.cap) - index && ReportedFrom(k, text, events, index)
    decreases |k.slots| - index
  {
    if index < Min(|k.slots|, k.cap) {
      var rest := ReportedStep(w, k, text, index);
      ReportedWalk(w, k, text, index + 1);
      ReportedAfter(k, text, index, rest);
    }
  }

  lemma {:induction false} ReportedCools(k: Route, text: int, events: seq<Event>)
    requires ReportedFrom(k, text, events, 0)
    ensures Cooled(k.slots, events) == seq(|events|, i => i)
  {
    if events != [] {
      var n := |events| - 1;
      ReportedCools(k, text, events[..n]);
      assert events[n] == ReportedAt(k, text, 0 + n);
    }
  }

  /** When every account reports its credential refused in a success, every account is cooled, as far as
      the budget goes: the bound of one that refusals by status obey does not hold here. */
  lemma ReportedRefusalsCoolAll(w: World, k: Route, text: int)
    requires ReportsAll(w, text) && forall i :: 0 <= i < |k.slots| ==> k.slots[i].unavailable.None?
    ensures Cooled(k.slots, WholeWalk(w, k)) == seq(Min(|k.slots|, k.cap), i => i)
  {
    ReportedWalk(w, k, text, 0);
    ReportedCools(k, text, WholeWalk(w, k));
  }

  // ------------------------------------------------------------ every event is what the surroundings made of it

  predicate HasMore(k: Route, i: nat) { k.combo || i + 1 < |k.slots| }

  /** The event is one the world gives, with `used` requests sent up to and with it. */
  ghost predicate Genuine(w: World, k: Route, e: Event, used: nat) {
    && e.slot < |k.slots|
    && match e
       case Waited(i) => w.waitLeft(i)
       case Skipped(i) => k.slots[i].unavailable.Some?
       case Prepared(i, prep) => prep == w.prep(i) && !prep.Ready?
       case Turned(i, t, endpointAttempt, step) =>
         exists pass, retry, escalated ::
           t == w.turn(i, pass) && step == StepOf(t, i, k.slots[i], HasMore(k, i), used, k.cap, endpointAttempt, retry, escalated)
  }

  function Sent(e: Event): nat { if IsSend(e) then 1 else 0 }

  ghost predicate AllGenuine(w: World, k: Route, events: seq<Event>, used: nat) {
    events == [] || (Genuine(w, k, events[0], used + Sent(events[0])) && AllGenuine(w, k, events[1..], used + Sent(events[0])))
  }

  lemma {:induction false} GenuineJoin(w: World, k: Route, a: seq<Event>, b: seq<Event>, used: nat)
    requires AllGenuine(w, k, a, used) && AllGenuine(w, k, b, used + SentIn(a))
    ensures AllGenuine(w, k, a + b, used)
  {
    if a == [] {
      assert a + b == b;
    } else {
      assert (a + b)[1..] == a[1..] + b;
      assert a == [a[0]] + a[1..];
      OneShaped(a[0]);
      SentConcat([a[0]], a[1..]);
      GenuineJoin(w, k, a[1..], b, used + Sent(a[0]));
    }
  }

  lemma {:induction false} GenuineAt(w: World, k: Route, events: seq<Event>, used: nat, j: nat)
    requires AllGenuine(w, k, events, used) && j < |events|
    ensures Genuine(w, k, events[j], used + SentIn(events[..j + 1]))
  {
    OneShaped(events[0]);
    assert events[..j + 1] == [events[0]] + events[1..][..j];
    SentConcat([events[0]], events[1..][..j]);
    if j == 0 {
      assert events[..1] == [events[0]];
    } else {
      GenuineAt(w, k, events[1..], used + Sent(events[0]), j - 1);
    }
  }

  lemma OneGenuine(w: World, k: Route, e: Event, used: nat)
    requires Genuine(w, k, e, used + Sent(e))
    ensures AllGenuine(w, k, [e], used)
  {
  }

  lemma GenuineAfter(w: World, k: Route, e: Event, rest: seq<Event>, used: nat)
    requires Genuine(w, k, e, used + Sent(e)) && AllGenuine(w, k, rest, used + Sent(e))
    ensures AllGenuine(w, k, [e] + rest, used)
  {
    assert ([e] + rest)[1..] == rest;
  }

  lemma {:induction false} TurnsGenuine(w: World, k: Route, index: nat, used: nat, pass: nat, endpointAttempt: nat, retry: nat, escalated: bool)
    requires index < |k.slots|
    ensures AllGenuine(w, k, Turns(w, k, index, used, pass, endpointAttempt, retry, escalated), used)
    decreases Max(k.cap, used) - used
  {
    if retry < 2 && used < k.cap {
      var t := w.turn(index, pass);
      var now := used + if Sends(t) then 1 else 0;
      var step := StepOf(t, index, k.slots[index], HasMore(k, index), now, k.cap, endpointAttempt, retry, escalated);
      var e := Turned(index, t, endpointAttempt, step);
      var rest := if step.Again? && now == used + 1 then Turns(w, k, index, now, pass + 1, step.endpointAttempt, step.retry, step.escalated) else [];
      if step.Again? && now == used + 1 {
        TurnsGenuine(w, k, index, now, pass + 1, step.endpointAttempt, step.retry, step.escalated);
      }
      GenuineAfter(w, k, e, rest, used);
    }
  }

  lemma EventsGenuine(w: World, k: Route, index: nat, used: nat)
    requires index < |k.slots| && used <= k.cap
    ensures AllGenuine(w, k, EventsOf(w, k, index, used), used)
  {
    if LeftWaiting(w, k, index) {
      OneGenuine(w, k, Waited(index), used);
    } else if k.slots[index].unavailable.Some? {
      OneGenuine(w, k, Skipped(index), used);
    } else if used < k.cap {
      if w.prep(index).Ready? {
        TurnsGenuine(w, k, index, used, 0, 0, 0, w.escalated(index));
      } else {
        OneGenuine(w, k, Prepared(index, w.prep(index)), used);
      }
    }
  }

  lemma FirstGenuine(w: World, k: Route, i: nat, used: nat)
    requires i < |k.slots| && used <= k.cap
    ensures AllGenuine(w, k, EventsOf(w, k, i, used), used) && used + SentIn(EventsOf(w, k, i, used)) <= k.cap
  {
    EventsGenuine(w, k, i, used);
    EventsShaped(w, k, i, used);
  }

  lemma RestGenuine(w: World, k: Route, i: nat, used: nat, rest: seq<Event>)
    requires i < |k.slots| && used <= k.cap && AllGenuine(w, k, rest, used + SentIn(EventsOf(w, k, i, used)))
    ensures AllGenuine(w, k, EventsOf(w, k, i, used) + rest, used)
  {
    EventsGenuine(w, k, i, used);
    GenuineJoin(w, k, EventsOf(w, k, i, used), rest, used);
  }

  lemma WalkGenuine(w: World, k: Route)
    ensures AllGenuine(w, k, WholeWalk(w, k), 0)
  {
    var at := EventsIn(w, k);
    var genuine := (events: seq<Event>, i: nat, u: nat) => AllGenuine(w, k, events, u);
    forall i, u | 0 <= i < |k.slots| && 0 <= u <= k.cap
      ensures genuine(at(i, u), i, u) && u + SentIn(at(i, u)) <= k.cap
    {
      FirstGenuine(w, k, i, u);
    }
    forall i, u, rest | 0 <= i < |k.slots| && 0 <= u <= k.cap && !Stopped(at(i, u)) && genuine(rest, i + 1, u + SentIn(at(i, u)))
      ensures genuine(at(i, u) + rest, i, u)
    {
      RestGenuine(w, k, i, u, rest);
    }
    InOrderInduction(at, |k.slots|, k.cap, genuine, 0, 0);
  }

  // ------------------------------------------------------------ answers

  predicate Arrived(slot: Slot, t: Turn) { (t.Success? && !t.fold.Broken?) || (t.Refusal? && !HostRefusal(slot, t.status)) }

  /** At every event: an answer given to the client arrived and may not be passed over, and one that arrived
      and is left for the next candidate may: its outcome is not to stand, it was read, and another candidate
      and budget remain. `used` is the requests sent so far. */
  predicate Settled(k: Route, e: Event, used: nat) {
    e.Turned? && e.slot < |k.slots| ==>
      var mayPass := OutcomeIn(e.turn) != Stand && ReadIn(e.turn) && (k.combo || e.slot + 1 < |k.slots|) && used < k.cap;
      && (e.step.Answered? ==> Arrived(k.slots[e.slot], e.turn) && !mayPass)
      && (e.step.Next? && Arrived(k.slots[e.slot], e.turn) ==> mayPass)
  }

  lemma AnswersSettle(w: World, k: Route)
    ensures var log := WholeWalk(w, k); forall j :: 0 <= j < |log| ==> Settled(k, log[j], SentIn(log[..j + 1]))
  {
    WalkGenuine(w, k);
    var log := WholeWalk(w, k);
    forall j | 0 <= j < |log|
      ensures Settled(k, log[j], SentIn(log[..j + 1]))
    {
      GenuineAt(w, k, log, 0, j);
    }
  }

  /** Nobody leaves. */
  ghost predicate Calm(w: World) {
    && !w.finalLeft
    && (forall i :: !w.waitLeft(i) && !w.prep(i).Left?)
    && forall i, pass :: CalmTurn(w.turn(i, pass))
  }

  predicate CalmTurn(t: Turn) {
    match t
    case Leaves => false
    case Lost(left, _) => !left
    case Success(_, _, left, _, _) => !left
    case Refusal(_, left, _, _, _, leaves, _) => !left && !leaves
    case _ => true
  }

  lemma {:induction false} VerdictIsNoLeaving(k: Route, events: seq<Event>)
    ensures LatestFailure(events) != Some(Failure(ClientLeft)) && FirstTranslation(events) != Some(ClientLeft) && LastPreAttempt(events) != Some(ClientLeft)
  {
    if events != [] {
      VerdictIsNoLeaving(k, events[..|events| - 1]);
    }
  }

  /** How a request whose client stays can end before its candidates are through. */
  ghost predicate EndsCalmly(w: World, k: Route, e: Event, answer: Answer, obtained: nat) {
    match answer
    case Response(body, i) => e.Turned? && e.step.Answered? && e.slot == i && body + 1 == obtained
    case Failure(KeyRequired(i)) => i < |k.slots| && w.prep(i) == NoCredential(true)
    case Failure(Configuration(i)) => i < |k.slots| && exists pass :: w.turn(i, pass).NotAllowed?
    case _ => false
  }

  /** One turn of a calm request that ends it: an answer that arrived, or an address that is not allowed. */
  lemma CalmTurnEnds(t: Turn, index: nat, slot: Slot, hasMore: bool, used: nat, cap: nat, endpointAttempt: nat, retry: nat, escalated: bool)
    requires CalmTurn(t)
    ensures var step := StepOf(t, index, slot, hasMore, used, cap, endpointAttempt, retry, escalated);
            && (step.Ended? ==> step == Ended(Configuration(index)) && t.NotAllowed?)
            && (step.Answered? ==> BodiesOf(Turned(index, t, endpointAttempt, step)) > 0)
  {
  }

  lemma CalmStop(w: World, k: Route, e: Event, used: nat, obtained: nat)
    requires Calm(w) && Genuine(w, k, e, used) && Stops(e) && obtained >= BodiesOf(e)
    ensures EndsCalmly(w, k, e, AnswerAt(e, obtained - 1), obtained)
  {
    if e.Turned? {
      var pass: nat, retry: nat, escalated :| e.turn == w.turn(e.slot, pass)
        && e.step == StepOf(e.turn, e.slot, k.slots[e.slot], HasMore(k, e.slot), used, k.cap, e.endpointAttempt, retry, escalated);
      CalmTurnEnds(e.turn, e.slot, k.slots[e.slot], HasMore(k, e.slot), used, k.cap, e.endpointAttempt, retry, escalated);
    }
  }

  lemma CalmEnd(w: World, k: Route, log: seq<Event>)
    requires Calm(w) && AllGenuine(w, k, log, 0) && Stopped(log)
    ensures EndsCalmly(w, k, log[|log| - 1], AnswerOf(w, k, log), Obtained(log))
  {
    GenuineAt(w, k, log, 0, |log| - 1);
    CalmStop(w, k, log[|log| - 1], 0 + SentIn(log[..|log| - 1 + 1]), Obtained(log));
  }

  /** A client that stays gets an answer that arrived, or is told that the master key is missing or an address
      is not allowed, or gets the verdict on the failures when no candidate ended the request; it is never told
      it left. */
  lemma CalmIsAnswered(w: World, k: Route)
    requires Calm(w)
    ensures var log := WholeWalk(w, k);
            && (if Stopped(log) then EndsCalmly(w, k, log[|log| - 1], AnswerOf(w, k, log), Obtained(log)) else AnswerOf(w, k, log) == Verdict(k, log))
            && AnswerOf(w, k, log) != Failure(ClientLeft)
  {
    var log := WholeWalk(w, k);
    if Stopped(log) {
      WalkGenuine(w, k);
      CalmEnd(w, k, log);
    } else {
      VerdictIsNoLeaving(k, log);
    }
  }
}
