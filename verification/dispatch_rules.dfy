/**
 The events of dispatchAttempts (internal/ingress/dispatch.go) one by one: which candidate comes next and
 what it begins with, what each turn leads to, and what the client is told at the end.
 */
module DispatchRules {
  import opened Prelude
  import opened DispatchScript
  import opened DispatchTheorems
  import opened DispatchTurns

  // ------------------------------------------------------------ a walk read from the front

  /** Where a candidate stands between two of its turns. */
  datatype Mid = Mid(pass: nat, endpointAttempt: nat, retry: nat, escalated: bool)

  predicate TurnBy(w: World, k: Route, e: Event, i: nat, m: Mid, used: nat)
    requires i < |k.slots|
  {
    var t := w.turn(i, m.pass);
    e == Turned(i, t, m.endpointAttempt,
                StepOf(t, i, k.slots[i], HasMore(k, i), used + if Sends(t) then 1 else 0, k.cap, m.endpointAttempt, m.retry, m.escalated))
  }

  /** How the walk may begin: with the next turn of candidate `i`, or with what the candidate begins with. */
  predicate Begins(w: World, k: Route, log: seq<Event>, i: nat, mid: Option<Mid>, used: nat)
    requires i < |k.slots|
  {
    match mid
    case Some(m) => log != [] && TurnBy(w, k, log[0], i, m, used)
    case None =>
      if LeftWaiting(w, k, i) then log != [] && log[0] == Waited(i)
      else if k.slots[i].unavailable.Some? then log != [] && log[0] == Skipped(i)
      else if used == k.cap then log == []
      else log != [] && if w.prep(i).Ready? then TurnBy(w, k, log[0], i, Mid(0, 0, 0, w.escalated(i)), used) else log[0] == Prepared(i, w.prep(i))
  }

  /** Where the candidate stands after an event that has it go on. */
  function MidAfter(mid: Option<Mid>, e: Event): Option<Mid> {
    if e.Turned? && e.step.Again? then Some(Mid(if mid.Some? then mid.value.pass + 1 else 1, e.step.endpointAttempt, e.step.retry, e.step.escalated)) else None
  }

  function CandidateAfter(e: Event): nat { if e.Turned? && e.step.Again? then e.slot else e.slot + 1 }

  predicate Runs(w: World, k: Route, log: seq<Event>, i: nat, mid: Option<Mid>, used: nat) {
    if i >= |k.slots| then log == []
    else
      && Begins(w, k, log, i, mid, used)
      && (log != [] ==> log[0].slot == i && if Stops(log[0]) then |log| == 1 else Runs(w, k, log[1..], CandidateAfter(log[0]), MidAfter(mid, log[0]), used + Sent(log[0])))
  }

  lemma RunsAfter(w: World, k: Route, e: Event, rest: seq<Event>, i: nat, mid: Option<Mid>, used: nat)
    requires i < |k.slots| && Begins(w, k, [e], i, mid, used) && e.slot == i && !Stops(e)
    requires mid.None? ==> LeftWaiting(w, k, i) || k.slots[i].unavailable.Some? || used != k.cap
    requires Runs(w, k, rest, CandidateAfter(e), MidAfter(mid, e), used + Sent(e))
    ensures Runs(w, k, [e] + rest, i, mid, used)
  {
    assert ([e] + rest)[1..] == rest;
  }

  /** A candidate's next turn and the ones after it. */
  lemma FirstTurn(w: World, k: Route, index: nat, used: nat, m: Mid) returns (e: Event, later: seq<Event>, next: Mid)
    requires index < |k.slots| && used < k.cap && m.retry < 2 && m.endpointAttempt < Hosts(k.slots[index])
    ensures TurnBy(w, k, e, index, m, used)
    ensures Turns(w, k, index, used, m.pass, m.endpointAttempt, m.retry, m.escalated) == [e] + later
    ensures if e.step.Again? then
              && used + Sent(e) < k.cap && Sent(e) == 1 && next.retry < 2 && next.endpointAttempt < Hosts(k.slots[index]) && !Stops(e)
              && next == Mid(m.pass + 1, e.step.endpointAttempt, e.step.retry, e.step.escalated)
              && later == Turns(w, k, index, used + Sent(e), next.pass, next.endpointAttempt, next.retry, next.escalated)
            else later == []
  {
    var t := w.turn(index, m.pass);
    var now := used + if Sends(t) then 1 else 0;
    var step := StepOf(t, index, k.slots[index], HasMore(k, index), now, k.cap, m.endpointAttempt, m.retry, m.escalated);
    AgainUsesOne(t, index, k.slots[index], HasMore(k, index), now, k.cap, m.endpointAttempt, m.retry, m.escalated);
    e := Turned(index, t, m.endpointAttempt, step);
    next := if step.Again? then Mid(m.pass + 1, step.endpointAttempt, step.retry, step.escalated) else m;
    later := if step.Again? then Turns(w, k, index, now, next.pass, next.endpointAttempt, next.retry, next.escalated) else [];
  }

  /** The candidate's next turn is its first, or `mid` says where it stands. */
  predicate Standing(w: World, k: Route, index: nat, m: Mid, mid: Option<Mid>)
    requires index < |k.slots|
  {
    mid == Some(m) || (mid == None && m == Mid(0, 0, 0, w.escalated(index)) && !LeftWaiting(w, k, index) && k.slots[index].unavailable.None? && w.prep(index).Ready?)
  }

  function NextMid(m: Mid, e: Event): Mid {
    if e.Turned? && e.step.Again? then Mid(m.pass + 1, e.step.endpointAttempt, e.step.retry, e.step.escalated) else m
  }

  lemma TurnAgain(w: World, k: Route, index: nat, used: nat, m: Mid, mid: Option<Mid>, e: Event, rest: seq<Event>)
    requires index < |k.slots| && (mid.None? ==> used < k.cap) && Standing(w, k, index, m, mid) && TurnBy(w, k, e, index, m, used)
    requires e.step.Again? && Runs(w, k, rest, index, Some(NextMid(m, e)), used + Sent(e))
    ensures Runs(w, k, [e] + rest, index, mid, used)
  {
    RunsAfter(w, k, e, rest, index, mid, used);
  }

  lemma TurnLast(w: World, k: Route, index: nat, used: nat, m: Mid, mid: Option<Mid>, e: Event, rest: seq<Event>)
    requires index < |k.slots| && (mid.None? ==> used < k.cap) && Standing(w, k, index, m, mid) && TurnBy(w, k, e, index, m, used)
    requires !e.step.Again? && if Stops(e) then rest == [] else Runs(w, k, rest, index + 1, None, used + Sent(e))
    ensures Runs(w, k, [e] + rest, index, mid, used)
  {
    if Stops(e) {
      assert [e] + rest == [e];
    } else {
      RunsAfter(w, k, e, rest, index, mid, used);
    }
  }

  /** Turns of one candidate, each where the one before left it. */
  predicate InTurn(turnBy: (Event, Mid, nat) -> bool, turns: seq<Event>, index: nat, m: Mid, used: nat) {
    && turns != [] && turns[0].Turned? && turns[0].slot == index && turnBy(turns[0], m, used)
    && if turns[0].step.Again? then InTurn(turnBy, turns[1..], index, NextMid(m, turns[0]), used + Sent(turns[0])) else |turns| == 1
  }

  function By(w: World, k: Route, index: nat): (Event, Mid, nat) -> bool
    requires index < |k.slots|
  {
    (e: Event, m: Mid, used: nat) => TurnBy(w, k, e, index, m, used)
  }

  lemma {:induction false} TurnsInTurn(w: World, k: Route, index: nat, used: nat, m: Mid)
    requires index < |k.slots| && used < k.cap && m.retry < 2 && m.endpointAttempt < Hosts(k.slots[index])
    ensures InTurn(By(w, k, index), Turns(w, k, index, used, m.pass, m.endpointAttempt, m.retry, m.escalated), index, m, used)
    decreases k.cap - used
  {
    var e, later, next := FirstTurn(w, k, index, used, m);
    assert ([e] + later)[1..] == later;
    if e.step.Again? {
      TurnsInTurn(w, k, index, used + Sent(e), next);
    }
  }

  lemma SentCons(turns: seq<Event>)
    requires turns != []
    ensures SentIn(turns) == Sent(turns[0]) + SentIn(turns[1..])
  {
    OneShaped(turns[0]);
    SentConcat([turns[0]], turns[1..]);
    assert turns == [turns[0]] + turns[1..];
  }

  lemma LastAlone(turns: seq<Event>, rest: seq<Event>)
    requires |turns| == 1
    ensures turns[1..] + rest == rest && SentIn(turns) == Sent(turns[0]) && (Stopped(turns) <==> Stops(turns[0]))
  {
    SentCons(turns);
  }

  lemma RestIsRest(turns: seq<Event>, rest: seq<Event>)
    requires turns != []
    ensures [turns[0]] + (turns[1..] + rest) == turns + rest
  {
  }

  /** The turns of a candidate and what follows them. */
  lemma {:induction false} TurnsRun(w: World, k: Route, index: nat, used: nat, m: Mid, mid: Option<Mid>, turns: seq<Event>, rest: seq<Event>)
    requires index < |k.slots| && InTurn(By(w, k, index), turns, index, m, used) && Standing(w, k, index, m, mid) && (mid.None? ==> used < k.cap)
    requires if Stopped(turns) then rest == [] else Runs(w, k, rest, index + 1, None, used + SentIn(turns))
    ensures Runs(w, k, turns + rest, index, mid, used)
    decreases |turns|
  {
    SentCons(turns);
    RestIsRest(turns, rest);
    if turns[0].step.Again? {
      TurnsRun(w, k, index, used + Sent(turns[0]), NextMid(m, turns[0]), Some(NextMid(m, turns[0])), turns[1..], rest);
      TurnAgain(w, k, index, used, m, mid, turns[0], turns[1..] + rest);
    } else {
      LastAlone(turns, rest);
      TurnLast(w, k, index, used, m, mid, turns[0], rest);
    }
  }

  lemma EventsRun(w: World, k: Route, index: nat, used: nat, rest: seq<Event>)
    requires index < |k.slots| && used <= k.cap
    requires var events := EventsOf(w, k, index, used);
             if events == [] || Stopped(events) then rest == [] else Runs(w, k, rest, index + 1, None, used + SentIn(events))
    ensures Runs(w, k, EventsOf(w, k, index, used) + rest, index, None, used)
  {
    var events := EventsOf(w, k, index, used);
    if !LeftWaiting(w, k, index) && k.slots[index].unavailable.None? && used < k.cap && w.prep(index).Ready? {
      TurnsInTurn(w, k, index, used, Mid(0, 0, 0, w.escalated(index)));
      TurnsRun(w, k, index, used, Mid(0, 0, 0, w.escalated(index)), None, events, rest);
    } else if events != [] {
      OneShaped(events[0]);
      assert events == [events[0]];
      if Stops(events[0]) {
        assert events + rest == [events[0]];
      } else {
        RunsAfter(w, k, events[0], rest, index, None, used);
      }
    }
  }

  lemma {:induction false} WalkRuns(w: World, k: Route, index: nat, used: nat)
    requires index <= |k.slots| && used <= k.cap
    ensures Runs(w, k, Walk(w, k, index, used), index, None, used)
    decreases |k.slots| - index
  {
    if index < |k.slots| {
      var events, rest, now := Split(w, k, index, used);
      EventsShaped(w, k, index, used);
      if events != [] && !Stopped(events) {
        WalkRuns(w, k, index + 1, now);
      }
      EventsRun(w, k, index, used, rest);
    }
  }

  // ------------------------------------------------------------ any place in it

  /** How many turns the candidate of event `j` had before. */
  function Pass(log: seq<Event>, j: nat): nat
    requires j <= |log|
  {
    if j > 0 && CandidateAfter(log[j - 1]) == log[j - 1].slot then Pass(log, j - 1) + 1 else 0
  }

  function MidAt(log: seq<Event>, j: nat): Option<Mid>
    requires j <= |log|
  {
    if j > 0 && CandidateAfter(log[j - 1]) == log[j - 1].slot
    then Some(Mid(Pass(log, j), log[j - 1].step.endpointAttempt, log[j - 1].step.retry, log[j - 1].step.escalated)) else None
  }

  /** The walk from any place on; nothing comes after an event that stops it. */
  lemma {:induction false} RunsFrom(w: World, k: Route, log: seq<Event>, j: nat)
    requires Runs(w, k, log, 0, None, 0) && j <= |log|
    ensures if j > 0 && Stops(log[j - 1]) then j == |log|
            else Runs(w, k, log[j..], if j == 0 then 0 else CandidateAfter(log[j - 1]), MidAt(log, j), SentIn(log[..j]))
    decreases j
  {
    if j == 0 {
      assert log[0..] == log && log[..0] == [];
    } else {
      RunsFrom(w, k, log, j - 1);
      RunsStep(w, k, log, log[j - 1..], if j == 1 then 0 else CandidateAfter(log[j - 2]), j);
    }
  }

  lemma RunsStep(w: World, k: Route, log: seq<Event>, tail: seq<Event>, i: nat, j: nat)
    requires 0 < j <= |log| && tail == log[j - 1..] && Runs(w, k, tail, i, MidAt(log, j - 1), SentIn(log[..j - 1]))
    ensures if Stops(log[j - 1]) then j == |log| else Runs(w, k, log[j..], CandidateAfter(log[j - 1]), MidAt(log, j), SentIn(log[..j]))
  {
    assert tail[0] == log[j - 1] && tail[1..] == log[j..];
    assert log[..j][..|log[..j]| - 1] == log[..j - 1];
    assert MidAfter(MidAt(log, j - 1), log[j - 1]) == MidAt(log, j);
  }

  // ------------------------------------------------------------ which candidate, and what it begins with

  /** The event is the first of its candidate. */
  predicate First(log: seq<Event>, j: nat)
    requires j < |log|
  {
    j == 0 || log[j - 1].slot != log[j].slot
  }

  lemma AtPlace(w: World, k: Route, j: nat)
    requires j < |WholeWalk(w, k)|
    ensures var log := WholeWalk(w, k);
            && (j > 0 ==> !Stops(log[j - 1])) && log[j].slot == (if j == 0 then 0 else CandidateAfter(log[j - 1])) < |k.slots|
            && Begins(w, k, log[j..], log[j].slot, MidAt(log, j), SentIn(log[..j]))
  {
    var log := WholeWalk(w, k);
    WalkRuns(w, k, 0, 0);
    RunsFrom(w, k, log, j);
    assert log[j..][0] == log[j];
  }

  /** The client leaves while the next model is waited for. */
  predicate LeavesBefore(w: World, k: Route, i: nat)
    requires i < |k.slots|
  {
    i > 0 && k.slots[i].member != k.slots[i - 1].member && k.slots[i - 1].member != 0 && w.waitLeft(i)
  }

  /** Candidates come one after the other, from the first on; one has another turn only when its last one says
      so. What a candidate begins with is fixed by the wait, by its account and by the budget, in this order. */
  lemma CandidatesInOrder(w: World, k: Route, j: nat)
    requires j < |WholeWalk(w, k)|
    ensures var log := WholeWalk(w, k); var e := log[j]; var i := e.slot;
            && i < |k.slots| && (j == 0 ==> i == 0)
            && (j > 0 ==> i == if log[j - 1].Turned? && log[j - 1].step.Again? then log[j - 1].slot else log[j - 1].slot + 1)
            && (First(log, j) ==>
                 && (e == Waited(i) <==> LeavesBefore(w, k, i))
                 && (e == Skipped(i) <==> !LeavesBefore(w, k, i) && k.slots[i].unavailable.Some?)
                 && (e.Prepared? <==> !LeavesBefore(w, k, i) && k.slots[i].unavailable.None? && w.prep(i) != Ready)
                 && (e.Prepared? ==> e == Prepared(i, w.prep(i)))
                 && (e.Prepared? || e.Turned? ==> SentIn(log[..j]) < k.cap))
            && (!First(log, j) ==> e.Turned?)
            && (e.Turned? ==> e.turn == w.turn(i, Pass(log, j)))
  {
    AtPlace(w, k, j);
    RequestsBounded(w, k);
    SentWithin(w, k, j);
  }

  lemma FewerInPart(log: seq<Event>, j: nat)
    requires j <= |log|
    ensures SentIn(log[..j]) <= SentIn(log)
  {
    SentConcat(log[..j], log[j..]);
    assert log == log[..j] + log[j..];
  }

  lemma SentWithin(w: World, k: Route, j: nat)
    requires j <= |WholeWalk(w, k)|
    ensures SentIn(WholeWalk(w, k)[..j]) <= k.cap
  {
    RequestsBounded(w, k);
    FewerInPart(WholeWalk(w, k), j);
  }

  // ------------------------------------------------------------ what a turn leads to

  /** Nothing comes after event `j`, and the client is told this. */
  predicate Ends(w: World, k: Route, j: nat, answer: Answer)
    requires j < |WholeWalk(w, k)|
  {
    var log := WholeWalk(w, k);
    j == |log| - 1 && AnswerOf(w, k, log) == answer
  }

  /** The client is given the response of event `j`, the last body obtained. */
  predicate GivesResponse(w: World, k: Route, j: nat)
    requires j < |WholeWalk(w, k)|
  {
    var log := WholeWalk(w, k);
    Obtained(log) > 0 && Ends(w, k, j, Response(Obtained(log) - 1, log[j].slot))
  }

  /** The client is told nothing yet: the next candidate comes, unless there is none or the budget is used. */
  predicate MovesOn(w: World, k: Route, j: nat)
    requires j < |WholeWalk(w, k)|
  {
    var log := WholeWalk(w, k); var i := log[j].slot;
    && !Stopped(log[..j + 1])
    && (if j + 1 < |log| then log[j + 1].slot == i + 1
        else i + 1 >= |k.slots| || (SentIn(log) == k.cap && !LeavesBefore(w, k, i + 1) && k.slots[i + 1].unavailable.None?))
  }

  /** The same candidate has another turn, with this endpoint and these retries, on the other wire or not. */
  predicate GoesAgain(w: World, k: Route, j: nat, endpointAttempt: nat, retry: nat, escalated: bool)
    requires j < |WholeWalk(w, k)|
  {
    var log := WholeWalk(w, k);
    && log[j].Turned? && log[j].step == Again(endpointAttempt, retry, escalated)
    && j + 1 < |log| && log[j + 1].slot == log[j].slot && log[j + 1].Turned? && log[j + 1].endpointAttempt == endpointAttempt
  }

  /** How often the candidate was retried before turn `j`, and whether it is on its other wire. */
  function Retries(log: seq<Event>, j: nat): nat
    requires j < |log|
  {
    if First(log, j) || !log[j - 1].Turned? || !log[j - 1].step.Again? then 0 else log[j - 1].step.retry
  }

  predicate OnOtherWire(w: World, log: seq<Event>, j: nat)
    requires j < |log|
  {
    if First(log, j) || !log[j - 1].Turned? || !log[j - 1].step.Again? then w.escalated(log[j].slot) else log[j - 1].step.escalated
  }

  lemma TurnAt(w: World, k: Route, j: nat)
    requires j < |WholeWalk(w, k)| && WholeWalk(w, k)[j].Turned?
    ensures var log := WholeWalk(w, k); var e := log[j];
            && e.slot < |k.slots|
            && (if First(log, j) then e.endpointAttempt == 0 else log[j - 1].Turned? && log[j - 1].step.Again? && e.endpointAttempt == log[j - 1].step.endpointAttempt)
            && e.step == StepOf(e.turn, e.slot, k.slots[e.slot], HasMore(k, e.slot), SentIn(log[..j + 1]), k.cap, e.endpointAttempt, Retries(log, j), OnOtherWire(w, log, j))
  {
    var log := WholeWalk(w, k);
    AtPlace(w, k, j);
    assert log[..j + 1][..|log[..j + 1]| - 1] == log[..j];
  }

  /** An event that stops the walk is the last, and gives the answer. */
  lemma StopEnds(w: World, k: Route, j: nat)
    requires j < |WholeWalk(w, k)| && Stops(WholeWalk(w, k)[j])
    ensures Ends(w, k, j, AnswerAt(WholeWalk(w, k)[j], Obtained(WholeWalk(w, k)) - 1))
  {
    WalkRuns(w, k, 0, 0);
    RunsFrom(w, k, WholeWalk(w, k), j + 1);
  }

  lemma NextMovesOn(w: World, k: Route, j: nat)
    requires j < |WholeWalk(w, k)| && CandidateAfter(WholeWalk(w, k)[j]) == WholeWalk(w, k)[j].slot + 1 && !Stops(WholeWalk(w, k)[j])
    ensures MovesOn(w, k, j)
  {
    var log := WholeWalk(w, k);
    WalkRuns(w, k, 0, 0);
    RunsFrom(w, k, log, j + 1);
    if j + 1 < |log| {
      AtPlace(w, k, j + 1);
    } else {
      assert log[j + 1..] == [] && log[..j + 1] == log;
    }
  }

  lemma AgainGoesOn(w: World, k: Route, j: nat)
    requires j < |WholeWalk(w, k)| && WholeWalk(w, k)[j].Turned? && WholeWalk(w, k)[j].step.Again?
    ensures var step := WholeWalk(w, k)[j].step; GoesAgain(w, k, j, step.endpointAttempt, step.retry, step.escalated)
  {
    var log := WholeWalk(w, k);
    WalkRuns(w, k, 0, 0);
    RunsFrom(w, k, log, j + 1);
    AtPlace(w, k, j);
    if j + 1 < |log| {
      AtPlace(w, k, j + 1);
    }
  }

  /** A success that reports nothing is the answer. One that reports a failure is too, unless that failure may
      be passed over and a later candidate and budget remain. One that cannot be folded is passed over. */
  lemma SuccessLeadsTo(w: World, k: Route, j: nat)
    requires j < |WholeWalk(w, k)| && WholeWalk(w, k)[j].Turned? && WholeWalk(w, k)[j].turn.Success?
    ensures var log := WholeWalk(w, k); var t, i := log[j].turn, log[j].slot;
            var passedOver := t.reports.Some? && t.reports != Some(Stand) && (k.combo || i + 1 < |k.slots|) && SentIn(log[..j + 1]) < k.cap;
            && (t.fold != Broken && !passedOver ==> GivesResponse(w, k, j))
            && (t.fold != Broken && passedOver ==> MovesOn(w, k, j))
            && (t.fold == Broken && t.left ==> Ends(w, k, j, Failure(ClientLeft)))
            && (t.fold == Broken && !t.left ==> MovesOn(w, k, j))
  {
    TurnAt(w, k, j);
    BodyThere(w, k, j);
    if Stops(WholeWalk(w, k)[j]) { StopEnds(w, k, j); } else { NextMovesOn(w, k, j); }
  }

  /** An answer leaves a body. */
  lemma BodyThere(w: World, k: Route, j: nat)
    requires j < |WholeWalk(w, k)| && WholeWalk(w, k)[j].Turned? && (WholeWalk(w, k)[j].turn.Success? || WholeWalk(w, k)[j].turn.Refusal?)
    ensures j == |WholeWalk(w, k)| - 1 ==> Obtained(WholeWalk(w, k)) > 0
  {
  }

  /** A refusal: a Kiro host's 401, 403 or 404 has the next host asked while hosts and budget last, and is
      passed over after the last. Any other is replayed once if its provider allows it, retried once if it says
      so, passed over if its outcome allows it and a later candidate and budget remain, and else the answer. */
  lemma RefusalLeadsTo(w: World, k: Route, j: nat)
    requires j < |WholeWalk(w, k)| && WholeWalk(w, k)[j].Turned? && WholeWalk(w, k)[j].turn.Refusal?
    ensures var log := WholeWalk(w, k); var t, i := log[j].turn, log[j].slot; var budget := SentIn(log[..j + 1]) < k.cap;
            && i < |k.slots| &&
            var host := k.slots[i].kiro && t.status in {401, 403, 404};
            var nextHost := log[j].endpointAttempt + 1 < k.slots[i].hosts && budget;
            var replayed := k.slots[i].rewires && t.otherWire && !OnOtherWire(w, log, j) && t.readable && budget;
            var retried := t.outcome == RetrySameAccount && Retries(log, j) == 0 && t.readable && budget;
            var passedOver := t.outcome != Stand && t.readable && (k.combo || i + 1 < |k.slots|) && budget;
            if host then
              if nextHost then GoesAgain(w, k, j, log[j].endpointAttempt + 1, Retries(log, j), OnOtherWire(w, log, j)) else MovesOn(w, k, j)
            else if t.left then Ends(w, k, j, Failure(ClientLeft))
            else if replayed then GoesAgain(w, k, j, log[j].endpointAttempt, Retries(log, j), true)
            else if retried then
              if t.leaves then Ends(w, k, j, Failure(ClientLeft)) else GoesAgain(w, k, j, log[j].endpointAttempt, 1, OnOtherWire(w, log, j))
            else if passedOver then MovesOn(w, k, j)
            else GivesResponse(w, k, j)
  {
    var e := WholeWalk(w, k)[j];
    AtPlace(w, k, j);
    TurnAt(w, k, j);
    BodyThere(w, k, j);
    if Stops(e) { StopEnds(w, k, j); } else if e.step.Again? { AgainGoesOn(w, k, j); } else { NextMovesOn(w, k, j); }
  }

  /** Every other turn: nothing was sent, or the send failed. */
  lemma OthersLeadTo(w: World, k: Route, j: nat)
    requires j < |WholeWalk(w, k)| && !(WholeWalk(w, k)[j].Turned? && (WholeWalk(w, k)[j].turn.Success? || WholeWalk(w, k)[j].turn.Refusal?))
    ensures match WholeWalk(w, k)[j]
            case Waited(_) => Ends(w, k, j, Failure(ClientLeft))
            case Skipped(_) => MovesOn(w, k, j)
            case Prepared(i, Left) => Ends(w, k, j, Failure(ClientLeft))
            case Prepared(i, NoCredential(required)) => if required then Ends(w, k, j, Failure(KeyRequired(i))) else MovesOn(w, k, j)
            case Prepared(_, _) => MovesOn(w, k, j)
            case Turned(_, Leaves, _, _) => Ends(w, k, j, Failure(ClientLeft))
            case Turned(i, NotAllowed, _, _) => Ends(w, k, j, Failure(Configuration(i)))
            case Turned(_, Lost(left, _), _, _) => if left then Ends(w, k, j, Failure(ClientLeft)) else MovesOn(w, k, j)
            case Turned(_, _, _, _) => MovesOn(w, k, j)
  {
    var e := WholeWalk(w, k)[j];
    if e.Turned? { TurnAt(w, k, j); }
    if Stops(e) { StopEnds(w, k, j); } else { NextMovesOn(w, k, j); }
  }
}
