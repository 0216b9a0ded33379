/**
 The attempt loop itself (internal/ingress/dispatch.go): its variables, the response bodies it owns, and
 the request count, updated turn by turn. Proved to do what DispatchScript says for any surroundings.
 */
module Dispatch {
  import opened Prelude
  import opened DispatchScript

  // ------------------------------------------------------------ how the models of a Combo failed

  /** comboTrace: models in the order they first failed, how each failed last, the last message. */
  datatype Trace = Trace(order: seq<nat>, failures: map<nat, int>, lastText: int)
  {
    function Add(note: FailureNote): Trace {
      Trace(if note.member in failures then order else order + [note.member], failures[note.member := note.status], note.text)
    }
  }

  function TraceOf(notes: seq<FailureNote>): Trace {
    if notes == [] then Trace([], map[], 0) else TraceOf(notes[..|notes| - 1]).Add(notes[|notes| - 1])
  }

  /** What the trace keeps of the failures it was told. */
  lemma {:induction false} TraceKeeps(notes: seq<FailureNote>)
    ensures var trace := TraceOf(notes);
            && (forall m :: m in trace.failures <==> exists i :: 0 <= i < |notes| && notes[i].member == m)
            && (forall m :: m in trace.failures ==> trace.failures[m] == LastStatus(notes, m))
            && (notes == [] <==> trace.order == [])
            && (notes != [] ==> trace.order[0] == notes[0].member && trace.lastText == notes[|notes| - 1].text)
  {
    if notes != [] {
      var front, last := notes[..|notes| - 1], notes[|notes| - 1];
      TraceKeeps(front);
      forall m
        ensures m in TraceOf(notes).failures <==> exists i :: 0 <= i < |notes| && notes[i].member == m
      {
        if m in TraceOf(front).failures {
          var i :| 0 <= i < |front| && front[i].member == m;
          assert notes[i].member == m;
        }
        if i :| 0 <= i < |notes| && notes[i].member == m && m != last.member {
          assert front[i].member == m;
        }
      }
    }
  }

  // ------------------------------------------------------------ the loop's variables and the log of events

  /** What the loop remembers for the end. */
  datatype Vars = Vars(trace: Trace, latest: Option<Answer>, preAttempt: Option<Error>, translation: Option<Error>, authFailureSeen: bool)

  /** The latest failed attempt, in the loop's variables: its response, else its error. */
  function Latest(response: Option<nat>, error: Option<Error>, slot: nat): Option<Answer> {
    if response.Some? then Some(Response(response.value, slot)) else if error.Some? then Some(Failure(error.value)) else None
  }

  function Told(k: Route, trace: Trace, notes: seq<FailureNote>): Trace {
    if k.combo && |notes| == 1 then trace.Add(notes[0]) else trace
  }

  /** The variables after an event; `body` is the last body obtained. */
  function Post(k: Route, v: Vars, e: Event, body: int): Vars {
    Vars(Told(k, v.trace, NotesFor(k.slots, e)),
         if FailureFor(e, body, HoldsResponse(v.latest)).Some? then FailureFor(e, body, HoldsResponse(v.latest)) else v.latest,
         if PreAttemptFor(e).Some? then PreAttemptFor(e) else v.preAttempt,
         if v.translation.Some? then v.translation else if Untranslatable(e) then Some(Translation(e.slot)) else None,
         v.authFailureSeen || CoolsOnce(k.slots, e))
  }

  /** The candidates an event records as needing authentication. */
  function CooledBy(k: Route, v: Vars, e: Event): seq<nat> {
    if CoolsAlways(e) || (CoolsOnce(k.slots, e) && !v.authFailureSeen) then [e.slot] else []
  }

  /** The variables say what the log says. */
  ghost predicate Says(k: Route, v: Vars, log: seq<Event>) {
    && (k.combo ==> v.trace == TraceOf(NotesOf(k.slots, log)))
    && v.latest == LatestFailure(log)
    && v.preAttempt == LastPreAttempt(log) && v.translation == FirstTranslation(log)
    && (v.authFailureSeen <==> RefusalSeen(k.slots, log))
  }

  ghost predicate Counts(k: Route, log: seq<Event>, used: nat, obtained: nat, cooled: seq<nat>) {
    used == SentIn(log) && obtained == Obtained(log) && cooled == Cooled(k.slots, log)
  }

  lemma TraceSnoc(notes: seq<FailureNote>, more: seq<FailureNote>)
    requires |more| <= 1
    ensures TraceOf(notes + more) == if |more| == 1 then TraceOf(notes).Add(more[0]) else TraceOf(notes)
  {
    if |more| == 0 {
      assert notes + more == notes;
    } else {
      assert (notes + more)[..|notes|] == notes;
    }
  }

  lemma OneNote(slots: seq<Slot>, e: Event)
    ensures |NotesFor(slots, e)| <= 1
  {
  }

  lemma TraceSays(k: Route, v: Vars, log: seq<Event>, e: Event)
    requires k.combo && v.trace == TraceOf(NotesOf(k.slots, log))
    ensures Told(k, v.trace, NotesFor(k.slots, e)) == TraceOf(NotesOf(k.slots, log + [e]))
  {
    assert (log + [e])[..|log|] == log;
    OneNote(k.slots, e);
    TraceSnoc(NotesOf(k.slots, log), NotesFor(k.slots, e));
  }

  lemma LatestSays(v: Vars, log: seq<Event>, e: Event)
    requires v.latest == LatestFailure(log)
    ensures var now := FailureFor(e, Obtained(log) + BodiesOf(e) - 1, HoldsResponse(v.latest));
            LatestFailure(log + [e]) == if now.Some? then now else v.latest
  {
    assert (log + [e])[..|log|] == log;
  }

  lemma ErrorsSay(v: Vars, log: seq<Event>, e: Event)
    requires v.preAttempt == LastPreAttempt(log) && v.translation == FirstTranslation(log)
    ensures LastPreAttempt(log + [e]) == if PreAttemptFor(e).Some? then PreAttemptFor(e) else v.preAttempt
    ensures FirstTranslation(log + [e]) ==
            if v.translation.Some? then v.translation else if Untranslatable(e) then Some(Translation(e.slot)) else None
  {
    assert (log + [e])[..|log|] == log;
  }

  /** An event keeps variables and log together. */
  lemma PostSays(k: Route, v: Vars, log: seq<Event>, e: Event)
    requires Says(k, v, log)
    ensures Says(k, Post(k, v, e, Obtained(log) + BodiesOf(e) - 1), log + [e])
  {
    if k.combo { TraceSays(k, v, log, e); }
    LatestSays(v, log, e);
    ErrorsSay(v, log, e);
    SeenSnoc(k.slots, log, e);
  }

  lemma PostCounts(k: Route, v: Vars, log: seq<Event>, e: Event, used: nat, obtained: nat, cooled: seq<nat>)
    requires Says(k, v, log) && Counts(k, log, used, obtained, cooled)
    ensures Counts(k, log + [e], used + (if IsSend(e) then 1 else 0), obtained + BodiesOf(e), cooled + CooledBy(k, v, e))
  {
    assert (log + [e])[..|log|] == log;
  }

  /** The loop's variables, requests sent, bodies obtained and candidates cooled. */
  datatype Stock = Stock(v: Vars, used: nat, obtained: nat, cooled: seq<nat>)

  function Apply(k: Route, s: Stock, e: Event): Stock {
    Stock(Post(k, s.v, e, s.obtained + BodiesOf(e) - 1), s.used + (if IsSend(e) then 1 else 0), s.obtained + BodiesOf(e), s.cooled + CooledBy(k, s.v, e))
  }

  /** What the events leave in the loop's variables. */
  function Replay(k: Route, log: seq<Event>): Stock {
    if log == [] then Stock(Vars(Trace([], map[], 0), None, None, None, false), 0, 0, [])
    else Apply(k, Replay(k, log[..|log| - 1]), log[|log| - 1])
  }

  lemma ReplaySnoc(k: Route, log: seq<Event>, e: Event)
    ensures Replay(k, log + [e]) == Apply(k, Replay(k, log), e)
  {
    assert (log + [e])[..|log|] == log;
  }

  /** The variables say what the log says. */
  lemma {:induction false} ReplaySays(k: Route, log: seq<Event>)
    ensures var s := Replay(k, log); Says(k, s.v, log) && Counts(k, log, s.used, s.obtained, s.cooled)
  {
    if log != [] {
      var front, last := log[..|log| - 1], log[|log| - 1];
      var s := Replay(k, front);
      ReplaySays(k, front);
      assert front + [last] == log;
      PostSays(k, s.v, front, last);
      PostCounts(k, s.v, front, last, s.used, s.obtained, s.cooled);
    }
  }

  /** Open bodies have been obtained, and the one held back is open. */
  predicate Bodies(open: set<nat>, obtained: nat, held: Option<nat>) {
    (forall b :: b in open ==> b < obtained) && (held.Some? ==> held.value in open)
  }

  function HeldIn(response: Option<nat>): set<nat> {
    if response.Some? then {response.value} else {}
  }

  /** The body an answer hands to the client. */
  function BodyOf(answer: Answer): set<nat> {
    if answer.Response? then {answer.body} else {}
  }

  /** How a stopping event ends the loop. */
  function EndOf(e: Event): Step {
    match e
    case Turned(_, _, _, step) => step
    case Prepared(i, prep) => if prep.NoCredential? then Ended(KeyRequired(i)) else Ended(ClientLeft)
    case _ => Ended(ClientLeft)
  }

  /** How the events so far leave the loop. */
  function StepAfter(events: seq<Event>): Step { if Stopped(events) then EndOf(events[|events| - 1]) else Next }

  predicate HasMore(k: Route, i: nat) { k.combo || i + 1 < |k.slots| }

  /** One turn of the script. */
  lemma TurnsUnfold(w: World, k: Route, i: nat, used: nat, pass: nat, endpointAttempt: nat, retry: nat, escalated: bool, now: nat, step: Step)
    requires i < |k.slots| && retry < 2 && used < k.cap
    requires now == used + if Sends(w.turn(i, pass)) then 1 else 0
    requires step == StepOf(w.turn(i, pass), i, k.slots[i], HasMore(k, i), now, k.cap, endpointAttempt, retry, escalated)
    ensures Turns(w, k, i, used, pass, endpointAttempt, retry, escalated) ==
            [Turned(i, w.turn(i, pass), endpointAttempt, step)]
            + if step.Again? then Turns(w, k, i, now, pass + 1, step.endpointAttempt, step.retry, step.escalated) else []
    ensures step.Again? ==> now == used + 1
  {
  }

  lemma Reassociate<T>(a: seq<T>, b: seq<T>, c: seq<T>)
    ensures a + (b + c) == a + b + c
  {
  }

  /** Where a candidate's loop stands: its turns so far, and those the script has left. */
  predicate Midway(w: World, k: Route, i: nat, start: nat, turns: seq<Event>, used: nat, pass: nat, endpointAttempt: nat, retry: nat, escalated: bool)
    requires i < |k.slots|
  {
    && Turns(w, k, i, start, 0, 0, 0, w.escalated(i)) == turns + Turns(w, k, i, used, pass, endpointAttempt, retry, escalated)
    && !Stopped(turns)
  }

  /** The turns are all those the script gives, and `step` is how they end. */
  predicate AllTaken(w: World, k: Route, i: nat, start: nat, turns: seq<Event>, step: Step)
    requires i < |k.slots|
  {
    turns == Turns(w, k, i, start, 0, 0, 0, w.escalated(i)) && step == StepAfter(turns)
  }

  lemma MidwayAtStart(w: World, k: Route, i: nat, start: nat)
    requires i < |k.slots|
    ensures Midway(w, k, i, start, [], start, 0, 0, 0, w.escalated(i))
  {
  }

  lemma NoTurnLeft(w: World, k: Route, i: nat, start: nat, turns: seq<Event>, used: nat, pass: nat, endpointAttempt: nat, retry: nat, escalated: bool)
    requires i < |k.slots| && Midway(w, k, i, start, turns, used, pass, endpointAttempt, retry, escalated)
    requires retry >= 2 || used >= k.cap
    ensures AllTaken(w, k, i, start, turns, Next)
  {
  }

  /** One turn more. */
  lemma NextMidway(w: World, k: Route, i: nat, start: nat, turns: seq<Event>, used: nat, pass: nat, endpointAttempt: nat, retry: nat, escalated: bool, now: nat, step: Step)
    requires i < |k.slots| && Midway(w, k, i, start, turns, used, pass, endpointAttempt, retry, escalated)
    requires retry < 2 && used < k.cap && now == used + if Sends(w.turn(i, pass)) then 1 else 0
    requires step == StepOf(w.turn(i, pass), i, k.slots[i], HasMore(k, i), now, k.cap, endpointAttempt, retry, escalated)
    ensures var more := turns + [Turned(i, w.turn(i, pass), endpointAttempt, step)];
            if step.Again? then Midway(w, k, i, start, more, now, pass + 1, step.endpointAttempt, step.retry, step.escalated) && now == used + 1
            else AllTaken(w, k, i, start, more, step)
  {
    TurnsUnfold(w, k, i, used, pass, endpointAttempt, retry, escalated, now, step);
    Reassociate(turns, [Turned(i, w.turn(i, pass), endpointAttempt, step)],
                if step.Again? then Turns(w, k, i, now, pass + 1, step.endpointAttempt, step.retry, step.escalated) else []);
  }

  /** The client leaves while waiting: nothing changes. */
  lemma WaitedReplays(k: Route, log: seq<Event>, i: nat)
    ensures Replay(k, log + [Waited(i)]) == Replay(k, log)
  {
    ReplaySnoc(k, log, Waited(i));
    assert Replay(k, log).cooled + [] == Replay(k, log).cooled;
  }

  lemma ReplayUsed(k: Route, log: seq<Event>, more: seq<Event>)
    ensures Replay(k, log + more).used == Replay(k, log).used + SentIn(more)
  {
    ReplaySays(k, log);
    ReplaySays(k, log + more);
    SentConcat(log, more);
  }

  /** A log with one candidate's events after it ends as they do. */
  lemma EndsAlike(log: seq<Event>, events: seq<Event>, i: nat)
    requires AllAt(events, i) && !Stopped(log)
    ensures if events == [] then log + events == log else log + events != [] && (log + events)[|log + events| - 1].slot == i
    ensures StepAfter(log + events) == StepAfter(events) && (Stopped(log + events) <==> Stopped(events))
  {
    if events == [] {
      assert log + events == log;
    } else {
      assert (log + events)[|log + events| - 1] == events[|events| - 1];
    }
  }

  /** The walk up to the end of a candidate, and what is left of it. */
  lemma WalkGo(w: World, k: Route, i: nat, used: nat, log: seq<Event>, events: seq<Event>, now: nat)
    requires i < |k.slots| && used <= k.cap && events == EventsOf(w, k, i, used) && now == used + SentIn(events)
    ensures events == [] || Stopped(events) ==> log + Walk(w, k, i, used) == log + events
    ensures events != [] && !Stopped(events) ==> log + Walk(w, k, i, used) == log + events + Walk(w, k, i + 1, now)
  {
    Reassociate(log, events, Walk(w, k, i + 1, now));
  }

  predicate LastAt(log: seq<Event>, i: nat) { if i == 0 then log == [] else log != [] && log[|log| - 1].slot == i - 1 }

  /** The log so far is that of the candidates before `i`, and the walk goes on there. */
  predicate Before(w: World, k: Route, i: nat, log: seq<Event>) {
    && WholeWalk(w, k) == log + Walk(w, k, i, Replay(k, log).used) && !Stopped(log) && LastAt(log, i)
  }

  /** The log is the whole walk and `step` how it ended; `i` is the last candidate considered. */
  predicate Done(w: World, k: Route, i: nat, log: seq<Event>, step: Step) {
    && WholeWalk(w, k) == log && step == StepAfter(log)
    && if step.Next? then k.slots != [] ==> i == LastConsidered(k, log) else log != [] && log[|log| - 1].slot == i
  }

  lemma DoneFrom(w: World, k: Route, i: nat, log: seq<Event>, events: seq<Event>)
    requires i < |k.slots| && WholeWalk(w, k) == log + events && !Stopped(log) && LastAt(log, i)
    requires AllAt(events, i) && (events == [] || Stopped(events))
    ensures Done(w, k, i, log + events, StepAfter(events))
  {
    EndsAlike(log, events, i);
  }

  lemma BeforeFrom(w: World, k: Route, i: nat, log: seq<Event>, events: seq<Event>)
    requires WholeWalk(w, k) == log + events + Walk(w, k, i + 1, Replay(k, log + events).used) && !Stopped(log)
    requires AllAt(events, i) && events != [] && !Stopped(events)
    ensures Before(w, k, i + 1, log + events)
  {
    EndsAlike(log, events, i);
  }

  /** One candidate more. */
  lemma NextBefore(w: World, k: Route, i: nat, log: seq<Event>)
    requires i < |k.slots| && Replay(k, log).used <= k.cap && Before(w, k, i, log)
    ensures var events := EventsOf(w, k, i, Replay(k, log).used);
            if events == [] || Stopped(events) then Done(w, k, i, log + events, StepAfter(events)) else Before(w, k, i + 1, log + events)
  {
    var events := EventsOf(w, k, i, Replay(k, log).used);
    ReplayUsed(k, log, events);
    WalkGo(w, k, i, Replay(k, log).used, log, events, Replay(k, log + events).used);
    EventsThere(w, k, i, Replay(k, log).used);
    if events == [] || Stopped(events) {
      DoneFrom(w, k, i, log, events);
    } else {
      BeforeFrom(w, k, i, log, events);
    }
  }

  /** No candidate is left. */
  lemma NoneBefore(w: World, k: Route, i: nat, log: seq<Event>)
    requires i == |k.slots| && Before(w, k, i, log)
    ensures Done(w, k, if i == 0 then 0 else i - 1, log, Next)
  {
  }

  lemma BeforeAll(w: World, k: Route)
    ensures Before(w, k, 0, [])
  {
    assert [] + WholeWalk(w, k) == WholeWalk(w, k);
  }

  /** What the variables come to at the end. */
  lemma VerdictFrom(k: Route, v: Vars, log: seq<Event>)
    requires Says(k, v, log)
    ensures Verdict(k, log) ==
            if k.combo && v.trace.order != [] then
              Failure(ModelsExhausted(if v.trace.order[0] in v.trace.failures then v.trace.failures[v.trace.order[0]] else 0, v.trace.lastText))
            else if v.latest.Some? then v.latest.value
            else if v.translation.Some? then Failure(v.translation.value)
            else if v.preAttempt.Some? then Failure(v.preAttempt.value)
            else Failure(NoEligible)
  {
    if k.combo {
      var notes := NotesOf(k.slots, log);
      TraceKeeps(notes);
      if notes != [] {
        assert notes[0].member in v.trace.failures;
      }
    }
  }

  class Attempts {
    const w: World
    const k: Route
    var used: nat
    var attemptResponse: Option<nat>
    var attemptErr: Option<Error>
    var attemptSlot: nat
    var preAttemptErr: Option<Error>
    var translationErr: Option<Error>
    var authFailureSeen: bool
    var trace: Trace
    var obtained: nat
    // Bodies obtained and not closed; candidates recorded as needing authentication.
    ghost var open: set<nat>
    ghost var cooled: seq<nat>

    constructor (w: World, k: Route)
      ensures this.w == w && this.k == k
      ensures View() == Vars(Trace([], map[], 0), None, None, None, false) && used == 0 && obtained == 0 && cooled == []
      ensures open == {} == Held()
    {
      this.w, this.k := w, k;
      used, attemptResponse, attemptErr, attemptSlot := 0, None, None, 0;
      preAttemptErr, translationErr, authFailureSeen, trace := None, None, false, Trace([], map[], 0);
      obtained, open, cooled := 0, {}, [];
    }

    function View(): Vars
      reads this
    {
      Vars(trace, Latest(attemptResponse, attemptErr, attemptSlot), preAttemptErr, translationErr, authFailureSeen)
    }

    ghost function Now(): Stock
      reads this
    {
      Stock(View(), used, obtained, cooled)
    }

    /** The body held back for the end, if any. */
    ghost function Held(): set<nat>
      reads this
    {
      HeldIn(attemptResponse)
    }

    /** trace.note, which only a Combo keeps. */
    method Note(slot: nat, status: int, text: int)
      requires slot < |k.slots|
      modifies this`trace
      ensures trace == Told(k, old(trace), [FailureNote(k.slots[slot].member, status, text)])
    {
      if k.combo {
        trace := trace.Add(FailureNote(k.slots[slot].member, status, text));
      }
    }

    method Close(body: nat)
      requires body in open
      modifies this`open
      ensures open == old(open) - {body}
    {
      open := open - {body};
    }

    /** failedAttempt: the latest failed attempt replaces the one before, whose body is closed. */
    method FailedAttempt(error: Option<Error>, response: Option<nat>, slot: nat)
      requires error.Some? <==> response.None?
      requires Held() !! HeldIn(response) && open == Held() + HeldIn(response)
      modifies this`open, this`attemptErr, this`attemptResponse, this`attemptSlot
      ensures attemptErr == error && attemptResponse == response && attemptSlot == slot && open == Held()
    {
      if attemptResponse.Some? {
        Close(attemptResponse.value);
      }
      attemptErr, attemptResponse, attemptSlot := error, response, slot;
    }

    /** recordClassification, for an account whose credential was refused or is missing. */
    method Cool(slot: nat)
      modifies this`cooled
      ensures cooled == old(cooled) + [slot]
    {
      cooled := cooled + [slot];
    }

    /** A refused credential cools its account, but only the first one refused. */
    method CoolOnce(slot: nat)
      modifies this`authFailureSeen, this`cooled
      ensures authFailureSeen && cooled == old(cooled) + if old(authFailureSeen) then [] else [slot]
    {
      if !authFailureSeen {
        Cool(slot);
      }
      authFailureSeen := true;
    }

    /** What an event must leave: the variables and the cooled candidates it leads to. */
    twostate predicate Did(e: Event)
      reads this
    {
      View() == Post(k, old(View()), e, obtained - 1) && cooled == old(cooled) + CooledBy(k, old(View()), e)
    }

    /** A model without an account counts as failing. */
    method Skip(i: nat)
      requires i < |k.slots| && k.slots[i].unavailable.Some?
      modifies this`trace, this`preAttemptErr
      ensures Did(Skipped(i))
    {
      var reason := k.slots[i].unavailable.value;
      Note(i, reason.0, reason.1);
      preAttemptErr := Some(Unavailable(i));
    }

    /** A candidate without a credential: the account needs authentication. */
    method MissCredential(i: nat, error: Error)
      requires i < |k.slots|
      modifies this`trace, this`preAttemptErr, this`cooled
      ensures trace == Told(k, old(trace), [FailureNote(k.slots[i].member, 503, UNAVAILABLE)])
      ensures preAttemptErr == Some(error) && cooled == old(cooled) + [i]
    {
      Cool(i);
      preAttemptErr := Some(error);
      Note(i, 503, UNAVAILABLE);
    }

    /** A candidate whose wire cannot express the request; the first such error is kept. */
    method CannotExpress(i: nat, text: int)
      requires i < |k.slots|
      modifies this`trace, this`translationErr
      ensures trace == Told(k, old(trace), [FailureNote(k.slots[i].member, 502, text)])
      ensures translationErr == if old(translationErr).Some? then old(translationErr) else Some(Translation(i))
    {
      if translationErr.None? {
        translationErr := Some(Translation(i));
      }
      Note(i, 502, text);
    }

    /** Readying a candidate: its credential and a request its wire can express. */
    method Prepare(i: nat)
      requires i < |k.slots|
      modifies this`trace, this`preAttemptErr, this`translationErr, this`cooled
      ensures Did(Prepared(i, w.prep(i)))
    {
      match w.prep(i)
      case NoCredential(required) => MissCredential(i, if required then KeyRequired(i) else Credentials(i));
      case Unsigned => MissCredential(i, Credentials(i));
      case Inexpressible(text) => CannotExpress(i, text);
      case _ =>
    }

    /** A turn at which nothing is sent. */
    method NoSend(i: nat, t: Turn, ghost endpointAttempt: nat, step: Step)
      requires i < |k.slots| && open == Held() && !Sends(t)
      requires step == (if t.Leaves? then Ended(ClientLeft) else if t.NotAllowed? then Ended(Configuration(i)) else Next)
      modifies this`trace, this`preAttemptErr, this`translationErr, this`cooled, this`open, this`attemptErr, this`attemptResponse, this`attemptSlot
      ensures Did(Turned(i, t, endpointAttempt, step)) && open == Held()
    {
      match t
      case NoEndpoints =>
        if attemptResponse.None? {
          FailedAttempt(Some(EndpointsExhausted(i)), None, i);
        }
      case NoTargetCredential(text) =>
        Cool(i);
        preAttemptErr := Some(Credentials(i));
        Note(i, 503, text);
      case RouteRefused(text) => CannotExpress(i, text);
      case NoDataSource =>
        preAttemptErr := Some(Credentials(i));
        Note(i, 503, UNAVAILABLE);
      case NoData => MissCredential(i, Credentials(i));
      case _ =>
    }

    /** One request on the wire, counted as it is sent; an answer comes with a body. */
    method Issue(arrives: bool) returns (body: nat)
      modifies this`used, this`obtained, this`open
      ensures used == old(used) + 1 && body == old(obtained)
      ensures obtained == old(obtained) + (if arrives then 1 else 0) && open == old(open) + (if arrives then {body} else {})
    {
      used := used + 1;
      body := obtained;
      if arrives {
        open := open + {body};
        obtained := obtained + 1;
      }
    }

    /** The send fails. */
    method LoseTurn(i: nat, t: Turn, ghost endpointAttempt: nat) returns (step: Step)
      requires i < |k.slots| && open == Held() && t.Lost?
      modifies this
      ensures step == if t.left then Ended(ClientLeft) else Next
      ensures Did(Turned(i, t, endpointAttempt, step)) && open == Held() && used == old(used) + 1 && obtained == old(obtained)
    {
      var body := Issue(false);
      step := if t.left then Ended(ClientLeft) else Next;
      if !t.left {
        FailedAttempt(Some(SendFailed(i)), None, i);
        Note(i, 502, t.text);
      }
    }

    /** Only the body held back is open, and the answer's if there is one. */
    ghost predicate Owns(step: Step)
      reads this
    {
      && Bodies(open, obtained, attemptResponse)
      && (step.Answered? ==> obtained > 0 && obtained - 1 !in Held() && open == Held() + {obtained - 1})
      && (!step.Answered? ==> open == Held())
    }

    /** foldForcedStream: the answer as it is, one body made of it with the answer's closed, or a failure. */
    method MakeWhole(body: nat, fold: Fold)
      requires body !in Held() && open == Held() + {body} && body == obtained - 1 && Bodies(open, obtained, attemptResponse)
      modifies this`open, this`obtained
      ensures Bodies(open, obtained, attemptResponse) && obtained == old(obtained) + if fold.Folded? then 1 else 0
      ensures fold.Broken? ==> open == Held()
      ensures !fold.Broken? ==> obtained - 1 !in Held() && open == Held() + {obtained - 1}
    {
      if fold.Whole? {
        return;
      }
      Close(body);
      if fold.Folded? {
        open := open + {obtained};
        obtained := obtained + 1;
      }
    }

    /** A failed response is held back and the next candidate tried. */
    method PassOver(i: nat, status: int, text: int)
      requires i < |k.slots| && obtained > 0 && obtained - 1 !in Held() && open == Held() + {obtained - 1}
      modifies this`trace, this`open, this`attemptErr, this`attemptResponse, this`attemptSlot
      ensures trace == Told(k, old(trace), [FailureNote(k.slots[i].member, status, text)])
      ensures attemptErr == None && attemptResponse == Some(obtained - 1) && attemptSlot == i && open == Held()
    {
      Note(i, status, text);
      FailedAttempt(None, Some(obtained - 1), i);
    }

    /** A 2xx answer whose body is whole: passed over if it reports a failure that allows it, else the
        answer. A reported refusal of the credential is recorded whatever was recorded before. */
    method Accept(i: nat, t: Turn, ghost endpointAttempt: nat, hasMore: bool) returns (step: Step)
      requires i < |k.slots| && t.Success? && !t.fold.Broken? && Owns(Answered)
      modifies this`trace, this`open, this`attemptErr, this`attemptResponse, this`attemptSlot, this`cooled
      ensures step == if t.reports.Some? && t.reports != Some(Stand) && hasMore && used < k.cap then Next else Answered
      ensures Did(Turned(i, t, endpointAttempt, step)) && Owns(step)
    {
      if t.reports == Some(AuthRefreshRequired) {
        Cool(i);
      }
      if t.reports.Some? && t.reports.value.AllowsFallback() && hasMore && used < k.cap {
        PassOver(i, t.status, t.text);
        return Next;
      }
      return Answered;
    }

    /** A 2xx answer. */
    method SuccessTurn(i: nat, t: Turn, ghost endpointAttempt: nat, ghost retry: nat, ghost escalated: bool, hasMore: bool) returns (step: Step)
      requires i < |k.slots| && t.Success? && Owns(Next)
      modifies this
      ensures used == old(used) + 1 && obtained == old(obtained) + BodiesOf(Turned(i, t, endpointAttempt, step))
      ensures step == StepOf(t, i, k.slots[i], hasMore, used, k.cap, endpointAttempt, retry, escalated)
      ensures Did(Turned(i, t, endpointAttempt, step)) && Owns(step)
    {
      var body := Issue(true);
      MakeWhole(body, t.fold);
      if !t.fold.Broken? {
        step := Accept(i, t, endpointAttempt, hasMore);
      } else if t.left {
        step := Ended(ClientLeft);
      } else {
        FailedAttempt(Some(FoldFailed(i)), None, i);
        step := Next;
      }
    }

    /** A host of a walked provider refused: the next host, or the answer is held back. */
    method HostRefused(i: nat, t: Turn, endpointAttempt: nat, retry: nat, escalated: bool) returns (step: Step)
      requires i < |k.slots| && t.Refusal? && HostRefusal(k.slots[i], t.status) && Owns(Answered)
      modifies this`trace, this`open, this`attemptErr, this`attemptResponse, this`attemptSlot, this`cooled, this`authFailureSeen
      ensures step == if endpointAttempt + 1 < k.slots[i].hosts && used < k.cap then Again(endpointAttempt + 1, retry, escalated) else Next
      ensures Did(Turned(i, t, endpointAttempt, step)) && Owns(step)
    {
      var next := endpointAttempt + 1;
      if next < k.slots[i].hosts && used < k.cap {
        Close(obtained - 1);
        return Again(next, retry, escalated);
      }
      if next == k.slots[i].hosts && (t.status == 401 || t.status == 403) {
        CoolOnce(i);
      }
      PassOver(i, t.status, t.text);
      return Next;
    }

    /** A refusal that is not replayed: what its classification says. */
    method Classified(i: nat, t: Turn, endpointAttempt: nat, retry: nat, escalated: bool, hasMore: bool) returns (step: Step)
      requires i < |k.slots| && t.Refusal? && !HostRefusal(k.slots[i], t.status) && Owns(Answered)
      modifies this`trace, this`open, this`attemptErr, this`attemptResponse, this`attemptSlot, this`cooled, this`authFailureSeen
      ensures step == if t.outcome.RetrySameAccount? && retry == 0 && used < k.cap && t.readable then
                        (if t.leaves then Ended(ClientLeft) else Again(endpointAttempt, retry + 1, escalated))
                      else if t.outcome != Stand && t.readable && hasMore && used < k.cap then Next else Answered
      ensures Did(Turned(i, t, endpointAttempt, step)) && Owns(step)
    {
      if t.outcome.AuthRefreshRequired? {
        CoolOnce(i);
      }
      if t.outcome.RetrySameAccount? && retry == 0 && used < k.cap && t.readable {
        Close(obtained - 1);
        return if t.leaves then Ended(ClientLeft) else Again(endpointAttempt, retry + 1, escalated);
      }
      if t.outcome.AllowsFallback() && t.readable && hasMore && used < k.cap {
        PassOver(i, t.status, t.text);
        return Next;
      }
      return Answered;
    }

    /** Any other answer: the next host, one replay on another wire, one retry, the next candidate, or the answer. */
    method RefusalTurn(i: nat, t: Turn, endpointAttempt: nat, retry: nat, escalated: bool, hasMore: bool) returns (step: Step)
      requires i < |k.slots| && t.Refusal? && Owns(Next)
      modifies this
      ensures used == old(used) + 1 && obtained == old(obtained) + 1
      ensures step == StepOf(t, i, k.slots[i], hasMore, used, k.cap, endpointAttempt, retry, escalated)
      ensures Did(Turned(i, t, endpointAttempt, step)) && Owns(step)
    {
      var body := Issue(true);
      if HostRefusal(k.slots[i], t.status) {
        step := HostRefused(i, t, endpointAttempt, retry, escalated);
      } else if t.left {
        Close(body);
        step := Ended(ClientLeft);
      } else if !escalated && t.readable && used < k.cap && k.slots[i].rewires && t.otherWire {
        Close(body);
        step := Again(endpointAttempt, retry, true);
      } else {
        step := Classified(i, t, endpointAttempt, retry, escalated, hasMore);
      }
    }

    /** One turn of a candidate's loop. */
    method Attempt(i: nat, pass: nat, endpointAttempt: nat, retry: nat, escalated: bool, hasMore: bool) returns (step: Step)
      requires i < |k.slots| && Owns(Next)
      modifies this
      ensures var t := w.turn(i, pass); var e := Turned(i, t, endpointAttempt, step);
              && used == old(used) + (if Sends(t) then 1 else 0) && obtained == old(obtained) + BodiesOf(e)
              && step == StepOf(t, i, k.slots[i], hasMore, used, k.cap, endpointAttempt, retry, escalated)
              && Did(e)
      ensures Owns(step)
    {
      var t := w.turn(i, pass);
      match t
      case Lost(_, _) => step := LoseTurn(i, t, endpointAttempt);
      case Success(_, _, _, _, _) => step := SuccessTurn(i, t, endpointAttempt, retry, escalated, hasMore);
      case Refusal(_, _, _, _, _, _, _) => step := RefusalTurn(i, t, endpointAttempt, retry, escalated, hasMore);
      case _ =>
        step := if t.Leaves? then Ended(ClientLeft) else if t.NotAllowed? then Ended(Configuration(i)) else Next;
        NoSend(i, t, endpointAttempt, step);
    }

    /** One turn, and the log with it. */
    method TurnOnce(i: nat, pass: nat, endpointAttempt: nat, retry: nat, escalated: bool, ghost log: seq<Event>) returns (step: Step)
      requires i < |k.slots| && Owns(Next) && Now() == Replay(k, log)
      modifies this
      ensures used == old(used) + if Sends(w.turn(i, pass)) then 1 else 0
      ensures step == StepOf(w.turn(i, pass), i, k.slots[i], HasMore(k, i), used, k.cap, endpointAttempt, retry, escalated)
      ensures Owns(step) && Now() == Replay(k, log + [Turned(i, w.turn(i, pass), endpointAttempt, step)])
    {
      step := Attempt(i, pass, endpointAttempt, retry, escalated, HasMore(k, i));
      ReplaySnoc(k, log, Turned(i, w.turn(i, pass), endpointAttempt, step));
    }

    /** A candidate's loop: the turns the script gives. */
    method TrySlot(i: nat, ghost log: seq<Event>) returns (step: Step, ghost turns: seq<Event>)
      requires i < |k.slots| && Owns(Next) && Now() == Replay(k, log) && used <= k.cap
      modifies this
      ensures used <= k.cap && AllTaken(w, k, i, old(used), turns, step)
      ensures Now() == Replay(k, log + turns) && Owns(step)
    {
      var pass: nat, endpointAttempt: nat, retry: nat, escalated := 0, 0, 0, w.escalated(i);
      step, turns := Next, [];
      MidwayAtStart(w, k, i, used);
      assert log + [] == log;
      while retry < 2 && used < k.cap
        invariant Owns(Next) && Now() == Replay(k, log + turns) && used <= k.cap
        invariant Midway(w, k, i, old(used), turns, used, pass, endpointAttempt, retry, escalated)
        decreases k.cap - used
      {
        ghost var before := used;
        step := TurnOnce(i, pass, endpointAttempt, retry, escalated, log + turns);
        NextMidway(w, k, i, old(used), turns, before, pass, endpointAttempt, retry, escalated, used, step);
        ghost var e := [Turned(i, w.turn(i, pass), endpointAttempt, step)];
        Reassociate(log, turns, e);
        turns := turns + e;
        if !step.Again? {
          return;
        }
        pass, endpointAttempt, retry, escalated := pass + 1, step.endpointAttempt, step.retry, step.escalated;
      }
      NoTurnLeft(w, k, i, old(used), turns, used, pass, endpointAttempt, retry, escalated);
      step := Next;
    }

    /** A model without an account, and the log with it. */
    method SkipSlot(i: nat, ghost log: seq<Event>)
      requires i < |k.slots| && k.slots[i].unavailable.Some?
      requires Owns(Next) && Now() == Replay(k, log)
      modifies this`trace, this`preAttemptErr
      ensures Owns(Next) && Now() == Replay(k, log + [Skipped(i)])
    {
      ReplaySnoc(k, log, Skipped(i));
      Skip(i);
    }

    /** A candidate that cannot be readied, and the log with it. */
    method PrepareSlot(i: nat, ghost log: seq<Event>) returns (step: Step)
      requires i < |k.slots| && Owns(Next) && Now() == Replay(k, log)
      modifies this`trace, this`preAttemptErr, this`translationErr, this`cooled
      ensures var e := Prepared(i, w.prep(i));
              Owns(Next) && Now() == Replay(k, log + [e]) && step == if Stops(e) then EndOf(e) else Next
    {
      ReplaySnoc(k, log, Prepared(i, w.prep(i)));
      Prepare(i);
      step := if w.prep(i).Left? then Ended(ClientLeft)
              else if w.prep(i).NoCredential? && w.prep(i).required then Ended(KeyRequired(i)) else Next;
    }

    /** A candidate with an account, while budget remains. */
    method ReadySlot(i: nat, ghost log: seq<Event>) returns (step: Step, ghost events: seq<Event>)
      requires i < |k.slots| && Owns(Next) && Now() == Replay(k, log) && used < k.cap
      requires !LeftWaiting(w, k, i) && k.slots[i].unavailable.None?
      modifies this
      ensures used <= k.cap && events == EventsOf(w, k, i, old(used))
      ensures Owns(step) && Now() == Replay(k, log + events) && step == StepAfter(events)
    {
      if !w.prep(i).Ready? {
        events := [Prepared(i, w.prep(i))];
        step := PrepareSlot(i, log);
      } else {
        step, events := TrySlot(i, log);
      }
    }

    /** One candidate, from the wait before its model to the end of its loop. `over`: the budget is used. */
    method Candidate(i: nat, previousMember: nat, ghost log: seq<Event>) returns (step: Step, over: bool, ghost events: seq<Event>)
      requires i < |k.slots| && previousMember == (if i == 0 then 0 else k.slots[i - 1].member)
      requires Owns(Next) && Now() == Replay(k, log) && used <= k.cap
      modifies this
      ensures used <= k.cap && events == EventsOf(w, k, i, old(used)) && (over <==> events == [])
      ensures Owns(step) && Now() == Replay(k, log + events) && step == StepAfter(events)
    {
      over, events, step := false, EventsOf(w, k, i, used), Next;
      EventsThere(w, k, i, used);
      if k.slots[i].member != previousMember && previousMember != 0 && w.waitLeft(i) {
        WaitedReplays(k, log, i);
        step := Ended(ClientLeft);
      } else if k.slots[i].unavailable.Some? {
        SkipSlot(i, log);
      } else if used == k.cap {
        assert log + [] == log;
        over := true;
      } else {
        ghost var those;
        step, those := ReadySlot(i, log);
      }
    }

    /** The deferred close. */
    method Release()
      requires open == Held() || (obtained > 0 && open == Held() + {obtained - 1} && obtained - 1 !in Held())
      modifies this`open
      ensures open == old(open) - Held()
    {
      if attemptResponse.Some? {
        Close(attemptResponse.value);
      }
    }

    /** The answer when no candidate gave one. */
    method Conclude(ghost log: seq<Event>) returns (answer: Answer)
      requires Owns(Next) && Now() == Replay(k, log)
      modifies this`open, this`attemptResponse
      ensures answer == Verdict(k, log) && open == BodyOf(answer)
    {
      ReplaySays(k, log);
      VerdictFrom(k, View(), log);
      if k.combo && trace.order != [] {
        answer := Failure(ModelsExhausted(if trace.order[0] in trace.failures then trace.failures[trace.order[0]] else 0, trace.lastText));
        Release();
      } else if attemptResponse.Some? {
        answer := Response(attemptResponse.value, attemptSlot);
        attemptResponse := None;
      } else {
        answer := Failure(if attemptErr.Some? then attemptErr.value
                          else if translationErr.Some? then translationErr.value
                          else if preAttemptErr.Some? then preAttemptErr.value else NoEligible);
      }
    }

    /** The answer a candidate's end gives. */
    method Deliver(i: nat, step: Step, ghost log: seq<Event>) returns (answer: Answer)
      requires Stopped(log) && log[|log| - 1].slot == i && step == EndOf(log[|log| - 1]) && Owns(step) && Now() == Replay(k, log)
      modifies this`open
      ensures answer == AnswerOf(w, k, log) && open == BodyOf(answer)
    {
      ReplaySays(k, log);
      answer := if step.Ended? then Failure(step.error) else Response(obtained - 1, i);
      Release();
    }

    /** One candidate, and the walk with it. */
    method Consider(i: nat, previousMember: nat, ghost log: seq<Event>) returns (step: Step, over: bool, ghost more: seq<Event>)
      requires i < |k.slots| && previousMember == (if i == 0 then 0 else k.slots[i - 1].member)
      requires Owns(Next) && Now() == Replay(k, log) && used <= k.cap && Before(w, k, i, log)
      modifies this
      ensures Owns(step) && Now() == Replay(k, more) && used <= k.cap
      ensures if over || !step.Next? then Done(w, k, i, more, step) else Before(w, k, i + 1, more)
    {
      NextBefore(w, k, i, log);
      ghost var events;
      step, over, events := Candidate(i, previousMember, log);
      more := log + events;
    }

    /** The candidates in order, until one ends the request or the budget is used up. */
    method Candidates() returns (step: Step, index: nat, previousMember: nat, ghost log: seq<Event>)
      requires Owns(Next) && Now() == Replay(k, []) && used == 0
      modifies this
      ensures Owns(step) && Now() == Replay(k, log) && used <= k.cap && Done(w, k, index, log, step)
      ensures previousMember == if index < |k.slots| then k.slots[index].member else 0
    {
      index, previousMember, step, log := 0, 0, Next, [];
      BeforeAll(w, k);
      while index < |k.slots|
        invariant index <= |k.slots| && previousMember == if index == 0 then 0 else k.slots[index - 1].member
        invariant Owns(Next) && Now() == Replay(k, log) && used <= k.cap && Before(w, k, index, log)
      {
        var over;
        step, over, log := Consider(index, previousMember, log);
        previousMember := k.slots[index].member;
        if over || !step.Next? {
          return;
        }
        index := index + 1;
      }
      NoneBefore(w, k, index, log);
      return Next, if index == 0 then 0 else index - 1, previousMember, log;
    }

    /** The whole loop and what follows it. */
    method Serve() returns (answer: Answer, ghost log: seq<Event>)
      requires Owns(Next) && Now() == Replay(k, []) && used == 0
      modifies this
      ensures log == WholeWalk(w, k) && answer == AnswerOf(w, k, log) && open == BodyOf(answer)
      ensures used == Replay(k, log).used <= k.cap && cooled == Replay(k, log).cooled
    {
      var step, index, previousMember;
      step, index, previousMember, log := Candidates();
      if !step.Next? {
        answer := Deliver(index, step, log);
      } else if k.combo && previousMember != 0 && w.finalLeft {
        answer := Failure(ClientLeft);
        Release();
      } else {
        answer := Conclude(log);
      }
    }
  }

  /** dispatchAttempts. The requests sent, the answer given, the bodies left open and the accounts recorded
      as needing authentication are those of the script. */
  method DispatchAttempts(w: World, k: Route) returns (answer: Answer, a: Attempts, ghost log: seq<Event>)
    ensures fresh(a) && log == WholeWalk(w, k) && answer == AnswerOf(w, k, log)
    ensures a.used == SentIn(log) <= k.cap && a.cooled == Cooled(k.slots, log) && a.open == BodyOf(answer)
  {
    a := new Attempts(w, k);
    answer, log := a.Serve();
    ReplaySays(k, log);
  }
}
