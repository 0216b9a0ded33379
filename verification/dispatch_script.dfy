/**
 dispatchAttempts (internal/ingress/dispatch.go) as a function of its surroundings: what credentials,
 upstreams and the client do at each turn decides which requests are sent and what is reported.
 */
module DispatchScript {
  import opened Prelude

  const MAX_ACCOUNT_ATTEMPTS: nat := 10

  function Max(a: nat, b: nat): nat { if a > b then a else b }

  // What is said when a candidate has no credential.
  const UNAVAILABLE: int := 0

  datatype FailureNote = FailureNote(member: nat, status: int, text: int)

  /** One account of one model, or a model without one. `hosts` is how many endpoints its provider walks;
      `rewires` says whether its provider's requests may be replayed on another wire. */
  datatype Slot = Slot(member: nat, unavailable: Option<(int, int)>, kiro: bool, hosts: nat, rewires: bool)

  /** A request's plan: whether it is served as a Combo, its attempt budget and its candidates. */
  datatype Route = Route(combo: bool, cap: nat, slots: seq<Slot>)

  datatype Error =
    | ClientLeft
    | Unavailable(slot: nat)
    | KeyRequired(slot: nat)
    | Credentials(slot: nat)
    | Translation(slot: nat)
    | Configuration(slot: nat)
    | EndpointsExhausted(slot: nat)
    | SendFailed(slot: nat)
    | FoldFailed(slot: nat)
    | ModelsExhausted(status: int, text: int)
    | NoEligible

  /** Response bodies are numbered as they are obtained. */
  datatype Answer = Response(body: nat, slot: nat) | Failure(error: Error)

  datatype Outcome = RetrySameAccount | AuthRefreshRequired | FallBack | Stand
  {
    predicate AllowsFallback() { !Stand? }
  }

  /** What readying a candidate comes to. */
  datatype Prep = Ready | Left | NoCredential(required: bool) | Unsigned | Inexpressible(text: int)

  datatype Fold = Whole | Folded | Broken

  /** What one turn of a candidate's loop comes to: nothing is sent, the send fails, or an answer comes. */
  datatype Turn =
    | Leaves
    | NoEndpoints
    | NoTargetCredential(text: int)
    | RouteRefused(text: int)
    | NotAllowed
    | NoDataSource
    | NoData
    | Lost(left: bool, text: int)
    | Success(status: int, fold: Fold, left: bool, reports: Option<Outcome>, text: int)
    | Refusal(status: int, left: bool, readable: bool, otherWire: bool, outcome: Outcome, leaves: bool, text: int)

  /** Everything the loop does not decide itself, by candidate and turn. */
  datatype World = World(waitLeft: nat -> bool, prep: nat -> Prep, escalated: nat -> bool, turn: (nat, nat) -> Turn, finalLeft: bool)

  /** How a turn ends: another one, the next candidate, the answer, or an error for the client. */
  datatype Step = Again(endpointAttempt: nat, retry: nat, escalated: bool) | Next | Answered | Ended(error: Error)

  predicate Sends(t: Turn) { t.Lost? || t.Success? || t.Refusal? }

  /** An answer may be passed over: its outcome allows it, its body was read, and another candidate and
      budget remain. */
  predicate PassesOver(outcome: Outcome, readable: bool, hasMore: bool, used: nat, cap: nat) {
    outcome.AllowsFallback() && readable && hasMore && used < cap
  }

  predicate HostRefusal(slot: Slot, status: int) {
    slot.kiro && (status == 401 || status == 403 || status == 404)
  }

  /** `used` counts the turn's own request. */
  function StepOf(t: Turn, index: nat, slot: Slot, hasMore: bool, used: nat, cap: nat, endpointAttempt: nat, retry: nat, escalated: bool): Step {
    match t
    case Leaves => Ended(ClientLeft)
    case NotAllowed => Ended(Configuration(index))
    case Lost(left, _) => if left then Ended(ClientLeft) else Next
    case Success(_, fold, left, reports, _) =>
      if fold.Broken? then (if left then Ended(ClientLeft) else Next)
      else if PassesOver(reports.GetOr(Stand), true, hasMore, used, cap) then Next else Answered
    case Refusal(status, left, readable, otherWire, outcome, leaves, _) =>
      if HostRefusal(slot, status) then
        (if endpointAttempt + 1 < slot.hosts && used < cap then Again(endpointAttempt + 1, retry, escalated) else Next)
      else if left then Ended(ClientLeft)
      else if !escalated && readable && used < cap && slot.rewires && otherWire then Again(endpointAttempt, retry, true)
      else if outcome.RetrySameAccount? && retry == 0 && used < cap && readable then
        (if leaves then Ended(ClientLeft) else Again(endpointAttempt, retry + 1, escalated))
      else if PassesOver(outcome, readable, hasMore, used, cap) then Next else Answered
    case _ => Next
  }

  // ------------------------------------------------------------ what happens, in order

  datatype Event =
    | Waited(slot: nat)
    | Skipped(slot: nat)
    | Prepared(slot: nat, prep: Prep)
    | Turned(slot: nat, turn: Turn, endpointAttempt: nat, step: Step)

  predicate IsSend(e: Event) { e.Turned? && Sends(e.turn) }

  function SentIn(events: seq<Event>): nat {
    if events == [] then 0 else SentIn(events[..|events| - 1]) + if IsSend(events[|events| - 1]) then 1 else 0
  }

  lemma {:induction false} SentConcat(a: seq<Event>, b: seq<Event>)
    ensures SentIn(a + b) == SentIn(a) + SentIn(b)
  {
    if b == [] {
      assert a + b == a;
    } else {
      var front := b[..|b| - 1];
      assert (a + b)[..|a + b| - 1] == a + front;
      SentConcat(a, front);
    }
  }

  /** The client has its answer, or has left. */
  predicate Stops(e: Event) {
    match e
    case Waited(_) => true
    case Skipped(_) => false
    case Prepared(_, prep) => prep.Left? || (prep.NoCredential? && prep.required)
    case Turned(_, _, _, step) => step.Answered? || step.Ended?
  }

  predicate Stopped(events: seq<Event>) { events != [] && Stops(events[|events| - 1]) }

  /** The turns of one candidate. */
  function Turns(w: World, k: Route, index: nat, used: nat, pass: nat, endpointAttempt: nat, retry: nat, escalated: bool): seq<Event>
    requires index < |k.slots|
    decreases Max(k.cap, used) - used
  {
    if retry >= 2 || used >= k.cap then []
    else
      var t := w.turn(index, pass);
      var now := used + if Sends(t) then 1 else 0;
      var step := StepOf(t, index, k.slots[index], k.combo || index + 1 < |k.slots|, now, k.cap, endpointAttempt, retry, escalated);
      [Turned(index, t, endpointAttempt, step)]
      + if step.Again? && now == used + 1 then Turns(w, k, index, now, pass + 1, step.endpointAttempt, step.retry, step.escalated) else []
  }

  /** The client left in the wait before the next model. */
  predicate LeftWaiting(w: World, k: Route, index: nat)
    requires index < |k.slots|
  {
    index > 0 && k.slots[index].member != k.slots[index - 1].member && k.slots[index - 1].member != 0 && w.waitLeft(index)
  }

  /** What happens at one candidate. */
  function EventsOf(w: World, k: Route, index: nat, used: nat): seq<Event>
    requires index < |k.slots|
  {
    if LeftWaiting(w, k, index) then [Waited(index)]
    else if k.slots[index].unavailable.Some? then [Skipped(index)]
    else if used == k.cap then []
    else if !w.prep(index).Ready? then [Prepared(index, w.prep(index))]
    else Turns(w, k, index, used, 0, 0, 0, w.escalated(index))
  }

  /** Candidates in order, each with the events `at` gives for the requests sent so far, until one stops the
      walk or has none. */
  function InOrder(at: (nat, nat) -> seq<Event>, count: nat, index: nat, used: nat): seq<Event>
    decreases count - index
  {
    if index >= count then []
    else
      var events := at(index, used);
      if events == [] || Stopped(events) then events else events + InOrder(at, count, index + 1, used + SentIn(events))
  }

  function EventsIn(w: World, k: Route): (nat, nat) -> seq<Event> {
    (i: nat, used: nat) => if i < |k.slots| then EventsOf(w, k, i, used) else []
  }

  /** Everything that happens, from candidate `index` on. */
  function Walk(w: World, k: Route, index: nat, used: nat): seq<Event> {
    InOrder(EventsIn(w, k), |k.slots|, index, used)
  }

  predicate AllAt(events: seq<Event>, index: nat) { forall i :: 0 <= i < |events| ==> events[i].slot == index }

  /** A candidate's events are its own; there are none exactly when the budget is used up before it. */
  lemma EventsThere(w: World, k: Route, index: nat, used: nat)
    requires index < |k.slots| && used <= k.cap
    ensures AllAt(EventsOf(w, k, index, used), index)
    ensures EventsOf(w, k, index, used) == [] <==> used == k.cap && !LeftWaiting(w, k, index) && k.slots[index].unavailable.None?
  {
    if used < k.cap && w.prep(index).Ready? {
      TurnsThere(w, k, index, used, 0, 0, 0, w.escalated(index));
    }
  }

  lemma {:induction false} TurnsThere(w: World, k: Route, index: nat, used: nat, pass: nat, endpointAttempt: nat, retry: nat, escalated: bool)
    requires index < |k.slots|
    ensures AllAt(Turns(w, k, index, used, pass, endpointAttempt, retry, escalated), index)
    decreases Max(k.cap, used) - used
  {
    if retry < 2 && used < k.cap {
      var t := w.turn(index, pass);
      var now := used + if Sends(t) then 1 else 0;
      var step := StepOf(t, index, k.slots[index], k.combo || index + 1 < |k.slots|, now, k.cap, endpointAttempt, retry, escalated);
      if step.Again? && now == used + 1 {
        TurnsThere(w, k, index, now, pass + 1, step.endpointAttempt, step.retry, step.escalated);
      }
    }
  }

  function WholeWalk(w: World, k: Route): seq<Event> { Walk(w, k, 0, 0) }

  // ------------------------------------------------------------ bodies

  function BodiesOf(e: Event): nat {
    if !e.Turned? then 0
    else match e.turn
      case Success(_, fold, _, _, _) => if fold.Folded? then 2 else 1
      case Refusal(_, _, _, _, _, _, _) => 1
      case _ => 0
  }

  function Obtained(events: seq<Event>): nat {
    if events == [] then 0 else Obtained(events[..|events| - 1]) + BodiesOf(events[|events| - 1])
  }

  // ------------------------------------------------------------ what each event leaves on record

  /** What a Combo's trace is told. */
  function NotesFor(slots: seq<Slot>, e: Event): seq<FailureNote> {
    if e.slot >= |slots| then []
    else
      var m := slots[e.slot].member;
      match e
      case Waited(_) => []
      case Skipped(_) => if slots[e.slot].unavailable.Some? then [FailureNote(m, slots[e.slot].unavailable.value.0, slots[e.slot].unavailable.value.1)] else []
      case Prepared(_, prep) =>
        (match prep
         case NoCredential(_) => [FailureNote(m, 503, UNAVAILABLE)]
         case Unsigned => [FailureNote(m, 503, UNAVAILABLE)]
         case Inexpressible(text) => [FailureNote(m, 502, text)]
         case _ => [])
      case Turned(_, t, _, step) =>
        if !step.Next? then []
        else match t
          case NoTargetCredential(text) => [FailureNote(m, 503, text)]
          case RouteRefused(text) => [FailureNote(m, 502, text)]
          case NoDataSource => [FailureNote(m, 503, UNAVAILABLE)]
          case NoData => [FailureNote(m, 503, UNAVAILABLE)]
          case Lost(_, text) => [FailureNote(m, 502, text)]
          case Success(status, fold, _, _, text) => if fold.Broken? then [] else [FailureNote(m, status, text)]
          case Refusal(status, _, _, _, _, _, text) => [FailureNote(m, status, text)]
          case _ => []
  }

  function NotesOf(slots: seq<Slot>, events: seq<Event>): seq<FailureNote> {
    if events == [] then [] else NotesOf(slots, events[..|events| - 1]) + NotesFor(slots, events[|events| - 1])
  }

  /** A failed attempt, if the event is one. `body` is the last body obtained; `held` says whether a failed
      response is held already. */
  function FailureFor(e: Event, body: int, held: bool): Option<Answer> {
    if !e.Turned? || !e.step.Next? then None
    else match e.turn
      case NoEndpoints => if held then None else Some(Failure(EndpointsExhausted(e.slot)))
      case Lost(_, _) => Some(Failure(SendFailed(e.slot)))
      case Success(_, fold, _, _, _) => if fold.Broken? then Some(Failure(FoldFailed(e.slot))) else if body >= 0 then Some(Response(body, e.slot)) else None
      case Refusal(_, _, _, _, _, _, _) => if body >= 0 then Some(Response(body, e.slot)) else None
      case _ => None
  }

  predicate HoldsResponse(latest: Option<Answer>) { latest.Some? && latest.value.Response? }

  /** The latest failed attempt. */
  function LatestFailure(events: seq<Event>): Option<Answer> {
    if events == [] then None
    else
      var before := LatestFailure(events[..|events| - 1]);
      var now := FailureFor(events[|events| - 1], Obtained(events) - 1, HoldsResponse(before));
      if now.Some? then now else before
  }

  predicate Untranslatable(e: Event) {
    || (e.Prepared? && e.prep.Inexpressible?)
    || (e.Turned? && e.turn.RouteRefused?)
  }

  /** The first candidate whose wire could not express the request. */
  function FirstTranslation(events: seq<Event>): Option<Error> {
    if events == [] then None
    else
      var before := FirstTranslation(events[..|events| - 1]);
      if before.Some? then before else if Untranslatable(events[|events| - 1]) then Some(Translation(events[|events| - 1].slot)) else None
  }

  function PreAttemptFor(e: Event): Option<Error> {
    match e
    case Waited(_) => None
    case Skipped(i) => Some(Unavailable(i))
    case Prepared(i, prep) =>
      (match prep
       case NoCredential(required) => Some(if required then KeyRequired(i) else Credentials(i))
       case Unsigned => Some(Credentials(i))
       case _ => None)
    case Turned(i, t, _, _) => if t.NoTargetCredential? || t.NoDataSource? || t.NoData? then Some(Credentials(i)) else None
  }

  /** The last candidate that never got to an upstream. */
  function LastPreAttempt(events: seq<Event>): Option<Error> {
    if events == [] then None
    else
      var now := PreAttemptFor(events[|events| - 1]);
      if now.Some? then now else LastPreAttempt(events[..|events| - 1])
  }

  // ------------------------------------------------------------ accounts cooled for a refused credential

  /** The account is recorded as needing authentication, whatever came before. */
  predicate CoolsAlways(e: Event) {
    match e
    case Waited(_) => false
    case Skipped(_) => false
    case Prepared(_, prep) => prep.NoCredential? || prep.Unsigned?
    case Turned(_, t, _, _) =>
      || t.NoTargetCredential? || t.NoData?
      || (t.Success? && !t.fold.Broken? && t.reports == Some(AuthRefreshRequired))
  }

  /** The account's refusal is recorded only if none was before. */
  predicate CoolsOnce(slots: seq<Slot>, e: Event) {
    && e.Turned? && e.turn.Refusal? && e.slot < |slots| && (e.step.Next? || e.step.Answered?)
    && if HostRefusal(slots[e.slot], e.turn.status)
       then e.endpointAttempt + 1 == slots[e.slot].hosts && e.turn.status != 404
       else e.turn.outcome.AuthRefreshRequired?
  }

  predicate RefusalSeen(slots: seq<Slot>, events: seq<Event>) {
    exists i :: 0 <= i < |events| && CoolsOnce(slots, events[i])
  }

  lemma SeenSnoc(slots: seq<Slot>, log: seq<Event>, e: Event)
    ensures RefusalSeen(slots, log + [e]) <==> RefusalSeen(slots, log) || CoolsOnce(slots, e)
  {
    var longer := log + [e];
    assert longer[|log|] == e;
    if i :| 0 <= i < |log| && CoolsOnce(slots, log[i]) {
      assert CoolsOnce(slots, longer[i]);
    }
  }

  /** The candidates cooled, in order. */
  function Cooled(slots: seq<Slot>, events: seq<Event>): seq<nat> {
    if events == [] then []
    else
      var front, last := events[..|events| - 1], events[|events| - 1];
      Cooled(slots, front)
      + if CoolsAlways(last) || (CoolsOnce(slots, last) && !RefusalSeen(slots, front)) then [last.slot] else []
  }

  // ------------------------------------------------------------ the answer

  /** The status of the last failure of a model. */
  function LastStatus(notes: seq<FailureNote>, member: nat): int {
    if notes == [] then 0
    else if notes[|notes| - 1].member == member then notes[|notes| - 1].status
    else LastStatus(notes[..|notes| - 1], member)
  }

  /** A Combo whose models failed answers with its first failed model's status and the last message.
      Otherwise the latest failed attempt outranks a request no wire could express, the first of those
      outranks a candidate that never got to an upstream, and of these the last stands. */
  function Verdict(k: Route, events: seq<Event>): Answer {
    var notes := NotesOf(k.slots, events);
    if k.combo && notes != [] then Failure(ModelsExhausted(LastStatus(notes, notes[0].member), notes[|notes| - 1].text))
    else if LatestFailure(events).Some? then LatestFailure(events).value
    else if FirstTranslation(events).Some? then Failure(FirstTranslation(events).value)
    else if LastPreAttempt(events).Some? then Failure(LastPreAttempt(events).value)
    else Failure(NoEligible)
  }

  /** The answer an event gives the client. */
  function AnswerAt(e: Event, body: int): Answer {
    match e
    case Waited(_) => Failure(ClientLeft)
    case Prepared(i, prep) => if prep.NoCredential? then Failure(KeyRequired(i)) else Failure(ClientLeft)
    case Turned(i, _, _, step) =>
      if step.Ended? then Failure(step.error) else if body >= 0 then Response(body, i) else Failure(NoEligible)
    case _ => Failure(NoEligible)
  }

  /** The last candidate considered, whose model is waited for at the end. */
  function LastConsidered(k: Route, events: seq<Event>): nat
    requires |k.slots| > 0
  {
    var reached := if events == [] then 0 else events[|events| - 1].slot + 1;
    if reached < |k.slots| then reached else |k.slots| - 1
  }

  function AnswerOf(w: World, k: Route, events: seq<Event>): Answer {
    if Stopped(events) then AnswerAt(events[|events| - 1], Obtained(events) - 1)
    else if k.combo && |k.slots| > 0 && k.slots[LastConsidered(k, events)].member != 0 && w.finalLeft then Failure(ClientLeft)
    else Verdict(k, events)
  }
}
