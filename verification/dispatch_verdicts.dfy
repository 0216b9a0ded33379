/**
 What dispatchAttempts (internal/ingress/dispatch.go) says when no candidate answers, and which accounts it
 records as needing authentication, event by event.
 */
module DispatchVerdicts {
  import opened Prelude
  import opened DispatchScript
  import opened DispatchTheorems
  import opened DispatchTurns
  import opened DispatchRules

  // ------------------------------------------------------------ counts

  /** A request is counted for every send that failed or was answered, and nothing else; a body for every
      answer, and one more for a success that is folded. */
  lemma CountsAt(log: seq<Event>, j: nat)
    requires j < |log|
    ensures SentIn(log[..0]) == 0 && Obtained(log[..0]) == 0
    ensures SentIn(log[..j + 1]) == SentIn(log[..j]) + if log[j].Turned? && (log[j].turn.Lost? || log[j].turn.Success? || log[j].turn.Refusal?) then 1 else 0
    ensures Obtained(log[..j + 1]) == Obtained(log[..j])
                                      + if log[j].Turned? && log[j].turn.Success? && log[j].turn.fold == Folded then 2
                                        else if log[j].Turned? && (log[j].turn.Success? || log[j].turn.Refusal?) then 1
                                        else 0
  {
    assert log[..j + 1][..|log[..j + 1]| - 1] == log[..j] && log[..j + 1][j] == log[j];
  }

  // ------------------------------------------------------------ accounts recorded

  /** The credential is missing, or a success reports it refused. */
  predicate Missing(e: Event) {
    match e
    case Prepared(_, NoCredential(_)) => true
    case Prepared(_, Unsigned) => true
    case Turned(_, NoTargetCredential(_), _, _) => true
    case Turned(_, NoData, _, _) => true
    case Turned(_, Success(_, fold, _, reports, _), _, _) => fold != Broken && reports == Some(AuthRefreshRequired)
    case _ => false
  }

  /** An upstream's status refuses the credential: a Kiro provider's last host answers 401 or 403, or another
      answer is classified so, the client is there and it is not replayed. */
  predicate RefusedByStatus(w: World, k: Route, log: seq<Event>, j: nat)
    requires j < |log|
  {
    match log[j]
    case Turned(i, Refusal(status, left, readable, otherWire, outcome, _, _), endpointAttempt, _) =>
      i < |k.slots| &&
      if k.slots[i].kiro && status in {401, 403, 404} then status != 404 && endpointAttempt + 1 == k.slots[i].hosts
      else outcome == AuthRefreshRequired && !left
           && !(k.slots[i].rewires && otherWire && !OnOtherWire(w, log, j) && readable && SentIn(log[..j + 1]) < k.cap)
    case _ => false
  }

  lemma MarksAre(w: World, k: Route, j: nat)
    requires j < |WholeWalk(w, k)|
    ensures var log := WholeWalk(w, k);
            && (CoolsAlways(log[j]) <==> Missing(log[j]))
            && (CoolsOnce(k.slots, log[j]) <==> RefusedByStatus(w, k, log, j))
  {
    AtPlace(w, k, j);
    if WholeWalk(w, k)[j].Turned? {
      TurnAt(w, k, j);
    }
  }

  lemma {:induction false} CooledAt(slots: seq<Slot>, events: seq<Event>, i: nat)
    ensures i in Cooled(slots, events) <==>
            exists j :: 0 <= j < |events| && events[j].slot == i
                        && (CoolsAlways(events[j]) || (CoolsOnce(slots, events[j]) && forall h :: 0 <= h < j ==> !CoolsOnce(slots, events[h])))
  {
    if events != [] {
      var front, last := events[..|events| - 1], events[|events| - 1];
      CooledAt(slots, front, i);
      assert events[|front|] == last;
    }
  }

  /** A candidate is recorded as needing authentication exactly when its credential was missing or reported
      refused in a success, or when it met the first of the walk's refusals by status. */
  lemma CooledIff(w: World, k: Route, i: nat)
    ensures var log := WholeWalk(w, k);
            i in Cooled(k.slots, log) <==>
            exists j :: 0 <= j < |log| && log[j].slot == i
                        && (Missing(log[j]) || (RefusedByStatus(w, k, log, j) && forall h :: 0 <= h < j ==> !RefusedByStatus(w, k, log, h)))
  {
    var log := WholeWalk(w, k);
    CooledAt(k.slots, log, i);
    forall j: nat | j < |log|
      ensures CoolsAlways(log[j]) <==> Missing(log[j])
      ensures CoolsOnce(k.slots, log[j]) <==> RefusedByStatus(w, k, log, j)
    {
      MarksAre(w, k, j);
    }
  }

  // ------------------------------------------------------------ no answer: the failures of a Combo's models

  /** The event is a model's failure, of this status and with this message. */
  predicate FailsWith(slots: seq<Slot>, e: Event, status: int, text: int) {
    e.slot < |slots| &&
    match e
    case Waited(_) => false
    case Skipped(i) => slots[i].unavailable == Some((status, text))
    case Prepared(_, prep) => ((prep.NoCredential? || prep == Unsigned) && status == 503 && text == UNAVAILABLE) || (prep == Inexpressible(text) && status == 502)
    case Turned(_, t, _, step) =>
      step == Next &&
      match t
      case Lost(_, why) => status == 502 && text == why
      case RouteRefused(why) => status == 502 && text == why
      case NoTargetCredential(why) => status == 503 && text == why
      case NoDataSource => status == 503 && text == UNAVAILABLE
      case NoData => status == 503 && text == UNAVAILABLE
      case Success(got, fold, _, _, why) => fold != Broken && status == got && text == why
      case Refusal(got, _, _, _, _, _, why) => status == got && text == why
      case _ => false
  }

  ghost predicate Fails(slots: seq<Slot>, e: Event) { exists status, text :: FailsWith(slots, e, status, text) }

  lemma NoteIs(slots: seq<Slot>, e: Event)
    ensures Fails(slots, e) <==> NotesFor(slots, e) != []
    ensures forall status, text :: FailsWith(slots, e, status, text) ==> NotesFor(slots, e) == [FailureNote(slots[e.slot].member, status, text)]
    ensures |NotesFor(slots, e)| <= 1
  {
    var notes := NotesFor(slots, e);
    if notes != [] {
      assert FailsWith(slots, e, notes[0].status, notes[0].text);
    }
  }

  /** `z` is the last place where `p` holds; -1 if there is none. */
  ghost predicate LastWhere(events: seq<Event>, p: Event -> bool, z: int) {
    && -1 <= z < |events| && (z >= 0 ==> p(events[z])) && forall j :: z < j < |events| ==> !p(events[j])
  }

  ghost predicate FirstWhere(events: seq<Event>, p: Event -> bool, a: nat) {
    a < |events| && p(events[a]) && forall j :: 0 <= j < a ==> !p(events[j])
  }

  lemma LastOfFront(events: seq<Event>, p: Event -> bool, z: int)
    requires LastWhere(events, p, z) && z < |events| - 1
    ensures !p(events[|events| - 1]) && LastWhere(events[..|events| - 1], p, z)
  {
  }

  /** The notes a walk leaves: the last is of the last failure, and the first of the first. */
  lemma {:induction false} LastNote(slots: seq<Slot>, events: seq<Event>, z: nat, note: FailureNote)
    requires LastWhere(events, e => Fails(slots, e), z) && NotesFor(slots, events[z]) == [note]
    ensures var notes := NotesOf(slots, events); notes != [] && notes[|notes| - 1] == note
  {
    var n := |events| - 1;
    if z < n {
      LastOfFront(events, e => Fails(slots, e), z);
      NoteIs(slots, events[n]);
      LastNote(slots, events[..n], z, note);
      assert NotesOf(slots, events) == NotesOf(slots, events[..n]) + [];
    }
  }

  lemma FirstOfFront(events: seq<Event>, p: Event -> bool, a: nat)
    requires FirstWhere(events, p, a) && a < |events| - 1
    ensures FirstWhere(events[..|events| - 1], p, a)
  {
  }

  lemma {:induction false} FirstNote(slots: seq<Slot>, events: seq<Event>, a: nat)
    requires FirstWhere(events, e => Fails(slots, e), a)
    ensures var notes := NotesOf(slots, events); notes != [] && notes[0].member == slots[events[a].slot].member
  {
    var n := |events| - 1;
    var front := events[..n];
    if a < n {
      FirstOfFront(events, e => Fails(slots, e), a);
      FirstNote(slots, front, a);
    } else {
      NoNotes(slots, front);
      NoteIs(slots, events[n]);
      assert NotesOf(slots, events) == [] + NotesFor(slots, events[n]);
    }
  }

  lemma {:induction false} NoNotes(slots: seq<Slot>, events: seq<Event>)
    requires forall j :: 0 <= j < |events| ==> !Fails(slots, events[j])
    ensures NotesOf(slots, events) == []
  {
    if events != [] {
      NoteIs(slots, events[|events| - 1]);
      NoNotes(slots, events[..|events| - 1]);
    }
  }

  lemma StatusSnoc(notes: seq<FailureNote>, note: FailureNote, member: nat)
    ensures LastStatus(notes + [note], member) == if note.member == member then note.status else LastStatus(notes, member)
  {
    assert (notes + [note])[..|notes|] == notes;
  }

  /** One more event changes the last status of its own model, if it is a failure. */
  lemma StatusAfter(slots: seq<Slot>, front: seq<Event>, e: Event, member: nat)
    ensures LastStatus(NotesOf(slots, front + [e]), member) ==
            if Fails(slots, e) && slots[e.slot].member == member then NotesFor(slots, e)[0].status else LastStatus(NotesOf(slots, front), member)
  {
    var notes, now := NotesOf(slots, front), NotesFor(slots, e);
    assert (front + [e])[..|front|] == front;
    NoteIs(slots, e);
    if now != [] {
      StatusSnoc(notes, now[0], member);
      assert now == [now[0]];
    } else {
      assert notes + now == notes;
    }
  }

  /** The last failure of a model gives its last status. */
  lemma {:induction false} LastOfMember(slots: seq<Slot>, events: seq<Event>, member: nat, m: nat, note: FailureNote)
    requires LastWhere(events, e => Fails(slots, e) && slots[e.slot].member == member, m) && NotesFor(slots, events[m]) == [note]
    ensures LastStatus(NotesOf(slots, events), member) == note.status
  {
    var n := |events| - 1;
    StatusAfter(slots, events[..n], events[n], member);
    assert events[..n] + [events[n]] == events;
    if m < n {
      LastOfFront(events, e => Fails(slots, e) && slots[e.slot].member == member, m);
      LastOfMember(slots, events[..n], member, m, note);
    }
  }

  /** Whether the client leaves in the wait after the last candidate considered: the one the walk ended at, or
      the one after it if the budget kept that from its turn. */
  predicate LeavesAtEnd(w: World, k: Route, log: seq<Event>) {
    k.combo && |k.slots| > 0 && w.finalLeft
    && if log == [] then k.slots[0].member != 0
       else if log[|log| - 1].slot + 1 < |k.slots| then k.slots[log[|log| - 1].slot + 1].member != 0
       else k.slots[|k.slots| - 1].member != 0
  }

  /** A Combo without an answer says how its models failed: with the last status of the model that failed first
      and the last message of all. */
  lemma ComboSays(w: World, k: Route, a: nat, m: nat, z: nat)
    requires var log := WholeWalk(w, k); k.combo && !Stopped(log) && !LeavesAtEnd(w, k, log)
    requires var log := WholeWalk(w, k); FirstWhere(log, e => Fails(k.slots, e), a) && LastWhere(log, e => Fails(k.slots, e), z)
    requires var log := WholeWalk(w, k); LastWhere(log, e => Fails(k.slots, e) && k.slots[e.slot].member == k.slots[log[a].slot].member, m)
    ensures exists status, other, text, last ::
              && FailsWith(k.slots, WholeWalk(w, k)[m], status, other) && FailsWith(k.slots, WholeWalk(w, k)[z], last, text)
              && AnswerOf(w, k, WholeWalk(w, k)) == Failure(ModelsExhausted(status, text))
  {
    var log := WholeWalk(w, k);
    var status, other :| FailsWith(k.slots, log[m], status, other);
    var last, text :| FailsWith(k.slots, log[z], last, text);
    FirstNote(k.slots, log, a);
    NoteIs(k.slots, log[z]);
    NoteIs(k.slots, log[m]);
    LastNote(k.slots, log, z, NotesFor(k.slots, log[z])[0]);
    LastOfMember(k.slots, log, k.slots[log[a].slot].member, m, NotesFor(k.slots, log[m])[0]);
  }

  // ------------------------------------------------------------ no answer otherwise

  /** An attempt that reached an upstream and left the request to the next candidate. */
  predicate Attempted(e: Event) { e.Turned? && e.step == Next && (e.turn.Lost? || e.turn.Success? || e.turn.Refusal?) }

  predicate NoHosts(e: Event) { e.Turned? && e.step == Next && e.turn == NoEndpoints }

  predicate Inexpressibly(e: Event) { (e.Prepared? && e.prep.Inexpressible?) || (e.Turned? && e.turn.RouteRefused?) }

  /** The candidate never got as far as an attempt, for want of an account or a credential. */
  predicate Unready(e: Event) {
    || e.Skipped? || (e.Prepared? && (e.prep.NoCredential? || e.prep == Unsigned))
    || (e.Turned? && (e.turn.NoTargetCredential? || e.turn == NoDataSource || e.turn == NoData))
  }

  /** The failed attempt that stands: the last one that reached an upstream, with its response if it has one;
      but without a response a later candidate that found no host stands. */
  function LatestAttempt(events: seq<Event>, l: int, h: int): Option<Answer>
    requires -1 <= l < |events| && -1 <= h < |events|
  {
    if l >= 0 && events[l].Turned? && (events[l].turn.Refusal? || (events[l].turn.Success? && events[l].turn.fold != Broken)) && Obtained(events[..l + 1]) > 0
    then Some(Response(Obtained(events[..l + 1]) - 1, events[l].slot))
    else if h > l then Some(Failure(EndpointsExhausted(events[h].slot)))
    else if l >= 0 then Some(Failure(if events[l].Turned? && events[l].turn.Lost? then SendFailed(events[l].slot) else FoldFailed(events[l].slot)))
    else None
  }

  lemma BodyOfLast(events: seq<Event>)
    requires events != [] && events[|events| - 1].Turned? && (events[|events| - 1].turn.Refusal? || events[|events| - 1].turn.Success?)
    ensures Obtained(events) > 0
  {
  }

  /** The last place is the same in a longer list whose other events are not of the kind. */
  lemma SameAttempt(front: seq<Event>, e: Event, l: int, h: int)
    requires -1 <= l < |front| && -1 <= h < |front|
    ensures LatestAttempt(front + [e], l, h) == LatestAttempt(front, l, h)
  {
    if l >= 0 { assert (front + [e])[..l + 1] == front[..l + 1]; }
  }

  lemma FailureAfter(front: seq<Event>, e: Event)
    ensures var now := FailureFor(e, Obtained(front + [e]) - 1, HoldsResponse(LatestFailure(front)));
            LatestFailure(front + [e]) == if now.Some? then now else LatestFailure(front)
  {
    assert (front + [e])[..|front|] == front;
  }

  lemma {:induction false} LatestIs(events: seq<Event>, l: int, h: int)
    requires LastWhere(events, Attempted, l) && LastWhere(events, NoHosts, h)
    ensures LatestFailure(events) == LatestAttempt(events, l, h)
  {
    if events != [] {
      var n := |events| - 1;
      var front, e := events[..n], events[n];
      assert front + [e] == events;
      FailureAfter(front, e);
      if l == n {
        if !e.turn.Lost? { BodyOfLast(events); }
        assert events[..n + 1] == events;
      } else {
        LastOfFront(events, Attempted, l);
        if h == n {
          var before := LastPlace(front, NoHosts);
          LatestIs(front, l, before);
          SameAttempt(front, e, l, before);
        } else {
          LastOfFront(events, NoHosts, h);
          LatestIs(front, l, h);
          SameAttempt(front, e, l, h);
        }
      }
    }
  }

  /** There is a last place, or none. */
  lemma {:induction false} LastPlace(events: seq<Event>, p: Event -> bool) returns (z: int)
    ensures LastWhere(events, p, z)
  {
    z := -1;
    if events != [] {
      var n := |events| - 1;
      if p(events[n]) {
        z := n;
      } else {
        z := LastPlace(events[..n], p);
      }
    }
  }

  /** `f` is the first place where `p` holds; -1 if there is none. */
  ghost predicate FirstOrNone(events: seq<Event>, p: Event -> bool, f: int) {
    if f < 0 then f == -1 && forall j :: 0 <= j < |events| ==> !p(events[j]) else FirstWhere(events, p, f)
  }

  lemma {:induction false} TranslationIs(events: seq<Event>, f: int)
    requires FirstOrNone(events, Inexpressibly, f)
    ensures FirstTranslation(events) == if f >= 0 then Some(Translation(events[f].slot)) else None
  {
    if events != [] {
      var n := |events| - 1;
      if f == n {
        TranslationIs(events[..n], -1);
      } else {
        TranslationIs(events[..n], f);
      }
    }
  }

  /** The error for a candidate that never got to an attempt. */
  function ErrorOf(e: Event): Error {
    if e.Skipped? then Unavailable(e.slot) else if e.Prepared? && e.prep == NoCredential(true) then KeyRequired(e.slot) else Credentials(e.slot)
  }

  lemma {:induction false} PreAttemptIs(events: seq<Event>, p: int)
    requires LastWhere(events, Unready, p)
    ensures LastPreAttempt(events) == if p >= 0 then Some(ErrorOf(events[p])) else None
  {
    if events != [] {
      var n := |events| - 1;
      if p < n {
        LastOfFront(events, Unready, p);
        PreAttemptIs(events[..n], p);
      }
    }
  }

  /** A walk that has not ended with an answer has no event that ends one. */
  lemma NoneStops(w: World, k: Route, j: nat)
    requires j < |WholeWalk(w, k)| && !Stopped(WholeWalk(w, k))
    ensures !Stops(WholeWalk(w, k)[j])
  {
    if Stops(WholeWalk(w, k)[j]) {
      StopEnds(w, k, j);
    }
  }

  /** A request without an answer and, for a Combo, without a failure of a model: the last failed attempt stands;
      without one the first request its candidate's wire could not express; without that the last candidate that
      got to no attempt; and with none of these no account is eligible. */
  lemma OtherwiseSays(w: World, k: Route, l: int, h: int, f: int, p: int)
    requires var log := WholeWalk(w, k); !Stopped(log) && !LeavesAtEnd(w, k, log) && (k.combo ==> forall j :: 0 <= j < |log| ==> !Fails(k.slots, log[j]))
    requires var log := WholeWalk(w, k); LastWhere(log, Attempted, l) && LastWhere(log, NoHosts, h) && FirstOrNone(log, Inexpressibly, f) && LastWhere(log, Unready, p)
    ensures var log := WholeWalk(w, k);
            AnswerOf(w, k, log) ==
            if LatestAttempt(log, l, h).Some? then LatestAttempt(log, l, h).value
            else if f >= 0 then Failure(Translation(log[f].slot))
            else if p >= 0 then Failure(if log[p].Skipped? then Unavailable(log[p].slot) else Credentials(log[p].slot))
            else Failure(NoEligible)
  {
    var log := WholeWalk(w, k);
    if k.combo { NoNotes(k.slots, log); }
    LatestIs(log, l, h);
    TranslationIs(log, f);
    PreAttemptIs(log, p);
    if p >= 0 { NoneStops(w, k, p); }
  }

  /** A client that leaves in the last wait is told so. */
  lemma LeavingSays(w: World, k: Route)
    requires !Stopped(WholeWalk(w, k)) && LeavesAtEnd(w, k, WholeWalk(w, k))
    ensures AnswerOf(w, k, WholeWalk(w, k)) == Failure(ClientLeft)
  {
    var log := WholeWalk(w, k);
    if log != [] {
      AtPlace(w, k, |log| - 1);
    }
  }
}
