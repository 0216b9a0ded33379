/**
 ForceRefresh's rejected marker and progress: who is responsible for clearing the marker, and
 why no state of the protocol is stuck.
 */
module RegistryProgress {
  import opened Prelude
  import opened Credentials
  import opened RegistryProtocol
  import opened RegistrySafety
  import opened RegistryRuns

  // ------------------------------------------------------------ the rejected marker

  /** Whoever waits on this call does not get a credential that was committed before it joined. */
  ghost predicate Unsettled(s: State, c: nat) {
    c < |s.calls| &&
    if s.calls[c].done then s.calls[c].recheck || s.calls[c].result == Some(Failed)
    else var p := At(s.threads, s.calls[c].owner); !(p.Returning? && p.verdict.Committed?)
  }

  /** A ForceRefresh call that was refused `token` and cannot return with it still marked. */
  ghost predicate Carries(s: State, p: Phase, token: string) {
    && p.Force() == Some(token)
    && (p.Waiting? ==> Unsettled(s, p.awaited))
    && (p.Returning? ==> !p.verdict.Committed?)
  }

  /** A marker names the current access token, and some ForceRefresh call still answers for it. */
  ghost predicate Marked(s: State) {
    s.entry.rejected != "" ==>
      && s.entry.rejected == s.entry.current.access
      && exists u: Tid :: Carries(s, At(s.threads, u), s.entry.rejected)
  }

  /** A ForceRefresh call about to wait or refresh: the exchange it joins has not committed yet, and
      with none in flight there is an exchanger. */
  ghost predicate Attentive(s: State, t: Tid, a: Action) {
    a.Check? && At(s.threads, t).Checking? && s.entry.rejected != "" && At(s.threads, t).force == Some(s.entry.rejected) ==>
      if s.entry.inflight.Some? then Unsettled(s, s.entry.inflight.value) else s.entry.exchanger
  }

  /** A step after which the same calls answer for the same marker keeps it marked. */
  lemma MarkerStays(s: State, n: State)
    requires Marked(s) && (n.entry.rejected == "" || (n.entry.rejected == s.entry.rejected && n.entry.current.access == s.entry.current.access))
    requires n.entry.rejected != "" ==> forall u: Tid :: Carries(s, At(s.threads, u), s.entry.rejected) ==> Carries(n, At(n.threads, u), s.entry.rejected)
    ensures Marked(n)
  {
    if n.entry.rejected != "" {
      var u: Tid :| Carries(s, At(s.threads, u), s.entry.rejected);
      assert Carries(n, At(n.threads, u), n.entry.rejected);
    }
  }

  /** Steps that leave the marker alone, or clear it with the token it names. */
  lemma MarkerMoves(s: State, n: State, t: Tid, a: Action)
    requires Next(s, t, a) == Some(n) && !a.BeginForce?
    ensures n.entry.rejected == "" || (n.entry.rejected == s.entry.rejected && n.entry.current.access == s.entry.current.access)
  {
  }

  /** Only a publication makes a call settled for those who wait on it. */
  lemma OthersCarry(s: State, n: State, t: Tid, shape: Move, u: Tid, token: string)
    requires Inv(s) && Shaped(s, n, t, shape) && u != t && Carries(s, At(s.threads, u), token)
    requires At(n.threads, t).Returning? && At(n.threads, t).verdict.Committed? ==>
               At(s.threads, t).Returning? && At(s.threads, t).verdict.Committed?
    requires shape.End? ==> EndsSettled(s, n, t)
    ensures Carries(n, At(n.threads, u), token)
  {
  }

  /** A call that ends without a credential tells its waiters to check again, or that it failed. */
  ghost predicate EndsSettled(s: State, n: State, t: Tid) {
    var p := At(s.threads, t);
    p.OwnCall().Some? && p.OwnCall().value < |n.calls| &&
      var call := n.calls[p.OwnCall().value];
      (p.Returning? && p.verdict.Committed?) || (call.done ==> call.recheck || call.result == Some(Failed))
  }

  /** A call that answers for the marker goes on answering for it until it clears it. */
  lemma OwnCarries(s: State, n: State, t: Tid, a: Action)
    requires Next(s, t, a) == Some(n) && !a.Check? && !a.BeginForce? && !a.PublishRotated?
    requires s.entry.rejected == n.entry.rejected != "" && Carries(s, At(s.threads, t), s.entry.rejected)
    ensures Carries(n, At(n.threads, t), s.entry.rejected)
  {
  }

  lemma NotNewlyCommitted(s: State, n: State, t: Tid, a: Action)
    requires Next(s, t, a) == Some(n) && !a.PublishRotated?
    ensures At(n.threads, t).Returning? && At(n.threads, t).verdict.Committed? ==>
              At(s.threads, t).Returning? && At(s.threads, t).verdict.Committed?
  {
  }

  predicate EndsCall(a: Action) { a.Finish? || a.Close? || a.CloseUpdate? }

  /** Other actions leave every call as it is, and may add one. */
  lemma CallsStay(s: State, n: State, t: Tid, a: Action)
    requires Next(s, t, a) == Some(n) && !EndsCall(a)
    ensures |s.calls| <= |n.calls| && forall c :: 0 <= c < |s.calls| ==> n.calls[c] == s.calls[c]
  {
  }

  lemma EndingSettles(s: State, n: State, t: Tid, a: Action)
    requires Inv(s) && Next(s, t, a) == Some(n) && At(s.threads, t).OwnCall().Some?
    ensures EndsSettled(s, n, t)
  {
    if a.Finish? { FinishSettles(s, n, t); }
    else if a.Close? || a.CloseUpdate? { CloseSettles(s, n, t); }
    else { CallsStay(s, n, t, a); }
  }

  lemma FinishSettles(s: State, n: State, t: Tid)
    requires Inv(s) && DoFinish(s, t) == Some(n)
    ensures EndsSettled(s, n, t)
  {
  }

  lemma CloseSettles(s: State, n: State, t: Tid)
    requires Inv(s) && (DoClose(s, t) == Some(n) || DoCloseUpdate(s, t) == Some(n))
    ensures EndsSettled(s, n, t)
  {
  }

  lemma MarkedAfterBeginForce(s: State, n: State, t: Tid, token: string)
    requires Inv(s) && Fresh(s) && Marked(s) && (DoBeginForce(s, t, token) == Some(n))
    ensures Marked(n)
  {
    if At(n.threads, t).Checking? && s.entry.current.access == token {
      assert Carries(n, At(n.threads, t), token);
    } else if s.entry.rejected != "" {
      var u: Tid :| Carries(s, At(s.threads, u), s.entry.rejected);
      assert Carries(n, At(n.threads, u), n.entry.rejected);
    }
  }

  lemma MarkedAfterCheck(s: State, n: State, t: Tid, unexpired: bool)
    requires Inv(s) && Marked(s) && Attentive(s, t, Check(unexpired)) && DoCheck(s, t, unexpired) == Some(n)
    ensures Marked(n)
  {
    if s.entry.rejected != "" {
      var u: Tid :| Carries(s, At(s.threads, u), s.entry.rejected);
      assert Carries(n, At(n.threads, u), n.entry.rejected);
    }
  }

  /** For the last call answering for the marker the condition is exact. */
  lemma CheckLosesMarker(s: State, n: State, t: Tid, unexpired: bool)
    requires Inv(s) && Marked(s) && s.entry.rejected != "" && DoCheck(s, t, unexpired) == Some(n)
    requires forall u: Tid :: Carries(s, At(s.threads, u), s.entry.rejected) ==> u == t
    ensures Marked(n) <==> Attentive(s, t, Check(unexpired))
  {
    if Attentive(s, t, Check(unexpired)) {
      MarkedAfterCheck(s, n, t, unexpired);
    } else {
      forall u: Tid
        ensures !Carries(n, At(n.threads, u), n.entry.rejected)
      {
        if Carries(n, At(n.threads, u), n.entry.rejected) { assert Carries(s, At(s.threads, u), s.entry.rejected); }
      }
    }
  }

  lemma CarriersStay(s: State, n: State, t: Tid, a: Action)
    requires Inv(s) && Next(s, t, a) == Some(n) && !a.Check? && !a.BeginForce? && !a.PublishRotated?
    requires s.entry.rejected == n.entry.rejected != ""
    ensures forall u: Tid :: Carries(s, At(s.threads, u), s.entry.rejected) ==> Carries(n, At(n.threads, u), s.entry.rejected)
  {
    StepShape(s, n, t, a);
    var shape: Move :| Shaped(s, n, t, shape);
    NotNewlyCommitted(s, n, t, a);
    if At(s.threads, t).OwnCall().Some? { EndingSettles(s, n, t, a); }
    forall u: Tid | Carries(s, At(s.threads, u), s.entry.rejected)
      ensures Carries(n, At(n.threads, u), s.entry.rejected)
    {
      if u == t { OwnCarries(s, n, t, a); } else { OthersCarry(s, n, t, shape, u, s.entry.rejected); }
    }
  }

  lemma StepMarked(s: State, t: Tid, a: Action)
    requires Inv(s) && Fresh(s) && Marked(s) && Attentive(s, t, a) && Next(s, t, a).Some?
    ensures Marked(Next(s, t, a).value)
  {
    var n := Next(s, t, a).value;
    if a.Check? { MarkedAfterCheck(s, n, t, a.unexpired); }
    else if a.BeginForce? { MarkedAfterBeginForce(s, n, t, a.token); }
    else {
      MarkerMoves(s, n, t, a);
      if n.entry.rejected != "" && !a.PublishRotated? {
        CarriersStay(s, n, t, a);
      }
      PublishClears(s, n, t, a);
      MarkerStays(s, n);
    }
  }

  lemma PublishClears(s: State, n: State, t: Tid, a: Action)
    requires Next(s, t, a) == Some(n)
    ensures a.PublishRotated? ==> n.entry.rejected == ""
  {
  }

  ghost predicate AttentiveRun(s: State, steps: seq<Step>)
    decreases |steps|
  {
    steps != [] && Next(s, steps[0].thread, steps[0].action).Some? ==>
      && Attentive(s, steps[0].thread, steps[0].action)
      && AttentiveRun(Next(s, steps[0].thread, steps[0].action).value, steps[1..])
  }

  lemma {:induction false} MarkedRun(s: State, steps: seq<Step>)
    requires Inv(s) && Fresh(s) && Marked(s) && AttentiveRun(s, steps) && Run(s, steps).Some?
    ensures Marked(Run(s, steps).value)
    decreases |steps|
  {
    if steps != [] {
      StepInv(s, steps[0].thread, steps[0].action);
      StepFresh(s, steps[0].thread, steps[0].action);
      StepMarked(s, steps[0].thread, steps[0].action);
      MarkedRun(Next(s, steps[0].thread, steps[0].action).value, steps[1..]);
    }
  }

  /** A marker names the current access token. */
  predicate MarkerCurrent(s: State) { s.entry.rejected != "" ==> s.entry.rejected == s.entry.current.access }

  lemma StepMarkerCurrent(s: State, t: Tid, a: Action)
    requires MarkerCurrent(s) && Next(s, t, a).Some?
    ensures MarkerCurrent(Next(s, t, a).value)
  {
    if !a.BeginForce? { MarkerMoves(s, Next(s, t, a).value, t, a); }
  }

  lemma {:induction false} MarkerCurrentAfter(s: State, steps: seq<Step>)
    requires MarkerCurrent(s) && Run(s, steps).Some?
    ensures MarkerCurrent(Run(s, steps).value)
    decreases |steps|
  {
    if steps != [] {
      StepMarkerCurrent(s, steps[0].thread, steps[0].action);
      MarkerCurrentAfter(Next(s, steps[0].thread, steps[0].action).value, steps[1..]);
    }
  }

  /** On every sequence of steps, late joins included, a non-empty marker is the current access token. */
  lemma MarkerIsCurrent(row: Secret, exchanger: bool, steps: seq<Step>)
    requires Run(Init(row, exchanger), steps).Some?
    ensures MarkerCurrent(Run(Init(row, exchanger), steps).value)
  {
    MarkerCurrentAfter(Init(row, exchanger), steps);
  }

  /** On every attentive run it is gone once no ForceRefresh call that was refused it is in progress. */
  lemma MarkerOutlivesNoCall(row: Secret, exchanger: bool, steps: seq<Step>)
    requires AttentiveRun(Init(row, exchanger), steps) && Run(Init(row, exchanger), steps).Some?
    ensures var s := Run(Init(row, exchanger), steps).value;
            s.entry.rejected != "" ==>
              s.entry.rejected == s.entry.current.access && exists u: Tid :: At(s.threads, u).Force() == Some(s.entry.rejected)
  {
    InitInv(row, exchanger);
    InitFresh(row, exchanger);
    MarkedRun(Init(row, exchanger), steps);
    var s := Run(Init(row, exchanger), steps).value;
    if s.entry.rejected != "" {
      var u: Tid :| Carries(s, At(s.threads, u), s.entry.rejected);
      assert At(s.threads, u).Force() == Some(s.entry.rejected);
    }
  }

  /** Thread 1's refresh has committed `rotated` and not yet freed the slot. */
  function Rotating(row: Secret, rotated: Secret): State {
    State(Entry(rotated, 1, true, "", Some(0), true), Decoded(rotated), None, None, [Call(1, false, false, None)],
          map[1 := Returning(false, 0, Committed(rotated), None)])
  }

  lemma Rotates(row: Secret, answer: Secret) returns (steps: seq<Step>)
    requires answer.Usable()
    ensures Run(Init(row, true), steps) == Some(Rotating(row, Merge(row, answer).value))
  {
    var first := [Step(1, BeginSecret), Step(1, Check(false))];
    var second := [Step(1, Exchange(Some(answer))), Step(1, AcquireCheck)];
    var third := [Step(1, WriteRotated(true)), Step(1, PublishRotated)];
    CheckRotating(row);
    PassRotating(row, answer);
    CommitRotating(row, answer);
    RunAppend(Init(row, true), first, second);
    RunAppend(Init(row, true), first + second, third);
    steps := first + second + third;
  }

  /** Thread 1's refresh at one of its stages, before the publication. */
  function Refresher(row: Secret, durable: Secret, installer: Option<Tid>, stage: RefreshStage, answer: Secret): State {
    State(Entry(row, 1, true, "", Some(0), true), durable, installer, None, [Call(1, false, false, None)],
          map[1 := Refreshing(stage, 0, Capture(row, 1, None), answer, None)])
  }

  lemma CheckRotating(row: Secret)
    ensures Run(Init(row, true), [Step(1, BeginSecret), Step(1, Check(false))]) == Some(Refresher(row, row, None, Exchanging, row))
  {
    var s0 := Init(row, true);
    var s1 := s0.Move(1, Checking(None));
    var s2 := Refresher(row, row, None, Exchanging, row);
    assert s2.threads == Moved(s1.threads, 1, At(s2.threads, 1));
    assert s1.calls + [Call(1, false, false, None)] == s2.calls;
    RunTwo(s0, s1, s2, Step(1, BeginSecret), Step(1, Check(false)));
  }

  lemma PassRotating(row: Secret, answer: Secret)
    requires answer.Usable()
    ensures Run(Refresher(row, row, None, Exchanging, row), [Step(1, Exchange(Some(answer))), Step(1, AcquireCheck)])
         == Some(Refresher(row, row, Some(1), Writing, answer))
  {
    var s2 := Refresher(row, row, None, Exchanging, row);
    var s3 := Refresher(row, row, None, Committing, answer);
    var s4 := Refresher(row, row, Some(1), Writing, answer);
    assert s3.threads == Moved(s2.threads, 1, At(s3.threads, 1));
    assert s4.threads == Moved(s3.threads, 1, At(s4.threads, 1));
    RunTwo(s2, s3, s4, Step(1, Exchange(Some(answer))), Step(1, AcquireCheck));
  }

  lemma WriteRotating(row: Secret, answer: Secret)
    requires answer.Usable()
    ensures Next(Refresher(row, row, Some(1), Writing, answer), 1, WriteRotated(true))
         == Some(Refresher(row, Decoded(Merge(row, answer).value), Some(1), Publishing, answer))
  {
    var n := Refresher(row, Decoded(Merge(row, answer).value), Some(1), Publishing, answer);
    assert n.threads == Moved(Refresher(row, row, Some(1), Writing, answer).threads, 1, At(n.threads, 1));
  }

  lemma PublishRotating(row: Secret, answer: Secret)
    requires answer.Usable()
    ensures Next(Refresher(row, Decoded(Merge(row, answer).value), Some(1), Publishing, answer), 1, PublishRotated)
         == Some(Rotating(row, Merge(row, answer).value))
  {
    var s := Refresher(row, Decoded(Merge(row, answer).value), Some(1), Publishing, answer);
    var n := Rotating(row, Merge(row, answer).value);
    assert n.threads == Moved(s.threads, 1, At(n.threads, 1));
  }

  lemma CommitRotating(row: Secret, answer: Secret)
    requires answer.Usable()
    ensures Run(Refresher(row, row, Some(1), Writing, answer), [Step(1, WriteRotated(true)), Step(1, PublishRotated)])
         == Some(Rotating(row, Merge(row, answer).value))
  {
    WriteRotating(row, answer);
    PublishRotating(row, answer);
    var rotated := Merge(row, answer).value;
    RunTwo(Refresher(row, row, Some(1), Writing, answer), Refresher(row, Decoded(rotated), Some(1), Publishing, answer), Rotating(row, rotated),
           Step(1, WriteRotated(true)), Step(1, PublishRotated));
  }

  /** A caller refused the new token before its refresh has freed the slot joins that refresh: its
      ForceRefresh returns the very token it was refused, and the marker stays set with every call
      finished. */
  lemma LateJoinKeepsRefusedToken(row: Secret, answer: Secret) returns (steps: seq<Step>)
    requires answer.Usable() && answer.access != "" && !Blank(Merge(row, answer).value.refresh)
    ensures var end := Run(Init(row, true), steps);
            && end.Some?
            && (forall u: Tid :: At(end.value.threads, u).Idle?)
            && end.value.entry.rejected == answer.access == end.value.entry.current.access
            && At(end.value.threads, 2) == Idle(Some(Served(end.value.entry.current)))
  {
    var rotated := Merge(row, answer).value;
    var committed := Rotates(row, answer);
    var s0 := Rotating(row, rotated);
    var marked := s0.entry.(rejected := answer.access);
    var s1 := s0.(entry := marked).Move(2, Checking(Some(answer.access)));
    var s2 := s1.Move(2, Waiting(0, Some(answer.access)));
    RunTwo(s0, s1, s2, Step(2, BeginForce(answer.access)), Step(2, Check(true)));
    var freed := JoinedReturns(s2, rotated, answer.access);
    var join := [Step(2, BeginForce(answer.access)), Step(2, Check(true))];
    RunAppend(Init(row, true), committed, join);
    RunAppend(Init(row, true), committed + join, freed);
    steps := committed + join + freed;
  }

  lemma JoinedReturns(s: State, rotated: Secret, token: string) returns (steps: seq<Step>)
    requires s.calls == [Call(1, false, false, None)] && s.entry.rejected == token && s.entry.current == rotated
    requires At(s.threads, 1) == Returning(false, 0, Committed(rotated), None) && At(s.threads, 2) == Waiting(0, Some(token))
    requires forall u: Tid :: u != 1 && u != 2 ==> At(s.threads, u).Idle?
    ensures Run(s, steps).Some?
    ensures var n := Run(s, steps).value;
            && (forall u: Tid :: At(n.threads, u).Idle?) && n.entry.rejected == token && n.entry.current == rotated
            && At(n.threads, 2) == Idle(Some(Served(rotated)))
  {
    var s1 := s.(entry := s.entry.Release(), calls := [Call(1, false, false, Some(Served(rotated)))]).Move(1, Returning(true, 0, Committed(rotated), None));
    var s2 := s1.(calls := [Call(1, true, false, Some(Served(rotated)))]).Move(1, Idle(Some(Served(rotated))));
    var s3 := s2.Move(2, Idle(Some(Served(rotated))));
    assert s.calls[0 := s.calls[0].(result := Some(Served(rotated)))] == s1.calls;
    assert s1.calls[0 := s1.calls[0].(done := true)] == s2.calls;
    RunTwo(s, s1, s2, Step(1, Finish), Step(1, Close));
    assert Next(s2, 2, Wake) == Some(s3);
    var free := [Step(1, Finish), Step(1, Close)];
    RunAppend(s, free, [Step(2, Wake)]);
    assert Run(s2, [Step(2, Wake)]) == Run(s3, []);
    steps := free + [Step(2, Wake)];
  }

  // ------------------------------------------------------------ progress

  /** The thread this one cannot move before, if any. An idle thread may want the registry mutex. */
  function WaitsFor(s: State, t: Tid): Option<Tid> {
    match At(s.threads, t)
    case Idle(_) => s.registrar
    case Waiting(awaited, _) => if awaited < |s.calls| && !s.calls[awaited].done then Some(s.calls[awaited].owner) else None
    case UpdateBlocked(awaited) => if awaited < |s.calls| && !s.calls[awaited].done then Some(s.calls[awaited].owner) else None
    case Refreshing(Committing, _, _, _, _) => s.installer
    case Importing(Queued, _, _) => s.installer
    case Registering(_) => s.installer
    case Seeding => s.installer
    case Updating(Holding, _, _) => s.installer
    case _ => None
  }

  /** A thread that waits for nobody can move without its context being cancelled. */
  ghost predicate CanMove(s: State, t: Tid) {
    exists a: Action :: !a.Cancel? && Next(s, t, a).Some?
  }

  function Forward(s: State, t: Tid): Action {
    match At(s.threads, t)
    case Idle(_) => BeginSecret
    case Checking(_) => Check(true)
    case Waiting(_, _) => Wake
    case Refreshing(stage, _, _, _, _) =>
      (match stage case Exchanging => Exchange(None) case Committing => AcquireCheck case Writing => WriteRotated(true) case Publishing => PublishRotated)
    case Returning(closing, _, _, _) => if closing then Close else Finish
    case Unmarking(_) => Unmark
    case Importing(stage, _, _) => (match stage case Queued => ImportBump(true) case Storing => ImportWrite(true) case Stored => ImportPublish)
    case Registering(_) => RegisterInstall(true)
    case Seeding => SeedInstall(true, true)
    case UpdateTrying => TakeSlot
    case UpdateBlocked(_) => Unblock
    case Updating(stage, _, _) => (match stage case Holding => UpdateWrite(Abandoned) case Written => UpdatePublish(true) case Released => CloseUpdate)
  }

  lemma SecretMoves(s: State, t: Tid)
    requires Inv(s) && WaitsFor(s, t).None?
    requires var p := At(s.threads, t); p.Idle? || p.Checking? || p.Waiting? || p.Unmarking?
    ensures Next(s, t, Forward(s, t)).Some?
  {
    if At(s.threads, t).Waiting? { WaitingMoves(s, t); }
  }

  lemma WaitingMoves(s: State, t: Tid)
    requires Inv(s) && WaitsFor(s, t).None? && At(s.threads, t).Waiting?
    ensures DoWake(s, t).Some?
  {
  }

  lemma RefreshingMoves(s: State, t: Tid)
    requires WaitsFor(s, t).None? && At(s.threads, t).Refreshing?
    ensures Next(s, t, Forward(s, t)).Some?
  {
  }

  lemma ReturningMoves(s: State, t: Tid)
    requires Inv(s) && At(s.threads, t).Returning?
    ensures if At(s.threads, t).closing then DoClose(s, t).Some? else DoFinish(s, t).Some?
  {
  }

  lemma ReturnMoves(s: State, t: Tid)
    requires Inv(s) && At(s.threads, t).Returning?
    ensures Next(s, t, Forward(s, t)).Some?
  {
    ReturningMoves(s, t);
  }

  lemma InstallMoves(s: State, t: Tid)
    requires Inv(s) && WaitsFor(s, t).None?
    requires var p := At(s.threads, t); p.Importing? || p.Registering? || p.Seeding?
    ensures Next(s, t, Forward(s, t)).Some?
  {
  }

  lemma TryMoves(s: State, t: Tid)
    requires At(s.threads, t).UpdateTrying?
    ensures Next(s, t, Forward(s, t)).Some?
  {
  }

  lemma BlockedMoves(s: State, t: Tid)
    requires Inv(s) && WaitsFor(s, t).None? && At(s.threads, t).UpdateBlocked?
    ensures Next(s, t, Forward(s, t)).Some?
  {
  }

  lemma UpdateMoves(s: State, t: Tid)
    requires Inv(s) && WaitsFor(s, t).None? && At(s.threads, t).Updating?
    ensures Next(s, t, Forward(s, t)).Some?
  {
  }

  lemma UnblockedMoves(s: State, t: Tid)
    requires Inv(s) && WaitsFor(s, t).None?
    ensures CanMove(s, t)
  {
    var p := At(s.threads, t);
    if p.Idle? || p.Checking? || p.Waiting? || p.Unmarking? { SecretMoves(s, t); }
    else if p.Refreshing? { RefreshingMoves(s, t); }
    else if p.Returning? { ReturnMoves(s, t); }
    else if p.Importing? || p.Registering? || p.Seeding? { InstallMoves(s, t); }
    else if p.UpdateTrying? { TryMoves(s, t); }
    else if p.UpdateBlocked? { BlockedMoves(s, t); }
    else { UpdateMoves(s, t); }
    assert !Forward(s, t).Cancel? && Next(s, t, Forward(s, t)).Some?;
  }

  lemma HolderIsFree(s: State)
    requires Locks(s) && s.installer.Some?
    ensures WaitsFor(s, s.installer.value).None? && !At(s.threads, s.installer.value).Idle?
  {
    assert At(s.threads, s.installer.value).HoldsInstall();
  }

  lemma OwnerWaitsForHolder(s: State, c: nat)
    requires Owned(s) && c < |s.calls| && !s.calls[c].done
    ensures var u := s.calls[c].owner; !At(s.threads, u).Idle? && (WaitsFor(s, u).Some? ==> WaitsFor(s, u) == s.installer)
  {
    assert At(s.threads, s.calls[c].owner).OwnCall() == Some(c);
  }

  /** Waiting goes from an idle thread to the registry mutex, from a waiter to the slot's owner, from
      either to the install lock, and stops there: it never comes round. */
  lemma WaitingEnds(s: State, t: Tid)
    requires Inv(s)
    ensures WaitsFor(s, t).Some? ==>
              var u := WaitsFor(s, t).value;
              !At(s.threads, u).Idle? && (WaitsFor(s, u).Some? ==> WaitsFor(s, u) == s.installer && WaitsFor(s, WaitsFor(s, u).value).None?)
  {
    if s.installer.Some? { HolderIsFree(s); }
    var p := At(s.threads, t);
    if (p.Waiting? || p.UpdateBlocked?) && p.awaited < |s.calls| && !s.calls[p.awaited].done {
      OwnerWaitsForHolder(s, p.awaited);
    } else if p.Idle? && s.registrar.Some? {
      assert At(s.threads, s.registrar.value).Registering?;
    }
  }

  /** No reachable state is stuck: from any thread, at most two waits lead to one that can move. */
  lemma NeverStuck(row: Secret, exchanger: bool, steps: seq<Step>, t: Tid) returns (u: Tid)
    requires Run(Init(row, exchanger), steps).Some?
    ensures var s := Run(Init(row, exchanger), steps).value;
            && CanMove(s, u)
            && (u == t || Some(u) == WaitsFor(s, t) || (WaitsFor(s, t).Some? && Some(u) == WaitsFor(s, WaitsFor(s, t).value)))
            && (At(s.threads, u).Idle? ==> u == t)
  {
    InitSafe(row, exchanger, steps);
    var s := Run(Init(row, exchanger), steps).value;
    WaitingEnds(s, t);
    u := t;
    if WaitsFor(s, u).Some? {
      u := WaitsFor(s, u).value;
      if WaitsFor(s, u).Some? {
        HolderIsFree(s);
        u := WaitsFor(s, u).value;
      }
    }
    UnblockedMoves(s, u);
  }

  /** On every run the slot has at most one owner, an exchange or an Update. */
  lemma SlotHasOneOwner(row: Secret, exchanger: bool, steps: seq<Step>, t: Tid, u: Tid)
    requires Run(Init(row, exchanger), steps).Some?
    requires var s := Run(Init(row, exchanger), steps).value; At(s.threads, t).HoldsSlot() && At(s.threads, u).HoldsSlot()
    ensures t == u
  {
    InitSafe(row, exchanger, steps);
    OneOwner(Run(Init(row, exchanger), steps).value, t);
  }

  /** A waiter whose call has closed returns what that call's owner returned, or checks again. */
  lemma WaiterGetsTheResult(row: Secret, exchanger: bool, steps: seq<Step>, t: Tid)
    requires Run(Init(row, exchanger), steps).Some?
    requires var s := Run(Init(row, exchanger), steps).value;
             At(s.threads, t).Waiting? && (At(s.threads, t).awaited < |s.calls| ==> s.calls[At(s.threads, t).awaited].done)
    ensures var s := Run(Init(row, exchanger), steps).value;
            var p := At(s.threads, t);
            && p.awaited < |s.calls|
            && DoWake(s, t).Some?
            && var q := At(DoWake(s, t).value.threads, t);
               if s.calls[p.awaited].recheck then q == Checking(p.force)
               else s.calls[p.awaited].result.Some? && (q == Idle(s.calls[p.awaited].result) || (p.force.Some? && q == Unmarking(p.force.value) && s.calls[p.awaited].result == Some(Failed)))
  {
    InitSafe(row, exchanger, steps);
  }

  /** What a closed call tells its waiters never changes. */
  lemma ClosedCallsStay(s: State, t: Tid, a: Action, c: nat)
    requires Inv(s) && Next(s, t, a).Some? && c < |s.calls| && s.calls[c].done
    ensures c < |Next(s, t, a).value.calls| && Next(s, t, a).value.calls[c] == s.calls[c]
  {
    var n := Next(s, t, a).value;
    if EndsCall(a) {
      EndsItsOwn(s, n, t, a, c);
    } else {
      CallsStay(s, n, t, a);
    }
  }

  lemma EndsItsOwn(s: State, n: State, t: Tid, a: Action, c: nat)
    requires Inv(s) && Next(s, t, a) == Some(n) && EndsCall(a) && c < |s.calls| && At(s.threads, t).OwnCall() != Some(c)
    ensures c < |n.calls| && n.calls[c] == s.calls[c]
  {
    if a.Finish? { FinishLeaves(s, n, t, c); } else { CloseLeaves(s, n, t, c); }
  }

  lemma FinishLeaves(s: State, n: State, t: Tid, c: nat)
    requires DoFinish(s, t) == Some(n) && c < |s.calls| && At(s.threads, t).OwnCall() != Some(c)
    ensures c < |n.calls| && n.calls[c] == s.calls[c]
  {
  }

  lemma CloseLeaves(s: State, n: State, t: Tid, c: nat)
    requires (DoClose(s, t) == Some(n) || DoCloseUpdate(s, t) == Some(n)) && c < |s.calls| && At(s.threads, t).OwnCall() != Some(c)
    ensures c < |n.calls| && n.calls[c] == s.calls[c]
  {
  }
}
