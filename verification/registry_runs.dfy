/**
 Safety over whole runs of the registry protocol: memory and store agree, and refreshes only ever extend
 what they were given. One trace shows an import overwritten; RegistryFate says when that happens.
 */
module RegistryRuns {
  import opened Prelude
  import opened Credentials
  import opened RegistryProtocol
  import opened RegistrySafety

  lemma {:induction false} RunSafe(s: State, steps: seq<Step>)
    requires Inv(s) && Fresh(s) && Run(s, steps).Some?
    ensures Inv(Run(s, steps).value) && Fresh(Run(s, steps).value)
    decreases |steps|
  {
    if steps != [] {
      StepInv(s, steps[0].thread, steps[0].action);
      StepFresh(s, steps[0].thread, steps[0].action);
      RunSafe(Next(s, steps[0].thread, steps[0].action).value, steps[1..]);
    }
  }

  lemma InitSafe(row: Secret, exchanger: bool, steps: seq<Step>)
    requires Run(Init(row, exchanger), steps).Some?
    ensures Inv(Run(Init(row, exchanger), steps).value) && Fresh(Run(Init(row, exchanger), steps).value)
  {
    InitInv(row, exchanger);
    InitFresh(row, exchanger);
    RunSafe(Init(row, exchanger), steps);
  }

  // ------------------------------------------------------------ memory and store

  ghost predicate FaithfulRun(s: State, steps: seq<Step>)
    decreases |steps|
  {
    steps != [] && Next(s, steps[0].thread, steps[0].action).Some? ==>
      && Faithful(s, steps[0].thread, steps[0].action)
      && FaithfulRun(Next(s, steps[0].thread, steps[0].action).value, steps[1..])
  }

  lemma {:induction false} CoherentRun(s: State, steps: seq<Step>)
    requires Inv(s) && Fresh(s) && Coherent(s) && FaithfulRun(s, steps) && Run(s, steps).Some?
    ensures Coherent(Run(s, steps).value)
    decreases |steps|
  {
    if steps != [] {
      StepInv(s, steps[0].thread, steps[0].action);
      StepFresh(s, steps[0].thread, steps[0].action);
      StepCoherent(s, steps[0].thread, steps[0].action);
      CoherentRun(Next(s, steps[0].thread, steps[0].action).value, steps[1..]);
    }
  }

  /** Whenever the install lock is free, the published credential is the durable one. */
  lemma MemoryEqualsStore(row: Secret, exchanger: bool, steps: seq<Step>)
    requires FaithfulRun(Init(row, exchanger), steps) && Run(Init(row, exchanger), steps).Some?
    ensures var s := Run(Init(row, exchanger), steps).value; s.installer.None? ==> Same(s.entry.current, s.durable)
  {
    InitInv(row, exchanger);
    InitFresh(row, exchanger);
    CoherentRun(Init(row, exchanger), steps);
  }

  // ------------------------------------------------------------ chains of refreshes

  /** Every refresh in flight whose generation still stands started from the published credential. */
  ghost predicate Loyal(s: State) {
    forall t: Tid :: LoyalAt(s, At(s.threads, t))
  }

  predicate LoyalAt(s: State, p: Phase) {
    p.Refreshing? && p.capture.generation == s.entry.generation ==> Same(s.entry.current, p.capture.stored)
  }

  /** Steps that install nothing: only a refresh changes the published credential. */
  predicate Refreshes(s: State, a: Action, n: State) {
    a.PublishRotated? || n.entry.current == s.entry.current
  }

  predicate RefreshRun(s: State, steps: seq<Step>)
    decreases |steps|
  {
    steps != [] && Next(s, steps[0].thread, steps[0].action).Some? ==>
      var n := Next(s, steps[0].thread, steps[0].action).value;
      Refreshes(s, steps[0].action, n) && RefreshRun(n, steps[1..])
  }

  /** The answers the refreshes of a run committed, in order. */
  function CommittedAnswers(s: State, steps: seq<Step>): seq<Secret>
    decreases |steps|
  {
    if steps == [] then []
    else
      var t, a := steps[0].thread, steps[0].action;
      (if a.PublishRotated? && At(s.threads, t).Refreshing? then [At(s.threads, t).answer] else [])
      + match Next(s, t, a) case None => [] case Some(n) => CommittedAnswers(n, steps[1..])
  }

  /** A thread's capture is the one it had or the one Check just took of the published credential. */
  lemma CaptureStays(s: State, n: State, t: Tid, a: Action)
    requires Next(s, t, a) == Some(n) && At(n.threads, t).Refreshing?
    ensures if a.Check? then At(n.threads, t).capture == Capture(s.entry.current, s.entry.generation, s.Window())
            else At(s.threads, t).Refreshing? && At(n.threads, t).capture == At(s.threads, t).capture
  {
  }

  lemma GenerationGrows(s: State, n: State, t: Tid, a: Action)
    requires Next(s, t, a) == Some(n)
    ensures n.entry.generation >= s.entry.generation
    ensures a.Check? || a.PublishRotated? ==> n.entry.generation == s.entry.generation
    ensures a.Check? ==> n.entry.current == s.entry.current
  {
  }

  lemma OwnLoyal(s: State, n: State, t: Tid, a: Action)
    requires Loyal(s) && Next(s, t, a) == Some(n) && Refreshes(s, a, n)
    ensures LoyalAt(n, At(n.threads, t))
  {
    assert LoyalAt(s, At(s.threads, t));
    GenerationGrows(s, n, t, a);
    if At(n.threads, t).Refreshing? { CaptureStays(s, n, t, a); }
  }

  lemma OtherLoyal(s: State, n: State, t: Tid, a: Action, u: Tid)
    requires Inv(s) && Fresh(s) && Loyal(s) && Next(s, t, a) == Some(n) && Refreshes(s, a, n)
    requires u != t && At(n.threads, u) == At(s.threads, u)
    ensures LoyalAt(n, At(n.threads, u))
  {
    assert LoyalAt(s, At(s.threads, u)) && RefreshOk(s, At(s.threads, u));
    GenerationGrows(s, n, t, a);
    if a.PublishRotated? {
      assert At(s.threads, t).HoldsSlot();
      OneOwner(s, t);
      assert !At(s.threads, u).HoldsSlot();
    }
  }

  lemma StepLoyal(s: State, n: State, t: Tid, a: Action)
    requires Inv(s) && Fresh(s) && Loyal(s) && Next(s, t, a) == Some(n) && Refreshes(s, a, n)
    ensures Loyal(n)
  {
    StepShape(s, n, t, a);
    assert n.threads == s.threads || n.threads == Moved(s.threads, t, At(n.threads, t));
    forall u: Tid
      ensures LoyalAt(n, At(n.threads, u))
    {
      if u == t { OwnLoyal(s, n, t, a); } else { OtherLoyal(s, n, t, a, u); }
    }
  }

  lemma {:induction false} ChainSame(a: Secret, b: Secret, answers: seq<Secret>)
    requires Same(a, b)
    ensures Same(Chain(a, answers), Chain(b, answers))
    decreases |answers|
  {
    if answers != [] {
      ChainSame(Merge(a, answers[0]).GetOr(a), Merge(b, answers[0]).GetOr(b), answers[1..]);
    }
  }

  lemma PublishIsMerge(s: State, t: Tid)
    requires Inv(s) && Fresh(s) && Loyal(s) && DoPublishRotated(s, t).Some?
    ensures var answer := At(s.threads, t).answer;
            Merge(s.entry.current, answer).Some? && Same(DoPublishRotated(s, t).value.entry.current, Merge(s.entry.current, answer).value)
  {
    assert RefreshOk(s, At(s.threads, t)) && LoyalAt(s, At(s.threads, t));
  }

  /** One step of the chain: a refresh merges its answer, any other step leaves the credential. */
  lemma ChainStep(s: State, n: State, t: Tid, a: Action, rest: seq<Secret>)
    requires Inv(s) && Fresh(s) && Loyal(s) && Next(s, t, a) == Some(n) && Refreshes(s, a, n)
    ensures var now := if a.PublishRotated? && At(s.threads, t).Refreshing? then [At(s.threads, t).answer] else [];
            Same(Chain(n.entry.current, rest), Chain(s.entry.current, now + rest))
  {
    if a.PublishRotated? {
      assert DoPublishRotated(s, t) == Some(n) && At(s.threads, t).Refreshing?;
      PublishIsMerge(s, t);
      var answer := At(s.threads, t).answer;
      assert ([answer] + rest)[1..] == rest;
      ChainSame(n.entry.current, Merge(s.entry.current, answer).value, rest);
    } else {
      assert [] + rest == rest;
    }
  }

  /** A run that installs nothing leaves the chain of the answers it committed over what it began with. */
  lemma {:induction false} RefreshRunIsChain(s: State, steps: seq<Step>)
    requires Inv(s) && Fresh(s) && Loyal(s) && RefreshRun(s, steps) && Run(s, steps).Some?
    ensures Same(Run(s, steps).value.entry.current, Chain(s.entry.current, CommittedAnswers(s, steps)))
    decreases |steps|
  {
    if steps != [] {
      var t, a := steps[0].thread, steps[0].action;
      var n := Next(s, t, a).value;
      StepInv(s, t, a);
      StepFresh(s, t, a);
      StepLoyal(s, n, t, a);
      RefreshRunIsChain(n, steps[1..]);
      ChainStep(s, n, t, a, CommittedAnswers(n, steps[1..]));
    }
  }

  /** So no such run loses the refresh token, the sign-in kind, a provider-data key or usability, and each part
      of the credential left is the newest one of the answers committed. */
  lemma RefreshRunKeeps(row: Secret, exchanger: bool, steps: seq<Step>)
    requires RefreshRun(Init(row, exchanger), steps) && Run(Init(row, exchanger), steps).Some?
    ensures var left, answers := Run(Init(row, exchanger), steps).value.entry.current, CommittedAnswers(Init(row, exchanger), steps);
            && Keeps(row, left) && Newest(left, row, answers)
            && forall key :: (if key in left.Data() then Some(left.Data()[key]) else None) == NewestValue(row.Data(), answers, key)
  {
    InitInv(row, exchanger);
    InitFresh(row, exchanger);
    RefreshRunIsChain(Init(row, exchanger), steps);
    ChainKeepsNewest(row, CommittedAnswers(Init(row, exchanger), steps));
  }

  // ------------------------------------------------------------ the window

  lemma {:induction false} RunAppend(s: State, first: seq<Step>, second: seq<Step>)
    requires Run(s, first).Some?
    ensures Run(s, first + second) == Run(Run(s, first).value, second)
    decreases |first|
  {
    if first == [] {
      assert first + second == second;
    } else {
      assert (first + second)[1..] == first[1..] + second;
      RunAppend(Next(s, first[0].thread, first[0].action).value, first[1..], second);
    }
  }

  lemma RunTwo(s: State, m: State, n: State, first: Step, second: Step)
    requires Next(s, first.thread, first.action) == Some(m) && Next(m, second.thread, second.action) == Some(n)
    ensures Run(s, [first, second]) == Some(n)
  {
    assert [first, second][1..] == [second];
    assert Run(m, [second]) == Run(n, []);
  }

  /** Thread 1 imports a different credential and has bumped the generation. */
  function Bumped(row: Secret, imported: Secret): State {
    State(Entry(row, 2, true, "", None, true), row, Some(1), None, [], map[1 := Importing(Storing, imported, true)])
  }

  /** Thread 2 has found the old credential expired and captured it with the new generation. */
  function Captured(row: Secret, imported: Secret): State {
    State(Entry(row, 2, true, "", Some(0), true), row, Some(1), None, [Call(2, false, false, None)],
          map[1 := Importing(Storing, imported, true), 2 := Refreshing(Exchanging, 0, Capture(row, 2, Some(imported)), row, None)])
  }

  /** The import has succeeded. */
  function Imported(row: Secret, imported: Secret): State {
    State(Entry(imported, 2, true, "", Some(0), true), Decoded(imported), None, None, [Call(2, false, false, None)],
          map[1 := Idle(None), 2 := Refreshing(Exchanging, 0, Capture(row, 2, Some(imported)), row, None)])
  }

  lemma ImportBumps(row: Secret, given: Secret)
    requires !given.Empty() && !Same(row, Filled(given, row))
    ensures Run(Init(row, true), [Step(1, BeginImport(given)), Step(1, ImportBump(true))]) == Some(Bumped(row, Filled(given, row)))
  {
    var imported := Filled(given, row);
    var s0 := Init(row, true);
    var s1 := s0.Move(1, Importing(Queued, given, false));
    assert Next(s0, 1, BeginImport(given)) == Some(s1);
    assert Moved(s1.threads, 1, Importing(Storing, imported, true)) == Bumped(row, imported).threads;
    RunTwo(s0, s1, Bumped(row, imported), Step(1, BeginImport(given)), Step(1, ImportBump(true)));
  }

  lemma SecretCaptures(row: Secret, imported: Secret)
    ensures Run(Bumped(row, imported), [Step(2, BeginSecret), Step(2, Check(false))]) == Some(Captured(row, imported))
  {
    var s0 := Bumped(row, imported);
    var s1 := s0.Move(2, Checking(None));
    assert Next(s0, 2, BeginSecret) == Some(s1);
    assert At(s1.threads, 1) == Importing(Storing, imported, true) && s1.Window() == Some(imported);
    assert Moved(s1.threads, 2, At(Captured(row, imported).threads, 2)) == Captured(row, imported).threads;
    assert s1.calls + [Call(2, false, false, None)] == Captured(row, imported).calls;
    RunTwo(s0, s1, Captured(row, imported), Step(2, BeginSecret), Step(2, Check(false)));
  }

  lemma ImportPublishes(row: Secret, imported: Secret)
    ensures Run(Captured(row, imported), [Step(1, ImportWrite(true)), Step(1, ImportPublish)]) == Some(Imported(row, imported))
  {
    var s0 := Captured(row, imported);
    var s1 := s0.(durable := Decoded(imported)).Move(1, Importing(Stored, imported, true));
    assert Next(s0, 1, ImportWrite(true)) == Some(s1);
    assert Moved(s1.threads, 1, Idle(None)) == Imported(row, imported).threads;
    RunTwo(s0, s1, Imported(row, imported), Step(1, ImportWrite(true)), Step(1, ImportPublish));
  }

  /** The refresh's check under the install lock has passed. */
  function Passed(row: Secret, imported: Secret, answer: Secret): State {
    Imported(row, imported).(installer := Some(2)).Move(2, Refreshing(Writing, 0, Capture(row, 2, Some(imported)), answer, None))
  }

  lemma RefreshPasses(row: Secret, imported: Secret, answer: Secret)
    requires answer.Usable()
    ensures Run(Imported(row, imported), [Step(2, Exchange(Some(answer))), Step(2, AcquireCheck)]) == Some(Passed(row, imported, answer))
  {
    var s1 := Imported(row, imported).Move(2, Refreshing(Committing, 0, Capture(row, 2, Some(imported)), answer, None));
    assert Passed(row, imported, answer).threads == Moved(s1.threads, 2, At(Passed(row, imported, answer).threads, 2));
    RunTwo(Imported(row, imported), s1, Passed(row, imported, answer), Step(2, Exchange(Some(answer))), Step(2, AcquireCheck));
  }

  /** The refresh has written its rotated credential. */
  function Written(row: Secret, imported: Secret, answer: Secret): State
    requires answer.Usable()
  {
    Passed(row, imported, answer).(durable := Decoded(Merge(row, answer).value))
    .Move(2, Refreshing(Publishing, 0, Capture(row, 2, Some(imported)), answer, None))
  }

  lemma RefreshWrites(row: Secret, imported: Secret, answer: Secret)
    requires answer.Usable()
    ensures Next(Passed(row, imported, answer), 2, WriteRotated(true)) == Some(Written(row, imported, answer))
  {
  }

  lemma RefreshCommits(row: Secret, imported: Secret, answer: Secret)
    requires answer.Usable()
    ensures var end := Run(Passed(row, imported, answer), [Step(2, WriteRotated(true)), Step(2, PublishRotated)]);
            end.Some? && end.value.entry.current == Merge(row, answer).value && end.value.durable == Decoded(Merge(row, answer).value)
  {
    var rotated := Merge(row, answer).value;
    var s2, s3 := Passed(row, imported, answer), Written(row, imported, answer);
    var s4 := s3.(entry := s3.entry.Publish(rotated), installer := None).Move(2, Returning(false, 0, Committed(rotated), None));
    RefreshWrites(row, imported, answer);
    assert Next(s3, 2, PublishRotated) == Some(s4);
    RunTwo(s2, s3, s4, Step(2, WriteRotated(true)), Step(2, PublishRotated));
  }

  /** Whatever is stored, imported and answered: a capture between Import's bump and its publication
      lets the older refresh commit over an import that has already succeeded, in memory and store. */
  lemma WindowLosesImport(row: Secret, given: Secret, answer: Secret) returns (before: seq<Step>, after: seq<Step>)
    requires !given.Empty() && !Same(row, Filled(given, row)) && answer.Usable()
    ensures Run(Init(row, true), before).Some? && |before| > 0 && before[|before| - 1] == Step(1, ImportPublish)
    ensures var published := Run(Init(row, true), before).value;
            published.entry.current == Filled(given, row) && published.durable == Decoded(Filled(given, row))
    ensures var end := Run(Init(row, true), before + after);
            end.Some? && end.value.entry.current == Merge(row, answer).value && end.value.durable == Decoded(Merge(row, answer).value)
  {
    var imported := Filled(given, row);
    var bump := [Step(1, BeginImport(given)), Step(1, ImportBump(true))];
    var capture := [Step(2, BeginSecret), Step(2, Check(false))];
    var publish := [Step(1, ImportWrite(true)), Step(1, ImportPublish)];
    var exchange := [Step(2, Exchange(Some(answer))), Step(2, AcquireCheck)];
    var commit := [Step(2, WriteRotated(true)), Step(2, PublishRotated)];
    ImportBumps(row, given);
    SecretCaptures(row, imported);
    ImportPublishes(row, imported);
    RefreshPasses(row, imported, answer);
    RefreshCommits(row, imported, answer);
    RunAppend(Init(row, true), bump, capture);
    RunAppend(Init(row, true), bump + capture, publish);
    before := bump + capture + publish;
    after := exchange + commit;
    RunAppend(Imported(row, imported), exchange, commit);
    RunAppend(Init(row, true), before, after);
  }
}
