/**
 What supersedes a refresh (internal/credentials/registry.go): the generation counts the installs that put
 another credential in the entry, and a refresh commits exactly when none came since its capture.
 */
module RegistryGenerations {
  import opened Prelude
  import opened Credentials
  import opened RegistryProtocol
  import opened RegistrySteps
  import opened RegistrySafety
  import opened RegistryRuns
  import opened RegistryFate

  /** What an import installs: the material given, with the stored row's provider data where it gives none and
      the stored sign-in kind where it names none. */
  lemma FilledIs(secret: Secret, row: Secret)
    ensures var filled := Filled(secret, row);
            && filled.(data := None, authType := "") == secret.(data := None, authType := "")
            && filled.data.GetOr(map[]) == (if secret.data == None then row.data.GetOr(map[]) else secret.data.value)
            && filled.authType == (if secret.authType == "" then row.authType else secret.authType)
  {
  }

  /** The step installs another credential than the entry holds: one registered or seeded, one imported, from
      before it is written, or one stored by Update or ReviseSecret, whichever it is. */
  predicate Replaces(s: State, t: Tid, a: Action) {
    var p := At(s.threads, t);
    match a
    case RegisterInstall(_) => p.Registering? && !(s.entry.seeded && Same(s.entry.current, p.secret))
    case SeedInstall(readOk, _) => readOk && !(s.entry.seeded && Same(s.entry.current, s.durable))
    case ImportBump(readOk) =>
      && p.Importing? && (readOk || (p.secret.data != None && p.secret.authType != ""))
      && !(s.entry.seeded && Same(s.entry.current, Filled(p.secret, s.durable)))
    case UpdatePublish(_) => p.Updating? && p.stored != None
    case _ => false
  }

  lemma QuietStep(s: State, n: State, t: Tid, a: Action)
    requires Next(s, t, a) == Some(n) && !(a.RegisterInstall? || a.SeedInstall? || a.ImportBump? || a.UpdatePublish?)
    ensures n.entry.generation == s.entry.generation && n.entry.exchanger == s.entry.exchanger
  {
  }

  lemma InstallStep(s: State, n: State, t: Tid, a: Action)
    requires Next(s, t, a) == Some(n) && (a.RegisterInstall? || a.SeedInstall? || a.ImportBump? || a.UpdatePublish?)
    ensures n.entry.generation == s.entry.generation + if Replaces(s, t, a) then 1 else 0
  {
  }

  /** Every step: the generation counts replacements, and nothing else moves it. */
  lemma GenerationStep(s: State, n: State, t: Tid, a: Action)
    requires Next(s, t, a) == Some(n)
    ensures n.entry.generation == s.entry.generation + if Replaces(s, t, a) then 1 else 0
  {
    if a.RegisterInstall? || a.SeedInstall? || a.ImportBump? || a.UpdatePublish? { InstallStep(s, n, t, a); } else { QuietStep(s, n, t, a); }
  }

  /** Registering, seeding and a stored update set the exchanger, also where the credential stays. */
  lemma ExchangerIsNewest(s: State, n: State, t: Tid, a: Action)
    requires Next(s, t, a) == Some(n)
    ensures n.entry.exchanger == match a
                                 case RegisterInstall(exchanger) => exchanger
                                 case SeedInstall(readOk, exchanger) => if readOk then exchanger else s.entry.exchanger
                                 case UpdatePublish(exchanger) => if Replaces(s, t, a) then exchanger else s.entry.exchanger
                                 case _ => s.entry.exchanger
  {
    if !(a.RegisterInstall? || a.SeedInstall? || a.ImportBump? || a.UpdatePublish?) { QuietStep(s, n, t, a); }
  }

  function Replacements(s: State, steps: seq<Step>): nat
    decreases |steps|
  {
    if steps == [] then 0
    else match Next(s, steps[0].thread, steps[0].action)
      case None => 0
      case Some(n) => (if Replaces(s, steps[0].thread, steps[0].action) then 1 else 0) + Replacements(n, steps[1..])
  }

  lemma {:induction false} GenerationCounts(s: State, steps: seq<Step>)
    requires Run(s, steps).Some?
    ensures Run(s, steps).value.entry.generation == s.entry.generation + Replacements(s, steps)
    decreases |steps|
  {
    if steps != [] {
      var n := Next(s, steps[0].thread, steps[0].action).value;
      GenerationStep(s, n, steps[0].thread, steps[0].action);
      GenerationCounts(n, steps[1..]);
    }
  }

  /** The refresh of thread `t` that made this call captured this generation; the call has been made. */
  predicate CapturedAt(s: State, t: Tid, call: nat, generation: nat) {
    var p := At(s.threads, t);
    call < |s.calls| && (p.Refreshing? && p.call == call ==> p.capture.generation == generation)
  }

  lemma CallsGrow(s: State, n: State, t: Tid, a: Action)
    requires Next(s, t, a) == Some(n)
    ensures |n.calls| >= |s.calls|
  {
  }

  lemma OwnCapture(s: State, n: State, t: Tid, a: Action, call: nat, generation: nat)
    requires Next(s, t, a) == Some(n) && CapturedAt(s, t, call, generation)
    ensures CapturedAt(n, t, call, generation)
  {
    CallsGrow(s, n, t, a);
    if At(n.threads, t).Refreshing? {
      CaptureStays(s, n, t, a);
      SameCall(s, n, t, a);
    }
  }

  /** A thread that refreshes after its step was refreshing for the same call, or has just made one. */
  lemma SameCall(s: State, n: State, t: Tid, a: Action)
    requires Next(s, t, a) == Some(n) && At(n.threads, t).Refreshing?
    ensures if a.Check? then At(n.threads, t).call == |s.calls| else At(s.threads, t).Refreshing? && At(n.threads, t).call == At(s.threads, t).call
  {
  }

  lemma {:induction false} CaptureHolds(s: State, t: Tid, steps: seq<Step>, call: nat, generation: nat)
    requires Inv(s) && Run(s, steps).Some? && CapturedAt(s, t, call, generation)
    ensures CapturedAt(Run(s, steps).value, t, call, generation)
    decreases |steps|
  {
    if steps != [] {
      var u, a := steps[0].thread, steps[0].action;
      var n := Next(s, u, a).value;
      StepFrame(s, n, u, a);
      if u == t {
        OwnCapture(s, n, t, a, call, generation);
      } else {
        CallsGrow(s, n, u, a);
      }
      CaptureHolds(n, t, steps[1..], call, generation);
    }
  }

  /** What Check captures is of the generation it leaves, under the call it makes. */
  lemma CheckCaptures(s: State, c: State, t: Tid, unexpired: bool)
    requires Inv(s) && Next(s, t, Check(unexpired)) == Some(c) && At(c.threads, t).Refreshing?
    ensures Inv(c) && CapturedAt(c, t, At(c.threads, t).call, c.entry.generation)
  {
    StepInv(s, t, Check(unexpired));
    CaptureStays(s, c, t, Check(unexpired));
    GenerationStep(s, c, t, Check(unexpired));
    SameCall(s, c, t, Check(unexpired));
    CheckMakesCall(s, c, t, unexpired);
  }

  /** On every run: a refresh that captured at `c`, has its answer at `end` and finds the install lock free
      commits exactly when nothing replaced the credential in between, and is otherwise superseded.
      Registering, seeding or importing the very credential the entry holds does not count. */
  lemma RefreshCommitsIff(row: Secret, exchanger: bool, before: seq<Step>, s: State, t: Tid, unexpired: bool, c: State, steps: seq<Step>, end: State)
    requires Run(Init(row, exchanger), before) == Some(s)
    requires Next(s, t, Check(unexpired)) == Some(c) && At(c.threads, t).Refreshing?
    requires Run(c, steps) == Some(end) && end.installer == None
    requires var p := At(end.threads, t); p.Refreshing? && p.refresh == Committing && p.call == At(c.threads, t).call
    ensures var next := Next(end, t, AcquireCheck); var p := At(end.threads, t);
            && next.Some?
            && At(next.value.threads, t) == if Replacements(c, steps) == 0 then p.(refresh := Writing) else Returning(false, p.call, Superseded, p.force)
  {
    InitSafe(row, exchanger, before);
    CheckCaptures(s, c, t, unexpired);
    GenerationCounts(c, steps);
    CaptureHolds(c, t, steps, At(c.threads, t).call, c.entry.generation);
    EnabledIff(end, t, AcquireCheck);
    AcquireLeadsTo(end, Next(end, t, AcquireCheck).value, t);
  }

  lemma CheckMakesCall(s: State, c: State, t: Tid, unexpired: bool)
    requires Next(s, t, Check(unexpired)) == Some(c) && At(c.threads, t).Refreshing?
    ensures |c.calls| == |s.calls| + 1
  {
  }
}
