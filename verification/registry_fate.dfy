/**
 What a refresh commits over. A capture inside an import's window is followed along the run to what
 became of that import: a refresh overwrites an import exactly when it published.
 */
module RegistryFate {
  import opened Prelude
  import opened Credentials
  import opened RegistryProtocol
  import opened RegistrySafety
  import opened RegistryRuns

  /** What became of the import in whose window a thread captured: there was none, it has not ended, it
      published, or its write failed. */
  datatype Fate = Outside | Open | Published | Unwritten

  /** The fate after one more step, for the capture of thread `t`. While it is open that import holds the
      install lock, so the import that ends is that one. */
  function NextFate(s: State, f: Fate, t: Tid, step: Step): Fate {
    if step.thread == t && step.action.Check? then (if s.Window().Some? then Open else Outside)
    else if f.Open? && s.installer == Some(step.thread) && step.action.ImportPublish? then Published
    else if f.Open? && s.installer == Some(step.thread) && step.action == ImportWrite(false) then Unwritten
    else f
  }

  function FateAfter(s: State, f: Fate, t: Tid, steps: seq<Step>): Fate
    decreases |steps|
  {
    if steps == [] then f
    else match Next(s, steps[0].thread, steps[0].action)
      case None => f
      case Some(n) => FateAfter(n, NextFate(s, f, t, steps[0]), t, steps[1..])
  }

  /** The credential a refresh commits over: the one it captured, or the import that published since. */
  function Replaced(capture: Capture, f: Fate): Secret {
    if f.Published? && capture.window.Some? then capture.window.value else capture.stored
  }

  /** What the fate says of a capture while its generation stands. */
  predicate Followed(s: State, capture: Capture, f: Fate) {
    && (capture.window.None? <==> f.Outside?)
    && (f.Open? ==> capture.generation == s.entry.generation && s.Window() == capture.window)
    && (capture.generation == s.entry.generation ==>
         && Same(s.entry.current, Replaced(capture, f))
         && (s.Window().Some? ==> f.Open?))
  }

  ghost predicate FateOk(s: State, f: Fate, t: Tid) {
    At(s.threads, t).Refreshing? ==> Followed(s, At(s.threads, t).capture, f)
  }

  /** Steps that leave credential, generation and window as they were. */
  predicate Quiet(s: State, n: State) {
    n.entry.current == s.entry.current && n.entry.generation == s.entry.generation && n.Window() == s.Window()
  }

  predicate Import_(a: Action) { a.ImportBump? || a.ImportWrite? || a.ImportPublish? }

  predicate Installs(a: Action) { a.RegisterInstall? || a.SeedInstall? || a.UpdatePublish? || a.PublishRotated? }

  lemma QuietEntry(s: State, n: State, t: Tid, a: Action)
    requires Next(s, t, a) == Some(n) && !a.ImportBump? && !a.ImportPublish? && !Installs(a)
    ensures n.entry.current == s.entry.current && n.entry.generation == s.entry.generation
  {
  }

  lemma NotImporting(s: State, n: State, t: Tid, a: Action)
    requires Next(s, t, a) == Some(n) && !Import_(a)
    ensures !At(s.threads, t).Importing? && (At(n.threads, t).Importing? ==> At(n.threads, t).import_.Queued?)
  {
  }

  /** Only an import opens or closes a window: its thread holds the install lock throughout. */
  lemma WindowStays(s: State, n: State, t: Tid, a: Action)
    requires Inv(s) && Inv(n) && Next(s, t, a) == Some(n) && !Import_(a)
    requires n.threads == s.threads || n.threads == Moved(s.threads, t, At(n.threads, t))
    ensures n.Window() == s.Window()
  {
    NotImporting(s, n, t, a);
    if s.Window().Some? {
      var u := s.installer.value;
      assert At(n.threads, u) == At(s.threads, u) && At(n.threads, u).HoldsInstall();
    }
    if n.Window().Some? {
      var u := n.installer.value;
      assert At(n.threads, u) == At(s.threads, u) && At(s.threads, u).HoldsInstall();
    }
  }

  /** What every step leaves in order, and the threads it leaves alone. */
  lemma StepFrame(s: State, n: State, t: Tid, a: Action)
    requires Inv(s) && Next(s, t, a) == Some(n)
    ensures Inv(n) && (n.threads == s.threads || n.threads == Moved(s.threads, t, At(n.threads, t)))
  {
    StepInv(s, t, a);
    StepShape(s, n, t, a);
    var shape: Move :| Shaped(s, n, t, shape);
    ShapedFrame(s, n, t, shape);
  }

  lemma ShapedFrame(s: State, n: State, t: Tid, shape: Move)
    requires Shaped(s, n, t, shape)
    ensures n.threads == s.threads || n.threads == Moved(s.threads, t, At(n.threads, t))
  {
  }

  /** Steps of other threads that are quiet keep what is known of a capture. */
  lemma QuietKeeps(s: State, n: State, f: Fate, t: Tid, u: Tid, a: Action)
    requires FateOk(s, f, t) && Quiet(s, n) && At(n.threads, t) == At(s.threads, t)
    ensures FateOk(n, f, t)
  {
  }

  /** Import's bump by another thread: no fate is open, since the install lock was free. */
  lemma BumpKeeps(s: State, n: State, f: Fate, t: Tid, u: Tid, readOk: bool)
    requires Inv(s) && Fresh(s) && FateOk(s, f, t) && u != t && DoImportBump(s, u, readOk) == Some(n)
    ensures FateOk(n, f, t)
  {
    assert At(n.threads, t) == At(s.threads, t);
    assert RefreshOk(s, At(s.threads, t));
  }

  lemma WriteKeeps(s: State, n: State, f: Fate, t: Tid, u: Tid, ok: bool)
    requires Inv(s) && FateOk(s, f, t) && u != t && DoImportWrite(s, u, ok) == Some(n)
    ensures FateOk(n, NextFate(s, f, t, Step(u, ImportWrite(ok))), t)
  {
    assert At(n.threads, t) == At(s.threads, t);
    assert s.installer == Some(u) by { assert At(s.threads, u).HoldsInstall(); }
  }

  lemma PublishKeeps(s: State, n: State, f: Fate, t: Tid, u: Tid)
    requires Inv(s) && Fresh(s) && FateOk(s, f, t) && u != t && DoImportPublish(s, u) == Some(n)
    ensures FateOk(n, NextFate(s, f, t, Step(u, ImportPublish)), t)
  {
    assert At(n.threads, t) == At(s.threads, t);
    assert s.installer == Some(u) by { assert At(s.threads, u).HoldsInstall(); }
    assert ImportOk(s, At(s.threads, u));
  }

  /** Register and Seed: another credential is another generation. */
  lemma InstallMoves(s: State, n: State, t: Tid, a: Action)
    requires Fresh(s) && Next(s, t, a) == Some(n) && (a.RegisterInstall? || a.SeedInstall?)
    ensures s.installer.None? && n.installer.None?
    ensures n.entry.current == s.entry.current || n.entry.generation == s.entry.generation + 1
    ensures n.entry.generation >= s.entry.generation
  {
  }

  lemma InstallKeeps(s: State, n: State, f: Fate, t: Tid, u: Tid, a: Action)
    requires Inv(s) && Fresh(s) && FateOk(s, f, t) && u != t && (a.RegisterInstall? || a.SeedInstall?) && Next(s, u, a) == Some(n)
    ensures FateOk(n, f, t)
  {
    InstallMoves(s, n, u, a);
    StepFrame(s, n, u, a);
    assert At(n.threads, t) == At(s.threads, t);
    assert RefreshOk(s, At(s.threads, t));
  }

  /** Whoever holds the slot is the only refresh there is. */
  lemma OwnerStepKeeps(s: State, n: State, f: Fate, t: Tid, u: Tid, a: Action)
    requires Inv(s) && u != t && (a.UpdatePublish? || a.PublishRotated?) && Next(s, u, a) == Some(n)
    ensures FateOk(n, f, t)
  {
    OneOwner(s, u);
    assert At(n.threads, t) == At(s.threads, t) && !At(s.threads, t).HoldsSlot();
  }

  lemma QuietStepKeeps(s: State, n: State, f: Fate, t: Tid, u: Tid, a: Action)
    requires Inv(s) && FateOk(s, f, t) && u != t && Next(s, u, a) == Some(n) && !Import_(a) && !Installs(a)
    ensures FateOk(n, f, t)
  {
    QuietEntry(s, n, u, a);
    StepFrame(s, n, u, a);
    WindowStays(s, n, u, a);
    assert At(n.threads, t) == At(s.threads, t);
    QuietKeeps(s, n, f, t, u, a);
  }

  lemma OtherKeeps(s: State, n: State, f: Fate, t: Tid, u: Tid, a: Action)
    requires Inv(s) && Fresh(s) && FateOk(s, f, t) && u != t && Next(s, u, a) == Some(n)
    ensures FateOk(n, NextFate(s, f, t, Step(u, a)), t)
  {
    if a.ImportBump? { BumpKeeps(s, n, f, t, u, a.readOk); }
    else if a.ImportWrite? { WriteKeeps(s, n, f, t, u, a.ok); }
    else if a.ImportPublish? { PublishKeeps(s, n, f, t, u); }
    else if a.RegisterInstall? || a.SeedInstall? { InstallKeeps(s, n, f, t, u, a); }
    else if Installs(a) { OwnerStepKeeps(s, n, f, t, u, a); }
    else { QuietStepKeeps(s, n, f, t, u, a); }
  }

  lemma OwnKeeps(s: State, n: State, f: Fate, t: Tid, a: Action)
    requires Inv(s) && Fresh(s) && FateOk(s, f, t) && Next(s, t, a) == Some(n)
    ensures FateOk(n, NextFate(s, f, t, Step(t, a)), t)
  {
    if At(n.threads, t).Refreshing? {
      CaptureStays(s, n, t, a);
      RefreshingIsQuiet(s, n, t, a);
      StepFrame(s, n, t, a);
      WindowStays(s, n, t, a);
    }
  }

  /** A thread that refreshes after its step has changed neither credential nor generation by it. */
  lemma RefreshingIsQuiet(s: State, n: State, t: Tid, a: Action)
    requires Next(s, t, a) == Some(n) && At(n.threads, t).Refreshing?
    ensures !Import_(a) && n.entry.current == s.entry.current && n.entry.generation == s.entry.generation
  {
  }

  lemma StepFate(s: State, n: State, f: Fate, t: Tid, u: Tid, a: Action)
    requires Inv(s) && Fresh(s) && FateOk(s, f, t) && Next(s, u, a) == Some(n)
    ensures FateOk(n, NextFate(s, f, t, Step(u, a)), t)
  {
    if u == t { OwnKeeps(s, n, f, t, a); } else { OtherKeeps(s, n, f, t, u, a); }
  }

  lemma {:induction false} RunFate(s: State, f: Fate, t: Tid, steps: seq<Step>)
    requires Inv(s) && Fresh(s) && FateOk(s, f, t) && Run(s, steps).Some?
    ensures FateOk(Run(s, steps).value, FateAfter(s, f, t, steps), t)
    decreases |steps|
  {
    if steps != [] {
      var u, a := steps[0].thread, steps[0].action;
      var n := Next(s, u, a).value;
      StepInv(s, u, a);
      StepFresh(s, u, a);
      StepFate(s, n, f, t, u, a);
      RunFate(n, NextFate(s, f, t, steps[0]), t, steps[1..]);
    }
  }

  /** The fate, over a whole run, of the import in whose window a thread captured. */
  function FateOf(row: Secret, exchanger: bool, steps: seq<Step>, t: Tid): Fate {
    FateAfter(Init(row, exchanger), Outside, t, steps)
  }

  /** On every run, a refresh that holds the install lock, about to write or to publish, replaces the
      credential its exchange started from, unless it captured in the window of an import that has
      published since; then, and only then, it replaces the imported one. */
  lemma RefreshReplacesItsOwn(row: Secret, exchanger: bool, steps: seq<Step>, t: Tid)
    requires Run(Init(row, exchanger), steps).Some?
    requires var p := At(Run(Init(row, exchanger), steps).value.threads, t); p.Refreshing? && p.HoldsInstall()
    ensures var s := Run(Init(row, exchanger), steps).value;
            var capture := At(s.threads, t).capture;
            var f := FateOf(row, exchanger, steps, t);
            && Same(s.entry.current, Replaced(capture, f))
            && (capture.window.None? <==> f.Outside?)
            && (Same(s.entry.current, capture.stored) <==> !f.Published?)
  {
    InitInv(row, exchanger);
    InitFresh(row, exchanger);
    RunSafe(Init(row, exchanger), steps);
    RunFate(Init(row, exchanger), Outside, t, steps);
    var s := Run(Init(row, exchanger), steps).value;
    assert RefreshOk(s, At(s.threads, t));
  }

  /** And so in the store: what its durable write is about to replace is that same credential, on every
      run that meets the callers' conditions. */
  lemma RefreshWritesOverItsOwn(row: Secret, exchanger: bool, steps: seq<Step>, t: Tid)
    requires FaithfulRun(Init(row, exchanger), steps) && Run(Init(row, exchanger), steps).Some?
    requires var p := At(Run(Init(row, exchanger), steps).value.threads, t); p.Refreshing? && p.refresh.Writing?
    ensures var s := Run(Init(row, exchanger), steps).value;
            var capture := At(s.threads, t).capture;
            var f := FateOf(row, exchanger, steps, t);
            && Same(s.durable, Replaced(capture, f))
            && (Same(s.durable, capture.stored) <==> !f.Published?)
  {
    RefreshReplacesItsOwn(row, exchanger, steps, t);
    InitInv(row, exchanger);
    InitFresh(row, exchanger);
    CoherentRun(Init(row, exchanger), steps);
    RunSafe(Init(row, exchanger), steps);
    var s := Run(Init(row, exchanger), steps).value;
    assert s.installer == Some(t);
  }
}
