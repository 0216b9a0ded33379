/**
 What every run of the registry protocol keeps: who holds the locks and the slot, which
 credential a refresh in flight started from, and when memory and store agree.
 */
module RegistrySafety {
  import opened Prelude
  import opened Credentials
  import opened RegistryProtocol

  // ------------------------------------------------------------ locks, slot and calls

  /** The install lock and the registry mutex are held exactly where the phases say. */
  ghost predicate Locks(s: State) {
    && (forall t: Tid :: At(s.threads, t).HoldsInstall() <==> s.installer == Some(t))
    && (forall t: Tid :: At(s.threads, t).Registering? <==> s.registrar == Some(t))
  }

  /** An unclosed call is the own call of the thread that made it, and of no other thread. */
  ghost predicate Owned(s: State) {
    && (forall t: Tid :: At(s.threads, t).OwnCall().Some? ==> At(s.threads, t).OwnCall().value < |s.calls|)
    && (forall t: Tid, c :: 0 <= c < |s.calls| && At(s.threads, t).OwnCall() == Some(c) ==>
          s.calls[c].owner == t && !s.calls[c].done && (At(s.threads, t).Updating? ==> s.calls[c].recheck))
    && (forall c :: 0 <= c < |s.calls| && !s.calls[c].done ==> At(s.threads, s.calls[c].owner).OwnCall() == Some(c))
  }

  /** A closed call tells its waiters to check again or carries what its owner returned. */
  ghost predicate Answered(s: State) {
    && (forall c :: 0 <= c < |s.calls| && s.calls[c].done ==> s.calls[c].recheck || s.calls[c].result.Some?)
    && (forall t: Tid, c :: 0 <= c < |s.calls| && At(s.threads, t).Returning? && At(s.threads, t).closing && At(s.threads, t).call == c ==>
          s.calls[c].result == Some(ResultOf(At(s.threads, t).verdict)) && !At(s.threads, t).verdict.Superseded?)
  }

  /** The slot names the call of its one owner; waiters wait on calls that exist. */
  ghost predicate Slot(s: State) {
    && (forall t: Tid :: At(s.threads, t).HoldsSlot() ==> s.entry.inflight == At(s.threads, t).OwnCall())
    && (s.entry.inflight.Some? ==>
          s.entry.inflight.value < |s.calls| && At(s.threads, s.calls[s.entry.inflight.value].owner).HoldsSlot())
    && (forall t: Tid :: At(s.threads, t).Waiting? || At(s.threads, t).UpdateBlocked? ==> At(s.threads, t).awaited < |s.calls|)
  }

  ghost predicate Inv(s: State) {
    Locks(s) && Owned(s) && Slot(s) && Answered(s)
  }

  lemma InitInv(row: Secret, exchanger: bool)
    ensures Inv(Init(row, exchanger))
  {
  }

  /** Moves that keep the slot and the calls, taking or releasing the mutexes the phases say. */
  ghost predicate Keeping(s: State, n: State, t: Tid, q: Phase) {
    var p := At(s.threads, t);
    && n.threads == Moved(s.threads, t, q)
    && n.calls == s.calls && n.entry.inflight == s.entry.inflight
    && p.OwnCall() == q.OwnCall() && p.HoldsSlot() == q.HoldsSlot() && p.Updating? == q.Updating?
    && (q.Returning? ==> !q.closing)
    && (q.Waiting? || q.UpdateBlocked? ==> q.awaited < |s.calls|)
    && Takes(s.installer, n.installer, t, p.HoldsInstall(), q.HoldsInstall())
    && Takes(s.registrar, n.registrar, t, p.Registering?, q.Registering?)
  }

  ghost predicate Takes(before: Option<Tid>, after: Option<Tid>, t: Tid, held: bool, holds: bool) {
    && (held == holds ==> after == before)
    && (holds && !held ==> before.None? && after == Some(t))
    && (held && !holds ==> after.None?)
  }

  lemma KeepingInv(s: State, n: State, t: Tid, q: Phase)
    requires Inv(s) && Keeping(s, n, t, q)
    ensures Locks(n) && Slot(n) && Answered(n)
  {
  }

  lemma KeepingOwned(s: State, n: State, t: Tid, q: Phase)
    requires Inv(s) && Keeping(s, n, t, q)
    ensures Owned(n)
  {
  }

  /** Taking the slot with a new call. */
  ghost predicate Taking(s: State, n: State, t: Tid, q: Phase) {
    var p := At(s.threads, t);
    && s.entry.inflight.None? && p.OwnCall().None? && !p.HoldsInstall() && !p.Registering?
    && n.threads == Moved(s.threads, t, q) && n.installer == s.installer && n.registrar == s.registrar
    && n.calls == s.calls + [Call(t, false, q.Updating?, None)]
    && n.entry.inflight == Some(|s.calls|) == q.OwnCall()
    && q.HoldsSlot() && !q.HoldsInstall() && !q.Returning?
  }

  lemma TakingInv(s: State, n: State, t: Tid, q: Phase)
    requires Inv(s) && Taking(s, n, t, q)
    ensures Locks(n) && Slot(n) && Answered(n)
  {
  }

  lemma TakingOwned(s: State, n: State, t: Tid, q: Phase)
    requires Inv(s) && Taking(s, n, t, q)
    ensures Owned(n)
  {
    forall u: Tid, c | 0 <= c < |n.calls| && At(n.threads, u).OwnCall() == Some(c)
      ensures n.calls[c].owner == u && !n.calls[c].done && (At(n.threads, u).Updating? ==> n.calls[c].recheck)
    {
      if u != t {
        assert At(n.threads, u) == At(s.threads, u);
        assert c < |s.calls| && n.calls[c] == s.calls[c];
      }
    }
  }

  /** Changing one thread's own call: freeing the slot, recording a result, closing. */
  ghost predicate Ending(s: State, n: State, t: Tid, q: Phase, c: nat) {
    var p := At(s.threads, t);
    && p.OwnCall() == Some(c) && c < |s.calls| && |n.calls| == |s.calls|
    && n.threads == Moved(s.threads, t, q)
    && (forall k :: 0 <= k < |s.calls| && k != c ==> n.calls[k] == s.calls[k])
    && n.calls[c].owner == s.calls[c].owner
    && q.OwnCall() == (if n.calls[c].done then None else Some(c))
    && (n.calls[c].done ==> n.calls[c].recheck || n.calls[c].result.Some?)
    && (!n.calls[c].done ==> q.Updating? == p.Updating? && n.calls[c].recheck == s.calls[c].recheck)
    && (q.Returning? ==> n.calls[c].result == Some(ResultOf(q.verdict)) && !q.verdict.Superseded?)
    && !q.HoldsSlot() && !q.Waiting? && !q.UpdateBlocked?
    && n.entry.inflight == (if p.HoldsSlot() then None else s.entry.inflight)
    && Takes(s.installer, n.installer, t, p.HoldsInstall(), q.HoldsInstall())
    && n.registrar == s.registrar && !q.Registering?
  }

  lemma EndingInv(s: State, n: State, t: Tid, q: Phase, c: nat)
    requires Inv(s) && Ending(s, n, t, q, c)
    ensures Locks(n) && Answered(n)
  {
  }

  lemma EndingOwned(s: State, n: State, t: Tid, q: Phase, c: nat)
    requires Inv(s) && Ending(s, n, t, q, c)
    ensures Owned(n)
  {
    forall u: Tid, k | 0 <= k < |n.calls| && At(n.threads, u).OwnCall() == Some(k)
      ensures n.calls[k].owner == u && !n.calls[k].done && (At(n.threads, u).Updating? ==> n.calls[k].recheck)
    {
      assert At(s.threads, u).OwnCall() == Some(k);
    }
  }

  lemma EndingSlot(s: State, n: State, t: Tid, q: Phase, c: nat)
    requires Inv(s) && Ending(s, n, t, q, c)
    ensures Slot(n)
  {
    if At(s.threads, t).HoldsSlot() {
      OneOwner(s, t);
    } else if s.entry.inflight.Some? {
      assert s.calls[s.entry.inflight.value].owner != t;
    }
  }

  /** The slot has one owner. */
  lemma OneOwner(s: State, t: Tid)
    requires Inv(s) && At(s.threads, t).HoldsSlot()
    ensures forall u: Tid :: At(s.threads, u).HoldsSlot() ==> u == t
  {
    forall u: Tid | At(s.threads, u).HoldsSlot()
      ensures u == t
    {
      assert At(s.threads, u).OwnCall() == s.entry.inflight == At(s.threads, t).OwnCall();
    }
  }

  /** What kind of move an action is. */
  datatype Move = Stay | Keep | Take | End

  ghost predicate Shaped(s: State, n: State, t: Tid, shape: Move) {
    var q := At(n.threads, t);
    match shape
    case Stay => n == s
    case Keep => Keeping(s, n, t, q)
    case Take => Taking(s, n, t, q)
    case End => At(s.threads, t).OwnCall().Some? && Ending(s, n, t, q, At(s.threads, t).OwnCall().value)
  }

  lemma ShapeOfBeginSecret(s: State, n: State, t: Tid)
    requires Inv(s) && (DoBeginSecret(s, t) == Some(n) || DoBeginSeed(s, t) == Some(n) || DoBeginUpdate(s, t) == Some(n) || DoUnblock(s, t) == Some(n))
    ensures Shaped(s, n, t, Keep)
  {
  }

  lemma ShapeOfBeginForce(s: State, n: State, t: Tid, token: string)
    requires Inv(s) && (DoBeginForce(s, t, token) == Some(n) || DoUnmark(s, t) == Some(n))
    ensures Shaped(s, n, t, Stay) || Shaped(s, n, t, Keep)
  {
  }

  lemma ShapeOfCheck(s: State, n: State, t: Tid, unexpired: bool)
    requires Inv(s) && (DoCheck(s, t, unexpired) == Some(n))
    ensures Shaped(s, n, t, Keep) || Shaped(s, n, t, Take)
  {
  }

  lemma ShapeOfWake(s: State, n: State, t: Tid)
    requires Inv(s) && (DoWake(s, t) == Some(n) || DoCancel(s, t) == Some(n))
    ensures Shaped(s, n, t, Keep)
  {
  }

  lemma ShapeOfExchange(s: State, n: State, t: Tid, answer: Option<Secret>)
    requires Inv(s) && (DoExchange(s, t, answer) == Some(n))
    ensures Shaped(s, n, t, Keep)
  {
  }

  lemma ShapeOfAcquireCheck(s: State, n: State, t: Tid, ok: bool)
    requires Inv(s) && (DoAcquireCheck(s, t) == Some(n) || DoWriteRotated(s, t, ok) == Some(n))
    ensures Shaped(s, n, t, Keep)
  {
  }

  lemma ShapeOfPublishRotated(s: State, n: State, t: Tid)
    requires Inv(s) && (DoPublishRotated(s, t) == Some(n))
    ensures Shaped(s, n, t, Keep)
  {
  }

  lemma ShapeOfFinish(s: State, n: State, t: Tid)
    requires Inv(s) && (DoFinish(s, t) == Some(n))
    ensures Shaped(s, n, t, End)
  {
  }

  lemma ShapeOfClose(s: State, n: State, t: Tid)
    requires Inv(s) && (DoClose(s, t) == Some(n) || DoCloseUpdate(s, t) == Some(n))
    ensures Shaped(s, n, t, End)
  {
  }

  lemma ShapeOfUpdatePublish(s: State, n: State, t: Tid, exchanger: bool)
    requires Inv(s) && (DoUpdatePublish(s, t, exchanger) == Some(n))
    ensures Shaped(s, n, t, End)
  {
  }

  lemma ShapeOfBeginImport(s: State, n: State, t: Tid, secret: Secret, readOk: bool)
    requires Inv(s) && (DoBeginImport(s, t, secret) == Some(n) || DoImportBump(s, t, readOk) == Some(n))
    ensures Shaped(s, n, t, Stay) || Shaped(s, n, t, Keep)
  {
  }

  lemma ShapeOfImportWrite(s: State, n: State, t: Tid, ok: bool)
    requires Inv(s) && (DoImportWrite(s, t, ok) == Some(n) || DoImportPublish(s, t) == Some(n))
    ensures Shaped(s, n, t, Keep)
  {
  }

  lemma ShapeOfBeginRegister(s: State, n: State, t: Tid, secret: Secret, exchanger: bool)
    requires Inv(s) && (DoBeginRegister(s, t, secret) == Some(n) || DoRegisterInstall(s, t, exchanger) == Some(n))
    ensures Shaped(s, n, t, Keep)
  {
  }

  lemma ShapeOfSeedInstall(s: State, n: State, t: Tid, readOk: bool, exchanger: bool)
    requires Inv(s) && (DoSeedInstall(s, t, readOk, exchanger) == Some(n))
    ensures Shaped(s, n, t, Keep)
  {
  }

  lemma ShapeOfBlocked(s: State, n: State, t: Tid)
    requires Inv(s) && DoTakeSlot(s, t) == Some(n) && s.entry.inflight.Some?
    ensures Shaped(s, n, t, Keep)
  {
  }

  lemma ShapeOfTakeSlot(s: State, n: State, t: Tid)
    requires Inv(s) && DoTakeSlot(s, t) == Some(n) && s.entry.inflight.None?
    ensures Shaped(s, n, t, Take)
  {
  }

  lemma ShapeOfUpdateWrite(s: State, n: State, t: Tid, write: Change)
    requires Inv(s) && (DoUpdateWrite(s, t, write) == Some(n))
    ensures Shaped(s, n, t, Keep)
  {
  }

  lemma ShapedInv(s: State, n: State, t: Tid, shape: Move)
    requires Inv(s) && Shaped(s, n, t, shape)
    ensures Inv(n)
  {
    var q := At(n.threads, t);
    match shape
    case Stay =>
    case Keep => KeepingInv(s, n, t, q); KeepingOwned(s, n, t, q);
    case Take => TakingInv(s, n, t, q); TakingOwned(s, n, t, q);
    case End =>
      var c := At(s.threads, t).OwnCall().value;
      EndingInv(s, n, t, q, c);
      EndingOwned(s, n, t, q, c);
      EndingSlot(s, n, t, q, c);
  }

  /** Every action keeps the locks, the slot and the calls in order. */
  lemma StepInv(s: State, t: Tid, a: Action)
    requires Inv(s) && Next(s, t, a).Some?
    ensures Inv(Next(s, t, a).value)
  {
    var n := Next(s, t, a).value;
    StepShape(s, n, t, a);
    var shape :| Shaped(s, n, t, shape);
    ShapedInv(s, n, t, shape);
  }

  lemma StepShape(s: State, n: State, t: Tid, a: Action)
    requires Inv(s) && Next(s, t, a) == Some(n)
    ensures exists shape: Move :: Shaped(s, n, t, shape)
  {
    match a
    case BeginSecret => ShapeOfBeginSecret(s, n, t);
    case BeginSeed => ShapeOfBeginSecret(s, n, t);
    case BeginUpdate => ShapeOfBeginSecret(s, n, t);
    case Unblock => ShapeOfBeginSecret(s, n, t);
    case BeginForce(token) => ShapeOfBeginForce(s, n, t, token);
    case Unmark => ShapeOfBeginForce(s, n, t, "");
    case Check(unexpired) => ShapeOfCheck(s, n, t, unexpired);
    case Wake => ShapeOfWake(s, n, t);
    case Cancel => ShapeOfWake(s, n, t);
    case Exchange(answer) => ShapeOfExchange(s, n, t, answer);
    case AcquireCheck => ShapeOfAcquireCheck(s, n, t, true);
    case WriteRotated(ok) => ShapeOfAcquireCheck(s, n, t, ok);
    case PublishRotated => ShapeOfPublishRotated(s, n, t);
    case Finish => ShapeOfFinish(s, n, t);
    case Close => ShapeOfClose(s, n, t);
    case CloseUpdate => ShapeOfClose(s, n, t);
    case UpdatePublish(exchanger) => ShapeOfUpdatePublish(s, n, t, exchanger);
    case BeginImport(secret) => ShapeOfBeginImport(s, n, t, secret, true);
    case ImportBump(readOk) => ShapeOfBeginImport(s, n, t, s.durable, readOk);
    case ImportWrite(ok) => ShapeOfImportWrite(s, n, t, ok);
    case ImportPublish => ShapeOfImportWrite(s, n, t, true);
    case BeginRegister(secret) => ShapeOfBeginRegister(s, n, t, secret, true);
    case RegisterInstall(exchanger) => ShapeOfBeginRegister(s, n, t, s.durable, exchanger);
    case SeedInstall(readOk, exchanger) => ShapeOfSeedInstall(s, n, t, readOk, exchanger);
    case TakeSlot =>
      if s.entry.inflight.Some? { ShapeOfBlocked(s, n, t); } else { ShapeOfTakeSlot(s, n, t); }
    case UpdateWrite(write) => ShapeOfUpdateWrite(s, n, t, write);
  }

  // ------------------------------------------------------------ what a refresh started from

  /** What is known of a refresh's capture while the entry's generation is still the captured one:
      the published credential is the one captured, or the capture fell into an import's window
      and that import has since published. */
  ghost predicate Tracks(s: State, capture: Capture) {
    && capture.generation <= s.entry.generation
    && (capture.window.Some? ==> !Same(capture.stored, capture.window.value))
    && (capture.generation == s.entry.generation ==>
          if s.Window().Some? then capture.window == s.Window() && Same(s.entry.current, capture.stored)
          else Same(s.entry.current, capture.stored) || (capture.window.Some? && Same(s.entry.current, capture.window.value)))
  }

  ghost predicate RefreshOk(s: State, p: Phase) {
    p.Refreshing? ==>
      && Tracks(s, p.capture)
      && (p.HoldsInstall() ==> p.capture.generation == s.entry.generation)
      && (!p.refresh.Exchanging? ==> Merge(p.capture.stored, p.answer).Some?)
  }

  ghost predicate ImportOk(s: State, p: Phase) {
    p.Importing? && !p.import_.Queued? ==> p.bumped != Same(s.entry.current, p.secret)
  }

  ghost predicate Fresh(s: State) {
    && s.entry.seeded
    && (forall t: Tid :: RefreshOk(s, At(s.threads, t)))
    && (forall t: Tid :: ImportOk(s, At(s.threads, t)))
  }

  lemma FreshAfterBeginSecret(s: State, n: State, t: Tid)
    requires Inv(s) && Fresh(s) && (DoBeginSecret(s, t) == Some(n) || DoBeginSeed(s, t) == Some(n))
    ensures Fresh(n)
  {
  }

  lemma FreshAfterBeginUpdate(s: State, n: State, t: Tid)
    requires Inv(s) && Fresh(s) && (DoBeginUpdate(s, t) == Some(n) || DoUnblock(s, t) == Some(n))
    ensures Fresh(n)
  {
  }

  lemma FreshAfterBeginForce(s: State, n: State, t: Tid, token: string)
    requires Inv(s) && Fresh(s) && (DoBeginForce(s, t, token) == Some(n))
    ensures Fresh(n)
  {
  }

  lemma FreshAfterUnmark(s: State, n: State, t: Tid)
    requires Inv(s) && Fresh(s) && (DoUnmark(s, t) == Some(n))
    ensures Fresh(n)
  {
  }

  lemma FreshAfterCapture(s: State, n: State, t: Tid, unexpired: bool)
    requires Inv(s) && Fresh(s) && DoCheck(s, t, unexpired) == Some(n) && At(n.threads, t).Refreshing?
    ensures Fresh(n)
  {
  }

  lemma FreshAfterServe(s: State, n: State, t: Tid, unexpired: bool)
    requires Inv(s) && Fresh(s) && DoCheck(s, t, unexpired) == Some(n) && !At(n.threads, t).Refreshing?
    ensures Fresh(n)
  {
  }

  lemma FreshAfterWake(s: State, n: State, t: Tid)
    requires Inv(s) && Fresh(s) && (DoWake(s, t) == Some(n))
    ensures Fresh(n)
  {
  }

  lemma FreshAfterCancel(s: State, n: State, t: Tid)
    requires Inv(s) && Fresh(s) && (DoCancel(s, t) == Some(n))
    ensures Fresh(n)
  {
  }

  lemma FreshAfterExchange(s: State, n: State, t: Tid, answer: Option<Secret>)
    requires Inv(s) && Fresh(s) && (DoExchange(s, t, answer) == Some(n))
    ensures Fresh(n)
  {
  }

  lemma FreshAfterAcquireCheck(s: State, n: State, t: Tid)
    requires Inv(s) && Fresh(s) && (DoAcquireCheck(s, t) == Some(n))
    ensures Fresh(n)
  {
  }

  lemma FreshAfterWriteRotated(s: State, n: State, t: Tid, ok: bool)
    requires Inv(s) && Fresh(s) && (DoWriteRotated(s, t, ok) == Some(n))
    ensures Fresh(n)
  {
  }

  lemma FreshAfterPublishRotated(s: State, n: State, t: Tid)
    requires Inv(s) && Fresh(s) && (DoPublishRotated(s, t) == Some(n))
    ensures Fresh(n)
  {
  }

  lemma FreshAfterFinish(s: State, n: State, t: Tid)
    requires Inv(s) && Fresh(s) && (DoFinish(s, t) == Some(n))
    ensures Fresh(n)
  {
  }

  lemma FreshAfterClose(s: State, n: State, t: Tid)
    requires Inv(s) && Fresh(s) && (DoClose(s, t) == Some(n) || DoCloseUpdate(s, t) == Some(n))
    ensures Fresh(n)
  {
  }

  lemma FreshAfterUpdatePublish(s: State, n: State, t: Tid, exchanger: bool)
    requires Inv(s) && Fresh(s) && (DoUpdatePublish(s, t, exchanger) == Some(n))
    ensures Fresh(n)
  {
  }

  lemma FreshAfterBeginImport(s: State, n: State, t: Tid, secret: Secret)
    requires Inv(s) && Fresh(s) && (DoBeginImport(s, t, secret) == Some(n))
    ensures Fresh(n)
  {
  }

  lemma FreshAfterImportBump(s: State, n: State, t: Tid, readOk: bool)
    requires Inv(s) && Fresh(s) && (DoImportBump(s, t, readOk) == Some(n))
    ensures Fresh(n)
  {
  }

  lemma FreshAfterImportWrite(s: State, n: State, t: Tid, ok: bool)
    requires Inv(s) && Fresh(s) && (DoImportWrite(s, t, ok) == Some(n))
    ensures Fresh(n)
  {
  }

  lemma FreshAfterImportPublish(s: State, n: State, t: Tid)
    requires Inv(s) && Fresh(s) && (DoImportPublish(s, t) == Some(n))
    ensures Fresh(n)
  {
  }

  lemma FreshAfterBeginRegister(s: State, n: State, t: Tid, secret: Secret, exchanger: bool)
    requires Inv(s) && Fresh(s) && (DoBeginRegister(s, t, secret) == Some(n) || DoRegisterInstall(s, t, exchanger) == Some(n))
    ensures Fresh(n)
  {
  }

  lemma FreshAfterSeedInstall(s: State, n: State, t: Tid, readOk: bool, exchanger: bool)
    requires Inv(s) && Fresh(s) && (DoSeedInstall(s, t, readOk, exchanger) == Some(n))
    ensures Fresh(n)
  {
  }

  lemma FreshAfterTakeSlot(s: State, n: State, t: Tid)
    requires Inv(s) && Fresh(s) && (DoTakeSlot(s, t) == Some(n))
    ensures Fresh(n)
  {
  }

  lemma FreshAfterUpdateWrite(s: State, n: State, t: Tid, write: Change)
    requires Inv(s) && Fresh(s) && (DoUpdateWrite(s, t, write) == Some(n))
    ensures Fresh(n)
  {
  }

  lemma InitFresh(row: Secret, exchanger: bool)
    ensures Fresh(Init(row, exchanger))
  {
  }

  lemma StepFresh(s: State, t: Tid, a: Action)
    requires Inv(s) && Fresh(s) && Next(s, t, a).Some?
    ensures Fresh(Next(s, t, a).value)
  {
    var n := Next(s, t, a).value;
    match a
    case BeginSecret => FreshAfterBeginSecret(s, n, t);
    case BeginSeed => FreshAfterBeginSecret(s, n, t);
    case BeginUpdate => FreshAfterBeginUpdate(s, n, t);
    case Unblock => FreshAfterBeginUpdate(s, n, t);
    case BeginForce(token) => FreshAfterBeginForce(s, n, t, token);
    case Unmark => FreshAfterUnmark(s, n, t);
    case Check(unexpired) => 
      if At(n.threads, t).Refreshing? { FreshAfterCapture(s, n, t, unexpired); } else { FreshAfterServe(s, n, t, unexpired); }
    case Wake => FreshAfterWake(s, n, t);
    case Cancel => FreshAfterCancel(s, n, t);
    case Exchange(answer) => FreshAfterExchange(s, n, t, answer);
    case AcquireCheck => FreshAfterAcquireCheck(s, n, t);
    case WriteRotated(ok) => FreshAfterWriteRotated(s, n, t, ok);
    case PublishRotated => FreshAfterPublishRotated(s, n, t);
    case Finish => FreshAfterFinish(s, n, t);
    case Close => FreshAfterClose(s, n, t);
    case CloseUpdate => FreshAfterClose(s, n, t);
    case UpdatePublish(exchanger) => FreshAfterUpdatePublish(s, n, t, exchanger);
    case BeginImport(secret) => FreshAfterBeginImport(s, n, t, secret);
    case ImportBump(readOk) => FreshAfterImportBump(s, n, t, readOk);
    case ImportWrite(ok) => FreshAfterImportWrite(s, n, t, ok);
    case ImportPublish => FreshAfterImportPublish(s, n, t);
    case BeginRegister(secret) => FreshAfterBeginRegister(s, n, t, secret, true);
    case RegisterInstall(exchanger) => FreshAfterBeginRegister(s, n, t, s.durable, exchanger);
    case SeedInstall(readOk, exchanger) => FreshAfterSeedInstall(s, n, t, readOk, exchanger);
    case TakeSlot => FreshAfterTakeSlot(s, n, t);
    case UpdateWrite(write) => FreshAfterUpdateWrite(s, n, t, write);
  }

  // ------------------------------------------------------------ memory and store

  /** What the entry will serve once the install lock is next free. */
  function Pending(s: State): Secret {
    if s.installer.None? then s.entry.current
    else
      var p := At(s.threads, s.installer.value);
      if p.Refreshing? && p.refresh.Publishing? then Rotated(p.capture, p.answer)
      else if p.Importing? && p.import_.Stored? then p.secret
      else if p.Updating? && p.update.Written? then p.stored.GetOr(s.entry.current)
      else s.entry.current
  }

  /** The store holds what is, or is about to be, published. With the install lock free this is
      "memory equals store". */
  ghost predicate Coherent(s: State) {
    Same(Pending(s), s.durable)
  }

  /** What the caller of an action has to see to: Register is given the stored credential, and
      Update's change does not blank a stored one. */
  ghost predicate Faithful(s: State, t: Tid, a: Action) {
    match a
    case RegisterInstall(_) => At(s.threads, t).Registering? ==> Same(At(s.threads, t).secret, s.durable)
    case UpdateWrite(Put(updated)) => updated.Unsealed() ==> Same(updated, s.durable)
    case _ => true
  }

  lemma CoherentAfterBeginSecret(s: State, n: State, t: Tid)
    requires Inv(s) && Fresh(s) && Coherent(s) && (DoBeginSecret(s, t) == Some(n) || DoBeginSeed(s, t) == Some(n))
    ensures Coherent(n)
  {
  }

  lemma CoherentAfterBeginUpdate(s: State, n: State, t: Tid)
    requires Inv(s) && Fresh(s) && Coherent(s) && (DoBeginUpdate(s, t) == Some(n) || DoUnblock(s, t) == Some(n))
    ensures Coherent(n)
  {
  }

  lemma CoherentAfterBeginRegister(s: State, n: State, t: Tid, secret: Secret)
    requires Inv(s) && Fresh(s) && Coherent(s) && DoBeginRegister(s, t, secret) == Some(n)
    ensures Coherent(n)
  {
  }

  lemma CoherentAfterBeginForce(s: State, n: State, t: Tid, token: string)
    requires Inv(s) && Fresh(s) && Coherent(s) && (DoBeginForce(s, t, token) == Some(n) || DoUnmark(s, t) == Some(n))
    ensures Coherent(n)
  {
  }

  lemma CoherentAfterCheck(s: State, n: State, t: Tid, unexpired: bool)
    requires Inv(s) && Fresh(s) && Coherent(s) && DoCheck(s, t, unexpired) == Some(n)
    ensures Coherent(n)
  {
  }

  lemma CoherentAfterTakeSlot(s: State, n: State, t: Tid)
    requires Inv(s) && Fresh(s) && Coherent(s) && DoTakeSlot(s, t) == Some(n)
    ensures Coherent(n)
  {
  }

  lemma CoherentAfterWake(s: State, n: State, t: Tid)
    requires Inv(s) && Fresh(s) && Coherent(s) && (DoWake(s, t) == Some(n))
    ensures Coherent(n)
  {
  }

  lemma CoherentAfterCancel(s: State, n: State, t: Tid)
    requires Inv(s) && Fresh(s) && Coherent(s) && (DoCancel(s, t) == Some(n))
    ensures Coherent(n)
  {
  }

  lemma CoherentAfterExchange(s: State, n: State, t: Tid, answer: Option<Secret>)
    requires Inv(s) && Fresh(s) && Coherent(s) && (DoExchange(s, t, answer) == Some(n) || DoAcquireCheck(s, t) == Some(n))
    ensures Coherent(n)
  {
  }

  lemma CoherentAfterWriteRotated(s: State, n: State, t: Tid, ok: bool)
    requires Inv(s) && Fresh(s) && Coherent(s) && (DoWriteRotated(s, t, ok) == Some(n) || DoPublishRotated(s, t) == Some(n))
    ensures Coherent(n)
  {
  }

  lemma CoherentAfterFinish(s: State, n: State, t: Tid)
    requires Inv(s) && Fresh(s) && Coherent(s) && (DoFinish(s, t) == Some(n) || DoClose(s, t) == Some(n))
    ensures Coherent(n)
  {
  }

  lemma CoherentAfterCloseUpdate(s: State, n: State, t: Tid)
    requires Inv(s) && Fresh(s) && Coherent(s) && (DoCloseUpdate(s, t) == Some(n))
    ensures Coherent(n)
  {
  }

  lemma CoherentAfterUpdatePublish(s: State, n: State, t: Tid, exchanger: bool)
    requires Inv(s) && Fresh(s) && Coherent(s) && (DoUpdatePublish(s, t, exchanger) == Some(n))
    ensures Coherent(n)
  {
  }

  lemma CoherentAfterBeginImport(s: State, n: State, t: Tid, secret: Secret, readOk: bool)
    requires Inv(s) && Fresh(s) && Coherent(s) && (DoBeginImport(s, t, secret) == Some(n) || DoImportBump(s, t, readOk) == Some(n))
    ensures Coherent(n)
  {
  }

  lemma CoherentAfterImportWrite(s: State, n: State, t: Tid, ok: bool)
    requires Inv(s) && Fresh(s) && Coherent(s) && (DoImportWrite(s, t, ok) == Some(n) || DoImportPublish(s, t) == Some(n))
    ensures Coherent(n)
  {
  }

  lemma CoherentAfterSeedInstall(s: State, n: State, t: Tid, readOk: bool, exchanger: bool)
    requires Inv(s) && Fresh(s) && Coherent(s) && (DoSeedInstall(s, t, readOk, exchanger) == Some(n))
    ensures Coherent(n)
  {
  }

  /** Register keeps memory and store together exactly when it is given the stored credential. */
  lemma RegisterCoherent(s: State, n: State, t: Tid, exchanger: bool)
    requires Inv(s) && Fresh(s) && Coherent(s) && DoRegisterInstall(s, t, exchanger) == Some(n)
    ensures Coherent(n) <==> Same(At(s.threads, t).secret, s.durable)
  {
  }

  /** Update does so exactly when the payload is sealed or says what is stored. */
  lemma UpdateCoherent(s: State, n: State, t: Tid, write: Change)
    requires Inv(s) && Fresh(s) && Coherent(s) && DoUpdateWrite(s, t, write) == Some(n)
    ensures Coherent(n) <==> (write.Put? && write.updated.Unsealed() ==> Same(write.updated, s.durable))
  {
  }

  /** Every other action keeps them together; these two do exactly under their callers' condition. */
  lemma StepCoherent(s: State, t: Tid, a: Action)
    requires Inv(s) && Fresh(s) && Coherent(s) && Next(s, t, a).Some?
    ensures Coherent(Next(s, t, a).value) <==> Faithful(s, t, a)
  {
    var n := Next(s, t, a).value;
    match a
    case RegisterInstall(exchanger) => RegisterCoherent(s, n, t, exchanger);
    case UpdateWrite(write) => UpdateCoherent(s, n, t, write);
    case BeginSecret => CoherentAfterBeginSecret(s, n, t);
    case BeginSeed => CoherentAfterBeginSecret(s, n, t);
    case BeginUpdate => CoherentAfterBeginUpdate(s, n, t);
    case Unblock => CoherentAfterBeginUpdate(s, n, t);
    case BeginRegister(secret) => CoherentAfterBeginRegister(s, n, t, secret);
    case BeginForce(token) => CoherentAfterBeginForce(s, n, t, token);
    case Unmark => CoherentAfterBeginForce(s, n, t, "");
    case Check(unexpired) => CoherentAfterCheck(s, n, t, unexpired);
    case TakeSlot => CoherentAfterTakeSlot(s, n, t);
    case Wake => CoherentAfterWake(s, n, t);
    case Cancel => CoherentAfterCancel(s, n, t);
    case Exchange(answer) => CoherentAfterExchange(s, n, t, answer);
    case AcquireCheck => CoherentAfterExchange(s, n, t, None);
    case WriteRotated(ok) => CoherentAfterWriteRotated(s, n, t, ok);
    case PublishRotated => CoherentAfterWriteRotated(s, n, t, true);
    case Finish => CoherentAfterFinish(s, n, t);
    case Close => CoherentAfterFinish(s, n, t);
    case CloseUpdate => CoherentAfterCloseUpdate(s, n, t);
    case UpdatePublish(exchanger) => CoherentAfterUpdatePublish(s, n, t, exchanger);
    case BeginImport(secret) => CoherentAfterBeginImport(s, n, t, secret, true);
    case ImportBump(readOk) => CoherentAfterBeginImport(s, n, t, s.durable, readOk);
    case ImportWrite(ok) => CoherentAfterImportWrite(s, n, t, ok);
    case ImportPublish => CoherentAfterImportWrite(s, n, t, true);
    case SeedInstall(readOk, exchanger) => CoherentAfterSeedInstall(s, n, t, readOk, exchanger);
  }

}
