/**
 The credential registry's protocol on one connection (internal/credentials/registry.go).

 Any number of threads run Secret, ForceRefresh, Import, Register, Seed and Update/ReviseSecret.
 One action is one region the source runs under a lock, one durable write, or one lock-free
 event (an exchange ending, a channel closing). Taking the install lock is part of the region
 that follows it and releasing it part of the region before it. The clock, the provider, the
 store's failures and context cancellation choose the action's parameters.
 */
module RegistryProtocol {
  import opened Prelude
  import opened Credentials

  type Tid = nat

  /** A refreshCall. `owner` is the thread that made it; `recheck` and `result` are read once done. */
  datatype Call = Call(owner: Tid, done: bool, recheck: bool, result: Option<Outcome>)

  datatype Outcome = Served(secret: Secret) | Failed

  /** How refresh returned to Secret. */
  datatype Verdict = Committed(secret: Secret) | Refused | Superseded

  /** What Secret captured with the slot. `window` is auxiliary: the import that had bumped the
      generation and not yet published, if the capture fell between the two. */
  datatype Capture = Capture(stored: Secret, generation: nat, window: Option<Secret>)

  /** A refresh: the exchange, waiting for the install lock, the durable write, the publication. */
  datatype RefreshStage = Exchanging | Committing | Writing | Publishing

  datatype ImportStage = Queued | Storing | Stored

  /** Update and ReviseSecret once they hold the slot. */
  datatype UpdateStage = Holding | Written | Released

  /** Where one thread is. `force` is the refused token inside a ForceRefresh call; `last` is what
      the thread's last Secret or ForceRefresh call returned, None if its last call was neither. */
  datatype Phase =
    | Idle(last: Option<Outcome>)
    | Checking(force: Option<string>)
    | Waiting(awaited: nat, force: Option<string>)
    | Refreshing(refresh: RefreshStage, call: nat, capture: Capture, answer: Secret, force: Option<string>)
    | Returning(closing: bool, call: nat, verdict: Verdict, force: Option<string>)
    | Unmarking(token: string)
    | Importing(import_: ImportStage, secret: Secret, bumped: bool)
    | Registering(secret: Secret)
    | Seeding
    | UpdateTrying
    | UpdateBlocked(awaited: nat)
    | Updating(update: UpdateStage, call: nat, stored: Option<Secret>)
  {
    /** The call this thread made and has not closed yet. */
    function OwnCall(): Option<nat> {
      if Refreshing? || Returning? || Updating? then Some(call) else None
    }

    predicate HoldsSlot() {
      Refreshing? || (Returning? && !closing) || (Updating? && !update.Released?)
    }

    predicate HoldsInstall() {
      || (Refreshing? && (refresh.Writing? || refresh.Publishing?))
      || (Importing? && !import_.Queued?)
      || (Updating? && !update.Holding?)
    }

    function Force(): Option<string> {
      if Checking? || Waiting? || Refreshing? || Returning? then force
      else if Unmarking? then Some(token)
      else None
    }
  }

  function At(threads: map<Tid, Phase>, t: Tid): Phase { if t in threads then threads[t] else Idle(None) }

  function Moved(threads: map<Tid, Phase>, t: Tid, p: Phase): (moved: map<Tid, Phase>)
    ensures forall u: Tid {:trigger At(moved, u)} :: At(moved, u) == if u == t then p else At(threads, u)
  {
    threads[t := p]
  }

  /** One entry, its durable row, the two mutexes held across actions and the threads. `durable`
      is the credential the store holds. */
  datatype State = State(
    entry: Entry, durable: Secret, installer: Option<Tid>, registrar: Option<Tid>,
    calls: seq<Call>, threads: map<Tid, Phase>)
  {
    function Move(t: Tid, p: Phase): State { this.(threads := Moved(threads, t, p)) }

    /** The import that has bumped the generation and not yet published, if any. */
    function Window(): Option<Secret> {
      if installer.None? then None
      else
        var p := At(threads, installer.value);
        if p.Importing? && !p.import_.Queued? && p.bumped then Some(p.secret) else None
    }
  }

  datatype Action =
    | BeginSecret
    | BeginForce(token: string)
    | Check(unexpired: bool)
    | Wake
    | Cancel
    | Exchange(answer: Option<Secret>)
    | AcquireCheck
    | WriteRotated(ok: bool)
    | PublishRotated
    | Finish
    | Close
    | Unmark
    | BeginImport(secret: Secret)
    | ImportBump(readOk: bool)
    | ImportWrite(ok: bool)
    | ImportPublish
    | BeginRegister(secret: Secret)
    | RegisterInstall(exchanger: bool)
    | BeginSeed
    | SeedInstall(readOk: bool, exchanger: bool)
    | BeginUpdate
    | Unblock
    | TakeSlot
    | UpdateWrite(write: Change)
    | UpdatePublish(exchanger: bool)
    | CloseUpdate

  /** What the section of Update or ReviseSecret between read and write came to. */
  datatype Change = Abandoned | Put(updated: Secret) | Revised(secret: Secret)

  function Init(row: Secret, exchanger: bool): State {
    State(Entry(row, 1, true, "", None, exchanger), row, None, None, [], map[])
  }

  // ------------------------------------------------------------ Secret and ForceRefresh

  /** lookup runs under the registry mutex. */
  function DoBeginSecret(s: State, t: Tid): Option<State> {
    if At(s.threads, t).Idle? && s.registrar.None? then Some(s.Move(t, Checking(None))) else None
  }

  function DoBeginForce(s: State, t: Tid, token: string): Option<State> {
    if !At(s.threads, t).Idle? || s.registrar.Some? then None
    else match s.entry.Mark(token)
      case None => Some(s.Move(t, Idle(Some(Failed))))
      case Some(marked) => Some(s.(entry := marked).Move(t, Checking(Some(token))))
  }

  /** Secret's loop body up to the exchange. */
  function DoCheck(s: State, t: Tid, unexpired: bool): Option<State> {
    var p := At(s.threads, t);
    if !p.Checking? then None
    else if s.entry.Valid(unexpired) then Some(s.Move(t, Idle(Some(Served(s.entry.current)))))
    else if s.entry.inflight.Some? then Some(s.Move(t, Waiting(s.entry.inflight.value, p.force)))
    else if !s.entry.exchanger then Some(s.Move(t, Idle(Some(Served(s.entry.current)))))
    else
      var call := |s.calls|;
      Some(s.(entry := s.entry.Hold(call), calls := s.calls + [Call(t, false, false, None)])
            .Move(t, Refreshing(Exchanging, call, Capture(s.entry.current, s.entry.generation, s.Window()), s.entry.current, p.force)))
  }

  /** A closed call's waiter: its result is the caller's, unless it has to check again. */
  function Woken(call: Call, force: Option<string>): Phase {
    if call.recheck then Checking(force)
    else if call.result == Some(Failed) then Gone(force)
    else Idle(call.result)
  }

  function DoWake(s: State, t: Tid): Option<State> {
    match At(s.threads, t)
    case Waiting(awaited, force) =>
      if awaited >= |s.calls| || !s.calls[awaited].done then None
      else Some(s.Move(t, Woken(s.calls[awaited], force)))
    case _ => None
  }

  /** Where a failed Secret call goes: ForceRefresh still has to unmark. */
  function Gone(force: Option<string>): Phase {
    match force
    case None => Idle(Some(Failed))
    case Some(token) => Unmarking(token)
  }

  function DoCancel(s: State, t: Tid): Option<State> {
    match At(s.threads, t)
    case Waiting(_, force) => Some(s.Move(t, Gone(force)))
    case UpdateBlocked(_) => Some(s.Move(t, Idle(None)))
    case _ => None
  }

  function DoExchange(s: State, t: Tid, answer: Option<Secret>): Option<State> {
    match At(s.threads, t)
    case Refreshing(Exchanging, call, capture, _, force) =>
      if answer.None? || Merge(capture.stored, answer.value).None? then Some(s.Move(t, Returning(false, call, Refused, force)))
      else Some(s.Move(t, Refreshing(Committing, call, capture, answer.value, force)))
    case _ => None
  }

  function DoAcquireCheck(s: State, t: Tid): Option<State> {
    match At(s.threads, t)
    case Refreshing(Committing, call, capture, answer, force) =>
      if s.installer.Some? then None
      else if s.entry.generation != capture.generation then Some(s.Move(t, Returning(false, call, Superseded, force)))
      else Some(s.(installer := Some(t)).Move(t, Refreshing(Writing, call, capture, answer, force)))
    case _ => None
  }

  function Rotated(capture: Capture, answer: Secret): Secret {
    Merge(capture.stored, answer).GetOr(capture.stored)
  }

  function DoWriteRotated(s: State, t: Tid, ok: bool): Option<State> {
    match At(s.threads, t)
    case Refreshing(Writing, call, capture, answer, force) =>
      if !ok then Some(s.(installer := None).Move(t, Returning(false, call, Refused, force)))
      else Some(s.(durable := Decoded(Rotated(capture, answer))).Move(t, Refreshing(Publishing, call, capture, answer, force)))
    case _ => None
  }

  function DoPublishRotated(s: State, t: Tid): Option<State> {
    match At(s.threads, t)
    case Refreshing(Publishing, call, capture, answer, force) =>
      var rotated := Rotated(capture, answer);
      Some(s.(entry := s.entry.Publish(rotated), installer := None).Move(t, Returning(false, call, Committed(rotated), force)))
    case _ => None
  }

  function ResultOf(verdict: Verdict): Outcome {
    match verdict
    case Committed(secret) => Served(secret)
    case _ => Failed
  }

  /** Secret after refresh returned. A superseded refresh closes its call at once and checks again. */
  function DoFinish(s: State, t: Tid): Option<State> {
    match At(s.threads, t)
    case Returning(false, call, verdict, force) =>
      if call >= |s.calls| then None
      else if verdict.Superseded? then
        Some(s.(entry := s.entry.Release(), calls := s.calls[call := s.calls[call].(done := true, recheck := true)])
              .Move(t, Checking(force)))
      else
        Some(s.(entry := s.entry.Release(), calls := s.calls[call := s.calls[call].(result := Some(ResultOf(verdict)))])
              .Move(t, Returning(true, call, verdict, force)))
    case _ => None
  }

  function DoClose(s: State, t: Tid): Option<State> {
    match At(s.threads, t)
    case Returning(true, call, verdict, force) =>
      if call >= |s.calls| then None
      else Some(s.(calls := s.calls[call := s.calls[call].(done := true)])
                 .Move(t, if verdict.Committed? then Idle(Some(Served(verdict.secret))) else Gone(force)))
    case _ => None
  }

  function DoUnmark(s: State, t: Tid): Option<State> {
    match At(s.threads, t)
    case Unmarking(token) => Some(s.(entry := s.entry.Unmark(token)).Move(t, Idle(Some(Failed))))
    case _ => None
  }

  // ------------------------------------------------------------ Import, Register, Seed

  function DoBeginImport(s: State, t: Tid, secret: Secret): Option<State> {
    if !At(s.threads, t).Idle? || s.registrar.Some? then None
    else if secret.Empty() then Some(s)
    else Some(s.Move(t, Importing(Queued, secret, false)))
  }

  /** Nil provider data and a blank auth type are taken from the stored row. */
  function Filled(secret: Secret, row: Secret): Secret {
    secret.(data := if secret.data.None? then CarryProviderData(row.data, None) else secret.data,
            authType := if secret.authType == "" then row.authType else secret.authType)
  }

  function DoImportBump(s: State, t: Tid, readOk: bool): Option<State> {
    match At(s.threads, t)
    case Importing(Queued, secret, _) =>
      if s.installer.Some? then None
      else if !readOk && (secret.data.None? || secret.authType == "") then Some(s.Move(t, Idle(None)))
      else
        var filled := Filled(secret, s.durable);
        Some(s.(entry := s.entry.Bump(filled), installer := Some(t)).Move(t, Importing(Storing, filled, s.entry.Bumps(filled))))
    case _ => None
  }

  function DoImportWrite(s: State, t: Tid, ok: bool): Option<State> {
    match At(s.threads, t)
    case Importing(Storing, secret, bumped) =>
      if !ok then Some(s.(installer := None).Move(t, Idle(None)))
      else Some(s.(durable := Decoded(secret)).Move(t, Importing(Stored, secret, bumped)))
    case _ => None
  }

  function DoImportPublish(s: State, t: Tid): Option<State> {
    match At(s.threads, t)
    case Importing(Stored, secret, _) =>
      Some(s.(entry := s.entry.Publish(secret), installer := None).Move(t, Idle(None)))
    case _ => None
  }

  /** Register waits for the install lock with the registry mutex held. */
  function DoBeginRegister(s: State, t: Tid, secret: Secret): Option<State> {
    if !At(s.threads, t).Idle? || s.registrar.Some? then None
    else Some(s.(registrar := Some(t)).Move(t, Registering(secret)))
  }

  function DoRegisterInstall(s: State, t: Tid, exchanger: bool): Option<State> {
    match At(s.threads, t)
    case Registering(secret) =>
      if s.installer.Some? then None
      else Some(s.(entry := s.entry.Install(secret, exchanger), registrar := None).Move(t, Idle(None)))
    case _ => None
  }

  function DoBeginSeed(s: State, t: Tid): Option<State> {
    if At(s.threads, t).Idle? && s.registrar.None? then Some(s.Move(t, Seeding)) else None
  }

  function DoSeedInstall(s: State, t: Tid, readOk: bool, exchanger: bool): Option<State> {
    if !At(s.threads, t).Seeding? || s.installer.Some? then None
    else if !readOk then Some(s.Move(t, Idle(None)))
    else Some(s.(entry := s.entry.Install(s.durable, exchanger)).Move(t, Idle(None)))
  }

  // ------------------------------------------------------------ Update and ReviseSecret

  function DoBeginUpdate(s: State, t: Tid): Option<State> {
    if At(s.threads, t).Idle? && s.registrar.None? then Some(s.Move(t, UpdateTrying)) else None
  }

  function DoUnblock(s: State, t: Tid): Option<State> {
    match At(s.threads, t)
    case UpdateBlocked(awaited) =>
      if awaited >= |s.calls| || !s.calls[awaited].done then None else Some(s.Move(t, UpdateTrying))
    case _ => None
  }

  function DoTakeSlot(s: State, t: Tid): Option<State> {
    if !At(s.threads, t).UpdateTrying? then None
    else if s.entry.inflight.Some? then Some(s.Move(t, UpdateBlocked(s.entry.inflight.value)))
    else
      var call := |s.calls|;
      Some(s.(entry := s.entry.Hold(call), calls := s.calls + [Call(t, false, true, None)]).Move(t, Updating(Holding, call, None)))
  }

  /** PutConnection keeps the stored blob for an unsealed payload but returns the payload it was
      given; RotateSecret refuses an empty one. */
  function DoUpdateWrite(s: State, t: Tid, write: Change): Option<State> {
    match At(s.threads, t)
    case Updating(Holding, call, _) =>
      if s.installer.Some? then None
      else
        var held := s.(installer := Some(t));
        (match write
         case Abandoned => Some(held.Move(t, Updating(Written, call, None)))
         case Put(updated) =>
           Some(held.(durable := if updated.Unsealed() then s.durable else Decoded(updated)).Move(t, Updating(Written, call, Some(updated))))
         case Revised(secret) =>
           if secret.Empty() then Some(held.Move(t, Updating(Written, call, None)))
           else Some(held.(durable := Decoded(secret)).Move(t, Updating(Written, call, Some(secret)))))
    case _ => None
  }

  function DoUpdatePublish(s: State, t: Tid, exchanger: bool): Option<State> {
    match At(s.threads, t)
    case Updating(Written, call, stored) =>
      Some(s.(entry := s.entry.PublishUpdate(stored, exchanger)).Move(t, Updating(Released, call, None)))
    case _ => None
  }

  function DoCloseUpdate(s: State, t: Tid): Option<State> {
    match At(s.threads, t)
    case Updating(Released, call, _) =>
      if call >= |s.calls| then None
      else Some(s.(installer := None, calls := s.calls[call := s.calls[call].(done := true)]).Move(t, Idle(None)))
    case _ => None
  }

  // ------------------------------------------------------------ steps and runs

  /** One action of one thread; None when the thread cannot take it now. */
  function Next(s: State, t: Tid, a: Action): Option<State> {
    match a
    case BeginSecret => DoBeginSecret(s, t)
    case BeginForce(token) => DoBeginForce(s, t, token)
    case Check(unexpired) => DoCheck(s, t, unexpired)
    case Wake => DoWake(s, t)
    case Cancel => DoCancel(s, t)
    case Exchange(answer) => DoExchange(s, t, answer)
    case AcquireCheck => DoAcquireCheck(s, t)
    case WriteRotated(ok) => DoWriteRotated(s, t, ok)
    case PublishRotated => DoPublishRotated(s, t)
    case Finish => DoFinish(s, t)
    case Close => DoClose(s, t)
    case Unmark => DoUnmark(s, t)
    case BeginImport(secret) => DoBeginImport(s, t, secret)
    case ImportBump(readOk) => DoImportBump(s, t, readOk)
    case ImportWrite(ok) => DoImportWrite(s, t, ok)
    case ImportPublish => DoImportPublish(s, t)
    case BeginRegister(secret) => DoBeginRegister(s, t, secret)
    case RegisterInstall(exchanger) => DoRegisterInstall(s, t, exchanger)
    case BeginSeed => DoBeginSeed(s, t)
    case SeedInstall(readOk, exchanger) => DoSeedInstall(s, t, readOk, exchanger)
    case BeginUpdate => DoBeginUpdate(s, t)
    case Unblock => DoUnblock(s, t)
    case TakeSlot => DoTakeSlot(s, t)
    case UpdateWrite(write) => DoUpdateWrite(s, t, write)
    case UpdatePublish(exchanger) => DoUpdatePublish(s, t, exchanger)
    case CloseUpdate => DoCloseUpdate(s, t)
  }

  datatype Step = Step(thread: Tid, action: Action)

  function Run(s: State, steps: seq<Step>): Option<State>
    decreases |steps|
  {
    if steps == [] then Some(s)
    else match Next(s, steps[0].thread, steps[0].action)
      case None => None
      case Some(next) => Run(next, steps[1..])
  }
}
