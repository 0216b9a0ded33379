/**
 What each region of the registry's operations (internal/credentials/registry.go) leads to: what a call
 returns, what it leaves in entry and store, and which locks it holds on to.
 */
module RegistrySteps {
  import opened Prelude
  import opened Credentials
  import opened RegistryProtocol

  /** Everything but the entry and the thread stays. */
  predicate OnlyEntry(s: State, n: State) {
    n.durable == s.durable && n.installer == s.installer && n.registrar == s.registrar && n.calls == s.calls
  }

  predicate OnlyThread(s: State, n: State) { n.entry == s.entry && OnlyEntry(s, n) }

  /** When a thread can take an action: operations begin unless Register holds the registry mutex; a region under
      the install lock waits for it; a waiter waits for its call; an exchange, a write or a cancellation can end
      in any way. */
  lemma EnabledIff(s: State, t: Tid, a: Action)
    ensures Next(s, t, a).Some? <==>
            var p := At(s.threads, t);
            match a
            case BeginSecret => p.Idle? && s.registrar == None
            case BeginForce(_) => p.Idle? && s.registrar == None
            case Check(_) => p.Checking?
            case Wake => p.Waiting? && p.awaited < |s.calls| && s.calls[p.awaited].done
            case Cancel => p.Waiting? || p.UpdateBlocked?
            case Exchange(_) => p.Refreshing? && p.refresh == Exchanging
            case AcquireCheck => p.Refreshing? && p.refresh == Committing && s.installer == None
            case WriteRotated(_) => p.Refreshing? && p.refresh == Writing
            case PublishRotated => p.Refreshing? && p.refresh == Publishing
            case Finish => p.Returning? && !p.closing && p.call < |s.calls|
            case Close => p.Returning? && p.closing && p.call < |s.calls|
            case Unmark => p.Unmarking?
            case BeginImport(_) => p.Idle? && s.registrar == None
            case ImportBump(_) => p.Importing? && p.import_ == Queued && s.installer == None
            case ImportWrite(_) => p.Importing? && p.import_ == Storing
            case ImportPublish => p.Importing? && p.import_ == Stored
            case BeginRegister(_) => p.Idle? && s.registrar == None
            case RegisterInstall(_) => p.Registering? && s.installer == None
            case BeginSeed => p.Idle? && s.registrar == None
            case SeedInstall(_, _) => p.Seeding? && s.installer == None
            case BeginUpdate => p.Idle? && s.registrar == None
            case Unblock => p.UpdateBlocked? && p.awaited < |s.calls| && s.calls[p.awaited].done
            case TakeSlot => p.UpdateTrying?
            case UpdateWrite(_) => p.Updating? && p.update == Holding && s.installer == None
            case UpdatePublish(_) => p.Updating? && p.update == Written
            case CloseUpdate => p.Updating? && p.update == Released && p.call < |s.calls|
  {
  }

  /** How the operations begin; Register keeps the registry mutex until it has installed. An Update that waited
      for the slot tries again, or gives up when cancelled. */
  lemma BeginLeadsTo(s: State, n: State, t: Tid, a: Action)
    requires Next(s, t, a) == Some(n)
    requires a.BeginSecret? || a.BeginRegister? || a.BeginSeed? || a.BeginUpdate? || a.Unblock? || (a.Cancel? && At(s.threads, t).UpdateBlocked?)
    ensures n.entry == s.entry && n.durable == s.durable && n.installer == s.installer && n.calls == s.calls
    ensures n.registrar == if a.BeginRegister? then Some(t) else s.registrar
    ensures At(n.threads, t) == match a
                                case BeginSecret => Checking(None)
                                case BeginRegister(secret) => Registering(secret)
                                case BeginSeed => Seeding
                                case Cancel => Idle(None)
                                case _ => UpdateTrying
  {
  }

  /** Under the install lock a refresh goes on to write, and keeps the lock, exactly if its generation stands. */
  lemma AcquireLeadsTo(s: State, n: State, t: Tid)
    requires Next(s, t, AcquireCheck) == Some(n)
    ensures var p := At(s.threads, t);
            && p.Refreshing? && n.entry == s.entry && n.durable == s.durable && n.registrar == s.registrar && n.calls == s.calls
            && n.installer == (if s.entry.generation == p.capture.generation then Some(t) else None)
            && At(n.threads, t) == if s.entry.generation == p.capture.generation then p.(refresh := Writing) else Returning(false, p.call, Superseded, p.force)
  {
  }

  /** Any thread but the one that acts stays where it is. */
  lemma OthersStay(s: State, n: State, t: Tid, a: Action, u: Tid)
    requires Next(s, t, a) == Some(n) && u != t
    ensures At(n.threads, u) == At(s.threads, u)
  {
  }

  /** One connection as registered: its credential in entry and store, generation 1 and no marker. */
  lemma InitIs(row: Secret, exchanger: bool, t: Tid)
    ensures var s := Init(row, exchanger);
            && s.entry == Entry(row, 1, true, "", None, exchanger) && s.durable == row
            && s.installer == None && s.registrar == None && s.calls == [] && At(s.threads, t) == Idle(None)
  {
  }

  /** Secret serves a valid credential, and a static one it cannot refresh; else it waits for the call in flight
      or takes the slot with a call of its own and captures credential and generation together. */
  lemma CheckLeadsTo(s: State, n: State, t: Tid, unexpired: bool)
    requires Next(s, t, Check(unexpired)) == Some(n)
    ensures At(s.threads, t).Checking?
    ensures var e, p, force := s.entry, At(n.threads, t), At(s.threads, t).force;
            var valid := e.seeded && unexpired && (e.current.access != "" || e.current.cookie != "") && (e.rejected == "" || e.rejected != e.current.access);
            if valid || (e.inflight == None && !e.exchanger) then p == Idle(Some(Served(e.current))) && OnlyThread(s, n)
            else if e.inflight != None then p == Waiting(e.inflight.value, force) && OnlyThread(s, n)
            else
              && p.Refreshing? && p.refresh == Exchanging && p.call == |s.calls| && p.force == force
              && p.capture.stored == e.current && p.capture.generation == e.generation
              && n.entry == e.(inflight := Some(|s.calls|)) && n.calls == s.calls + [Call(t, false, false, None)]
              && n.durable == s.durable && n.installer == s.installer && n.registrar == s.registrar
  {
  }

  /** An exchange fails without an access token or a cookie. A refresh that may commit holds the install lock
      until its durable write has failed, or until what it wrote is published. */
  lemma RefreshLeadsTo(s: State, n: State, t: Tid, a: Action)
    requires Next(s, t, a) == Some(n) && (a.Exchange? || a.WriteRotated? || a.PublishRotated?)
    ensures At(s.threads, t).Refreshing?
    ensures var p := At(s.threads, t); var rotated := Merge(p.capture.stored, p.answer).GetOr(p.capture.stored);
            match a
            case Exchange(answer) =>
              && OnlyThread(s, n)
              && At(n.threads, t) == if answer != None && (!Blank(answer.value.access) || !Blank(answer.value.cookie))
                                     then p.(refresh := Committing, answer := answer.value) else Returning(false, p.call, Refused, p.force)
            case WriteRotated(ok) =>
              && n.entry == s.entry && n.registrar == s.registrar && n.calls == s.calls
              && n.installer == (if ok then s.installer else None)
              && n.durable == (if ok then Decoded(rotated) else s.durable)
              && At(n.threads, t) == if ok then p.(refresh := Publishing) else Returning(false, p.call, Refused, p.force)
            case PublishRotated =>
              && n.entry == s.entry.(current := rotated, seeded := true, rejected := "")
              && n.durable == s.durable && n.installer == None && n.registrar == s.registrar && n.calls == s.calls
              && At(n.threads, t) == Returning(false, p.call, Committed(rotated), p.force)
            case _ => true
  {
  }

  /** A refresh frees the slot before it closes its call. One superseded has its caller and every waiter check
      again; the caller of any other gets what it committed, or fails. */
  lemma OwnerLeadsTo(s: State, n: State, t: Tid, a: Action)
    requires Next(s, t, a) == Some(n) && (a.Finish? || a.Close?)
    ensures At(s.threads, t).Returning? && At(s.threads, t).call < |s.calls| && (At(s.threads, t).closing <==> a.Close?)
    ensures n.durable == s.durable && n.installer == s.installer && n.registrar == s.registrar
    ensures n.entry == if a.Finish? then s.entry.(inflight := None) else s.entry
    ensures var p := At(s.threads, t); var made := s.calls[p.call];
            match p.verdict
            case Superseded =>
              if a.Finish? then At(n.threads, t) == Checking(p.force) && n.calls == s.calls[p.call := made.(done := true, recheck := true)]
              else n.calls == s.calls[p.call := made.(done := true)]
            case Committed(secret) =>
              if a.Finish? then At(n.threads, t) == p.(closing := true) && n.calls == s.calls[p.call := made.(result := Some(Served(secret)))]
              else At(n.threads, t) == Idle(Some(Served(secret))) && n.calls == s.calls[p.call := made.(done := true)]
            case Refused =>
              if a.Finish? then At(n.threads, t) == p.(closing := true) && n.calls == s.calls[p.call := made.(result := Some(Failed))]
              else At(n.threads, t) == (if p.force == None then Idle(Some(Failed)) else Unmarking(p.force.value)) && n.calls == s.calls[p.call := made.(done := true)]
  {
  }

  /** A waiter goes on when its call is closed: it checks again, or returns what the call says; one that is
      cancelled fails. A failed ForceRefresh has its marker to clear. */
  lemma WaiterLeadsTo(s: State, n: State, t: Tid, a: Action)
    requires Next(s, t, a) == Some(n) && (a.Wake? || a.Cancel? || a.Unblock?) && At(s.threads, t).Waiting?
    ensures !a.Unblock? && OnlyThread(s, n)
    ensures var p := At(s.threads, t); var failed := if p.force == None then Idle(Some(Failed)) else Unmarking(p.force.value);
            if a.Cancel? then At(n.threads, t) == failed
            else
              && p.awaited < |s.calls| && s.calls[p.awaited].done
              && At(n.threads, t) == if s.calls[p.awaited].recheck then Checking(p.force)
                                     else if s.calls[p.awaited].result == Some(Failed) then failed
                                     else Idle(s.calls[p.awaited].result)
  {
  }

  /** An import of nothing is refused. Any other bumps the generation under the install lock before it writes,
      keeps the lock to its end, publishes what it wrote and leaves the entry's credential when the write fails. */
  lemma ImportLeadsTo(s: State, n: State, t: Tid, a: Action)
    requires Next(s, t, a) == Some(n) && (a.BeginImport? || a.ImportBump? || a.ImportWrite? || a.ImportPublish?)
    ensures n.registrar == s.registrar && n.calls == s.calls
    ensures match a
            case BeginImport(secret) =>
              && OnlyEntry(s, n) && n.entry == s.entry && At(s.threads, t).Idle?
              && At(n.threads, t) == if Blank(secret.access) && Blank(secret.refresh) && Blank(secret.cookie) then At(s.threads, t) else Importing(Queued, secret, false)
            case ImportBump(readOk) =>
              var given := At(s.threads, t).secret; var filled := Filled(given, s.durable); var moved := !(s.entry.seeded && Same(s.entry.current, filled));
              && s.installer == None && n.durable == s.durable
              && if !readOk && (given.data == None || given.authType == "") then n.entry == s.entry && n.installer == None && At(n.threads, t) == Idle(None)
                 else n.entry == s.entry.(generation := s.entry.generation + if moved then 1 else 0) && n.installer == Some(t) && At(n.threads, t) == Importing(Storing, filled, moved)
            case ImportWrite(ok) =>
              && n.entry == s.entry
              && n.durable == (if ok then Decoded(At(s.threads, t).secret) else s.durable) && n.installer == (if ok then s.installer else None)
              && At(n.threads, t) == if ok then At(s.threads, t).(import_ := Stored) else Idle(None)
            case ImportPublish =>
              n.entry == s.entry.(current := At(s.threads, t).secret, seeded := true, rejected := "") && n.durable == s.durable && n.installer == None && At(n.threads, t) == Idle(None)
            case _ => true
  {
  }

  /** Registering and seeding install under the install lock and let go of it at once: a credential that is not
      the one held starts a generation with no marker, and the one held changes nothing but the exchanger.
      Seeding installs what the store holds, when it can be read. */
  lemma InstallLeadsTo(s: State, n: State, t: Tid, a: Action)
    requires Next(s, t, a) == Some(n) && (a.RegisterInstall? || a.SeedInstall?)
    ensures s.installer == None && n.installer == None && n.durable == s.durable && n.calls == s.calls && At(n.threads, t) == Idle(None)
    ensures n.registrar == if a.RegisterInstall? then None else s.registrar
    ensures var secret := if At(s.threads, t).Registering? then At(s.threads, t).secret else s.durable;
            n.entry == if a.SeedInstall? && !a.readOk then s.entry
                       else if s.entry.seeded && Same(s.entry.current, secret) then s.entry.(exchanger := a.exchanger)
                       else Entry(secret, s.entry.generation + 1, true, "", s.entry.inflight, a.exchanger)
  {
  }

  /** Update and ReviseSecret take the slot when it is free, with a call whose waiters check again, and wait for
      it otherwise; then they hold the install lock from the write to the end. What is published is what was
      stored, as a new generation, and nothing when nothing was. */
  lemma UpdateLeadsTo(s: State, n: State, t: Tid, a: Action)
    requires Next(s, t, a) == Some(n) && (a.TakeSlot? || a.UpdateWrite? || a.UpdatePublish? || a.CloseUpdate?)
    ensures n.registrar == s.registrar
    ensures var p, e, made := At(s.threads, t), s.entry, |s.calls|;
            match a
            case TakeSlot =>
              && n.durable == s.durable && n.installer == s.installer
              && if e.inflight != None then n.entry == e && n.calls == s.calls && At(n.threads, t) == UpdateBlocked(e.inflight.value)
                 else n.entry == e.(inflight := Some(made)) && n.calls == s.calls + [Call(t, false, true, None)] && At(n.threads, t) == Updating(Holding, made, None)
            case UpdateWrite(write) =>
              && s.installer == None && n.installer == Some(t) && n.entry == e && n.calls == s.calls
              && (match write
                  case Abandoned => n.durable == s.durable && At(n.threads, t) == p.(update := Written, stored := None)
                  case Put(updated) =>
                    && At(n.threads, t) == p.(update := Written, stored := Some(updated))
                    && n.durable == if updated.Empty() && updated.idToken == "" && updated.data.GetOr(map[]) == map[] then s.durable else Decoded(updated)
                  case Revised(secret) =>
                    if secret.Empty() then n.durable == s.durable && At(n.threads, t) == p.(update := Written, stored := None)
                    else n.durable == Decoded(secret) && At(n.threads, t) == p.(update := Written, stored := Some(secret)))
            case UpdatePublish(exchanger) =>
              && n.durable == s.durable && n.installer == s.installer && n.calls == s.calls && At(n.threads, t) == p.(update := Released, stored := None)
              && n.entry == if p.stored == None then e.(inflight := None) else Entry(p.stored.value, e.generation + 1, true, "", None, exchanger)
            case CloseUpdate =>
              && n.entry == e && n.durable == s.durable && n.installer == None && At(n.threads, t) == Idle(None)
              && p.call < made && n.calls == s.calls[p.call := s.calls[p.call].(done := true)]
            case _ => true
  {
  }

  /** ForceRefresh's first region fails exactly without an exchanger, or when the refused token is the current one
      and there is no refresh token; else the token is marked if it is current, and nothing else changes. */
  lemma ForceBegins(s: State, n: State, t: Tid, token: string)
    requires Next(s, t, BeginForce(token)) == Some(n)
    ensures At(n.threads, t) == if !s.entry.exchanger || (s.entry.current.access == token && Blank(s.entry.current.refresh)) then Idle(Some(Failed))
                                else Checking(Some(token))
    ensures n.entry == if At(n.threads, t).Checking? && s.entry.current.access == token then s.entry.(rejected := token) else s.entry
    ensures n.durable == s.durable && n.installer == s.installer && n.registrar == s.registrar && n.calls == s.calls
  {
  }

  /** And its last, after a failure, clears the marker exactly if it is its own. */
  lemma ForceUnmarks(s: State, n: State, t: Tid)
    requires Next(s, t, Unmark) == Some(n)
    ensures At(s.threads, t).Unmarking? && At(n.threads, t) == Idle(Some(Failed))
    ensures n.entry == s.entry.(rejected := if s.entry.rejected == At(s.threads, t).token then "" else s.entry.rejected)
    ensures n.durable == s.durable && n.installer == s.installer && n.registrar == s.registrar && n.calls == s.calls
  {
  }
}
