/**
 The validation lifecycle of a stored connection (internal/credentials/store.go and status.go): one row,
 and the statements that change it. A column that may be NULL is an Option.
 */
module Lifecycle {
  import opened Prelude
  import opened Credentials

  datatype Status = Untested | Active | Failed

  /** Which provider-data keys hold credentials. */
  type Sensitive = string -> bool

  /** credentialMaterial, standing for its digest. */
  datatype Material = Material(access: string, refresh: string, idToken: string, cookie: string, data: map<string, string>)

  function MaterialOf(s: Secret, sensitive: Sensitive): Material {
    Material(s.access, s.refresh, s.idToken, s.cookie, map key | key in s.Data() && s.Data()[key] != "" && sensitive(key) :: s.Data()[key])
  }

  /** What makes two credentials the same: their tokens, the cookie and, key by key, what is not empty under a
      key that holds a credential. Their expiry, sign-in kind and other provider data do not matter. */
  lemma SameMaterialIff(a: Secret, b: Secret, sensitive: Sensitive)
    ensures MaterialOf(a, sensitive) == MaterialOf(b, sensitive) <==>
            && a.access == b.access && a.refresh == b.refresh && a.idToken == b.idToken && a.cookie == b.cookie
            && forall key :: sensitive(key) ==>
                 (if key in a.data.GetOr(map[]) then a.data.GetOr(map[])[key] else "") == (if key in b.data.GetOr(map[]) then b.data.GetOr(map[])[key] else "")
  {
    if MaterialOf(a, sensitive) == MaterialOf(b, sensitive) {
      forall key | sensitive(key)
        ensures (if key in a.Data() then a.Data()[key] else "") == (if key in b.Data() then b.Data()[key] else "")
      {
        assert key in MaterialOf(a, sensitive).data <==> key in MaterialOf(b, sensitive).data;
      }
    }
  }

  /** A sealed payload: `id` tells ciphertexts apart, `opens` whether the master key opens this one. */
  datatype Blob = Blob(id: nat, secret: Secret, opens: bool)

  datatype Row = Row(
    blob: Option<Blob>, digest: Option<Material>, expiry: Option<int>, revision: nat,
    status: Status, origin: string,
    lastTested: Option<int>, lastError: Option<string>, lastErrorAt: Option<int>, models: Option<nat>)

  /** What a save says of the credential it writes; no status is the empty string. */
  datatype Marking = Marking(status: Option<Status>, origin: string, reset: bool)

  /** A test's outcome; `error` without surrounding space, `at` never zero. */
  datatype Validation = Validation(ok: bool, error: string, models: nat, unlisted: bool, at: int)

  // ------------------------------------------------------------ the statements

  /** The save writes a secret whose digest is not the stored one, or any secret if it resets. */
  predicate Replaces(row: Row, blob: Option<Blob>, marking: Marking, sensitive: Sensitive) {
    blob.Some? && (row.digest != Some(MaterialOf(blob.value.secret, sensitive)) || marking.reset)
  }

  /** A save of a credential a provider issued or accepted. */
  predicate Accepts(blob: Option<Blob>, marking: Marking) {
    blob.Some? && marking.status == Some(Active)
  }

  function Inserted(blob: Option<Blob>, marking: Marking, sensitive: Sensitive): Row {
    Row(blob, if blob.Some? then Some(MaterialOf(blob.value.secret, sensitive)) else None,
        if blob.Some? then blob.value.secret.expiry else None, 0,
        marking.status.GetOr(Untested), marking.origin, None, None, None, None)
  }

  function SavedStatus(row: Row, blob: Option<Blob>, marking: Marking, sensitive: Sensitive): Status {
    if marking.status.Some? && Replaces(row, blob, marking, sensitive) then marking.status.value
    else if Accepts(blob, marking) then Active
    else if Replaces(row, blob, marking, sensitive) && row.status == Failed then Untested
    else row.status
  }

  /** ON CONFLICT DO UPDATE. */
  function Saved(row: Row, blob: Option<Blob>, marking: Marking, sensitive: Sensitive): Row {
    var differs, accepted := Replaces(row, blob, marking, sensitive), Accepts(blob, marking);
    Row(
      if blob.Some? then blob else row.blob,
      if blob.Some? then Some(MaterialOf(blob.value.secret, sensitive)) else row.digest,
      if blob.Some? then blob.value.secret.expiry else row.expiry,
      if differs then row.revision + 1 else row.revision,
      SavedStatus(row, blob, marking, sensitive),
      if marking.origin != "" && (differs || accepted) then marking.origin else row.origin,
      if differs then None else row.lastTested,
      if differs || accepted then None else row.lastError,
      if differs || accepted then None else row.lastErrorAt,
      if differs then None else row.models)
  }

  /** RotateSecret's UPDATE. */
  function Rotated(row: Row, blob: Blob, sensitive: Sensitive): Row {
    row.(blob := Some(blob), expiry := blob.secret.expiry, digest := Some(MaterialOf(blob.secret, sensitive)))
  }

  /** initDigest's UPDATE, for the blob read before. */
  function Digested(row: Row, read: Blob, sensitive: Sensitive): Row {
    if row.digest.None? && row.blob == Some(read) && read.opens then row.(digest := Some(MaterialOf(read.secret, sensitive))) else row
  }

  /** RecordValidation's UPDATE for a row at the tested revision. */
  function Recorded(row: Row, v: Validation): Row {
    row.(status := if v.ok then Active else Failed,
         lastTested := Some(v.at),
         lastError := if v.ok then None else Some(v.error),
         lastErrorAt := if v.ok then None else Some(v.at),
         models := if v.ok && !v.unlisted then Some(v.models) else row.models)
  }

  // ------------------------------------------------------------ what one statement does

  /** A replacement counts once and clears what describes the credential it replaced, whatever it says. */
  lemma ReplacementClears(row: Row, blob: Option<Blob>, marking: Marking, sensitive: Sensitive)
    requires Replaces(row, blob, marking, sensitive)
    requires marking.status != Some(Failed)
    ensures var next := Saved(row, blob, marking, sensitive);
            && next.revision == row.revision + 1 && next.status != Failed
            && next.lastTested.None? && next.lastError.None? && next.lastErrorAt.None? && next.models.None?
  {
  }

  /** Any other save keeps the revision and the last test; only an acceptance touches status and error. */
  lemma OtherSavesKeep(row: Row, blob: Option<Blob>, marking: Marking, sensitive: Sensitive)
    requires !Replaces(row, blob, marking, sensitive)
    ensures var next := Saved(row, blob, marking, sensitive);
            && next.revision == row.revision && next.lastTested == row.lastTested && next.models == row.models
            && (!Accepts(blob, marking) ==> next.status == row.status && next.lastError == row.lastError && next.origin == row.origin)
            && (blob.None? ==> next == row)
  {
  }

  /** A save of the credential the row holds, sealed anew, is no replacement unless it resets, on a row
      with a digest or one whose credential opens. */
  lemma ResealIsNoReplacement(row: Row, blob: Blob, marking: Marking, sensitive: Sensitive)
    requires DigestHolds(row, sensitive) && row.blob.Some? && !marking.reset
    requires row.digest.Some? || row.blob.value.opens
    requires MaterialOf(blob.secret, sensitive) == MaterialOf(row.blob.value.secret, sensitive)
    ensures var digested := Digested(row, row.blob.value, sensitive);
            Saved(digested, Some(blob), marking, sensitive).revision == row.revision
  {
  }

  // ------------------------------------------------------------ every reachable row

  /** The digest, when there is one, is that of the stored credential; so is the expiry. */
  ghost predicate DigestHolds(row: Row, sensitive: Sensitive) {
    row.digest.Some? ==> row.blob.Some? && row.digest == Some(MaterialOf(row.blob.value.secret, sensitive))
  }

  /** The revision at which each piece of test data was measured. */
  datatype Marks = Marks(test: nat, error: nat, models: nat, failure: nat)

  /** Test data describes the current credential, and the columns fit together. */
  ghost predicate Describes(row: Row, marks: Marks) {
    && (row.lastTested.Some? ==> marks.test == row.revision)
    && (row.lastError.Some? ==> marks.error == row.revision)
    && (row.models.Some? ==> marks.models == row.revision)
    && (row.status == Failed ==> marks.failure == row.revision)
    && (row.status == Failed <==> row.lastError.Some?) && (row.lastError.Some? <==> row.lastErrorAt.Some?)
    && (row.lastError.Some? || row.models.Some? ==> row.lastTested.Some?)
  }

  datatype Action =
    | Save(blob: Option<Blob>, marking: Marking)
    | Rotate(rotated: Blob)
    | InitDigest(read: Blob)
    | Record(revision: nat, validation: Validation)

  predicate Allowed(a: Action) {
    a.Save? ==> a.marking.status != Some(Failed)
  }

  function Step(row: Row, a: Action, sensitive: Sensitive): Row {
    match a
    case Save(blob, marking) => Saved(row, blob, marking, sensitive)
    case Rotate(blob) => Rotated(row, blob, sensitive)
    case InitDigest(read) => Digested(row, read, sensitive)
    case Record(revision, v) => if row.revision == revision then Recorded(row, v) else row
  }

  /** Test data is marked with the revision its test read, whenever it is recorded. */
  function Mark(row: Row, marks: Marks, a: Action): Marks {
    match a
    case Record(revision, v) =>
      if row.revision != revision then marks
      else Marks(revision, if v.ok then marks.error else revision, if v.ok && !v.unlisted then revision else marks.models,
                 if v.ok then marks.failure else revision)
    case _ => marks
  }

  /** A row as first stored, or as the migration left it: without a digest and untested. */
  ghost predicate Start(row: Row, sensitive: Sensitive) {
    || (exists blob: Option<Blob>, marking: Marking :: marking.status != Some(Failed) && row == Inserted(blob, marking, sensitive))
    || (row.digest.None? && row.revision == 0 && row.status == Untested
        && row.lastTested.None? && row.lastError.None? && row.lastErrorAt.None? && row.models.None?)
  }

  function After(row: Row, actions: seq<Action>, sensitive: Sensitive): Row
    decreases |actions|
  {
    if actions == [] then row else Step(After(row, actions[..|actions| - 1], sensitive), actions[|actions| - 1], sensitive)
  }

  function MarksAfter(row: Row, actions: seq<Action>, sensitive: Sensitive): Marks
    decreases |actions|
  {
    if actions == [] then Marks(0, 0, 0, 0)
    else Mark(After(row, actions[..|actions| - 1], sensitive), MarksAfter(row, actions[..|actions| - 1], sensitive), actions[|actions| - 1])
  }

  predicate AllAllowed(actions: seq<Action>) { forall i :: 0 <= i < |actions| ==> Allowed(actions[i]) }

  lemma StepDescribes(row: Row, marks: Marks, a: Action, sensitive: Sensitive)
    requires Describes(row, marks) && DigestHolds(row, sensitive) && Allowed(a)
    ensures Describes(Step(row, a, sensitive), Mark(row, marks, a)) && DigestHolds(Step(row, a, sensitive), sensitive)
  {
  }

  /** On every run of saves, rotations, digest fills and test results, in any order: a last test, error,
      model count or failed status was measured at the current revision, "failed" is the status exactly
      when an error is kept, and the digest is the stored credential's. */
  lemma {:induction false} TestDataIsCurrent(row: Row, actions: seq<Action>, sensitive: Sensitive)
    requires Start(row, sensitive) && AllAllowed(actions)
    ensures Describes(After(row, actions, sensitive), MarksAfter(row, actions, sensitive))
    ensures DigestHolds(After(row, actions, sensitive), sensitive)
    decreases |actions|
  {
    if actions != [] {
      var front := actions[..|actions| - 1];
      TestDataIsCurrent(row, front, sensitive);
      StepDescribes(After(row, front, sensitive), MarksAfter(row, front, sensitive), actions[|actions| - 1], sensitive);
    }
  }

  /** How many of the actions from `from` on replaced the credential. */
  function Replacements(row: Row, actions: seq<Action>, from: nat, sensitive: Sensitive): nat
    decreases |actions|
  {
    if |actions| <= from then 0
    else
      var front, last := actions[..|actions| - 1], actions[|actions| - 1];
      Replacements(row, front, from, sensitive)
      + if last.Save? && Replaces(After(row, front, sensitive), last.blob, last.marking, sensitive) then 1 else 0
  }

  /** The revision counts replacements and nothing else. */
  lemma {:induction false} RevisionCounts(row: Row, actions: seq<Action>, from: nat, sensitive: Sensitive)
    requires from <= |actions|
    ensures After(row, actions, sensitive).revision == After(row, actions[..from], sensitive).revision + Replacements(row, actions, from, sensitive)
    decreases |actions|
  {
    if |actions| == from {
      assert actions[..from] == actions;
    } else {
      var front := actions[..|actions| - 1];
      RevisionCounts(row, front, from, sensitive);
      assert front[..from] == actions[..from];
    }
  }

  /** A test that read its credential at any point of a run has its result recorded exactly when no
      replacement came in between, and is otherwise refused without effect. */
  lemma ResultRecordedIff(row: Row, actions: seq<Action>, read: nat, v: Validation, sensitive: Sensitive)
    requires read <= |actions|
    ensures var now := After(row, actions, sensitive);
            var recorded := Step(now, Record(After(row, actions[..read], sensitive).revision, v), sensitive);
            recorded == if Replacements(row, actions, read, sensitive) == 0 then Recorded(now, v) else now
  {
    RevisionCounts(row, actions, read, sensitive);
  }

  // ------------------------------------------------------------ rotations, imports among them

  /** The credential the row stores. */
  function Stored(row: Row, sensitive: Sensitive): Option<Material> {
    if row.blob.Some? then Some(MaterialOf(row.blob.value.secret, sensitive)) else None
  }

  /** The last credential a refresh or an import wrote from `from` on. */
  function LastRotation(actions: seq<Action>, from: nat): Option<Blob>
    decreases |actions|
  {
    if |actions| <= from then None
    else if actions[|actions| - 1].Rotate? then Some(actions[|actions| - 1].rotated)
    else LastRotation(actions[..|actions| - 1], from)
  }

  /** A statement that replaces nothing leaves the credential, unless it is a rotation. */
  lemma StepKeepsStored(row: Row, a: Action, sensitive: Sensitive)
    requires DigestHolds(row, sensitive) && !(a.Save? && Replaces(row, a.blob, a.marking, sensitive))
    ensures Stored(Step(row, a, sensitive), sensitive) == if a.Rotate? then Some(MaterialOf(a.rotated.secret, sensitive)) else Stored(row, sensitive)
  {
  }

  lemma {:induction false} StoredSince(row: Row, actions: seq<Action>, from: nat, sensitive: Sensitive)
    requires Start(row, sensitive) && AllAllowed(actions) && from <= |actions| && Replacements(row, actions, from, sensitive) == 0
    ensures var last := LastRotation(actions, from);
            Stored(After(row, actions, sensitive), sensitive) ==
            if last.Some? then Some(MaterialOf(last.value.secret, sensitive)) else Stored(After(row, actions[..from], sensitive), sensitive)
    decreases |actions|
  {
    if |actions| == from {
      assert actions[..from] == actions;
    } else {
      var front := actions[..|actions| - 1];
      StoredSince(row, front, from, sensitive);
      TestDataIsCurrent(row, front, sensitive);
      StepKeepsStored(After(row, front, sensitive), actions[|actions| - 1], sensitive);
      assert front[..from] == actions[..from];
    }
  }

  /** A result is recorded, and what a test recorded is kept, as long as no replacement comes; a refresh or an
      import is none. Such a result describes the credential stored exactly when none was written by either
      since the test read its own, or the last one written is the same. */
  lemma ResultDescribesStoredIff(row: Row, actions: seq<Action>, read: nat, v: Validation, sensitive: Sensitive)
    requires Start(row, sensitive) && AllAllowed(actions) && read <= |actions| && Replacements(row, actions, read, sensitive) == 0
    ensures var tested, now := After(row, actions[..read], sensitive), After(row, actions, sensitive);
            var last := LastRotation(actions, read);
            && Step(now, Record(tested.revision, v), sensitive) == Recorded(now, v)
            && (Stored(now, sensitive) == Stored(tested, sensitive) <==>
                 last.None? || Some(MaterialOf(last.value.secret, sensitive)) == Stored(tested, sensitive))
  {
    ResultRecordedIff(row, actions, read, v, sensitive);
    StoredSince(row, actions, read, sensitive);
  }

  // ------------------------------------------------------------ a row deleted and stored again

  /** A row is changed, or deleted; a save finds it missing and inserts it. */
  datatype StoreAction = Change(action: Action) | Delete

  function StoreStep(row: Option<Row>, a: StoreAction, sensitive: Sensitive): Option<Row> {
    match a
    case Delete => None
    case Change(action) =>
      if row.Some? then Some(Step(row.value, action, sensitive))
      else if action.Save? then Some(Inserted(action.blob, action.marking, sensitive))
      else None
  }

  function StoreAfter(row: Option<Row>, actions: seq<StoreAction>, sensitive: Sensitive): Option<Row>
    decreases |actions|
  {
    if actions == [] then row else StoreStep(StoreAfter(row, actions[..|actions| - 1], sensitive), actions[|actions| - 1], sensitive)
  }

  /** Changes with no deletion among them, as actions of the store. */
  function AsChanges(actions: seq<Action>): seq<StoreAction> {
    seq(|actions|, i requires 0 <= i < |actions| => Change(actions[i]))
  }

  lemma LastChange(before: seq<StoreAction>, actions: seq<Action>)
    requires actions != []
    ensures var all := before + AsChanges(actions);
            all != [] && all[..|all| - 1] == before + AsChanges(actions[..|actions| - 1]) && all[|all| - 1] == Change(actions[|actions| - 1])
  {
  }

  lemma {:induction false} ChangesOnly(row: Option<Row>, before: seq<StoreAction>, actions: seq<Action>, sensitive: Sensitive)
    requires StoreAfter(row, before, sensitive).Some?
    ensures StoreAfter(row, before + AsChanges(actions), sensitive) == Some(After(StoreAfter(row, before, sensitive).value, actions, sensitive))
    decreases |actions|
  {
    if actions == [] {
      assert before + AsChanges(actions) == before;
    } else {
      ChangesOnly(row, before, actions[..|actions| - 1], sensitive);
      LastChange(before, actions);
    }
  }

  /** A test read its credential, then the row was deleted, stored again under its id, and changed. The old
      result is recorded against the new row exactly when as many replacements followed the new start as the
      test had read: the revision does not tell the two rows apart, and at revision 0 it is at once. */
  lemma ResultAfterDeletionIff(row: Row, blob: Option<Blob>, marking: Marking, later: seq<Action>, v: Validation, sensitive: Sensitive)
    ensures var start := Inserted(blob, marking, sensitive);
            var actions := [Delete, Change(Save(blob, marking))] + AsChanges(later);
            var now := StoreAfter(Some(row), actions, sensitive);
            && now == Some(After(start, later, sensitive))
            && StoreStep(now, Change(Record(row.revision, v)), sensitive) ==
               (if Replacements(start, later, 0, sensitive) == row.revision then Some(Recorded(now.value, v)) else now)
  {
    var start := Inserted(blob, marking, sensitive);
    var before := [Delete, Change(Save(blob, marking))];
    StoredAgain(row, blob, marking, sensitive);
    ChangesOnly(Some(row), before, later, sensitive);
    RevisionCounts(start, later, 0, sensitive);
    assert later[..0] == [];
  }

  lemma StoredAgain(row: Row, blob: Option<Blob>, marking: Marking, sensitive: Sensitive)
    ensures StoreAfter(Some(row), [Delete, Change(Save(blob, marking))], sensitive) == Some(Inserted(blob, marking, sensitive))
  {
    var actions := [Delete, Change(Save(blob, marking))];
    assert actions[..1] == [Delete] && [Delete][..0] == [];
    assert StoreAfter(Some(row), [Delete], sensitive) == None;
  }

  // ------------------------------------------------------------ the store

  datatype StoreError = NodeRequired | NameRequired | UnsupportedKind | NotActiveOrUntested | IdRequired | EmptyPayload | NotFound | CredentialChanged

  /** The parts of a Connection that decide whether a save is accepted. */
  datatype Request = Request(node: string, name: string, kind: string, secret: Secret, marking: Marking)

  function Refusal(r: Request): Option<StoreError> {
    if Blank(r.node) then Some(NodeRequired)
    else if Blank(r.name) then Some(NameRequired)
    else if r.kind !in {"api-key", "oauth", "cookie", "none"} then Some(UnsupportedKind)
    else if r.marking.status == Some(Failed) then Some(NotActiveOrUntested)
    else None
  }

  /** What a save of a credential leaves in a stored row's lifecycle. A credential that replaces another
      starts over; the same one saved again as active, or replaced and so named, is active and has no error. */
  ghost predicate PutRow(before: Row, after: Row, marking: Marking, replaced: bool) {
    var active := marking.status == Some(Active);
    && after.revision == before.revision + (if replaced then 1 else 0)
    && (after.status == Failed <==> before.status == Failed && !replaced && !active)
    && (after.status == Active <==> active || (before.status == Active && !(replaced && marking.status == Some(Untested))))
    && after.lastTested == (if replaced then None else before.lastTested)
    && after.models == (if replaced then None else before.models)
    && after.lastError == (if replaced || active then None else before.lastError)
    && after.lastErrorAt == (if replaced || active then None else before.lastErrorAt)
    && after.origin == (if (replaced || active) && marking.origin != "" then marking.origin else before.origin)
  }

  class ConnectionStore {
    const sensitive: Sensitive
    var rows: map<string, Row>
    // Seals are numbered: sealing the same payload again gives another ciphertext.
    var seals: nat

    constructor (sensitive: Sensitive)
      ensures this.sensitive == sensitive && rows == map[] && seals == 0
    {
      this.sensitive := sensitive;
      rows, seals := map[], 0;
    }

    /** sealSecret: nothing when there is nothing to seal. */
    method SealSecret(secret: Secret) returns (blob: Option<Blob>)
      modifies this`seals
      ensures blob == if secret.Unsealed() then None else Some(Blob(old(seals), secret, true))
      ensures seals == old(seals) + if blob.Some? then 1 else 0
      ensures blob.None? <==> Blank(secret.access) && Blank(secret.refresh) && Blank(secret.cookie) && secret.idToken == "" && secret.data.GetOr(map[]) == map[]
    {
      if secret.Unsealed() {
        return None;
      }
      blob := Some(Blob(seals, secret, true));
      seals := seals + 1;
    }

    /** initDigest: a row without a digest gets that of the credential it holds, if it opens. */
    method InitDigest(id: string)
      modifies this`rows
      ensures rows.Keys == old(rows).Keys
      ensures id in rows && old(rows)[id].blob.Some? ==>
                rows == old(rows)[id := Digested(old(rows)[id], old(rows)[id].blob.value, sensitive)]
      ensures id !in rows || old(rows)[id].blob.None? ==> rows == old(rows)
    {
      if id !in rows || rows[id].digest.Some? || rows[id].blob.None? {
        assert id in rows ==> rows == rows[id := rows[id]];
        return;
      }
      rows := rows[id := Digested(rows[id], rows[id].blob.value, sensitive)];
    }

    /** PutConnection. Saving what the row already holds keeps its tests; saving nothing keeps everything. */
    method PutConnection(id: string, r: Request) returns (error: Option<StoreError>)
      requires id in rows ==> DigestHolds(rows[id], sensitive)
      modifies this
      ensures error == Refusal(r)
      ensures error.None? <==> !Blank(r.node) && !Blank(r.name) && r.kind in {"api-key", "oauth", "cookie", "none"} && r.marking.status != Some(Failed)
      ensures error.Some? ==> rows == old(rows)
      ensures error.None? ==> id in rows && rows.Keys == old(rows).Keys + {id} && DigestHolds(rows[id], sensitive)
      ensures error.None? ==> forall other :: other in old(rows) && other != id ==> rows[other] == old(rows)[other]
      // A new row holds the credential, if there is one, and nothing of a test.
      ensures error.None? && id !in old(rows) ==>
                rows[id] == Row(if r.secret.Unsealed() then None else Some(Blob(old(seals), r.secret, true)),
                                if r.secret.Unsealed() then None else Some(MaterialOf(r.secret, sensitive)),
                                if r.secret.Unsealed() then None else r.secret.expiry,
                                0, if r.marking.status == Some(Active) then Active else Untested, r.marking.origin, None, None, None, None)
      // A stored row: nothing to seal changes nothing.
      ensures error.None? && id in old(rows) && r.secret.Unsealed() ==> rows == old(rows)
      ensures error.None? && id in old(rows) && !r.secret.Unsealed() ==>
                && rows[id].blob == Some(Blob(old(seals), r.secret, true)) && rows[id].expiry == r.secret.expiry
                && rows[id].digest == Some(MaterialOf(r.secret, sensitive))
      ensures error.None? && id in old(rows) && !r.secret.Unsealed() ==> PutRow(old(rows)[id], rows[id], r.marking, Changes(old(rows)[id], r, sensitive))
    {
      error := Refusal(r);
      if error.Some? {
        return;
      }
      var blob := SealSecret(r.secret);
      if blob.Some? {
        InitDigest(id);
      }
      if id in rows {
        assert blob.None? ==> rows[id := Saved(rows[id], blob, r.marking, sensitive)] == rows;
        rows := rows[id := Saved(rows[id], blob, r.marking, sensitive)];
      } else {
        rows := rows[id := Inserted(blob, r.marking, sensitive)];
        assert r.marking.status.GetOr(Untested) == if r.marking.status == Some(Active) then Active else Untested;
      }
    }

    /** RotateSecret, by refresh: the credential changes, its lifecycle and revision do not. */
    method RotateSecret(id: string, secret: Secret) returns (error: Option<StoreError>)
      modifies this
      ensures error == if Blank(id) then Some(IdRequired) else if secret.Empty() then Some(EmptyPayload) else if id !in old(rows) then Some(NotFound) else None
      ensures error.Some? ==> rows == old(rows)
      ensures seals == old(seals) + if error.None? then 1 else 0
      ensures error.None? ==>
                rows == old(rows)[id := old(rows)[id].(blob := Some(Blob(old(seals), secret, true)), digest := Some(MaterialOf(secret, sensitive)), expiry := secret.expiry)]
    {
      if Blank(id) {
        return Some(IdRequired);
      }
      if secret.Empty() {
        return Some(EmptyPayload);
      }
      if id !in rows {
        return Some(NotFound);
      }
      rows := rows[id := Rotated(rows[id], Blob(seals, secret, true), sensitive)];
      seals := seals + 1;
      return None;
    }

    /** DeleteConnection */
    method DeleteConnection(id: string) returns (error: Option<StoreError>)
      modifies this`rows
      ensures error == if id in old(rows) then None else Some(NotFound)
      ensures rows == old(rows) - {id}
    {
      error := if id in rows then None else Some(NotFound);
      rows := rows - {id};
    }

    /** RecordValidation: only against the revision that was tested. */
    method RecordValidation(id: string, revision: nat, v: Validation) returns (error: Option<StoreError>)
      modifies this`rows
      ensures error == if id !in old(rows) then Some(NotFound) else if old(rows)[id].revision != revision then Some(CredentialChanged) else None
      ensures error.Some? ==> rows == old(rows)
      ensures error.None? ==> rows.Keys == old(rows).Keys && forall other :: other in old(rows) && other != id ==> rows[other] == old(rows)[other]
      ensures error.None? && v.ok ==>
                rows[id] == old(rows)[id].(status := Active, lastTested := Some(v.at), lastError := None, lastErrorAt := None,
                                           models := if v.unlisted then old(rows)[id].models else Some(v.models))
      ensures error.None? && !v.ok ==>
                rows[id] == old(rows)[id].(status := Failed, lastTested := Some(v.at), lastError := Some(v.error), lastErrorAt := Some(v.at))
    {
      if id !in rows {
        return Some(NotFound);
      }
      if rows[id].revision != revision {
        return Some(CredentialChanged);
      }
      rows := rows[id := Recorded(rows[id], v)];
      return None;
    }
  }

  /** The save writes a credential other than the stored one, or starts the stored one over; a stored
      credential that neither has a digest nor opens counts as another. */
  predicate Changes(row: Row, r: Request, sensitive: Sensitive) {
    && !r.secret.Unsealed()
    && (r.marking.reset || row.blob.None? || (row.digest.None? && !row.blob.value.opens)
        || MaterialOf(r.secret, sensitive) != MaterialOf(row.blob.value.secret, sensitive))
  }
}
