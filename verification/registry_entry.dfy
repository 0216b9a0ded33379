/**
 Credential payloads and one registry entry (internal/credentials/registry.go).

 Every function on `Entry` is one region the source runs under entry.mu. The class `EntryCell`
 holds the same fields and updates them in place; each method is proved to do exactly what its
 region does.
 */
module Credentials {
  import opened Prelude

  /** Secret. `expiry` is an instant (None: the zero time); `data` None is a nil map. */
  datatype Secret = Secret(
    access: string, refresh: string, idToken: string, cookie: string,
    authType: string, expiry: Option<int>, data: Option<map<string, string>>)
  {
    function Data(): map<string, string> { data.GetOr(map[]) }

    /** Secret.Empty: no credential material at all. */
    predicate Empty() { Blank(access) && Blank(refresh) && Blank(cookie) }

    /** What PutConnection does not seal: it keeps the stored blob instead. */
    predicate Unsealed() { Empty() && idToken == "" && Data() == map[] }

    predicate Usable() { !Blank(access) || !Blank(cookie) }
  }

  /** sameSecret. A nil and an empty provider-data map are equal (maps.Equal). */
  predicate Same(a: Secret, b: Secret) {
    && a.access == b.access && a.refresh == b.refresh && a.idToken == b.idToken
    && a.cookie == b.cookie && a.authType == b.authType && a.expiry == b.expiry
    && a.Data() == b.Data()
  }

  /** A payload after it was sealed and opened again: omitempty turns an empty map into nil. */
  function Decoded(s: Secret): Secret {
    if s.Data() == map[] then s.(data := None) else s
  }

  /** Two payloads are the same when all their parts are, no provider data and empty provider data alike; and
      so are exactly those that read the same once stored. */
  lemma SameIff(a: Secret, b: Secret)
    ensures Same(a, b) <==> a.(data := None) == b.(data := None) && a.data.GetOr(map[]) == b.data.GetOr(map[])
    ensures Same(a, b) <==> Decoded(a) == Decoded(b)
    ensures Decoded(a).(data := None) == a.(data := None) && Decoded(a).data == if a.data == Some(map[]) then None else a.data
  {
  }

  function CarryProviderData(stored: Option<map<string, string>>, update: Option<map<string, string>>): Option<map<string, string>> {
    var held := stored.GetOr(map[]);
    if held == map[] then update else Some(held + update.GetOr(map[]))
  }

  /** What refresh would commit for an exchange's answer; None is "unusable payload". */
  function Merge(stored: Secret, answer: Secret): Option<Secret> {
    if Blank(answer.access) && Blank(answer.cookie) then None
    else Some(answer.(
      refresh := if Blank(answer.refresh) then stored.refresh else answer.refresh,
      data := CarryProviderData(stored.data, answer.data),
      authType := if answer.authType == "" then stored.authType else answer.authType))
  }

  /** What no refresh may lose. */
  ghost predicate Keeps(before: Secret, after: Secret) {
    && (!Blank(before.refresh) ==> !Blank(after.refresh))
    && (before.authType != "" ==> after.authType != "")
    && before.Data().Keys <= after.Data().Keys
    && (before.Usable() ==> after.Usable())
  }

  /** The credential left by a chain of refreshes, each starting from what the last one left. */
  function Chain(stored: Secret, answers: seq<Secret>): Secret
    decreases |answers|
  {
    if answers == [] then stored
    else Chain(Merge(stored, answers[0]).GetOr(stored), answers[1..])
  }

  /** The last answer with an access token or a cookie, else what is stored. */
  function LastUsable(stored: Secret, answers: seq<Secret>): Secret {
    if answers == [] then stored
    else
      var last := answers[|answers| - 1];
      if !Blank(last.access) || !Blank(last.cookie) then last else LastUsable(stored, answers[..|answers| - 1])
  }

  /** The newest refresh token any such answer supplied, else the stored one. */
  function NewestRefresh(stored: string, answers: seq<Secret>): string {
    if answers == [] then stored
    else
      var last := answers[|answers| - 1];
      if (!Blank(last.access) || !Blank(last.cookie)) && !Blank(last.refresh) then last.refresh
      else NewestRefresh(stored, answers[..|answers| - 1])
  }

  /** The newest sign-in kind any such answer named, else the stored one. */
  function NewestAuthType(stored: string, answers: seq<Secret>): string {
    if answers == [] then stored
    else
      var last := answers[|answers| - 1];
      if (!Blank(last.access) || !Blank(last.cookie)) && last.authType != "" then last.authType
      else NewestAuthType(stored, answers[..|answers| - 1])
  }

  /** What the chain's answers say about one provider-data key, else the stored value. */
  function NewestValue(stored: map<string, string>, answers: seq<Secret>, key: string): Option<string> {
    if answers == [] then if key in stored then Some(stored[key]) else None
    else
      var last := answers[|answers| - 1];
      if (!Blank(last.access) || !Blank(last.cookie)) && last.data.Some? && key in last.data.value then Some(last.data.value[key])
      else NewestValue(stored, answers[..|answers| - 1], key)
  }

  lemma {:induction false} ChainSnoc(stored: Secret, answers: seq<Secret>, last: Secret)
    ensures Chain(stored, answers + [last]) == Merge(Chain(stored, answers), last).GetOr(Chain(stored, answers))
    decreases |answers|
  {
    if answers == [] {
      assert (answers + [last])[1..] == [];
    } else {
      assert (answers + [last])[1..] == answers[1..] + [last];
      ChainSnoc(Merge(stored, answers[0]).GetOr(stored), answers[1..], last);
    }
  }

  /** Each part of `result` is the newest one the answers supply over `stored`: tokens, cookie and expiry come
      together from the last usable answer, the rest singly from the last that says anything of it. */
  ghost predicate Newest(result: Secret, stored: Secret, answers: seq<Secret>) {
    var last := LastUsable(stored, answers);
    && result.access == last.access && result.idToken == last.idToken && result.cookie == last.cookie && result.expiry == last.expiry
    && result.refresh == NewestRefresh(stored.refresh, answers)
    && result.authType == NewestAuthType(stored.authType, answers)
  }

  /** Over any chain of refreshes nothing durable is lost, and each part is the newest one supplied. */
  lemma {:induction false} ChainKeepsNewest(stored: Secret, answers: seq<Secret>)
    ensures Keeps(stored, Chain(stored, answers)) && Newest(Chain(stored, answers), stored, answers)
    ensures forall key :: (if key in Chain(stored, answers).Data() then Some(Chain(stored, answers).Data()[key]) else None)
                          == NewestValue(stored.Data(), answers, key)
  {
    if answers != [] {
      var front, last := answers[..|answers| - 1], answers[|answers| - 1];
      assert answers == front + [last];
      ChainKeepsNewest(stored, front);
      ChainSnoc(stored, front, last);
    }
  }

  // ---------------------------------------------------------------- one entry

  datatype Entry = Entry(current: Secret, generation: nat, seeded: bool, rejected: string, inflight: Option<nat>, exchanger: bool)
  {
    /** validLocked; `unexpired` is the outcome of the clock-dependent expiry test. */
    predicate Valid(unexpired: bool) {
      && seeded
      && !(current.access == "" && current.cookie == "")
      && !(rejected != "" && rejected == current.access)
      && unexpired
    }

    /** install */
    function Install(secret: Secret, exchanger: bool): Entry {
      if seeded && Same(current, secret) then this.(exchanger := exchanger)
      else Entry(secret, generation + 1, true, "", inflight, exchanger)
    }

    /** Import's bump, before its durable write. */
    predicate Bumps(secret: Secret) { !seeded || !Same(current, secret) }

    function Bump(secret: Secret): Entry {
      if Bumps(secret) then this.(generation := generation + 1) else this
    }

    /** Publication after a durable write by refresh or Import. */
    function Publish(secret: Secret): Entry {
      this.(current := secret, seeded := true, rejected := "")
    }

    /** exclusive's last region: publish what was stored, if anything, and free the slot. */
    function PublishUpdate(stored: Option<Secret>, exchanger: bool): Entry {
      match stored
      case None => this.(inflight := None)
      case Some(secret) => Entry(secret, generation + 1, true, "", None, exchanger)
    }

    /** ForceRefresh's first region; None is ErrNoExchanger or ErrNoRefreshToken. */
    function Mark(token: string): Option<Entry> {
      if !exchanger then None
      else if current.access != token then Some(this)
      else if Blank(current.refresh) then None
      else Some(this.(rejected := token))
    }

    /** ForceRefresh's last region, after a failure. */
    function Unmark(token: string): Entry {
      if rejected == token then this.(rejected := "") else this
    }

    function Hold(call: nat): Entry { this.(inflight := Some(call)) }

    function Release(): Entry { this.(inflight := None) }
  }

  /** What Secret serves as it is: a credential the entry was given, with an access token or a cookie, whose
      access token is not the one refused, and not expired. */
  lemma ValidIff(e: Entry, unexpired: bool)
    ensures e.Valid(unexpired) <==>
            && e.seeded && unexpired
            && (e.current.access != "" || e.current.cookie != "")
            && (e.rejected == "" || e.rejected != e.current.access)
  {
  }

  /** A payload is empty when it has no access token, no refresh token and no cookie but spaces; it is not sealed
      when it has no ID token and no provider data either. */
  lemma EmptyIff(s: Secret)
    ensures s.Empty() <==> Blank(s.access) && Blank(s.refresh) && Blank(s.cookie)
    ensures s.Unsealed() <==> Blank(s.access) && Blank(s.refresh) && Blank(s.cookie) && s.idToken == "" && s.data.GetOr(map[]) == map[]
  {
  }

  class EntryCell {
    var current: Secret
    var generation: nat
    var seeded: bool
    var rejected: string
    var inflight: Option<nat>
    var exchanger: bool

    function View(): Entry
      reads this
    {
      Entry(current, generation, seeded, rejected, inflight, exchanger)
    }

    constructor (secret: Secret, exchanger: bool)
      ensures View() == Entry(secret, 1, true, "", None, exchanger)
    {
      current, generation, seeded, rejected, inflight, this.exchanger := secret, 1, true, "", None, exchanger;
    }

    method Install(secret: Secret, newExchanger: bool)
      modifies this
      ensures View() == old(View()).Install(secret, newExchanger)
    {
      exchanger := newExchanger;
      if seeded && Same(current, secret) {
        return;
      }
      current := secret;
      seeded := true;
      rejected := "";
      generation := generation + 1;
    }

    method Bump(secret: Secret)
      modifies this`generation
      ensures View() == old(View()).Bump(secret)
    {
      if !seeded || !Same(current, secret) {
        generation := generation + 1;
      }
    }

    method Publish(secret: Secret)
      modifies this`current, this`seeded, this`rejected
      ensures View() == old(View()).Publish(secret)
    {
      current := secret;
      seeded := true;
      rejected := "";
    }

    method PublishUpdate(stored: Option<Secret>, newExchanger: bool)
      modifies this
      ensures View() == old(View()).PublishUpdate(stored, newExchanger)
    {
      if stored.Some? {
        exchanger := newExchanger;
        current := stored.value;
        seeded := true;
        rejected := "";
        generation := generation + 1;
      }
      inflight := None;
    }

    method Mark(token: string) returns (ok: bool)
      modifies this`rejected
      ensures ok == old(View()).Mark(token).Some?
      ensures View() == old(View()).Mark(token).GetOr(old(View()))
    {
      if !exchanger {
        return false;
      }
      if current.access == token {
        if Blank(current.refresh) {
          return false;
        }
        rejected := token;
      }
      return true;
    }

    method Unmark(token: string)
      modifies this`rejected
      ensures View() == old(View()).Unmark(token)
    {
      if rejected == token {
        rejected := "";
      }
    }

    /** Secret's locked region: serve, wait on the call in flight, or take the slot and capture. */
    method Check(unexpired: bool, call: nat) returns (wait: Option<nat>, captured: Option<(Secret, nat)>)
      modifies this`inflight
      ensures old(View()).Valid(unexpired) ==> wait.None? && captured.None? && View() == old(View())
      ensures !old(View()).Valid(unexpired) && old(inflight).Some? ==> wait == old(inflight) && captured.None? && View() == old(View())
      ensures !old(View()).Valid(unexpired) && old(inflight).None? && !exchanger ==> wait.None? && captured.None? && View() == old(View())
      ensures !old(View()).Valid(unexpired) && old(inflight).None? && exchanger ==>
                wait.None? && captured == Some((current, generation)) && View() == old(View()).Hold(call)
    {
      wait, captured := None, None;
      if View().Valid(unexpired) {
        return;
      }
      if inflight.Some? {
        wait := inflight;
        return;
      }
      if !exchanger {
        return;
      }
      inflight := Some(call);
      captured := Some((current, generation));
    }
  }
}
