/**
 ApplyCatalog (internal/runtime/v1_migration.go): planned Combos are stored one at a time through the
 compiler, and those refused are tried again for as long as a pass stores any.
 */
module ComboImport {
  import opened Prelude
  import opened ComboGraph
  import opened ComboCheck

  /** The plan's Combos that compile apart from nesting, by name, over those already stored. */
  function Everything(stored: Combos, plan: seq<Combo>): Combos
    decreases |plan|
  {
    if plan == [] then stored
    else
      var rest := Everything(stored, plan[1..]);
      if plan[0].admissible then rest[plan[0].name := plan[0]] else rest
  }

  /** New, distinct names. */
  predicate Fresh(stored: Combos, plan: seq<Combo>) {
    && (forall i :: 0 <= i < |plan| ==> plan[i].name !in stored)
    && (forall i, j :: 0 <= i < j < |plan| ==> plan[i].name != plan[j].name)
  }

  lemma {:induction false} EverythingHolds(stored: Combos, plan: seq<Combo>)
    requires Fresh(stored, plan)
    ensures forall name :: name in stored ==> name in Everything(stored, plan) && Everything(stored, plan)[name] == stored[name]
    ensures forall i :: 0 <= i < |plan| && plan[i].admissible ==> plan[i].name in Everything(stored, plan) && Everything(stored, plan)[plan[i].name] == plan[i]
    ensures forall name :: name in Everything(stored, plan) && name !in stored ==> exists i :: 0 <= i < |plan| && plan[i].admissible && plan[i].name == name
    decreases |plan|
  {
    if plan != [] {
      EverythingHolds(stored, plan[1..]);
      forall i | 0 <= i < |plan| && plan[i].admissible
        ensures plan[i].name in Everything(stored, plan) && Everything(stored, plan)[plan[i].name] == plan[i]
      {
        if i > 0 { assert plan[1..][i - 1] == plan[i]; }
      }
      forall name | name in Everything(stored, plan) && name !in stored
        ensures exists i :: 0 <= i < |plan| && plan[i].admissible && plan[i].name == name
      {
        if !(plan[0].admissible && plan[0].name == name) {
          var i :| 0 <= i < |plan[1..]| && plan[1..][i].admissible && plan[1..][i].name == name;
          assert plan[i + 1].name == name;
        }
      }
    }
  }

  ghost predicate Within(part: Combos, whole: Combos) {
    forall name :: name in part ==> name in whole && part[name] == whole[name]
  }

  /** A chain of the smaller set that leaves no name unknown is all there is in the larger one. */
  lemma {:induction false} ChainBack(part: Combos, whole: Combos, p: seq<string>)
    requires Within(part, whole) && Canonical(part) && Canonical(whole)
    requires forall name :: name in part ==> Known(part, name)
    requires Chain(whole, p) && p[0] in part
    ensures Chain(part, p) && forall i :: 0 <= i < |p| ==> p[i] in part
    decreases |p|
  {
    if |p| > 1 {
      CanonicalEdge(whole, p[0], p[1]);
      var i :| 0 <= i < |MembersOf(whole, p[0])| && MembersOf(whole, p[0])[i].IsCombo() && MembersOf(whole, p[0])[i].model == p[1];
      assert Known(part, p[0]) && MembersOf(part, p[0])[i].model in part;
      assert Names(part, MembersOf(part, p[0])[i], p[1]);
      ChainTail(whole, p);
      ChainBack(part, whole, p[1..]);
      forall k | 0 <= k < |p| - 1
        ensures Edge(part, p[k], p[k + 1])
      {
        if k > 0 { assert Edge(part, p[1..][k - 1], p[1..][k]); }
      }
      forall k | 0 <= k < |p|
        ensures p[k] in part
      {
        if k > 0 { assert p[k] == p[1..][k - 1]; }
      }
    }
  }

  lemma EdgeForth(part: Combos, whole: Combos, from: string, to: string)
    requires Within(part, whole) && from in part && Edge(part, from, to)
    ensures Edge(whole, from, to)
  {
    var i :| 0 <= i < |MembersOf(part, from)| && Names(part, MembersOf(part, from)[i], to);
    assert Names(whole, MembersOf(whole, from)[i], to);
  }

  /** What is sound in the smaller set stays sound in the larger one. */
  lemma SoundForth(part: Combos, whole: Combos, name: string)
    requires Within(part, whole) && Canonical(part) && Canonical(whole) && Sound(part) && name in part
    ensures SoundAt(whole, name)
  {
    SoundMeans(part);
    forall p: seq<string> | Chain(whole, p) && p[0] == name
      ensures Known(whole, p[|p| - 1]) && Distinct(p) && |p| <= MAX_COMBO_DEPTH
    {
      ChainBack(part, whole, p);
      assert SoundAt(part, name);
      assert Known(part, p[|p| - 1]);
      KnownInLarger(part, whole, p[|p| - 1]);
    }
  }

  lemma StoredHere(part: Combos, whole: Combos, combo: Combo)
    requires Canonical(whole) && combo.name in whole && whole[combo.name] == combo && SoundAt(whole, combo.name)
    requires forall to :: Edge(whole, combo.name, to) ==> to in part
    ensures forall i :: 0 <= i < |combo.members| && combo.members[i].IsCombo() ==> combo.members[i].model in part
  {
    assert Chain(whole, [combo.name]) && [combo.name][0] == combo.name;
    assert Known(whole, [combo.name][0]);
    forall i | 0 <= i < |combo.members| && combo.members[i].IsCombo()
      ensures combo.members[i].model in part
    {
      assert MembersOf(whole, combo.name)[i] == combo.members[i];
      assert Names(whole, MembersOf(whole, combo.name)[i], combo.members[i].model);
    }
  }

  lemma KnownInLarger(part: Combos, whole: Combos, name: string)
    requires Within(part, whole) && name in part && Known(part, name)
    ensures Known(whole, name)
  {
    assert MembersOf(whole, name) == MembersOf(part, name);
  }

  lemma KnownAfterAdd(part: Combos, next: Combos, combo: Combo)
    requires combo.name !in part && next == part[combo.name := combo]
    requires forall name :: name in part ==> Known(part, name)
    requires forall i :: 0 <= i < |combo.members| && combo.members[i].IsCombo() ==> combo.members[i].model in part
    ensures forall name :: name in next ==> Known(next, name)
  {
    assert MembersOf(next, combo.name) == combo.members;
    assert Known(next, combo.name);
    forall name | name in next && name != combo.name
      ensures Known(next, name)
    {
      KnownInLarger(part, next, name);
    }
  }

  /** A Combo whose nested members are all stored may be added when it is sound in the larger set. */
  lemma AddSound(part: Combos, whole: Combos, combo: Combo)
    requires Within(part, whole) && Canonical(part) && Canonical(whole) && Sound(part)
    requires combo.name !in part && combo.name in whole && whole[combo.name] == combo && SoundAt(whole, combo.name)
    requires forall to :: Edge(whole, combo.name, to) ==> to in part
    ensures Sound(part[combo.name := combo])
  {
    var next := part[combo.name := combo];
    SoundMeans(part);
    StoredHere(part, whole, combo);
    KnownAfterAdd(part, next, combo);
    forall name | name in next
      ensures SoundAt(next, name)
    {
      if name == combo.name {
        SoundDown(next, whole, name);
      } else {
        SoundForth(part, next, name);
      }
    }
  }

  /** What is sound in the larger set is sound in the smaller one, if that leaves no name unknown. */
  lemma SoundDown(part: Combos, whole: Combos, name: string)
    requires Within(part, whole) && Canonical(part) && name in part && SoundAt(whole, name)
    requires forall other :: other in part ==> Known(part, other)
    ensures SoundAt(part, name)
  {
    forall p: seq<string> | Chain(part, p) && p[0] == name
      ensures Known(part, p[|p| - 1]) && Distinct(p) && |p| <= MAX_COMBO_DEPTH
    {
      ChainStaysStored(part, p);
      ChainUp(part, whole, p);
    }
  }

  lemma ChainUp(part: Combos, whole: Combos, p: seq<string>)
    requires Within(part, whole) && Chain(part, p) && forall i :: 0 <= i < |p| ==> p[i] in part
    ensures Chain(whole, p)
  {
    forall i | 0 <= i < |p| - 1
      ensures Edge(whole, p[i], p[i + 1])
    {
      EdgeForth(part, whole, p[i], p[i + 1]);
    }
  }

  /** Below a Combo that is sound in the whole and not stored yet there is one whose nested members
      are all stored. */
  lemma {:induction false} NextToStore(part: Combos, whole: Combos, name: string, above: seq<string>) returns (ready: string)
    requires Within(part, whole) && Canonical(whole)
    requires name in whole && name !in part && SoundAt(whole, name)
    requires Chain(whole, above + [name]) && SoundAt(whole, (above + [name])[0])
    ensures ready in whole && ready !in part && SoundAt(whole, ready)
    ensures forall to :: Edge(whole, ready, to) ==> to in part
    decreases MAX_COMBO_DEPTH - |above|
  {
    var here := above + [name];
    assert |here| <= MAX_COMBO_DEPTH;
    if forall to :: Edge(whole, name, to) ==> to in part {
      return name;
    }
    var to :| Edge(whole, name, to) && to !in part;
    CanonicalEdge(whole, name, to);
    SoundBelow(whole, name, to);
    ChainJoin(whole, here, [to]);
    assert (here + [to])[0] == here[0];
    ready := NextToStore(part, whole, to, here);
  }

  /** PutCombo of a new Combo: stored exactly when its name is free, the compiler accepts the result and the
      durable write does not fail. */
  method PutCombo(stored: Combos, combo: Combo, fails: bool) returns (next: Combos, ok: bool)
    ensures ok <==> combo.name !in stored && combo.admissible && Sound(stored[combo.name := combo]) && !fails
    ensures next == if ok then stored[combo.name := combo] else stored
  {
    if combo.name in stored {
      return stored, false;
    }
    var candidate := stored[combo.name := combo];
    var order := SortedNames(candidate);
    var refusal := CheckNestedCombos(candidate, order);
    ok := combo.admissible && refusal.None? && !fails;
    next := if ok then candidate else stored;
  }

  /** The names of a set of Combos, in some order. */
  method SortedNames(combos: Combos) returns (order: seq<string>)
    ensures forall name :: name in combos <==> name in order
  {
    order := [];
    var left := combos.Keys;
    while left != {}
      invariant left <= combos.Keys
      invariant forall name :: name in combos <==> name in order || name in left
      decreases left
    {
      var name :| name in left;
      order := order + [name];
      left := left - {name};
    }
  }

  /** `now` keeps the old Combos, has gained planned ones only, and is sound. */
  ghost predicate Grown(stored: Combos, plan: seq<Combo>, now: Combos) {
    Within(stored, now) && Within(now, Everything(stored, plan)) && Sound(now)
  }

  /** Every planned Combo is either stored or in `open`. */
  ghost predicate Left(plan: seq<Combo>, now: Combos, open: seq<Combo>) {
    && (forall i :: 0 <= i < |plan| ==> plan[i].name in now || plan[i] in open)
    && (forall k :: 0 <= k < |open| ==> open[k] in plan && open[k].name !in now)
    && DistinctNames(open)
  }

  /** What holds between two stores. */
  ghost predicate Settled(stored: Combos, plan: seq<Combo>, now: Combos, open: seq<Combo>) {
    Grown(stored, plan, now) && Left(plan, now, open)
  }

  predicate DistinctNames(open: seq<Combo>) {
    forall i, j :: 0 <= i < j < |open| ==> open[i].name != open[j].name
  }

  lemma EverythingCanonical(stored: Combos, plan: seq<Combo>)
    requires Fresh(stored, plan) && Canonical(stored)
    ensures Canonical(Everything(stored, plan))
  {
    EverythingHolds(stored, plan);
  }

  lemma PartCanonical(part: Combos, whole: Combos)
    requires Within(part, whole) && Canonical(whole)
    ensures Canonical(part)
  {
  }

  ghost predicate Addable(now: Combos, combo: Combo) {
    combo.admissible && Sound(now[combo.name := combo])
  }

  /** None of the open Combos can be added. */
  ghost predicate Stuck(now: Combos, open: seq<Combo>) {
    forall c :: c in open ==> !Addable(now, c)
  }

  /** Some write of the catalog fails. */
  ghost predicate Fails(fails: nat -> bool) { exists k: nat :: fails(k) }

  /** When no open Combo can be added, none of them is sound among all the plan's Combos. */
  lemma StuckIsUnsound(stored: Combos, plan: seq<Combo>, now: Combos, open: seq<Combo>, combo: Combo)
    requires Fresh(stored, plan) && Canonical(stored) && Settled(stored, plan, now, open)
    requires Stuck(now, open)
    requires combo in open && combo.admissible
    ensures !SoundAt(Everything(stored, plan), combo.name)
  {
    var whole := Everything(stored, plan);
    EverythingHolds(stored, plan);
    EverythingCanonical(stored, plan);
    PartCanonical(now, whole);
    if SoundAt(whole, combo.name) {
      assert [] + [combo.name] == [combo.name];
      var ready := NextToStore(now, whole, combo.name, []);
      var i :| 0 <= i < |plan| && plan[i].admissible && plan[i].name == ready;
      assert plan[i] in open;
      AddSound(now, whole, plan[i]);
    }
  }

  lemma AcceptedGrown(stored: Combos, plan: seq<Combo>, now: Combos, next: Combos, combo: Combo)
    requires Fresh(stored, plan) && Grown(stored, plan, now) && combo in plan && combo.admissible && combo.name !in now
    requires next == now[combo.name := combo] && Sound(next)
    ensures Grown(stored, plan, next)
  {
    EverythingHolds(stored, plan);
    var whole := Everything(stored, plan);
    assert combo.name in whole && whole[combo.name] == combo by {
      var i :| 0 <= i < |plan| && plan[i] == combo;
    }
    assert Within(now, next);
  }

  /** Taking the Combo at the head of `later` out of what is open, once it is stored. */
  lemma AcceptedLeft(plan: seq<Combo>, now: Combos, next: Combos, refused: seq<Combo>, later: seq<Combo>)
    requires |later| > 0 && Left(plan, now, refused + later) && next == now[later[0].name := later[0]]
    ensures Left(plan, next, refused + later[1..])
  {
    var combo := later[0];
    var open, left := refused + later, refused + later[1..];
    assert open[|refused|] == combo;
    forall k | 0 <= k < |left|
      ensures left[k] in plan && left[k].name !in next
    {
      assert left[k] == open[if k < |refused| then k else k + 1];
    }
    forall i | 0 <= i < |plan|
      ensures plan[i].name in next || plan[i] in left
    {
      if plan[i].name !in now && plan[i] != combo {
        var k :| 0 <= k < |open| && open[k] == plan[i];
        assert left[if k < |refused| then k else k - 1] == plan[i];
      }
    }
    forall i, j | 0 <= i < j < |left|
      ensures left[i].name != left[j].name
    {
      assert left[i] == open[if i < |refused| then i else i + 1];
      assert left[j] == open[if j < |refused| then j else j + 1];
    }
  }

  /** One Combo of a pass: offered to the compiler and either stored or kept for the next pass. */
  method Offer(stored: Combos, plan: seq<Combo>, now: Combos, refused: seq<Combo>, later: seq<Combo>, fails: bool)
    returns (next: Combos, kept: seq<Combo>)
    requires Fresh(stored, plan) && |later| > 0 && Settled(stored, plan, now, refused + later)
    ensures Settled(stored, plan, next, kept + later[1..])
    ensures Addable(now, later[0]) && !fails ==> kept == refused
    ensures !Addable(now, later[0]) || fails ==> kept == refused + [later[0]] && next == now
  {
    assert (refused + later)[|refused|] == later[0];
    var ok;
    next, ok := PutCombo(now, later[0], fails);
    if ok {
      kept := refused;
      AcceptedGrown(stored, plan, now, next, later[0]);
      AcceptedLeft(plan, now, next, refused, later);
    } else {
      kept := refused + [later[0]];
      assert refused + later == kept + later[1..];
    }
  }

  /** One pass over the Combos still pending. When it stores none, none could have been stored, or a write
      failed. `clock` counts the writes tried before. */
  method Pass(stored: Combos, plan: seq<Combo>, start: Combos, pending: seq<Combo>, fails: nat -> bool, clock: nat)
    returns (result: Combos, refused: seq<Combo>)
    requires Fresh(stored, plan) && Settled(stored, plan, start, pending)
    ensures Settled(stored, plan, result, refused) && |refused| <= |pending|
    ensures |refused| == |pending| ==> result == start && refused == pending && (Stuck(start, pending) || Fails(fails))
  {
    result, refused := start, [];
    var later, tried := pending, clock;
    assert refused + later == pending;
    while |later| > 0
      invariant |refused| + |later| <= |pending|
      invariant Settled(stored, plan, result, refused + later)
      invariant |refused| + |later| == |pending| ==> result == start && refused + later == pending && (Stuck(start, refused) || Fails(fails))
    {
      assert refused + later == refused + [later[0]] + later[1..];
      result, refused := Offer(stored, plan, result, refused, later, fails(tried));
      later, tried := later[1..], tried + 1;
    }
    assert refused + later == refused;
  }

  /** What the end state of the import means, accepted and refused Combos alike. */
  lemma Outcome(stored: Combos, plan: seq<Combo>, now: Combos, failed: seq<Combo>)
    requires Fresh(stored, plan) && Canonical(stored) && Settled(stored, plan, now, failed)
    ensures forall i :: 0 <= i < |plan| && plan[i].name in now ==> plan[i].admissible && SoundAt(Everything(stored, plan), plan[i].name)
    ensures Stuck(now, failed) ==> forall i :: 0 <= i < |plan| && plan[i].admissible && SoundAt(Everything(stored, plan), plan[i].name) ==> plan[i].name in now
    ensures forall i :: 0 <= i < |plan| ==> (plan[i] in failed <==> plan[i].name !in now)
  {
    var whole := Everything(stored, plan);
    EverythingHolds(stored, plan);
    EverythingCanonical(stored, plan);
    PartCanonical(now, whole);
    forall i | 0 <= i < |plan|
      ensures plan[i].name in now ==> plan[i].admissible && SoundAt(whole, plan[i].name)
      ensures Stuck(now, failed) && plan[i].admissible && SoundAt(whole, plan[i].name) ==> plan[i].name in now
      ensures plan[i] in failed <==> plan[i].name !in now
    {
      if plan[i].name in now {
        var k :| 0 <= k < |plan| && plan[k].admissible && plan[k].name == plan[i].name;
        assert k == i;
        SoundForth(now, whole, plan[i].name);
      } else if plan[i].admissible && Stuck(now, failed) {
        StuckIsUnsound(stored, plan, now, failed, plan[i]);
      }
    }
  }

  /** The Combos stored at the end are the old ones and planned ones that are sound among all of them, in
      whatever order the plan lists them: exactly those, unless a write fails. `fails` says which writes do. */
  method ApplyCatalog(stored: Combos, plan: seq<Combo>, fails: nat -> bool) returns (result: Combos, failed: seq<Combo>)
    requires Canonical(stored) && Sound(stored) && Fresh(stored, plan)
    ensures Within(stored, result) && Within(result, Everything(stored, plan)) && Sound(result)
    ensures forall i :: 0 <= i < |plan| && plan[i].name in result ==> plan[i].admissible && SoundAt(Everything(stored, plan), plan[i].name)
    ensures (forall i :: 0 <= i < |plan| && plan[i].admissible && SoundAt(Everything(stored, plan), plan[i].name) ==> plan[i].name in result) || Fails(fails)
    ensures forall i :: 0 <= i < |plan| ==> (plan[i] in failed <==> plan[i].name !in result)
  {
    EverythingHolds(stored, plan);
    result, failed := stored, [];
    var pending, clock: nat := plan, 0;
    while |pending| > 0
      invariant Settled(stored, plan, result, pending)
      invariant failed == []
      decreases |pending|
    {
      var refused;
      result, refused := Pass(stored, plan, result, pending, fails, clock);
      clock := clock + |pending|;
      if |refused| == |pending| {
        failed := refused;
        break;
      }
      pending := refused;
    }
    Outcome(stored, plan, result, failed);
  }
}
