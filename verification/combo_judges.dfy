/**
 Which requests a Combo served by further requests does make (internal/ingress/fusion_serving.go,
 combo_walk.go), and when one of them is refused for its depth. A Fusion of one model has no judge, one of
 more than eight is refused, and a walk stops at a member it does not fall past.
 */
module ComboJudges {
  import opened Prelude
  import opened ComboGraph
  import opened ComboRuntime

  const MAX_PANELS: nat := 8

  /** What a request comes to: an answer with text, a failure a walk falls past, or any other answer, a success
      without text among them. */
  datatype Reply = Text | Passes | Stands

  /** A snapshot and what decides its requests besides: the Combos whose members rotate, the plain targets
      some upstream answers, the models a request can put ahead for a capability it needs, and the
      adapters a request can bring to a Combo. */
  datatype Gateway = Gateway(s: Snapshot, rotates: string -> bool, live: string -> bool, capable: string -> bool, pool: string -> set<string>)

  /** Only models are put ahead or added: their targets have a slash. */
  ghost predicate Proper(g: Gateway) {
    && (forall x :: g.capable(x) ==> HasSlash(x))
    && (forall t, x :: x in g.pool(t) ==> HasSlash(x))
  }

  function Targets(members: seq<ComboMember>): seq<string> {
    if members == [] then []
    else (if Resolved(members[0]) then [TargetOf(members[0])] else []) + Targets(members[1..])
  }

  /** The selected members' targets, in order. */
  function Panel(s: Snapshot, t: string): seq<string> { Targets(MembersOf(s.combos, t)) }

  /** The judge's target: the configured one, else the first of the panel. */
  function JudgeOf(s: Snapshot, t: string): string {
    if t in s.judges && !Blank(s.judges[t]) then s.judges[t] else if Panel(s, t) != [] then Panel(s, t)[0] else ""
  }

  /** A request is served by further ones when its target is a Fusion, or has no slash and names a Combo with a
      selected member that names a model and no provider. */
  lemma ServedByCallsIff(s: Snapshot, t: string)
    ensures Composite(s, t) <==>
            || t in s.judges
            || ('/' !in t && t in s.combos && exists m :: m in s.combos[t].members && m.selected && m.provider == "" && m.model != "")
  {
    if '/' !in t && t in s.combos && exists m :: m in s.combos[t].members && m.selected && m.provider == "" && m.model != "" {
      var m :| m in s.combos[t].members && m.selected && m.provider == "" && m.model != "";
      var i :| 0 <= i < |s.combos[t].members| && s.combos[t].members[i] == m;
      assert Resolved(s.combos[t].members[i]) && s.combos[t].members[i].IsCombo();
    }
  }

  /** Each selected member that names a model is a target, a Combo by its name and any other by its provider
      and model, in the order they are listed. */
  lemma {:induction false} PanelByMembers(members: seq<ComboMember>, m: ComboMember)
    ensures Targets([]) == []
    ensures Targets(members + [m]) == Targets(members)
            + if !m.selected || m.model == "" then [] else if m.provider == "" then [m.model] else [m.provider + "/" + m.model]
    decreases |members|
  {
    if members == [] {
      assert members + [m] == [m];
    } else {
      PanelByMembers(members[1..], m);
      assert (members + [m])[1..] == members[1..] + [m];
    }
  }

  /** The judge is the one configured; where none is, the first target of the panel. */
  lemma JudgeByConfiguration(s: Snapshot, t: string)
    ensures t in s.judges && (exists i :: 0 <= i < |s.judges[t]| && !IsSpace(s.judges[t][i])) ==> JudgeOf(s, t) == s.judges[t]
    ensures t !in s.judges || (forall i :: 0 <= i < |s.judges[t]| ==> IsSpace(s.judges[t][i])) ==>
              Panel(s, t) != [] ==> JudgeOf(s, t) == Panel(s, t)[0]
  {
  }

  // ------------------------------------------------------------ the order of a walk

  function Picked(targets: seq<string>, ahead: string -> bool, picks: bool): seq<string> {
    if targets == [] then []
    else (if ahead(targets[0]) == picks then [targets[0]] else []) + Picked(targets[1..], ahead, picks)
  }

  function Arranged(targets: seq<string>, ahead: string -> bool): seq<string> {
    Picked(targets, ahead, true) + Picked(targets, ahead, false)
  }

  /** planCombo: adapters before the members, the whole rotated, capable models ahead. */
  ghost predicate PlannedBy(g: Gateway, t: string, order: seq<string>, adapters: seq<string>, start: nat, ahead: string -> bool) {
    var models := adapters + Panel(g.s, t);
    && (forall i :: 0 <= i < |adapters| ==> adapters[i] in g.pool(t))
    && (forall x :: ahead(x) ==> g.capable(x))
    && start <= |models| && (start == 0 || g.rotates(t))
    && order == Arranged(models[start..] + models[..start], ahead)
  }

  ghost predicate Planned(g: Gateway, t: string, order: seq<string>) {
    exists adapters, start: nat, ahead :: PlannedBy(g, t, order, adapters, start, ahead)
  }

  // ------------------------------------------------------------ what the gateway does

  predicate Within(order: seq<string>, j: int) { 0 <= j <= |order| }

  function Left(d: nat): nat { if d < MAX_COMBO_DEPTH then MAX_COMBO_DEPTH - d else 0 }

  /** What a request for `t` at depth `d` may come to. Upstreams reply as they like, as far as they are live;
      panel calls may fail, come too late or not be started at all when Fusion is busy. A Fusion has text only
      where a model of its panel had: the same model asked alone, or the judge when two had. */
  ghost predicate MayReply(g: Gateway, t: string, d: nat, r: Reply)
    decreases Left(d)
  {
    var panel := Panel(g.s, t);
    if !Composite(g.s, t) then r.Text? ==> g.live(t)
    else if d >= MAX_COMBO_DEPTH then r.Passes?
    else if IsFusion(g.s, t) then
      if |panel| == 1 then MayReply(g, panel[0], d + 1, r)
      else if |panel| > MAX_PANELS then r.Stands?
      else r.Text? ==> exists i :: 0 <= i < |panel| && MayReply(g, panel[i], d + 1, Text)
    else
      exists order, j :: Planned(g, t, order) && Within(order, j)
        && (forall i :: 0 <= i < j ==> MayReply(g, order[i], d + 1, Passes))
        && if j == |order| then r.Passes? || r.Stands? else !r.Passes? && MayReply(g, order[j], d + 1, r)
  }

  /** A walk in this order passes over what comes before `j`, and ends there or at the end. */
  ghost predicate WalkEnds(g: Gateway, t: string, d: nat, order: seq<string>, j: nat, r: Reply) {
    && Planned(g, t, order) && Within(order, j)
    && (forall i :: 0 <= i < j ==> MayReply(g, order[i], d + 1, Passes))
    && if j == |order| then r.Passes? || r.Stands? else !r.Passes? && MayReply(g, order[j], d + 1, r)
  }

  /** A walk of `t` in this order may come to serve its j-th target. */
  ghost predicate WalkGoesTo(g: Gateway, t: string, d: nat, order: seq<string>, j: nat) {
    Planned(g, t, order) && j < |order| && forall i :: 0 <= i < j ==> MayReply(g, order[i], d + 1, Passes)
  }

  /** A walk of `t` at depth `d` may come to serve `x`. */
  ghost predicate WalkServes(g: Gateway, t: string, d: nat, x: string) {
    exists order, j: nat :: WalkGoesTo(g, t, d, order, j) && order[j] == x
  }

  ghost predicate TwoMayAnswer(g: Gateway, t: string, d: nat) {
    var panel := Panel(g.s, t);
    exists i, j :: 0 <= i < j < |panel| && MayReply(g, panel[i], d + 1, Text) && MayReply(g, panel[j], d + 1, Text)
  }

  /** A request for `t` at depth `d` may make one for `x`. */
  ghost predicate MayCall(g: Gateway, t: string, d: nat, x: string) {
    var panel := Panel(g.s, t);
    && Composite(g.s, t) && d < MAX_COMBO_DEPTH
    && if IsFusion(g.s, t) then 0 < |panel| <= MAX_PANELS && (x in panel || (TwoMayAnswer(g, t, d) && x == JudgeOf(g.s, t)))
       else WalkServes(g, t, d, x)
  }

  /** A client's request and requests nested in it; the i-th is at depth i. */
  ghost predicate MayNest(g: Gateway, path: seq<string>) {
    |path| > 0 && forall i :: 0 <= i < |path| - 1 ==> MayCall(g, path[i], i, path[i + 1])
  }

  /** Some request is refused for its depth. */
  ghost predicate MeetsRefusal(g: Gateway) {
    exists path :: MayNest(g, path) && Composite(g.s, path[|path| - 1]) && |path| - 1 >= MAX_COMBO_DEPTH
  }

  // ------------------------------------------------------------ the same, read off the configuration

  /** No walk falls past `t`: it is a Fusion with too many models, one of a single target no walk falls past,
      or a walk with such a member, which stops there if not before. */
  predicate Blocks(s: Snapshot, t: string, d: nat)
    decreases Left(d)
  {
    var panel := Panel(s, t);
    && Composite(s, t) && d < MAX_COMBO_DEPTH
    && if IsFusion(s, t) then |panel| > MAX_PANELS || (|panel| == 1 && Blocks(s, panel[0], d + 1))
       else exists i :: 0 <= i < |panel| && Blocks(s, panel[i], d + 1)
  }

  /** A walk gets to `x`: an adapter, a capable model, any member if they rotate, else one with no member
      before it that blocks. */
  ghost predicate Reaches(g: Gateway, t: string, d: nat, x: string) {
    var panel := Panel(g.s, t);
    || x in g.pool(t)
    || exists i :: 0 <= i < |panel| && panel[i] == x &&
         (g.rotates(t) || g.capable(x) || forall a :: 0 <= a < i ==> !Blocks(g.s, panel[a], d + 1))
  }

  /** `t` can answer with text. */
  ghost predicate Answers(g: Gateway, t: string, d: nat)
    decreases Left(d)
  {
    var panel := Panel(g.s, t);
    if !Composite(g.s, t) then g.live(t)
    else if d >= MAX_COMBO_DEPTH then false
    else if IsFusion(g.s, t) then |panel| <= MAX_PANELS && exists i :: 0 <= i < |panel| && Answers(g, panel[i], d + 1)
    else exists x :: Reaches(g, t, d, x) && Answers(g, x, d + 1)
  }

  ghost predicate TwoAnswer(g: Gateway, t: string, d: nat) {
    var panel := Panel(g.s, t);
    exists i, j :: 0 <= i < j < |panel| && Answers(g, panel[i], d + 1) && Answers(g, panel[j], d + 1)
  }

  /** `t` at depth `d` has `x` among its requests: a Fusion of at most eight models has these, and its judge
      if two of them can answer; a walk has what it gets to. */
  ghost predicate Calls(g: Gateway, t: string, d: nat, x: string) {
    var panel := Panel(g.s, t);
    && Composite(g.s, t)
    && if IsFusion(g.s, t) then 0 < |panel| <= MAX_PANELS && (x in panel || (TwoAnswer(g, t, d) && x == JudgeOf(g.s, t)))
       else Reaches(g, t, d, x)
  }

  /** Nine Combos served by further requests, each called by the one before at its depth. */
  ghost predicate NineInARow(g: Gateway, p: seq<string>) {
    && |p| == 9 && (forall i :: 0 <= i < |p| ==> Composite(g.s, p[i]))
    && forall i :: 0 <= i < |p| - 1 ==> Calls(g, p[i], i, p[i + 1])
  }

  // ------------------------------------------------------------ orders

  /** The j-th target picked stands somewhere in the list, after only targets picked before it. */
  ghost predicate StandsAt(targets: seq<string>, ahead: string -> bool, picks: bool, j: nat, b: nat) {
    var all := Picked(targets, ahead, picks);
    && j < |all| && b < |targets| && targets[b] == all[j] && ahead(all[j]) == picks
    && forall a :: 0 <= a < b && ahead(targets[a]) == picks ==> targets[a] in all[..j]
  }

  lemma {:induction false} PickedFrom(targets: seq<string>, ahead: string -> bool, picks: bool, j: nat) returns (b: nat)
    requires j < |Picked(targets, ahead, picks)|
    ensures StandsAt(targets, ahead, picks, j, b)
  {
    var here := ahead(targets[0]) == picks;
    if here && j == 0 {
      b := 0;
    } else {
      var k := if here then j - 1 else j;
      b := PickedFrom(targets[1..], ahead, picks, k);
      StandsAfter(targets, ahead, picks, k, b);
      b := b + 1;
    }
  }

  lemma StandsAfter(targets: seq<string>, ahead: string -> bool, picks: bool, k: nat, b: nat)
    requires targets != [] && StandsAt(targets[1..], ahead, picks, k, b)
    ensures StandsAt(targets, ahead, picks, if ahead(targets[0]) == picks then k + 1 else k, b + 1)
  {
    var all, rest := Picked(targets, ahead, picks), Picked(targets[1..], ahead, picks);
    var shift := if ahead(targets[0]) == picks then 1 else 0;
    forall a | 0 <= a < b + 1 && ahead(targets[a]) == picks
      ensures targets[a] in all[..k + shift]
    {
      if a == 0 {
        assert all[..k + shift][0] == targets[0];
      } else {
        assert targets[1..][a - 1] in rest[..k];
        var m :| 0 <= m < k && rest[m] == targets[a];
        assert all[..k + shift][m + shift] == targets[a];
      }
    }
  }

  lemma {:induction false} PicksAll(targets: seq<string>, ahead: string -> bool, b: nat)
    requires b < |targets|
    ensures targets[b] in Picked(targets, ahead, ahead(targets[b]))
  {
    if b > 0 {
      PicksAll(targets[1..], ahead, b - 1);
    }
  }

  lemma {:induction false} NonePicked(targets: seq<string>, ahead: string -> bool)
    requires forall x :: !ahead(x)
    ensures Picked(targets, ahead, true) == [] && Picked(targets, ahead, false) == targets
  {
    if targets != [] {
      NonePicked(targets[1..], ahead);
    }
  }

  // ------------------------------------------------------------ the two agree

  /** Only Composite targets block, and none that has a slash. */
  lemma SlashNeverBlocks(s: Snapshot, t: string, d: nat)
    requires Wellformed(s) && HasSlash(t)
    ensures !Blocks(s, t, d) && !Composite(s, t)
  {
  }

  /** An unrotated walk of all members as they are stored. */
  lemma AsStored(g: Gateway, t: string)
    ensures Planned(g, t, Panel(g.s, t))
  {
    var none := (x: string) => false;
    var models := [] + Panel(g.s, t);
    assert models[0..] + models[..0] == Panel(g.s, t);
    NonePicked(Panel(g.s, t), none);
    assert PlannedBy(g, t, Panel(g.s, t), [], 0, none);
  }

  /** Every member is somewhere in every walk. */
  lemma HoldsMember(g: Gateway, t: string, order: seq<string>, adapters: seq<string>, start: nat, ahead: string -> bool, i: nat)
    requires PlannedBy(g, t, order, adapters, start, ahead) && i < |Panel(g.s, t)|
    ensures Panel(g.s, t)[i] in order
  {
    var models := adapters + Panel(g.s, t);
    var m := |adapters| + i;
    assert models[m] == Panel(g.s, t)[i];
    var rotated := models[start..] + models[..start];
    var b := if m >= start then m - start else |models| - start + m;
    assert rotated[b] == models[m];
    PicksAll(rotated, ahead, b);
  }

  /** In an unrotated walk, a target not put ahead: every member before it comes before it in the walk, or is
      put ahead and so is a model. */
  lemma BehindTheRest(g: Gateway, t: string, d: nat, adapters: seq<string>, ahead: string -> bool, k: nat)
    requires Proper(g) && Wellformed(g.s) && (forall x :: ahead(x) ==> g.capable(x))
    requires (forall i :: 0 <= i < |adapters| ==> adapters[i] in g.pool(t)) && k < |Picked(adapters + Panel(g.s, t), ahead, false)|
    requires forall i :: 0 <= i < k ==> !Blocks(g.s, Picked(adapters + Panel(g.s, t), ahead, false)[i], d + 1)
    ensures Reaches(g, t, d, Picked(adapters + Panel(g.s, t), ahead, false)[k])
  {
    var models, panel := adapters + Panel(g.s, t), Panel(g.s, t);
    var behind := Picked(models, ahead, false);
    var b := PickedFrom(models, ahead, false, k);
    if b >= |adapters| {
      var i := b - |adapters|;
      assert panel[i] == behind[k];
      forall a | 0 <= a < i
        ensures !Blocks(g.s, panel[a], d + 1)
      {
        assert models[|adapters| + a] == panel[a];
        if ahead(panel[a]) { SlashNeverBlocks(g.s, panel[a], d + 1); }
      }
    }
  }

  lemma SomeModel(g: Gateway, t: string, order: seq<string>, adapters: seq<string>, start: nat, ahead: string -> bool, j: nat)
    requires PlannedBy(g, t, order, adapters, start, ahead) && j < |order|
    ensures order[j] in adapters + Panel(g.s, t)
    ensures j < |Picked((adapters + Panel(g.s, t))[start..] + (adapters + Panel(g.s, t))[..start], ahead, true)| ==> g.capable(order[j])
  {
    var models := adapters + Panel(g.s, t);
    var rotated := models[start..] + models[..start];
    var first := Picked(rotated, ahead, true);
    var b := PickedFrom(rotated, ahead, j < |first|, if j < |first| then j else j - |first|);
    assert order[j] in rotated;
    assert order[j] in models[start..] || order[j] in models[..start];
  }

  /** What a walk serves after passing over what comes before is an adapter, a capable model, any member if
      they rotate, or else a member with all members before it passed over. */
  lemma ServedIsReached(g: Gateway, t: string, d: nat, order: seq<string>, j: nat)
    requires Proper(g) && Wellformed(g.s) && Planned(g, t, order) && j < |order|
    requires forall i :: 0 <= i < j ==> !Blocks(g.s, order[i], d + 1)
    ensures Reaches(g, t, d, order[j])
  {
    var adapters, start: nat, ahead :| PlannedBy(g, t, order, adapters, start, ahead);
    PlacedIsReached(g, t, d, order, adapters, start, ahead, j);
  }

  lemma PlacedIsReached(g: Gateway, t: string, d: nat, order: seq<string>, adapters: seq<string>, start: nat, ahead: string -> bool, j: nat)
    requires Proper(g) && Wellformed(g.s) && PlannedBy(g, t, order, adapters, start, ahead) && j < |order|
    requires forall i :: 0 <= i < j ==> !Blocks(g.s, order[i], d + 1)
    ensures Reaches(g, t, d, order[j])
  {
    var models, x := adapters + Panel(g.s, t), order[j];
    var first := Picked(models[start..] + models[..start], ahead, true);
    SomeModel(g, t, order, adapters, start, ahead, j);
    if x in adapters {
      assert x in g.pool(t);
    } else if start > 0 || j < |first| {
      assert x in Panel(g.s, t);
    } else {
      assert models[0..] + models[..0] == models;
      LaterIsReached(g, t, d, order, adapters, ahead, j);
    }
  }

  lemma LaterIsReached(g: Gateway, t: string, d: nat, order: seq<string>, adapters: seq<string>, ahead: string -> bool, j: nat)
    requires Proper(g) && Wellformed(g.s) && (forall x :: ahead(x) ==> g.capable(x)) && (forall i :: 0 <= i < |adapters| ==> adapters[i] in g.pool(t))
    requires order == Arranged(adapters + Panel(g.s, t), ahead) && |Picked(adapters + Panel(g.s, t), ahead, true)| <= j < |order|
    requires forall i :: 0 <= i < j ==> !Blocks(g.s, order[i], d + 1)
    ensures Reaches(g, t, d, order[j])
  {
    var first, behind := Picked(adapters + Panel(g.s, t), ahead, true), Picked(adapters + Panel(g.s, t), ahead, false);
    forall i | 0 <= i < j - |first|
      ensures !Blocks(g.s, behind[i], d + 1)
    {
      assert behind[i] == order[|first| + i];
    }
    assert order[j] == behind[j - |first|];
    BehindTheRest(g, t, d, adapters, ahead, j - |first|);
  }

  /** And what a walk gets to it serves, for some order, with nothing before it that blocks. */
  lemma ReachedIsServed(g: Gateway, t: string, d: nat, x: string) returns (order: seq<string>, j: nat)
    requires Reaches(g, t, d, x)
    ensures Planned(g, t, order) && j < |order| && order[j] == x
    ensures forall i :: 0 <= i < j ==> !Blocks(g.s, order[i], d + 1)
  {
    var none := (y: string) => false;
    var panel := Panel(g.s, t);
    j := 0;
    if x in g.pool(t) {
      order := [x] + panel;
      assert order[0..] + order[..0] == order;
      NonePicked(order, none);
      assert PlannedBy(g, t, order, [x], 0, none);
    } else {
      var i :| 0 <= i < |panel| && panel[i] == x &&
               (g.rotates(t) || g.capable(x) || forall a :: 0 <= a < i ==> !Blocks(g.s, panel[a], d + 1));
      if g.rotates(t) {
        order := RotatedTo(g, t, i);
      } else if g.capable(x) {
        order := PutAhead(g, t, i);
      } else {
        AsStored(g, t);
        order, j := panel, i;
      }
    }
  }

  lemma RotatedTo(g: Gateway, t: string, i: nat) returns (order: seq<string>)
    requires g.rotates(t) && i < |Panel(g.s, t)|
    ensures Planned(g, t, order) && order != [] && order[0] == Panel(g.s, t)[i]
  {
    var none, panel := (y: string) => false, Panel(g.s, t);
    assert [] + panel == panel;
    order := panel[i..] + panel[..i];
    NonePicked(order, none);
    assert PlannedBy(g, t, order, [], i, none);
  }

  function Is(x: string): string -> bool { y => y == x }

  lemma {:induction false} FirstOfPicked(targets: seq<string>, x: string)
    requires x in targets
    ensures Picked(targets, Is(x), true) != [] && Picked(targets, Is(x), true)[0] == x
  {
    if targets[0] != x {
      FirstOfPicked(targets[1..], x);
    }
  }

  lemma PutAhead(g: Gateway, t: string, i: nat) returns (order: seq<string>)
    requires i < |Panel(g.s, t)| && g.capable(Panel(g.s, t)[i])
    ensures Planned(g, t, order) && order != [] && order[0] == Panel(g.s, t)[i]
  {
    var panel := Panel(g.s, t);
    FirstOfPicked(panel, panel[i]);
    order := Arranged(panel, Is(panel[i]));
    OrderAsStored(g, t, order, Is(panel[i]));
  }

  lemma OrderAsStored(g: Gateway, t: string, order: seq<string>, ahead: string -> bool)
    requires (forall x :: ahead(x) ==> g.capable(x)) && order == Arranged(Panel(g.s, t), ahead)
    ensures Planned(g, t, order)
  {
    var models := [] + Panel(g.s, t);
    assert models[0..] + models[..0] == Panel(g.s, t);
    assert PlannedBy(g, t, order, [], 0, ahead);
  }

  // ------------------------------------------------------------ replies

  ghost predicate PassAgrees(g: Gateway, t: string, d: nat) { MayReply(g, t, d, Passes) <==> !Blocks(g.s, t, d) }

  ghost predicate TextAgrees(g: Gateway, t: string, d: nat) { MayReply(g, t, d, Text) <==> Answers(g, t, d) }

  /** A walk can fall past a request exactly when it does not block. */
  lemma {:induction false} PassesIff(g: Gateway, t: string, d: nat)
    requires Proper(g) && Wellformed(g.s)
    ensures MayReply(g, t, d, Passes) <==> !Blocks(g.s, t, d)
    decreases Left(d)
  {
    var panel := Panel(g.s, t);
    if Composite(g.s, t) && d < MAX_COMBO_DEPTH {
      forall i | 0 <= i < |panel|
        ensures PassAgrees(g, panel[i], d + 1)
      {
        PassesIff(g, panel[i], d + 1);
      }
      if !IsFusion(g.s, t) { WalkPassesIff(g, t, d); }
    }
  }

  lemma WalkReply(g: Gateway, t: string, d: nat, r: Reply) returns (order: seq<string>, j: nat)
    requires Composite(g.s, t) && d < MAX_COMBO_DEPTH && !IsFusion(g.s, t) && MayReply(g, t, d, r)
    ensures WalkEnds(g, t, d, order, j, r)
  {
    order, j :| Planned(g, t, order) && Within(order, j)
      && (forall i :: 0 <= i < j ==> MayReply(g, order[i], d + 1, Passes))
      && if j == |order| then r.Passes? || r.Stands? else !r.Passes? && MayReply(g, order[j], d + 1, r);
  }

  lemma WalkMayReply(g: Gateway, t: string, d: nat, r: Reply, order: seq<string>, j: nat)
    requires Composite(g.s, t) && d < MAX_COMBO_DEPTH && !IsFusion(g.s, t) && WalkEnds(g, t, d, order, j, r)
    ensures MayReply(g, t, d, r)
  {
  }

  /** The request is refused for its depth, or is a Fusion of one whose model is. */
  predicate TooDeep(s: Snapshot, t: string, d: nat)
    decreases Left(d)
  {
    Composite(s, t) && (d >= MAX_COMBO_DEPTH || (IsFusion(s, t) && |Panel(s, t)| == 1 && TooDeep(s, Panel(s, t)[0], d + 1)))
  }

  lemma {:induction false} DeepIsPassed(s: Snapshot, t: string, d: nat)
    requires TooDeep(s, t, d)
    ensures !Blocks(s, t, d)
    decreases Left(d)
  {
    if d < MAX_COMBO_DEPTH { DeepIsPassed(s, Panel(s, t)[0], d + 1); }
  }

  ghost predicate StandAgrees(g: Gateway, t: string, d: nat) { MayReply(g, t, d, Stands) <==> !TooDeep(g.s, t, d) }

  /** Any other answer is possible unless the request is refused for its depth. */
  lemma {:induction false} StandsIff(g: Gateway, t: string, d: nat)
    requires Proper(g) && Wellformed(g.s)
    ensures MayReply(g, t, d, Stands) <==> !TooDeep(g.s, t, d)
    decreases Left(d)
  {
    var panel := Panel(g.s, t);
    if Composite(g.s, t) && d < MAX_COMBO_DEPTH {
      forall i | 0 <= i < |panel|
        ensures StandAgrees(g, panel[i], d + 1) && PassAgrees(g, panel[i], d + 1)
      {
        StandsIff(g, panel[i], d + 1);
        PassesIff(g, panel[i], d + 1);
      }
      if !IsFusion(g.s, t) { WalkStands(g, t, d); }
    }
  }

  /** How far a walk can get in an order. */
  lemma {:induction false} WalkGets(g: Gateway, order: seq<string>, d: nat) returns (j: nat)
    ensures j <= |order| && (forall i :: 0 <= i < j ==> MayReply(g, order[i], d, Passes)) && (j < |order| ==> !MayReply(g, order[j], d, Passes))
  {
    j := 0;
    if order != [] {
      var n := |order| - 1;
      j := WalkGets(g, order[..n], d);
      if j == n && MayReply(g, order[n], d, Passes) { j := n + 1; }
    }
  }

  /** A walk in the order stored ends at the first member it does not fall past, or at the end. */
  lemma WalkStands(g: Gateway, t: string, d: nat)
    requires Composite(g.s, t) && d < MAX_COMBO_DEPTH && !IsFusion(g.s, t)
    requires forall i :: 0 <= i < |Panel(g.s, t)| ==> StandAgrees(g, Panel(g.s, t)[i], d + 1) && PassAgrees(g, Panel(g.s, t)[i], d + 1)
    ensures MayReply(g, t, d, Stands)
  {
    var panel := Panel(g.s, t);
    AsStored(g, t);
    var j := WalkGets(g, panel, d + 1);
    if j < |panel| {
      assert PassAgrees(g, panel[j], d + 1) && StandAgrees(g, panel[j], d + 1);
      if TooDeep(g.s, panel[j], d + 1) { DeepIsPassed(g.s, panel[j], d + 1); }
    }
    WalkMayReply(g, t, d, Stands, panel, j);
  }

  lemma WalkPassesIff(g: Gateway, t: string, d: nat)
    requires Composite(g.s, t) && d < MAX_COMBO_DEPTH && !IsFusion(g.s, t)
    requires forall i :: 0 <= i < |Panel(g.s, t)| ==> PassAgrees(g, Panel(g.s, t)[i], d + 1)
    ensures MayReply(g, t, d, Passes) <==> !Blocks(g.s, t, d)
  {
    var panel := Panel(g.s, t);
    if MayReply(g, t, d, Passes) {
      var order, j := WalkReply(g, t, d, Passes);
      var adapters, start: nat, ahead :| PlannedBy(g, t, order, adapters, start, ahead);
      forall i | 0 <= i < |panel|
        ensures !Blocks(g.s, panel[i], d + 1)
      {
        HoldsMember(g, t, order, adapters, start, ahead, i);
        assert PassAgrees(g, panel[i], d + 1);
      }
    }
    if !Blocks(g.s, t, d) {
      AsStored(g, t);
      forall i | 0 <= i < |panel|
        ensures MayReply(g, panel[i], d + 1, Passes)
      {
        assert PassAgrees(g, panel[i], d + 1);
      }
      WalkMayReply(g, t, d, Passes, panel, |panel|);
    }
  }

  /** A request can be answered with text exactly when Answers says so. */
  lemma {:induction false} TextIff(g: Gateway, t: string, d: nat)
    requires Proper(g) && Wellformed(g.s)
    ensures MayReply(g, t, d, Text) <==> Answers(g, t, d)
    decreases Left(d)
  {
    if Composite(g.s, t) && d < MAX_COMBO_DEPTH {
      var e := d + 1;
      forall x
        ensures TextAgrees(g, x, e)
      {
        TextIff(g, x, e);
      }
      if IsFusion(g.s, t) { FusionTextIff(g, t, d, e); } else { WalkTextIff(g, t, d, e); }
    }
  }

  lemma FusionTextIff(g: Gateway, t: string, d: nat, e: nat)
    requires Composite(g.s, t) && d < MAX_COMBO_DEPTH && IsFusion(g.s, t) && e == d + 1
    requires forall x :: TextAgrees(g, x, e)
    ensures MayReply(g, t, d, Text) <==> Answers(g, t, d)
  {
    var panel := Panel(g.s, t);
    if |panel| == 1 {
      assert TextAgrees(g, panel[0], e);
    } else if |panel| <= MAX_PANELS {
      if MayReply(g, t, d, Text) {
        var i :| 0 <= i < |panel| && MayReply(g, panel[i], e, Text);
        assert TextAgrees(g, panel[i], e);
      }
      if Answers(g, t, d) {
        var i :| 0 <= i < |panel| && Answers(g, panel[i], e);
        assert TextAgrees(g, panel[i], e);
      }
    }
  }

  lemma WalkServesIff(g: Gateway, t: string, d: nat, x: string)
    requires Proper(g) && Wellformed(g.s)
    ensures WalkServes(g, t, d, x) <==> Reaches(g, t, d, x)
  {
    if WalkServes(g, t, d, x) {
      var order, j: nat :| WalkGoesTo(g, t, d, order, j) && order[j] == x;
      forall i | 0 <= i < j
        ensures !Blocks(g.s, order[i], d + 1)
      {
        PassesIff(g, order[i], d + 1);
      }
      ServedIsReached(g, t, d, order, j);
    }
    if Reaches(g, t, d, x) {
      var order, j := ReachedIsServed(g, t, d, x);
      forall i | 0 <= i < j
        ensures MayReply(g, order[i], d + 1, Passes)
      {
        PassesIff(g, order[i], d + 1);
      }
      assert WalkGoesTo(g, t, d, order, j);
    }
  }

  lemma WalkTextIff(g: Gateway, t: string, d: nat, e: nat)
    requires Proper(g) && Wellformed(g.s) && Composite(g.s, t) && d < MAX_COMBO_DEPTH && !IsFusion(g.s, t) && e == d + 1
    requires forall x :: TextAgrees(g, x, e)
    ensures MayReply(g, t, d, Text) <==> Answers(g, t, d)
  {
    if MayReply(g, t, d, Text) {
      var order, j := WalkReply(g, t, d, Text);
      assert WalkGoesTo(g, t, d, order, j);
      WalkServesIff(g, t, d, order[j]);
      assert TextAgrees(g, order[j], e);
    }
    if Answers(g, t, d) {
      var x :| Reaches(g, t, d, x) && Answers(g, x, e);
      WalkServesIff(g, t, d, x);
      var order, j: nat :| WalkGoesTo(g, t, d, order, j) && order[j] == x;
      assert TextAgrees(g, x, e);
      WalkMayReply(g, t, d, Text, order, j);
    }
  }

  // ------------------------------------------------------------ when the refusal is met

  lemma TwoAnswerIff(g: Gateway, t: string, d: nat)
    requires Proper(g) && Wellformed(g.s)
    ensures TwoMayAnswer(g, t, d) <==> TwoAnswer(g, t, d)
  {
    var panel, e := Panel(g.s, t), d + 1;
    forall i | 0 <= i < |panel|
      ensures TextAgrees(g, panel[i], e)
    {
      TextIff(g, panel[i], e);
    }
    if TwoMayAnswer(g, t, d) {
      var i, j :| 0 <= i < j < |panel| && MayReply(g, panel[i], e, Text) && MayReply(g, panel[j], e, Text);
      assert TextAgrees(g, panel[i], e) && TextAgrees(g, panel[j], e);
    }
    if TwoAnswer(g, t, d) {
      var i, j :| 0 <= i < j < |panel| && Answers(g, panel[i], e) && Answers(g, panel[j], e);
      assert TextAgrees(g, panel[i], e) && TextAgrees(g, panel[j], e);
    }
  }

  /** Which requests a request may make. */
  lemma CallsIff(g: Gateway, t: string, d: nat, x: string)
    requires Proper(g) && Wellformed(g.s)
    ensures MayCall(g, t, d, x) <==> d < MAX_COMBO_DEPTH && Calls(g, t, d, x)
  {
    TwoAnswerIff(g, t, d);
    WalkServesIff(g, t, d, x);
  }

  /** Whatever the Combos, judges, strategies and models: some request is refused for its depth exactly when
      nine Combos stand in a row, each among the requests of the one before at its depth. */
  lemma RefusalMetIff(g: Gateway)
    requires Proper(g) && Wellformed(g.s)
    ensures MeetsRefusal(g) <==> exists p :: NineInARow(g, p)
  {
    if MeetsRefusal(g) {
      var path :| MayNest(g, path) && Composite(g.s, path[|path| - 1]) && |path| - 1 >= MAX_COMBO_DEPTH;
      NestedIsRow(g, path);
    }
    if p :| NineInARow(g, p) {
      RowNests(g, p);
    }
  }

  lemma NestedIsRow(g: Gateway, path: seq<string>)
    requires Proper(g) && Wellformed(g.s) && MayNest(g, path) && Composite(g.s, path[|path| - 1]) && |path| - 1 >= MAX_COMBO_DEPTH
    ensures NineInARow(g, path)
  {
    forall i: nat | i < |path| - 1
      ensures MayCall(g, path[i], i, path[i + 1]) && Calls(g, path[i], i, path[i + 1])
    {
      CallsIff(g, path[i], i, path[i + 1]);
    }
    assert |path| - 2 < MAX_COMBO_DEPTH by {
      assert MayCall(g, path[|path| - 2], |path| - 2, path[|path| - 1]);
    }
    forall i: nat | i < |path|
      ensures Composite(g.s, path[i])
    {
      if i < |path| - 1 { assert MayCall(g, path[i], i, path[i + 1]); }
    }
  }

  lemma RowNests(g: Gateway, p: seq<string>)
    requires Proper(g) && Wellformed(g.s) && NineInARow(g, p)
    ensures MayNest(g, p)
  {
    forall i: nat | i < |p| - 1
      ensures MayCall(g, p[i], i, p[i + 1])
    {
      CallsIff(g, p[i], i, p[i + 1]);
    }
  }

  // ------------------------------------------------------------ accepted sets, and a Combo that judges itself

  lemma {:induction false} TargetIsMember(members: seq<ComboMember>, x: string)
    requires x in Targets(members)
    ensures exists i :: 0 <= i < |members| && Resolved(members[i]) && x == TargetOf(members[i])
  {
    if Resolved(members[0]) && x == TargetOf(members[0]) {
    } else {
      TargetIsMember(members[1..], x);
      var i :| 0 <= i < |members[1..]| && Resolved(members[1..][i]) && x == TargetOf(members[1..][i]);
      assert members[i + 1] == members[1..][i];
    }
  }

  /** Every request made is one of those ComboRuntime lets a Combo make. */
  lemma CalledIsSubTarget(g: Gateway, t: string, d: nat, x: string)
    requires Proper(g) && Wellformed(g.s) && MayCall(g, t, d, x)
    ensures SubTarget(g.s, t, x)
  {
    CallsIff(g, t, d, x);
    var panel := Panel(g.s, t);
    if x in panel {
      TargetIsMember(MembersOf(g.s.combos, t), x);
    }
  }

  /** So no request over an accepted set whose judges are no Combos is refused for its depth. */
  lemma AcceptedMeetsNone(g: Gateway)
    requires Proper(g) && Wellformed(g.s) && Sound(g.s.combos) && PlainJudges(g.s)
    ensures !MeetsRefusal(g)
  {
    if MeetsRefusal(g) {
      var path :| MayNest(g, path) && Composite(g.s, path[|path| - 1]) && |path| - 1 >= MAX_COMBO_DEPTH;
      NestedIsServed(g, path);
      RowIsShort(g.s, path);
    }
  }

  lemma NestedIsServed(g: Gateway, path: seq<string>)
    requires Proper(g) && Wellformed(g.s) && MayNest(g, path) && Composite(g.s, path[|path| - 1])
    ensures ServedChain(g.s, path)
  {
    forall i: nat | i < |path|
      ensures Composite(g.s, path[i]) && (i < |path| - 1 ==> SubTarget(g.s, path[i], path[i + 1]))
    {
      if i < |path| - 1 {
        assert MayCall(g, path[i], i, path[i + 1]);
        CalledIsSubTarget(g, path[i], i, path[i + 1]);
      }
    }
  }

  /** Some request for `t` leads to one refused for its depth. */
  ghost predicate LeadsToRefusal(g: Gateway, t: string) {
    exists path :: MayNest(g, path) && path[0] == t && Composite(g.s, path[|path| - 1]) && |path| - 1 >= MAX_COMBO_DEPTH
  }

  ghost predicate TwoLive(g: Gateway, t: string) {
    var panel := Panel(g.s, t);
    exists i, j :: 0 <= i < j < |panel| && g.live(panel[i]) && g.live(panel[j])
  }

  /** All selected members are models. */
  predicate AllModels(s: Snapshot, t: string) {
    forall i :: 0 <= i < |Panel(s, t)| ==> HasSlash(Panel(s, t)[i])
  }

  lemma TwoLiveAnswer(g: Gateway, t: string, d: nat)
    requires Wellformed(g.s) && AllModels(g.s, t)
    ensures TwoAnswer(g, t, d) <==> TwoLive(g, t)
  {
    var panel := Panel(g.s, t);
    forall i | 0 <= i < |panel|
      ensures Answers(g, panel[i], d + 1) <==> g.live(panel[i])
    {
      SlashNeverBlocks(g.s, panel[i], d + 1);
    }
  }

  /** A Fusion Combo of models that judges itself leads to the refusal exactly when it has at most eight
      models and two of them can answer. */
  lemma SelfJudgeRefusedIff(g: Gateway, t: string)
    requires Proper(g) && Wellformed(g.s) && IsFusion(g.s, t) && g.s.judges[t] == t && !Blank(t) && AllModels(g.s, t)
    ensures LeadsToRefusal(g, t) <==> |Panel(g.s, t)| <= 8 && TwoLive(g, t)
  {
    if LeadsToRefusal(g, t) {
      var path :| MayNest(g, path) && path[0] == t && Composite(g.s, path[|path| - 1]) && |path| - 1 >= MAX_COMBO_DEPTH;
      NestedIsRow(g, path);
      assert Calls(g, path[0], 0, path[1]) && Composite(g.s, path[1]);
      if path[1] in Panel(g.s, t) {
        SlashNeverBlocks(g.s, path[1], 0);
      }
      TwoLiveAnswer(g, t, 0);
    }
    if |Panel(g.s, t)| <= MAX_PANELS && TwoLive(g, t) {
      var path := seq(MAX_COMBO_DEPTH + 1, i => t);
      forall i: nat | i < MAX_COMBO_DEPTH
        ensures MayCall(g, path[i], i, path[i + 1])
      {
        TwoLiveAnswer(g, t, i);
        CallsIff(g, t, i, t);
      }
      assert MayNest(g, path);
    }
  }
}
