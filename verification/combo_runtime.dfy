/**
 Serving Combos that name other Combos (internal/ingress/fusion_serving.go, combo_walk.go): every
 member, panel model and judge is a request of its own, one level deeper than the request it serves.
 */
module ComboRuntime {
  import opened Prelude
  import opened ComboGraph

  /** A compiled snapshot: the stored Combos and those served as Fusion, by name. The overlay may
      change a Fusion Combo's judge but not its members (effectiveFusion). */
  datatype Snapshot = Snapshot(combos: Combos, judges: map<string, string>)

  /** Resolve: the selected members that name something. */
  predicate Resolved(m: ComboMember) { m.selected && m.model != "" }

  predicate HasSlash(name: string) { '/' in name }

  predicate IsFusion(s: Snapshot, target: string) { target in s.judges }

  /** NestedCombo: some selected member is a Combo. */
  predicate IsNested(s: Snapshot, target: string) {
    target in s.combos && exists i :: 0 <= i < |s.combos[target].members| && Resolved(s.combos[target].members[i]) && s.combos[target].members[i].IsCombo()
  }

  /** Served member by member or by panel and judge; anything else goes straight to the handler. */
  predicate Composite(s: Snapshot, target: string) {
    IsFusion(s, target) || (!HasSlash(target) && IsNested(s, target))
  }

  ghost predicate Wellformed(s: Snapshot) {
    && Canonical(s.combos)
    && (forall name :: name in s.judges ==> name in s.combos && !HasSlash(name))
  }

  function TargetOf(m: ComboMember): string {
    if m.IsCombo() then m.model else m.provider + "/" + m.model
  }

  /** The judge's target: the configured one without surrounding space, else a member of the panel. */
  ghost predicate Judges(s: Snapshot, target: string, judge: string) {
    IsFusion(s, target) && !Blank(s.judges[target]) && judge == s.judges[target]
  }

  /** A request the gateway may make while serving `target`: one of its selected members, a model the
      capacity adapter added (its target has a slash), or a Fusion judge. Which of these it does make
      ComboJudges says; what holds for all of them holds for those. */
  ghost predicate SubTarget(s: Snapshot, target: string, sub: string) {
    || (target in s.combos && exists i :: 0 <= i < |s.combos[target].members| && Resolved(s.combos[target].members[i]) && sub == TargetOf(s.combos[target].members[i]))
    || HasSlash(sub)
    || Judges(s, target, sub)
  }

  datatype Call = Call(target: string, depth: nat)

  predicate Refused(s: Snapshot, c: Call) { Composite(s, c.target) && c.depth >= MAX_COMBO_DEPTH }

  /** subRequest: only a Composite request that was not refused makes calls, one level deeper. */
  ghost predicate SubCall(s: Snapshot, c: Call, d: Call) {
    Composite(s, c.target) && !Refused(s, c) && d.depth == c.depth + 1 && SubTarget(s, c.target, d.target)
  }

  /** A request of a client and the calls nested in it, outermost first. */
  ghost predicate CallPath(s: Snapshot, path: seq<Call>) {
    && |path| > 0 && path[0].depth == 0
    && forall i :: 0 <= i < |path| - 1 ==> SubCall(s, path[i], path[i + 1])
  }

  /** No Fusion judge is itself a Combo that is served by further calls. */
  ghost predicate PlainJudges(s: Snapshot) {
    forall target, judge :: Judges(s, target, judge) ==> !Composite(s, judge)
  }

  /** Depth spent plus the longest chain still below. */
  ghost predicate WithinBudget(s: Snapshot, c: Call) {
    forall p: seq<string> :: Chain(s.combos, p) && p[0] == c.target ==> c.depth + |p| <= MAX_COMBO_DEPTH
  }

  lemma PlainTargetHasSlash(m: ComboMember)
    ensures !m.IsCombo() ==> HasSlash(TargetOf(m))
  {
    var target := m.provider + "/" + m.model;
    assert target[|m.provider|] == '/';
  }

  lemma MemberIsEdge(s: Snapshot, target: string, sub: string)
    requires Wellformed(s) && Sound(s.combos) && target in s.combos
    requires SubTarget(s, target, sub) && !Judges(s, target, sub) && !HasSlash(sub)
    ensures Edge(s.combos, target, sub)
  {
    var i :| 0 <= i < |s.combos[target].members| && Resolved(s.combos[target].members[i]) && sub == TargetOf(s.combos[target].members[i]);
    var m := s.combos[target].members[i];
    PlainTargetHasSlash(m);
    SoundMeans(s.combos);
    assert Known(s.combos, target);
    assert Names(s.combos, MembersOf(s.combos, target)[i], sub);
  }

  /** Every call that is itself served by calls keeps depth plus remaining height within the limit. */
  lemma {:induction false} BudgetKept(s: Snapshot, path: seq<Call>)
    requires Wellformed(s) && Sound(s.combos) && PlainJudges(s) && CallPath(s, path)
    requires Composite(s, path[|path| - 1].target)
    ensures path[|path| - 1].target in s.combos && WithinBudget(s, path[|path| - 1])
    decreases |path|
  {
    var c := path[|path| - 1];
    if |path| == 1 {
      assert SoundAt(s.combos, c.target);
    } else {
      var front := path[..|path| - 1];
      var outer := front[|front| - 1];
      assert SubCall(s, path[|path| - 2], path[|path| - 1]);
      assert CallPath(s, front) by {
        forall i | 0 <= i < |front| - 1
          ensures SubCall(s, front[i], front[i + 1])
        {
          assert SubCall(s, path[i], path[i + 1]);
        }
      }
      BudgetKept(s, front);
      assert !HasSlash(c.target);
      MemberIsEdge(s, outer.target, c.target);
      forall p: seq<string> | Chain(s.combos, p) && p[0] == c.target
        ensures c.depth + |p| <= MAX_COMBO_DEPTH
      {
        ChainJoin(s.combos, [outer.target], p);
        assert ([outer.target] + p)[0] == outer.target;
      }
    }
  }

  /** Whatever the Combos and judges, calls nest at most eight deep and then stop. */
  lemma {:induction false} NestingEnds(s: Snapshot, path: seq<Call>)
    requires CallPath(s, path)
    ensures path[|path| - 1].depth == |path| - 1 <= 8
    decreases |path|
  {
    if |path| > 1 {
      var front := path[..|path| - 1];
      assert SubCall(s, path[|path| - 2], path[|path| - 1]);
      assert CallPath(s, front) by {
        forall i | 0 <= i < |front| - 1
          ensures SubCall(s, front[i], front[i + 1])
        {
          assert SubCall(s, path[i], path[i + 1]);
        }
      }
      NestingEnds(s, front);
    }
  }

  // ------------------------------------------------------------ accepted sets and the refusal

  /** Combos served by further calls, each called for the one before: a selected member or a judge. */
  ghost predicate ServedChain(s: Snapshot, p: seq<string>) {
    && (forall i :: 0 <= i < |p| ==> Composite(s, p[i]))
    && (forall i :: 0 <= i < |p| - 1 ==> SubTarget(s, p[i], p[i + 1]))
  }

  function TargetsOf(path: seq<Call>): seq<string> {
    seq(|path|, i requires 0 <= i < |path| => path[i].target)
  }

  lemma RefusedShowsChain(s: Snapshot, path: seq<Call>)
    requires CallPath(s, path) && Refused(s, path[|path| - 1])
    ensures ServedChain(s, TargetsOf(path)) && |TargetsOf(path)| == MAX_COMBO_DEPTH + 1
  {
    NestingEnds(s, path);
    var p := TargetsOf(path);
    forall i | 0 <= i < |p|
      ensures Composite(s, p[i]) && (i < |p| - 1 ==> SubTarget(s, p[i], p[i + 1]))
    {
      if i < |p| - 1 {
        assert SubCall(s, path[i], path[i + 1]);
      }
    }
  }

  /** In a set the compiler accepted, the next of such a chain is a nested Combo or the judge. */
  lemma RowGoesByEdgeOrJudge(s: Snapshot, target: string, sub: string)
    requires Wellformed(s) && Sound(s.combos) && Composite(s, target) && Composite(s, sub) && SubTarget(s, target, sub)
    ensures Edge(s.combos, target, sub) || Judges(s, target, sub)
  {
    if !Judges(s, target, sub) {
      assert !HasSlash(sub) && target in s.combos;
      MemberIsEdge(s, target, sub);
    }
  }

  lemma RowIsChain(s: Snapshot, p: seq<string>)
    requires Wellformed(s) && Sound(s.combos) && PlainJudges(s) && ServedChain(s, p) && |p| > 0
    ensures Chain(s.combos, p) && p[0] in s.combos
  {
    forall i | 0 <= i < |p| - 1
      ensures Edge(s.combos, p[i], p[i + 1])
    {
      assert Composite(s, p[i]) && Composite(s, p[i + 1]) && SubTarget(s, p[i], p[i + 1]);
      RowGoesByEdgeOrJudge(s, p[i], p[i + 1]);
    }
    assert Composite(s, p[0]);
  }

  lemma RowIsShort(s: Snapshot, p: seq<string>)
    requires Wellformed(s) && Sound(s.combos) && PlainJudges(s) && ServedChain(s, p)
    ensures |p| <= MAX_COMBO_DEPTH
  {
    if p != [] {
      RowIsChain(s, p);
      assert SoundAt(s.combos, p[0]);
    }
  }

  /** So a Combo set the compiler accepted never meets the refusal when no judge is such a Combo. */
  lemma AcceptedIsNeverRefused(s: Snapshot, path: seq<Call>)
    requires Wellformed(s) && Sound(s.combos) && PlainJudges(s) && CallPath(s, path)
    ensures !Refused(s, path[|path| - 1])
  {
    if Refused(s, path[|path| - 1]) {
      RefusedShowsChain(s, path);
      RowIsShort(s, TargetsOf(path));
    }
  }
}
