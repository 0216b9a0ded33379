/**
 checkNestedCombos (internal/runtime/combo.go): the memoised depth-first search over Combos that
 name other Combos, and what its verdict means.
 */
module ComboCheck {
  import opened Prelude
  import opened ComboGraph

  datatype Refusal = Cycle(name: string) | Unknown(combo: string, member: string) | TooDeep(name: string)

  /** Every name the search can visit. */
  function Universe(combos: Combos): set<string> {
    combos.Keys + (set name | name in combos :: combos[name].name)
  }

  // Heights found so far: absent is unvisited, -1 on the current path, otherwise finished.
  type Heights = map<string, int>

  /** `path` is the current path: a chain from a stored Combo, the only names marked -1. */
  ghost predicate OnPath(combos: Combos, height: Heights, path: seq<string>) {
    && (path != [] ==> Chain(combos, path) && path[0] in combos)
    && (forall i :: 0 <= i < |path| ==> path[i] in height && height[path[i]] == -1)
    && (forall name :: name in height && height[name] < 1 ==> name in path)
  }

  /** Finished heights are the longest chains below their Combos. */
  ghost predicate Finished(combos: Combos, height: Heights) {
    && height.Keys <= Universe(combos)
    && (forall name :: name in height && height[name] >= 1 ==> Ranked(combos, height, name) && Reached(combos, name, height[name]))
  }

  ghost predicate Reached(combos: Combos, name: string, length: int) {
    exists p: seq<string> :: Chain(combos, p) && p[0] == name && |p| == length
  }

  /** Names already in `before` keep their heights in `after`. */
  ghost predicate Grows(before: Heights, after: Heights) {
    forall name :: name in before ==> name in after && after[name] == before[name]
  }

  /** The Combos named by the first `count` members are finished, none higher than `deepest`. */
  ghost predicate Done(combos: Combos, height: Heights, members: seq<ComboMember>, count: nat, deepest: int)
    requires count <= |members|
  {
    forall k :: 0 <= k < count && members[k].IsCombo() ==>
      members[k].model in combos && var to := combos[members[k].model].name; to in height && 1 <= height[to] <= deepest
  }

  /** A chain that shows the Combos are not sound. */
  lemma Fault(combos: Combos, p: seq<string>)
    requires Chain(combos, p) && p[0] in combos
    requires !(Known(combos, p[|p| - 1]) && Distinct(p) && |p| <= MAX_COMBO_DEPTH)
    ensures !Sound(combos)
  {
    assert !SoundAt(combos, p[0]);
  }

  ghost predicate Leads(combos: Combos, path: seq<string>, name: string) {
    if path == [] then name in combos else Chain(combos, path) && path[0] in combos && Edge(combos, path[|path| - 1], name)
  }

  lemma Extend(combos: Combos, path: seq<string>, p: seq<string>)
    requires Chain(combos, p) && Leads(combos, path, p[0])
    ensures Chain(combos, path + p) && (path + p)[0] in combos
  {
    if path == [] {
      assert path + p == p;
    } else {
      ChainJoin(combos, path, p);
    }
  }

  lemma CycleFault(combos: Combos, height: Heights, path: seq<string>, name: string)
    requires OnPath(combos, height, path) && Leads(combos, path, name) && name in height && height[name] == -1
    ensures !Sound(combos)
  {
    assert name in path;
    var k :| 0 <= k < |path| && path[k] == name;
    var p := path + [name];
    Extend(combos, path, [name]);
    assert p[k] == p[|path|];
    Fault(combos, p);
  }

  lemma UnknownFault(combos: Combos, path: seq<string>, name: string, i: nat)
    requires Leads(combos, path, name) && i < |MembersOf(combos, name)|
    requires MembersOf(combos, name)[i].IsCombo() && MembersOf(combos, name)[i].model !in combos
    ensures !Sound(combos)
  {
    Extend(combos, path, [name]);
    assert (path + [name])[|path|] == name && !Known(combos, name);
    Fault(combos, path + [name]);
  }

  lemma DeepFault(combos: Combos, path: seq<string>, chain: seq<string>)
    requires Chain(combos, chain) && Leads(combos, path, chain[0]) && |chain| > MAX_COMBO_DEPTH
    ensures !Sound(combos)
  {
    Extend(combos, path, chain);
    Fault(combos, path + chain);
  }

  /** Marking a Combo as on the path. */
  lemma Enter(combos: Combos, height: Heights, path: seq<string>, name: string)
    requires OnPath(combos, height, path) && Finished(combos, height) && Leads(combos, path, name)
    requires name in Universe(combos) && name !in height
    ensures OnPath(combos, height[name := -1], path + [name]) && Finished(combos, height[name := -1])
  {
    var marked := height[name := -1];
    Extend(combos, path, [name]);
    forall other | other in marked && marked[other] >= 1
      ensures Ranked(combos, marked, other) && Reached(combos, other, marked[other])
    {
      assert Ranked(combos, height, other);
    }
  }

  /** How many names are unvisited. */
  ghost function Unvisited(combos: Combos, height: Heights): nat { |Universe(combos) - height.Keys| }

  lemma FewerUnvisited(combos: Combos, before: Heights, name: string, after: Heights)
    requires name in Universe(combos) && name !in before && Grows(before[name := -1], after)
    ensures Unvisited(combos, after) < Unvisited(combos, before)
  {
    var all := Universe(combos);
    assert name in after;
    assert before.Keys <= after.Keys;
    SmallerSet(all - after.Keys, all - before.Keys);
  }

  lemma StillUnvisited(combos: Combos, before: Heights, after: Heights)
    requires Grows(before, after)
    ensures Unvisited(combos, after) <= Unvisited(combos, before)
  {
    assert before.Keys <= after.Keys;
    SubsetSize(Universe(combos) - after.Keys, Universe(combos) - before.Keys);
  }

  lemma OthersStayRanked(combos: Combos, height: Heights, name: string, rank: nat)
    requires Finished(combos, height) && (name in height ==> height[name] == -1)
    ensures forall other :: other in height && other != name && height[other] >= 1 ==>
              Ranked(combos, height[name := rank], other) && Reached(combos, other, height[other])
  {
    forall other | other in height && other != name && height[other] >= 1
      ensures Ranked(combos, height[name := rank], other) && Reached(combos, other, height[other])
    {
      assert Ranked(combos, height, other);
    }
  }

  /** The Combo whose members are all finished is ranked above them. */
  lemma NowRanked(combos: Combos, height: Heights, name: string, deepest: nat)
    requires name in height && height[name] == -1 && deepest + 1 <= MAX_COMBO_DEPTH
    requires Done(combos, height, MembersOf(combos, name), |MembersOf(combos, name)|, deepest)
    ensures Ranked(combos, height[name := deepest + 1], name)
  {
    var left := height[name := deepest + 1];
    forall to | Edge(combos, name, to)
      ensures to in left && 1 <= left[to] < deepest + 1
    {
      var k :| 0 <= k < |MembersOf(combos, name)| && Names(combos, MembersOf(combos, name)[k], to);
    }
  }

  lemma OffPath(combos: Combos, before: Heights, height: Heights, path: seq<string>, name: string, rank: nat)
    requires OnPath(combos, before, path) && name !in before && OnPath(combos, height, path + [name]) && rank >= 1
    ensures OnPath(combos, height[name := rank], path) && name in height && height[name] == -1
  {
    assert (path + [name])[|path|] == name && name !in path;
    forall i | 0 <= i < |path|
      ensures path[i] in height && height[path[i]] == -1 && path[i] != name
    {
      assert (path + [name])[i] == path[i];
    }
  }

  /** Recording a height takes its Combo off the path and keeps what is known of the others. */
  lemma Leave(combos: Combos, before: Heights, height: Heights, path: seq<string>, name: string, deepest: nat, chain: seq<string>)
    requires OnPath(combos, before, path) && name !in before && Grows(before[name := -1], height)
    requires OnPath(combos, height, path + [name]) && Finished(combos, height) && deepest + 1 <= MAX_COMBO_DEPTH
    requires Chain(combos, chain) && chain[0] == name && |chain| == deepest + 1
    requires Done(combos, height, MembersOf(combos, name), |MembersOf(combos, name)|, deepest)
    ensures OnPath(combos, height[name := deepest + 1], path) && Finished(combos, height[name := deepest + 1])
    ensures Grows(before, height[name := deepest + 1])
  {
    OffPath(combos, before, height, path, name, deepest + 1);
    NowRanked(combos, height, name, deepest);
    assert Reached(combos, name, deepest + 1);
    OthersStayRanked(combos, height, name, deepest + 1);
    assert (height[name := deepest + 1]).Keys == height.Keys;
  }

  class Search {
    const combos: Combos
    var height: Heights

    constructor (combos: Combos)
      ensures this.combos == combos && height == map[]
    {
      this.combos := combos;
      height := map[];
    }

    /** The recursive visit. On success the Combo's height is the longest chain from it. */
    method Visit(name: string, ghost path: seq<string>) returns (result: int, refusal: Option<Refusal>)
      requires OnPath(combos, height, path) && Finished(combos, height) && Leads(combos, path, name) && name in Universe(combos)
      modifies this
      ensures refusal.Some? ==> !Sound(combos)
      ensures refusal.None? ==> OnPath(combos, height, path) && Finished(combos, height) && Grows(old(height), height)
      ensures refusal.None? ==> name in height && height[name] == result >= 1
      decreases Unvisited(combos, height), 0
    {
      if name in height {
        if height[name] == -1 {
          CycleFault(combos, height, path, name);
          return 0, Some(Cycle(name));
        }
        return height[name], None;
      }
      Enter(combos, height, path, name);
      height := height[name := -1];
      FewerUnvisited(combos, old(height), name, height);
      var deepest;
      ghost var chain;
      deepest, refusal, chain := VisitMembers(name, path);
      if refusal.Some? {
        return 0, refusal;
      }
      if deepest + 1 > MAX_COMBO_DEPTH {
        DeepFault(combos, path, chain);
        height := height[name := deepest + 1];
        return 0, Some(TooDeep(name));
      }
      Leave(combos, old(height), height, path, name, deepest, chain);
      height := height[name := deepest + 1];
      return deepest + 1, None;
    }

    /** The visit's loop over the members of the Combo at the end of the path. */
    method VisitMembers(name: string, ghost path: seq<string>)
      returns (deepest: nat, refusal: Option<Refusal>, ghost chain: seq<string>)
      requires OnPath(combos, height, path + [name]) && Finished(combos, height) && Leads(combos, path, name)
      modifies this
      ensures refusal.Some? ==> !Sound(combos)
      ensures refusal.None? ==> OnPath(combos, height, path + [name]) && Finished(combos, height) && Grows(old(height), height)
      ensures refusal.None? ==> Done(combos, height, MembersOf(combos, name), |MembersOf(combos, name)|, deepest)
      ensures refusal.None? ==> Chain(combos, chain) && chain[0] == name && |chain| == deepest + 1
      decreases Unvisited(combos, height), 2
    {
      deepest, refusal, chain := 0, None, [name];
      var members := MembersOf(combos, name);
      var i := 0;
      while i < |members|
        invariant 0 <= i <= |members| && refusal.None?
        invariant OnPath(combos, height, path + [name]) && Finished(combos, height) && Grows(old(height), height)
        invariant Done(combos, height, members, i, deepest)
        invariant Chain(combos, chain) && chain[0] == name && |chain| == deepest + 1
      {
        StillUnvisited(combos, old(height), height);
        deepest, refusal, chain := VisitMember(name, i, deepest, path, chain);
        if refusal.Some? {
          return;
        }
        i := i + 1;
      }
    }

    /** One member of the visit's loop. `chain` is a longest chain found so far. */
    method VisitMember(name: string, i: nat, deepest: nat, ghost path: seq<string>, ghost chain: seq<string>)
      returns (deeper: nat, refusal: Option<Refusal>, ghost longest: seq<string>)
      requires i < |MembersOf(combos, name)|
      requires OnPath(combos, height, path + [name]) && Finished(combos, height) && Leads(combos, path, name)
      requires Done(combos, height, MembersOf(combos, name), i, deepest)
      requires Chain(combos, chain) && chain[0] == name && |chain| == deepest + 1
      modifies this
      ensures refusal.Some? ==> !Sound(combos)
      ensures refusal.None? ==> OnPath(combos, height, path + [name]) && Finished(combos, height) && Grows(old(height), height)
      ensures refusal.None? ==> Done(combos, height, MembersOf(combos, name), i + 1, deeper)
      ensures refusal.None? ==> Chain(combos, longest) && longest[0] == name && |longest| == deeper + 1
      decreases Unvisited(combos, height), 1
    {
      deeper, refusal, longest := deepest, None, chain;
      var member := MembersOf(combos, name)[i];
      if !member.IsCombo() {
        return;
      }
      if member.model !in combos {
        UnknownFault(combos, path, name, i);
        return deepest, Some(Unknown(name, member.model)), chain;
      }
      var inner := combos[member.model];
      Step(combos, path, name, i);
      var h;
      h, refusal := Visit(inner.name, path + [name]);
      if refusal.None? {
        MemberDone(combos, old(height), height, MembersOf(combos, name), i, deepest);
        if h > deepest {
          deeper := h;
          longest := Longest(combos, height, name, inner.name);
        }
      }
    }
  }

  /** One member more whose Combo is finished. */
  lemma MemberDone(combos: Combos, before: Heights, after: Heights, members: seq<ComboMember>, i: nat, deepest: int)
    requires i < |members| && Done(combos, before, members, i, deepest) && Grows(before, after)
    requires members[i].IsCombo() && members[i].model in combos
    requires combos[members[i].model].name in after && after[combos[members[i].model].name] >= 1
    ensures var h := after[combos[members[i].model].name]; Done(combos, after, members, i + 1, if h > deepest then h else deepest)
  {
  }

  /** A nested member is an edge, and the path with its Combo leads to it. */
  lemma Step(combos: Combos, path: seq<string>, name: string, i: nat)
    requires Leads(combos, path, name) && i < |MembersOf(combos, name)|
    requires MembersOf(combos, name)[i].IsCombo() && MembersOf(combos, name)[i].model in combos
    ensures var to := combos[MembersOf(combos, name)[i].model].name;
            Edge(combos, name, to) && Leads(combos, path + [name], to) && to in Universe(combos)
  {
    var to := combos[MembersOf(combos, name)[i].model].name;
    assert Names(combos, MembersOf(combos, name)[i], to);
    Extend(combos, path, [name]);
    assert (path + [name])[|path|] == name;
  }

  /** A longest chain from `to`, with `name` before it. */
  lemma Longest(combos: Combos, height: Heights, name: string, to: string) returns (chain: seq<string>)
    requires Finished(combos, height) && Edge(combos, name, to) && to in height && height[to] >= 1
    ensures Chain(combos, chain) && chain[0] == name && |chain| == height[to] + 1
  {
    assert Reached(combos, to, height[to]);
    var p: seq<string> :| Chain(combos, p) && p[0] == to && |p| == height[to];
    ChainJoin(combos, [name], p);
    chain := [name] + p;
  }

  lemma SmallerSet<T>(a: set<T>, b: set<T>)
    requires a < b
    ensures |a| < |b|
  {
    var x: T :| x in b && x !in a;
    SubsetSize(a, b - {x});
  }

  lemma {:induction false} SubsetSize<T>(a: set<T>, b: set<T>)
    requires a <= b
    ensures |a| <= |b|
    decreases |a|
  {
    if a != {} {
      var x :| x in a;
      SubsetSize(a - {x}, b - {x});
    }
  }

  /** The check accepts exactly the sound Combos, whatever order it visits them in. */
  method CheckNestedCombos(combos: Combos, order: seq<string>) returns (refusal: Option<Refusal>)
    requires forall name :: name in combos <==> name in order
    ensures refusal.None? <==> Sound(combos)
  {
    var search := new Search(combos);
    refusal := None;
    var i := 0;
    while i < |order|
      invariant 0 <= i <= |order|
      invariant fresh(search) && search.combos == combos
      invariant refusal.None? && OnPath(combos, search.height, []) && Finished(combos, search.height)
      invariant forall k :: 0 <= k < i ==> order[k] in search.height && search.height[order[k]] >= 1
    {
      assert order[i] in combos && order[i] in Universe(combos);
      var h;
      h, refusal := search.Visit(order[i], []);
      if refusal.Some? {
        return;
      }
      i := i + 1;
    }
    RankedIsSound(combos, search.height);
  }
}
