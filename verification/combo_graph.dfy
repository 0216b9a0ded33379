/** Combos that name other Combos (internal/runtime/combo.go) as a graph. */
module ComboGraph {

  const MAX_COMBO_DEPTH: nat := 8

  datatype ComboMember = ComboMember(provider: string, model: string, selected: bool)
  {
    predicate IsCombo() { provider == "" && model != "" }
  }

  /** A Combo. `admissible` stands for the compiler's checks of everything but nesting. */
  datatype Combo = Combo(name: string, members: seq<ComboMember>, fusion: bool, judge: string, admissible: bool)

  type Combos = map<string, Combo>

  /** combos[name].Members, of the zero Combo when there is none. */
  function MembersOf(combos: Combos, name: string): seq<ComboMember> {
    if name in combos then combos[name].members else []
  }

  /** Some member of `from` names a Combo stored under that name, whose own Name is `to`. */
  ghost predicate Edge(combos: Combos, from: string, to: string) {
    exists i :: 0 <= i < |MembersOf(combos, from)| && Names(combos, MembersOf(combos, from)[i], to)
  }

  predicate Names(combos: Combos, member: ComboMember, to: string) {
    member.IsCombo() && member.model in combos && combos[member.model].name == to
  }

  /** Every nested member names a Combo. */
  predicate Known(combos: Combos, name: string) {
    forall i :: 0 <= i < |MembersOf(combos, name)| && MembersOf(combos, name)[i].IsCombo() ==> MembersOf(combos, name)[i].model in combos
  }

  /** A nesting chain: each Combo has the next among its members. */
  ghost predicate Chain(combos: Combos, p: seq<string>) {
    |p| > 0 && forall i :: 0 <= i < |p| - 1 ==> Edge(combos, p[i], p[i + 1])
  }

  predicate Distinct(p: seq<string>) { forall i, j :: 0 <= i < j < |p| ==> p[i] != p[j] }

  /** Below `name` every nested member names a Combo, no Combo comes round again, and no chain is
      longer than the limit. */
  ghost predicate SoundAt(combos: Combos, name: string) {
    forall p: seq<string> :: Chain(combos, p) && p[0] == name ==>
      Known(combos, p[|p| - 1]) && Distinct(p) && |p| <= MAX_COMBO_DEPTH
  }

  ghost predicate Sound(combos: Combos) {
    forall name :: name in combos ==> SoundAt(combos, name)
  }

  /** Every Combo is stored under its own name. */
  predicate Canonical(combos: Combos) {
    forall name :: name in combos ==> combos[name].name == name
  }

  lemma ChainJoin(combos: Combos, p: seq<string>, q: seq<string>)
    requires Chain(combos, p) && Chain(combos, q) && Edge(combos, p[|p| - 1], q[0])
    ensures Chain(combos, p + q)
  {
    var r := p + q;
    forall i | 0 <= i < |r| - 1
      ensures Edge(combos, r[i], r[i + 1])
    {
      if i < |p| - 1 {
        assert r[i] == p[i] && r[i + 1] == p[i + 1];
      } else if i >= |p| {
        assert r[i] == q[i - |p|] && r[i + 1] == q[i - |p| + 1];
      }
    }
  }

  lemma ChainTail(combos: Combos, p: seq<string>)
    requires Chain(combos, p) && |p| > 1
    ensures Chain(combos, p[1..])
  {
    forall i | 0 <= i < |p[1..]| - 1
      ensures Edge(combos, p[1..][i], p[1..][i + 1])
    {
      assert Edge(combos, p[i + 1], p[i + 2]);
    }
  }

  /** What is sound at a Combo is sound at the Combos it names. */
  lemma SoundBelow(combos: Combos, from: string, to: string)
    requires SoundAt(combos, from) && Edge(combos, from, to)
    ensures SoundAt(combos, to)
  {
    forall p: seq<string> | Chain(combos, p) && p[0] == to
      ensures Known(combos, p[|p| - 1]) && Distinct(p) && |p| <= MAX_COMBO_DEPTH
    {
      var longer := [from] + p;
      ChainJoin(combos, [from], p);
      assert Chain(combos, longer) && longer[0] == from;
      assert longer[|longer| - 1] == p[|p| - 1];
      forall i, j | 0 <= i < j < |p|
        ensures p[i] != p[j]
      {
        assert longer[i + 1] != longer[j + 1];
      }
    }
  }

  /** With every Combo under its own name an edge is a nested member. */
  lemma CanonicalEdge(combos: Combos, from: string, to: string)
    requires Canonical(combos)
    ensures Edge(combos, from, to) <==>
            to in combos && exists i :: 0 <= i < |MembersOf(combos, from)| && MembersOf(combos, from)[i].IsCombo() && MembersOf(combos, from)[i].model == to
  {
    if to in combos && exists i :: 0 <= i < |MembersOf(combos, from)| && MembersOf(combos, from)[i].IsCombo() && MembersOf(combos, from)[i].model == to {
      var i :| 0 <= i < |MembersOf(combos, from)| && MembersOf(combos, from)[i].IsCombo() && MembersOf(combos, from)[i].model == to;
      assert Names(combos, MembersOf(combos, from)[i], to);
    }
  }

  // ------------------------------------------------------------ heights

  /** Finished heights: each exceeds those of the Combos it names, so no chain outruns it. */
  ghost predicate Ranked(combos: Combos, height: map<string, int>, name: string) {
    && name in height && 1 <= height[name] <= MAX_COMBO_DEPTH
    && Known(combos, name)
    && forall to :: Edge(combos, name, to) ==> to in height && 1 <= height[to] < height[name]
  }

  lemma {:induction false} RankBoundsChain(combos: Combos, height: map<string, int>, p: seq<string>)
    requires Chain(combos, p) && p[0] in height && height[p[0]] >= 1
    requires forall name :: name in height && height[name] >= 1 ==> Ranked(combos, height, name)
    ensures |p| <= height[p[0]]
    ensures p[|p| - 1] in height && height[p[|p| - 1]] >= 1
    ensures forall i :: 0 < i < |p| ==> p[i] in height && height[p[i]] < height[p[0]]
    ensures Distinct(p)
    decreases |p|
  {
    assert Ranked(combos, height, p[0]);
    if |p| > 1 {
      assert Edge(combos, p[0], p[1]);
      ChainTail(combos, p);
      RankBoundsChain(combos, height, p[1..]);
      forall i | 0 < i < |p|
        ensures p[i] in height && height[p[i]] < height[p[0]]
      {
        if i > 1 { assert p[i] == p[1..][i - 1]; }
      }
      forall i, j | 0 <= i < j < |p|
        ensures p[i] != p[j]
      {
        if i > 0 { assert p[1..][i - 1] != p[1..][j - 1]; }
      }
    }
  }

  lemma RankedIsSound(combos: Combos, height: map<string, int>)
    requires forall name :: name in height && height[name] >= 1 ==> Ranked(combos, height, name)
    requires forall name :: name in combos ==> name in height && height[name] >= 1
    ensures Sound(combos)
  {
    forall name, p: seq<string> | name in combos && Chain(combos, p) && p[0] == name
      ensures Known(combos, p[|p| - 1]) && Distinct(p) && |p| <= MAX_COMBO_DEPTH
    {
      RankBoundsChain(combos, height, p);
      assert Ranked(combos, height, name) && Ranked(combos, height, p[|p| - 1]);
    }
  }

  // ------------------------------------------------------------ what soundness says

  /** A Combo reaches itself. */
  ghost predicate ReachesItself(combos: Combos, name: string) {
    exists p: seq<string> :: Chain(combos, p) && |p| > 1 && p[0] == name == p[|p| - 1]
  }

  lemma {:induction false} ChainStaysStored(combos: Combos, p: seq<string>)
    requires Canonical(combos) && Chain(combos, p) && p[0] in combos
    ensures forall i :: 0 <= i < |p| ==> p[i] in combos
    decreases |p|
  {
    if |p| > 1 {
      CanonicalEdge(combos, p[0], p[1]);
      ChainTail(combos, p);
      ChainStaysStored(combos, p[1..]);
      forall i | 0 < i < |p|
        ensures p[i] in combos
      {
        assert p[i] == p[1..][i - 1];
      }
    }
  }

  lemma ChainSlice(combos: Combos, p: seq<string>, i: nat, j: nat)
    requires Chain(combos, p) && i < j <= |p|
    ensures Chain(combos, p[i..j])
  {
    forall k | 0 <= k < j - i - 1
      ensures Edge(combos, p[i..j][k], p[i..j][k + 1])
    {
      assert Edge(combos, p[i + k], p[i + k + 1]);
    }
  }

  lemma SoundGives(combos: Combos, name: string)
    requires SoundAt(combos, name)
    ensures Known(combos, name) && !ReachesItself(combos, name)
  {
    assert Chain(combos, [name]) && [name][0] == name && [name][|[name]| - 1] == name;
  }

  lemma UnsoundShows(combos: Combos, name: string)
    requires Canonical(combos) && name in combos && !SoundAt(combos, name)
    ensures || (exists other :: other in combos && !Known(combos, other))
            || (exists other :: other in combos && ReachesItself(combos, other))
            || (exists p: seq<string> :: Chain(combos, p) && p[0] in combos && |p| > MAX_COMBO_DEPTH)
  {
    var p: seq<string> :| Chain(combos, p) && p[0] == name && !(Known(combos, p[|p| - 1]) && Distinct(p) && |p| <= MAX_COMBO_DEPTH);
    ChainStaysStored(combos, p);
    if !Known(combos, p[|p| - 1]) {
      assert p[|p| - 1] in combos;
    } else if !Distinct(p) {
      var i, j :| 0 <= i < j < |p| && p[i] == p[j];
      LoopReaches(combos, p, i, j);
      assert p[i] in combos;
    } else {
      assert p[0] in combos;
    }
  }

  lemma LoopReaches(combos: Combos, p: seq<string>, i: nat, j: nat)
    requires Chain(combos, p) && i < j < |p| && p[i] == p[j]
    ensures ReachesItself(combos, p[i])
  {
    ChainSlice(combos, p, i, j + 1);
    var loop := p[i..j + 1];
    assert loop[0] == p[i] && loop[|loop| - 1] == p[j];
  }

  /** With every Combo under its own name: sound means that every nested member names a Combo, no
      Combo reaches itself, and no nesting chain has more than eight Combos. */
  lemma SoundMeans(combos: Combos)
    requires Canonical(combos)
    ensures Sound(combos) <==>
            && (forall name :: name in combos ==> Known(combos, name))
            && (forall name :: name in combos ==> !ReachesItself(combos, name))
            && (forall p: seq<string> :: Chain(combos, p) && p[0] in combos ==> |p| <= 8)
  {
    if Sound(combos) {
      forall name | name in combos
        ensures Known(combos, name) && !ReachesItself(combos, name)
      {
        SoundGives(combos, name);
      }
      forall p: seq<string> | Chain(combos, p) && p[0] in combos
        ensures |p| <= MAX_COMBO_DEPTH
      {
        assert SoundAt(combos, p[0]);
      }
    } else {
      var name :| name in combos && !SoundAt(combos, name);
      UnsoundShows(combos, name);
    }
  }
}
