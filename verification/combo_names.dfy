/**
 Combos stored under their trimmed names (internal/runtime/combo.go): what the check accepts when a
 Combo's own name has space around it. The search goes on at the name, the lookups go by the key.
 */
module ComboNames {
  import opened Prelude
  import opened ComboGraph

  function TrimLeft(s: string): string {
    if s != "" && IsSpace(s[0]) then TrimLeft(s[1..]) else s
  }

  function TrimRight(s: string): string {
    if s != "" && IsSpace(s[|s| - 1]) then TrimRight(s[..|s| - 1]) else s
  }

  /** strings.TrimSpace */
  function Trim(s: string): string { TrimRight(TrimLeft(s)) }

  lemma {:induction false} LeftTrimmed(s: string)
    ensures TrimLeft(s) == "" || !IsSpace(TrimLeft(s)[0])
  {
    if s != "" && IsSpace(s[0]) {
      LeftTrimmed(s[1..]);
    }
  }

  lemma {:induction false} RightTrimmed(s: string)
    ensures TrimRight(s) <= s
    ensures TrimRight(s) == "" || !IsSpace(TrimRight(s)[|TrimRight(s)| - 1])
  {
    if s != "" && IsSpace(s[|s| - 1]) {
      RightTrimmed(s[..|s| - 1]);
    }
  }

  lemma TrimTwice(s: string)
    ensures Trim(Trim(s)) == Trim(s)
  {
    LeftTrimmed(s);
    RightTrimmed(TrimLeft(s));
  }

  /** compileCombos stores every Combo under its trimmed name. */
  predicate Compiled(combos: Combos) {
    forall key :: key in combos ==> key == Trim(combos[key].name)
  }

  /** The Combo stored under this key has it for its name. */
  predicate Own(combos: Combos, key: string) {
    key in combos && combos[key].name == key
  }

  /** A name something is stored under is the key of its own Combo. */
  lemma StoredNameIsKey(combos: Combos, key: string)
    requires Compiled(combos) && key in combos && combos[key].name in combos
    ensures Own(combos, key)
  {
    var name := combos[key].name;
    TrimTwice(combos[name].name);
  }

  /** A member of the Combo stored under `from` names the Combo stored under `to`. */
  ghost predicate KeyEdge(combos: Combos, from: string, to: string) {
    to in combos && exists i :: 0 <= i < |MembersOf(combos, from)| && MembersOf(combos, from)[i].IsCombo() && MembersOf(combos, from)[i].model == to
  }

  /** Nesting as the server follows it: by key. */
  ghost predicate KeyChain(combos: Combos, q: seq<string>) {
    && |q| > 0 && (forall i :: 0 <= i < |q| ==> q[i] in combos)
    && forall i :: 0 <= i < |q| - 1 ==> KeyEdge(combos, q[i], q[i + 1])
  }

  /** The Combos strictly inside the chain have their keys for names. */
  predicate InsideOwn(combos: Combos, q: seq<string>) {
    forall i :: 0 < i < |q| - 1 ==> Own(combos, q[i])
  }

  /** The search has reached the end of the chain itself, not a name nothing is stored under. */
  predicate Reached(combos: Combos, q: seq<string>)
    requires |q| > 0
  {
    |q| == 1 || Own(combos, q[|q| - 1])
  }

  /** What the check asks of every nesting chain it can follow. */
  ghost predicate KeySound(combos: Combos) {
    forall q: seq<string> :: KeyChain(combos, q) && InsideOwn(combos, q) ==>
      |q| <= MAX_COMBO_DEPTH && (Reached(combos, q) ==> Known(combos, q[|q| - 1]) && Distinct(q))
  }

  /** The search's chain for a chain of keys: the same, with the last Combo's name at the end. */
  function Searched(combos: Combos, q: seq<string>): seq<string>
    requires |q| > 0 && q[|q| - 1] in combos
  {
    if |q| == 1 then q else q[..|q| - 1] + [combos[q[|q| - 1]].name]
  }

  lemma SearchedIsChain(combos: Combos, q: seq<string>)
    requires KeyChain(combos, q) && InsideOwn(combos, q)
    ensures Chain(combos, Searched(combos, q)) && |Searched(combos, q)| == |q| && Searched(combos, q)[0] == q[0]
    ensures Reached(combos, q) ==> Searched(combos, q) == q
  {
    var p := Searched(combos, q);
    forall i | 0 <= i < |p| - 1
      ensures Edge(combos, p[i], p[i + 1])
    {
      assert p[i] == q[i] && KeyEdge(combos, q[i], q[i + 1]);
      var k :| 0 <= k < |MembersOf(combos, q[i])| && MembersOf(combos, q[i])[k].IsCombo() && MembersOf(combos, q[i])[k].model == q[i + 1];
      assert p[i + 1] == combos[q[i + 1]].name;
      assert Names(combos, MembersOf(combos, p[i])[k], p[i + 1]);
    }
  }

  /** The key behind one step of the search. */
  lemma EdgeKey(combos: Combos, from: string, to: string) returns (key: string)
    requires Compiled(combos) && Edge(combos, from, to)
    ensures key in combos && combos[key].name == to && KeyEdge(combos, from, key) && from in combos
    ensures to in combos ==> key == to && Own(combos, to)
  {
    var i :| 0 <= i < |MembersOf(combos, from)| && Names(combos, MembersOf(combos, from)[i], to);
    key := MembersOf(combos, from)[i].model;
    if to in combos {
      StoredNameIsKey(combos, key);
    }
  }

  /** The i-th name of a chain of the search is stored, under its own name if it is not the start. */
  ghost predicate StoredAt(combos: Combos, p: seq<string>, i: nat)
    requires i < |p|
  {
    p[i] in combos && (i > 0 ==> Own(combos, p[i]) && KeyEdge(combos, p[i - 1], p[i]))
  }

  lemma InnerIsStored(combos: Combos, p: seq<string>, i: nat)
    requires Compiled(combos) && Chain(combos, p) && p[0] in combos && i < |p|
    requires i < |p| - 1 || p[i] in combos
    ensures StoredAt(combos, p, i)
  {
    if i < |p| - 1 {
      assert Edge(combos, p[i], p[i + 1]);
      var next := EdgeKey(combos, p[i], p[i + 1]);
    }
    if i > 0 {
      assert Edge(combos, p[i - 1], p[i]);
      var key := EdgeKey(combos, p[i - 1], p[i]);
    }
  }

  /** All but the end of a chain of the search is stored. */
  lemma ChainIsStored(combos: Combos, p: seq<string>)
    requires Compiled(combos) && Chain(combos, p) && p[0] in combos
    ensures forall i :: 0 <= i < |p| - 1 ==> StoredAt(combos, p, i)
    ensures p[|p| - 1] in combos ==> StoredAt(combos, p, |p| - 1)
  {
    forall i | 0 <= i < |p| && (i < |p| - 1 || p[i] in combos)
      ensures StoredAt(combos, p, i)
    {
      InnerIsStored(combos, p, i);
    }
  }

  lemma StoredIsKeyChain(combos: Combos, p: seq<string>)
    requires |p| > 0 && forall i :: 0 <= i < |p| ==> StoredAt(combos, p, i)
    ensures KeyChain(combos, p) && InsideOwn(combos, p) && Reached(combos, p)
  {
    forall i | 0 <= i < |p|
      ensures p[i] in combos && (i > 0 ==> Own(combos, p[i]))
    {
      assert StoredAt(combos, p, i);
    }
    forall i | 0 <= i < |p| - 1
      ensures KeyEdge(combos, p[i], p[i + 1])
    {
      assert StoredAt(combos, p, i + 1);
    }
  }

  lemma ChainPrefix(combos: Combos, p: seq<string>, n: nat)
    requires Chain(combos, p) && 0 < n <= |p|
    ensures Chain(combos, p[..n])
  {
    forall i | 0 <= i < n - 1
      ensures Edge(combos, p[..n][i], p[..n][i + 1])
    {
      assert Edge(combos, p[i], p[i + 1]);
    }
  }

  /** A chain of the search that ends at a stored name is a chain of keys. */
  lemma StoredChain(combos: Combos, p: seq<string>)
    requires Compiled(combos) && Chain(combos, p) && p[0] in combos && p[|p| - 1] in combos
    ensures KeyChain(combos, p) && InsideOwn(combos, p) && Reached(combos, p)
  {
    ChainIsStored(combos, p);
    StoredIsKeyChain(combos, p);
  }

  /** One more key at the end of a chain of keys reached by the search. */
  lemma OneMoreKey(combos: Combos, q: seq<string>, key: string)
    requires KeyChain(combos, q) && InsideOwn(combos, q) && Reached(combos, q) && KeyEdge(combos, q[|q| - 1], key)
    ensures KeyChain(combos, q + [key]) && InsideOwn(combos, q + [key])
  {
    var longer := q + [key];
    forall i | 0 <= i < |longer| - 1
      ensures KeyEdge(combos, longer[i], longer[i + 1])
    {
      if i < |q| - 1 {
        assert longer[i] == q[i] && longer[i + 1] == q[i + 1];
      }
    }
    forall i | 0 < i < |longer| - 1
      ensures Own(combos, longer[i])
    {
      assert longer[i] == q[i];
    }
  }

  /** A chain of the search that ends at a name not stored goes through stored ones, and its end's key can
      follow them. */
  lemma UnstoredEnd(combos: Combos, p: seq<string>)
    requires Compiled(combos) && Chain(combos, p) && p[0] in combos && p[|p| - 1] !in combos
    ensures var n := |p| - 1;
            && n > 0 && KeyChain(combos, p[..n]) && InsideOwn(combos, p[..n]) && Reached(combos, p[..n]) && Edge(combos, p[n - 1], p[n])
            && forall i :: 0 <= i < n ==> p[i] in combos
  {
    var n := |p| - 1;
    ChainPrefix(combos, p, n);
    ChainIsStored(combos, p);
    forall i | 0 <= i < n
      ensures p[i] in combos
    {
      assert StoredAt(combos, p, i);
    }
    StoredChain(combos, p[..n]);
    assert Edge(combos, p[n - 1], p[n]);
  }

  lemma ChainMeetsKeySound(combos: Combos, p: seq<string>)
    requires Compiled(combos) && KeySound(combos) && Chain(combos, p) && p[0] in combos
    ensures Known(combos, p[|p| - 1]) && Distinct(p) && |p| <= MAX_COMBO_DEPTH
  {
    if p[|p| - 1] in combos {
      StoredChain(combos, p);
    } else {
      var n := |p| - 1;
      UnstoredEnd(combos, p);
      UnstoredEndKeySound(combos, p[..n], p[n]);
      assert p[..n] + [p[n]] == p;
      UnstoredDistinct(combos, p[..n], p[n]);
    }
  }

  lemma UnstoredDistinct(combos: Combos, front: seq<string>, end: string)
    requires Distinct(front) && end !in combos && forall i :: 0 <= i < |front| ==> front[i] in combos
    ensures Distinct(front + [end])
  {
  }

  lemma UnstoredEndKeySound(combos: Combos, front: seq<string>, end: string)
    requires Compiled(combos) && KeySound(combos) && KeyChain(combos, front) && InsideOwn(combos, front) && Reached(combos, front)
    requires Edge(combos, front[|front| - 1], end) && end !in combos
    ensures Known(combos, end) && Distinct(front) && |front| + 1 <= MAX_COMBO_DEPTH
  {
    var key := EdgeKey(combos, front[|front| - 1], end);
    OneMoreKey(combos, front, key);
    assert |front + [key]| == |front| + 1;
  }

  /** For every compiled set: the check accepts exactly when every chain of keys whose inner Combos have
      their keys for names is short enough, and, where its end has too, is distinct and leaves no name
      unknown. */
  lemma AcceptedIff(combos: Combos)
    requires Compiled(combos)
    ensures Sound(combos) <==> KeySound(combos)
  {
    if Sound(combos) {
      forall q: seq<string> | KeyChain(combos, q) && InsideOwn(combos, q)
        ensures |q| <= MAX_COMBO_DEPTH && (Reached(combos, q) ==> Known(combos, q[|q| - 1]) && Distinct(q))
      {
        SearchedIsChain(combos, q);
        assert SoundAt(combos, q[0]);
      }
    }
    if KeySound(combos) {
      forall name, p: seq<string> | name in combos && Chain(combos, p) && p[0] == name
        ensures Known(combos, p[|p| - 1]) && Distinct(p) && |p| <= MAX_COMBO_DEPTH
      {
        ChainMeetsKeySound(combos, p);
      }
    }
  }

  lemma OwnCycleRefused(combos: Combos, q: seq<string>)
    requires Compiled(combos) && KeyChain(combos, q) && |q| > 1 && q[0] == q[|q| - 1]
    requires forall i :: 0 <= i < |q| ==> Own(combos, q[i])
    ensures !Sound(combos)
  {
    AcceptedIff(combos);
    assert InsideOwn(combos, q) && Reached(combos, q);
  }

  /** A Combo that comes round again in an accepted set does so only through a Combo stored under another
      name than its own. */
  lemma HiddenCycleHasUntrimmedName(combos: Combos, q: seq<string>)
    requires Compiled(combos) && Sound(combos) && KeyChain(combos, q) && |q| > 1 && q[0] == q[|q| - 1]
    ensures exists i :: 0 <= i < |q| && !Own(combos, q[i])
  {
    if forall i :: 0 <= i < |q| ==> Own(combos, q[i]) {
      OwnCycleRefused(combos, q);
    }
  }

  /** The Combo that names itself. */
  function SelfNested(name: string): Combos {
    map[Trim(name) := Combo(name, [ComboMember("", Trim(name), true)], false, "", true)]
  }

  lemma SelfNestedComesRound(name: string)
    requires Trim(name) != ""
    ensures Compiled(SelfNested(name)) && KeyChain(SelfNested(name), [Trim(name), Trim(name)])
  {
    var combos, key := SelfNested(name), Trim(name);
    assert MembersOf(combos, key)[0].IsCombo() && MembersOf(combos, key)[0].model == key;
    assert KeyEdge(combos, key, key);
  }

  /** It is accepted exactly when its name has space around it. */
  lemma SelfNestedAcceptedIff(name: string)
    requires Trim(name) != ""
    ensures Sound(SelfNested(name)) <==> Trim(name) != name
  {
    var combos, key := SelfNested(name), Trim(name);
    SelfNestedComesRound(name);
    AcceptedIff(combos);
    if key == name {
      OwnCycleRefused(combos, [key, key]);
    } else {
      forall q: seq<string> | KeyChain(combos, q) && InsideOwn(combos, q)
        ensures |q| <= MAX_COMBO_DEPTH && (Reached(combos, q) ==> Known(combos, q[|q| - 1]) && Distinct(q))
      {
        assert |q| > 2 ==> Own(combos, q[1]);
        assert Reached(combos, q) ==> |q| == 1;
      }
    }
  }
}
