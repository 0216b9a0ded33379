/**
 The usage scanner agrees with the JSON grammar: run over the text of any syntax tree it finds the
 value of the first top-level member that is an object and whose key reads "usage".
 */
module UsageGrammar {
  import opened Prelude
  import opened JsonText
  import opened UsageCapture

  /** What the scanner reads of a key: escape sequences lose their backslash and next byte. */
  function Read(items: seq<Item>): seq<Byte> {
    if items == [] then [] else ReadItem(items[0]) + Read(items[1..])
  }

  function ReadItem(item: Item): seq<Byte> {
    match item case Plain(b) => [b] case Escape(_) => [] case Unicode(hex) => hex
  }

  /** The text of the first member whose key is read as "usage" and whose value is an object. */
  function FirstUsage(ms: Members): Option<seq<Byte>> {
    match ms
    case NoMembers => None
    case Member(_, key, _, _, value, _, rest) =>
      if Read(key) == USAGE && value.Obj? then Some(ValueText(value)) else FirstUsage(rest)
  }

  function TopLevelUsage(d: Document): Option<seq<Byte>> {
    if d.value.Obj? then FirstUsage(d.value.members) else None
  }

  // ------------------------------------------------------------ runs over pieces of text

  function Kept(s: Scan, p: seq<Byte>): Scan { if s.capturing then s.(buf := s.buf + p) else s }

  lemma KeptTwice(s: Scan, p: seq<Byte>, q: seq<Byte>)
    ensures Kept(Kept(s, p), q) == Kept(s, p + q)
  {
    assert s.buf + p + q == s.buf + (p + q);
  }

  lemma KeptNothing(s: Scan)
    ensures Kept(s, []) == s
  {
    assert s.buf + [] == s.buf;
  }

  /** Runs that only append to the kept bytes compose. */
  lemma KeepOn(s: Scan, p: seq<Byte>, q: seq<Byte>)
    requires Free(s, p) == Kept(s, p) && Free(Kept(s, p), q) == Kept(Kept(s, p), q)
    ensures Free(s, p + q) == Kept(s, p + q)
  {
    FreeAppend(s, p, q);
    KeptTwice(s, p, q);
  }

  lemma One(s: Scan, b: Byte)
    requires !s.done
    ensures Free(s, [b]) == FreeStep(s, b)
  {
    assert [b][1..] == [];
  }

  lemma {:induction false} SpaceRun(s: Scan, ws: seq<Byte>)
    requires AllWs(ws) && !s.inString && !s.done
    ensures Free(s, ws) == Kept(s, ws)
    decreases |ws|
  {
    KeptNothing(s);
    if ws != [] {
      assert FreeStep(s, ws[0]) == Kept(s, [ws[0]]);
      SpaceRun(Kept(s, [ws[0]]), ws[1..]);
      KeptTwice(s, [ws[0]], ws[1..]);
      assert [ws[0]] + ws[1..] == ws;
    }
  }

  /** Where a string is not a top-level key. */
  predicate NoKey(s: Scan) { !(s.depth == 1 && s.expectKey) }

  lemma ItemRun(s: Scan, i: Item)
    requires ItemOk(i) && s.inString && !s.escaped && !s.done && NoKey(s)
    ensures Free(s, ItemText(i)) == Kept(s, ItemText(i))
  {
    match i
    case Plain(b) => One(s, b);
    case Escape(l) => EscapeRun(s, l);
    case Unicode(hex) =>
      EscapeRun(s, 0x75);
      var t := Kept(s, [BACKSLASH, 0x75]);
      HexRun(t, hex);
      KeepOn(s, [BACKSLASH, 0x75], hex);
  }

  lemma EscapeRun(s: Scan, l: Byte)
    requires s.inString && !s.escaped && !s.done
    ensures Free(s, [BACKSLASH, l]) == Kept(s, [BACKSLASH, l])
  {
    var t := Kept(s, [BACKSLASH]).(escaped := true);
    assert FreeStep(s, BACKSLASH) == t;
    assert FreeStep(t, l) == Kept(t, [l]).(escaped := false);
    assert [BACKSLASH, l][1..] == [l];
    One(t, l);
    KeptTwice(s, [BACKSLASH], [l]);
    assert [BACKSLASH] + [l] == [BACKSLASH, l];
  }

  lemma {:induction false} HexRun(s: Scan, hex: seq<Byte>)
    requires (forall k :: 0 <= k < |hex| ==> IsHex(hex[k])) && s.inString && !s.escaped && !s.done && NoKey(s)
    ensures Free(s, hex) == Kept(s, hex)
    decreases |hex|
  {
    KeptNothing(s);
    if hex != [] {
      assert FreeStep(s, hex[0]) == Kept(s, [hex[0]]);
      HexRun(Kept(s, [hex[0]]), hex[1..]);
      KeptTwice(s, [hex[0]], hex[1..]);
      assert [hex[0]] + hex[1..] == hex;
    }
  }

  lemma {:induction false} ItemsRun(s: Scan, items: seq<Item>)
    requires ItemsOk(items) && s.inString && !s.escaped && !s.done && NoKey(s)
    ensures Free(s, ItemsText(items)) == Kept(s, ItemsText(items))
    decreases |items|
  {
    KeptNothing(s);
    if items != [] {
      ItemRun(s, items[0]);
      ItemsRun(Kept(s, ItemText(items[0])), items[1..]);
      KeepOn(s, ItemText(items[0]), ItemsText(items[1..]));
    }
  }

  lemma StringRun(s: Scan, items: seq<Item>)
    requires ItemsOk(items) && !s.inString && !s.escaped && !s.done && NoKey(s)
    ensures Free(s, StringText(items)) == Kept(s, StringText(items))
  {
    var t := Kept(s, [QUOTE]).(inString := true);
    One(s, QUOTE);
    assert FreeStep(s, QUOTE) == t;
    ItemsRun(t, items);
    var u := Kept(t, ItemsText(items));
    One(u, QUOTE);
    assert FreeStep(u, QUOTE) == Kept(u, [QUOTE]).(inString := false);
    FreeAppend(s, [QUOTE], ItemsText(items));
    FreeAppend(s, [QUOTE] + ItemsText(items), [QUOTE]);
    KeptTwice(s, [QUOTE], ItemsText(items));
    KeptTwice(s, [QUOTE] + ItemsText(items), [QUOTE]);
  }

  /** Bytes of words and numbers. */
  predicate Dull(b: Byte) {
    b != QUOTE && b != LBRACE && b != RBRACE && b != LBRACKET && b != RBRACKET && b != COMMA && b != COLON && !IsWs(b)
  }

  lemma {:induction false} DullRun(s: Scan, p: seq<Byte>)
    requires (forall k :: 0 <= k < |p| ==> Dull(p[k])) && !s.inString && !s.done
    ensures Free(s, p) == if s.depth == 1 && p != [] then Kept(s, p).(afterKey := false) else Kept(s, p)
    decreases |p|
  {
    KeptNothing(s);
    if p != [] {
      var t := FreeStep(s, p[0]);
      assert t == if s.depth == 1 then Kept(s, [p[0]]).(afterKey := false) else Kept(s, [p[0]]);
      DullRun(t, p[1..]);
      KeptTwice(s, [p[0]], p[1..]);
      assert [p[0]] + p[1..] == p;
    }
  }

  lemma ScalarText(v: Value)
    requires ValueOk(v) && (v.Word? || v.Num?)
    ensures ValueText(v) != [] && forall k :: 0 <= k < |ValueText(v)| ==> Dull(ValueText(v)[k])
  {
    if v.Num? {
      var n := v.number;
      var head := (if n.negative then [0x2D] else []) + n.integer;
      var fraction := match n.fraction { case None => [] case Some(digits) => [0x2E] + digits };
      var exponent := match n.exponent { case None => [] case Some(e) => [e.0] + e.1 + e.2 };
      assert forall k :: 0 <= k < |head| ==> Dull(head[k]);
      assert forall k :: 0 <= k < |fraction| ==> Dull(fraction[k]);
      assert forall k :: 0 <= k < |exponent| ==> Dull(exponent[k]);
      assert ValueText(v) == head + fraction + exponent;
    }
  }

  // ------------------------------------------------------------ values below the top-level object

  predicate Deep(s: Scan) {
    s.depth >= 2 && !s.inString && !s.escaped && !s.done && !s.afterKey && (s.capturing ==> s.captureAt == 1)
  }

  function Below(s: Scan, left: Byte): Scan { Kept(s, [left]).(depth := s.depth + 1) }

  lemma OpenDeep(s: Scan, left: Byte)
    requires Deep(s) && (left == LBRACE || left == LBRACKET)
    ensures Free(s, [left]) == Below(s, left) && Deep(Below(s, left))
  {
    One(s, left);
  }

  lemma CloseDeep(s: Scan, right: Byte)
    requires Deep(s) && s.depth >= 3 && (right == RBRACE || right == RBRACKET)
    ensures Free(s, [right]) == Kept(s, [right]).(depth := s.depth - 1)
  {
    var kept := Kept(s, [right]);
    One(s, right);
    CloseOutside(kept, right);
    assert FreeStep(s, right) == Outside(kept, right);
  }

  lemma CloseOutside(s: Scan, right: Byte)
    requires Deep(s) && s.depth >= 3 && (right == RBRACE || right == RBRACKET)
    ensures Outside(s, right) == s.(depth := s.depth - 1)
  {
    assert Switch(s, right) == Close(s) == s.(depth := s.depth - 1);
  }

  lemma BelowKept(s: Scan, left: Byte, inner: seq<Byte>, right: Byte)
    ensures Kept(Kept(Below(s, left), inner), [right]).(depth := s.depth) == Kept(s, [left] + inner + [right])
  {
    assert s.buf + [left] + inner + [right] == s.buf + ([left] + inner + [right]);
  }

  /** A bracketed text whose inside only appends. */
  lemma Bracketed(s: Scan, left: Byte, inner: seq<Byte>, right: Byte)
    requires Deep(s) && (left == LBRACE || left == LBRACKET) && (right == RBRACE || right == RBRACKET)
    requires Free(Below(s, left), inner) == Kept(Below(s, left), inner)
    ensures Free(s, [left] + inner + [right]) == Kept(s, [left] + inner + [right])
  {
    OpenDeep(s, left);
    FreeAppend(s, [left], inner);
    FreeAppend(s, [left] + inner, [right]);
    CloseDeep(Kept(Below(s, left), inner), right);
    BelowKept(s, left, inner, right);
  }

  lemma {:induction false} DeepValue(s: Scan, v: Value)
    requires Deep(s) && ValueOk(v)
    ensures Free(s, ValueText(v)) == Kept(s, ValueText(v))
    decreases v
  {
    match v
    case Word(_) => ScalarText(v); DullRun(s, ValueText(v));
    case Num(_) => ScalarText(v); DullRun(s, ValueText(v));
    case Str(items) => StringRun(s, items);
    case Arr(space, elements) => DeepArray(s, space, elements);
    case Obj(space, members) => DeepObject(s, space, members);
  }

  lemma ArrayText(space: seq<Byte>, elements: Elements)
    ensures ValueText(Arr(space, elements)) == [LBRACKET] + (space + ElementsText(elements)) + [RBRACKET]
  {
  }

  lemma ObjectText(space: seq<Byte>, members: Members)
    ensures ValueText(Obj(space, members)) == [LBRACE] + (space + MembersText(members)) + [RBRACE]
  {
  }

  lemma {:induction false} DeepArray(s: Scan, space: seq<Byte>, elements: Elements)
    requires Deep(s) && AllWs(space) && ElementsOk(elements)
    ensures Free(s, ValueText(Arr(space, elements))) == Kept(s, ValueText(Arr(space, elements)))
    decreases elements, 1
  {
    var t := Below(s, LBRACKET);
    OpenDeep(s, LBRACKET);
    SpaceRun(t, space);
    DeepElements(Kept(t, space), elements);
    KeepOn(t, space, ElementsText(elements));
    Bracketed(s, LBRACKET, space + ElementsText(elements), RBRACKET);
    ArrayText(space, elements);
  }

  lemma {:induction false} DeepObject(s: Scan, space: seq<Byte>, members: Members)
    requires Deep(s) && AllWs(space) && MembersOk(members)
    ensures Free(s, ValueText(Obj(space, members))) == Kept(s, ValueText(Obj(space, members)))
    decreases members, 1
  {
    var t := Below(s, LBRACE);
    OpenDeep(s, LBRACE);
    SpaceRun(t, space);
    DeepMembers(Kept(t, space), members);
    KeepOn(t, space, MembersText(members));
    Bracketed(s, LBRACE, space + MembersText(members), RBRACE);
    ObjectText(space, members);
  }

  lemma SeparatorRun(s: Scan, b: Byte)
    requires Deep(s) && (b == COMMA || b == COLON)
    ensures Free(s, [b]) == Kept(s, [b])
  {
    One(s, b);
  }

  /** A value with space after it. */
  lemma Padded(s: Scan, p: seq<Byte>, after: seq<Byte>)
    requires Deep(s) && Free(s, p) == Kept(s, p) && AllWs(after)
    ensures Free(s, p + after) == Kept(s, p + after)
  {
    SpaceRun(Kept(s, p), after);
    KeepOn(s, p, after);
  }

  lemma Separated(s: Scan, p: seq<Byte>, b: Byte)
    requires Deep(s) && Free(s, p) == Kept(s, p) && (b == COMMA || b == COLON)
    ensures Free(s, p + [b]) == Kept(s, p + [b])
  {
    SeparatorRun(Kept(s, p), b);
    KeepOn(s, p, [b]);
  }

  lemma Regroup(p: seq<Byte>, after: seq<Byte>, rest: seq<Byte>)
    ensures p + after + [] == p + after
    ensures p + after + ([COMMA] + rest) == p + after + [COMMA] + rest == p + (after + [COMMA]) + rest
  {
  }

  lemma ElementsSplit(es: Elements)
    requires es.Element?
    ensures var p := es.before + ValueText(es.value);
            if es.rest.NoElements? then ElementsText(es) == p + es.after
            else ElementsText(es) == p + es.after + [COMMA] + ElementsText(es.rest) == p + (es.after + [COMMA]) + ElementsText(es.rest)
  {
    Regroup(es.before + ValueText(es.value), es.after, ElementsText(es.rest));
  }

  lemma MembersSplit(ms: Members)
    requires ms.Member?
    ensures var p := ms.before + StringText(ms.key) + ms.beforeColon + [COLON] + ms.beforeValue + ValueText(ms.value);
            if ms.rest.NoMembers? then MembersText(ms) == p + ms.after
            else MembersText(ms) == p + ms.after + [COMMA] + MembersText(ms.rest) == p + (ms.after + [COMMA]) + MembersText(ms.rest)
  {
    Regroup(ms.before + StringText(ms.key) + ms.beforeColon + [COLON] + ms.beforeValue + ValueText(ms.value), ms.after, MembersText(ms.rest));
  }

  lemma {:induction false} DeepElements(s: Scan, es: Elements)
    requires Deep(s) && ElementsOk(es)
    ensures Free(s, ElementsText(es)) == Kept(s, ElementsText(es))
    decreases es, 0
  {
    match es
    case NoElements => KeptNothing(s);
    case Element(before, value, after, rest) =>
      var p := before + ValueText(value);
      SpaceRun(s, before);
      DeepValue(Kept(s, before), value);
      KeepOn(s, before, ValueText(value));
      Padded(s, p, after);
      if rest.Element? {
        Separated(s, p + after, COMMA);
        DeepElements(Kept(s, p + after + [COMMA]), rest);
        KeepOn(s, p + after + [COMMA], ElementsText(rest));
      }
      ElementsSplit(es);
  }

  lemma {:induction false} DeepMembers(s: Scan, ms: Members)
    requires Deep(s) && MembersOk(ms)
    ensures Free(s, MembersText(ms)) == Kept(s, MembersText(ms))
    decreases ms, 0
  {
    match ms
    case NoMembers => KeptNothing(s);
    case Member(before, key, beforeColon, beforeValue, value, after, rest) =>
      var k := before + StringText(key) + beforeColon + [COLON] + beforeValue;
      var p := k + ValueText(value);
      DeepKey(s, before, key, beforeColon, beforeValue);
      DeepValue(Kept(s, k), value);
      KeepOn(s, k, ValueText(value));
      Padded(s, p, after);
      if rest.Member? {
        Separated(s, p + after, COMMA);
        DeepMembers(Kept(s, p + after + [COMMA]), rest);
        KeepOn(s, p + after + [COMMA], MembersText(rest));
      }
      MembersSplit(ms);
  }

  lemma DeepKey(s: Scan, before: seq<Byte>, key: seq<Item>, beforeColon: seq<Byte>, beforeValue: seq<Byte>)
    requires Deep(s) && AllWs(before) && ItemsOk(key) && AllWs(beforeColon) && AllWs(beforeValue)
    ensures var p := before + StringText(key) + beforeColon + [COLON] + beforeValue; Free(s, p) == Kept(s, p)
  {
    SpaceRun(s, before);
    StringRun(Kept(s, before), key);
    KeepOn(s, before, StringText(key));
    var p := before + StringText(key);
    Padded(s, p, beforeColon);
    Separated(s, p + beforeColon, COLON);
    Padded(s, p + beforeColon + [COLON], beforeValue);
  }

  // ------------------------------------------------------------ the top level

  predicate Shallow(s: Scan) {
    s.depth == 1 && !s.inString && !s.escaped && !s.done && !s.capturing
  }

  /** The first sixteen bytes, all a key may have. */
  function Fit(p: seq<Byte>): seq<Byte> { if |p| <= MAX_KEY then p else p[..MAX_KEY] }

  predicate InKey(s: Scan, read: seq<Byte>) {
    s.depth == 1 && s.inString && !s.escaped && s.expectKey && !s.done && !s.capturing && s.key == Fit(read) && s.keyOK == (|read| <= MAX_KEY)
  }

  function Keyed(s: Scan, read: seq<Byte>): Scan { s.(key := Fit(read), keyOK := |read| <= MAX_KEY) }

  lemma KeyByte(s: Scan, read: seq<Byte>, b: Byte)
    requires InKey(s, read) && b != QUOTE && b != BACKSLASH
    ensures FreeStep(s, b) == Keyed(s, read + [b])
  {
    if |read| < MAX_KEY {
      assert Fit(read + [b]) == s.key + [b];
    } else {
      assert Fit(read + [b]) == s.key;
    }
  }

  lemma {:induction false} KeyHex(s: Scan, read: seq<Byte>, hex: seq<Byte>)
    requires InKey(s, read) && forall k :: 0 <= k < |hex| ==> IsHex(hex[k])
    ensures Free(s, hex) == Keyed(s, read + hex)
    decreases |hex|
  {
    if hex == [] {
      assert read + hex == read;
    } else {
      KeyByte(s, read, hex[0]);
      KeyHex(Keyed(s, read + [hex[0]]), read + [hex[0]], hex[1..]);
      assert read + [hex[0]] + hex[1..] == read + hex;
    }
  }

  lemma KeyItem(s: Scan, read: seq<Byte>, i: Item)
    requires InKey(s, read) && ItemOk(i)
    ensures Free(s, ItemText(i)) == Keyed(s, read + Read([i]))
  {
    assert [i][1..] == [];
    match i
    case Plain(b) =>
      KeyByte(s, read, b);
      One(s, b);
      assert Read([i]) == [b];
    case Escape(l) =>
      EscapeRun(s, l);
      assert Read([i]) == [] && read + [] == read;
    case Unicode(hex) =>
      EscapeRun(s, 0x75);
      KeyHex(s, read, hex);
      FreeAppend(s, [BACKSLASH, 0x75], hex);
      assert Read([i]) == hex;
  }

  lemma ReadOn(read: seq<Byte>, items: seq<Item>)
    requires items != []
    ensures read + Read([items[0]]) + Read(items[1..]) == read + Read(items)
  {
    ReadFirst(items);
    assert read + (Read([items[0]]) + Read(items[1..])) == read + Read([items[0]]) + Read(items[1..]);
  }

  lemma ReadFirst(items: seq<Item>)
    requires items != []
    ensures Read(items) == Read([items[0]]) + Read(items[1..])
  {
    ReadOne(items[0]);
  }

  lemma ReadOne(item: Item)
    ensures Read([item]) == ReadItem(item)
  {
    assert [item][1..] == [];
  }

  lemma {:induction false} KeyItems(s: Scan, read: seq<Byte>, items: seq<Item>)
    requires InKey(s, read) && ItemsOk(items)
    ensures Free(s, ItemsText(items)) == Keyed(s, read + Read(items))
    decreases |items|
  {
    if items == [] {
      assert read + [] == read;
    } else {
      var now := read + Read([items[0]]);
      KeyItem(s, read, items[0]);
      KeyItems(Keyed(s, now), now, items[1..]);
      FreeAppend(s, ItemText(items[0]), ItemsText(items[1..]));
      ReadOn(read, items);
    }
  }

  lemma KeyRun(s: Scan, items: seq<Item>)
    requires Shallow(s) && s.expectKey && ItemsOk(items)
    ensures var t := Free(s, StringText(items));
            Shallow(t) && !t.expectKey && t.afterKey && t.isUsage == (Read(items) == USAGE) && t.buf == s.buf && t.overflow == s.overflow
  {
    var t := s.(inString := true, key := [], keyOK := true);
    One(s, QUOTE);
    assert FreeStep(s, QUOTE) == t;
    KeyItems(t, [], items);
    assert [] + Read(items) == Read(items);
    var u := Keyed(t, Read(items));
    One(u, QUOTE);
    FreeAppend(s, [QUOTE], ItemsText(items));
    FreeAppend(s, [QUOTE] + ItemsText(items), [QUOTE]);
  }

  /** A bracketed value at the top level that is not captured. */
  lemma ShallowBracketed(s: Scan, left: Byte, inner: seq<Byte>, right: Byte)
    requires Shallow(s) && (left == LBRACKET || (left == LBRACE && !(s.afterKey && s.isUsage))) && (right == RBRACE || right == RBRACKET)
    requires var t := s.(depth := 2, afterKey := false); Free(t, inner) == Kept(t, inner)
    ensures Free(s, [left] + inner + [right]) == s.(afterKey := false)
  {
    var t := s.(depth := 2, afterKey := false);
    One(s, left);
    assert FreeStep(s, left) == t;
    One(t, right);
    assert FreeStep(t, right) == s.(afterKey := false);
    FreeAppend(s, [left], inner);
    FreeAppend(s, [left] + inner, [right]);
  }

  lemma ShallowValue(s: Scan, v: Value)
    requires Shallow(s) && ValueOk(v) && !(v.Obj? && s.afterKey && s.isUsage)
    ensures var t := Free(s, ValueText(v)); Shallow(t) && t.buf == s.buf && t.overflow == s.overflow
  {
    match v
    case Word(_) => ScalarText(v); DullRun(s, ValueText(v));
    case Num(_) => ScalarText(v); DullRun(s, ValueText(v));
    case Str(items) => if s.expectKey { KeyRun(s, items); } else { StringRun(s, items); }
    case Arr(space, elements) =>
      DeepInside(s.(depth := 2, afterKey := false), v);
      ShallowBracketed(s, LBRACKET, Inside(v), RBRACKET);
    case Obj(space, members) =>
      DeepInside(s.(depth := 2, afterKey := false), v);
      ShallowBracketed(s, LBRACE, Inside(v), RBRACE);
  }

  /** What a bracketed value holds between its brackets. */
  function Inside(v: Value): seq<Byte>
    requires v.Arr? || v.Obj?
  {
    match v
    case Arr(space, elements) => space + ElementsText(elements)
    case Obj(space, members) => space + MembersText(members)
  }

  lemma DeepInside(s: Scan, v: Value)
    requires Deep(s) && ValueOk(v) && (v.Arr? || v.Obj?)
    ensures Free(s, Inside(v)) == Kept(s, Inside(v))
    ensures ValueText(v) == [if v.Obj? then LBRACE else LBRACKET] + Inside(v) + [if v.Obj? then RBRACE else RBRACKET]
  {
    match v
    case Arr(space, elements) =>
      SpaceRun(s, space);
      DeepElements(Kept(s, space), elements);
      KeepOn(s, space, ElementsText(elements));
    case Obj(space, members) =>
      SpaceRun(s, space);
      DeepMembers(Kept(s, space), members);
      KeepOn(s, space, MembersText(members));
  }

  lemma CapturedValue(s: Scan, v: Value)
    requires Shallow(s) && ValueOk(v) && v.Obj? && s.afterKey && s.isUsage
    ensures var t := Free(s, ValueText(v)); t.done && t.buf == ValueText(v) && t.overflow == s.overflow
  {
    var t := s.(capturing := true, captureAt := 1, buf := [LBRACE], depth := 2, afterKey := false);
    One(s, LBRACE);
    assert FreeStep(s, LBRACE) == t;
    DeepInside(t, v);
    FreeAppend(s, [LBRACE], Inside(v));
    FreeAppend(s, [LBRACE] + Inside(v), [RBRACE]);
    CloseCapture(Kept(t, Inside(v)));
  }

  lemma CloseCapture(s: Scan)
    requires s.capturing && s.captureAt == 1 && s.depth == 2 && !s.inString && !s.done && !s.afterKey
    ensures var t := Free(s, [RBRACE]); t.done && t.buf == s.buf + [RBRACE] && t.overflow == s.overflow
  {
    One(s, RBRACE);
  }

  /** From the key to just before the value. */
  lemma MemberKey(s: Scan, before: seq<Byte>, key: seq<Item>, beforeColon: seq<Byte>, beforeValue: seq<Byte>)
    requires Shallow(s) && s.expectKey && AllWs(before) && ItemsOk(key) && AllWs(beforeColon) && AllWs(beforeValue)
    ensures var t := Free(s, before + StringText(key) + beforeColon + [COLON] + beforeValue);
            Shallow(t) && !t.expectKey && t.afterKey && t.isUsage == (Read(key) == USAGE) && t.buf == s.buf && t.overflow == s.overflow
  {
    SpaceRun(s, before);
    KeyRun(s, key);
    var t := Free(s, StringText(key));
    FreeAppend(s, before, StringText(key));
    SpaceRun(t, beforeColon);
    FreeAppend(s, before + StringText(key), beforeColon);
    One(t, COLON);
    assert FreeStep(t, COLON) == t;
    FreeAppend(s, before + StringText(key) + beforeColon, [COLON]);
    SpaceRun(t, beforeValue);
    FreeAppend(s, before + StringText(key) + beforeColon + [COLON], beforeValue);
  }

  lemma DoneStays(s: Scan, p: seq<Byte>, q: seq<Byte>)
    requires Free(s, p).done
    ensures Free(s, p + q) == Free(s, p)
  {
    FreeAppend(s, p, q);
  }

  /** Space and a comma after a member or an element. */
  lemma CommaRun(s: Scan, after: seq<Byte>)
    requires Shallow(s) && AllWs(after)
    ensures Free(s, after + [COMMA]) == s.(expectKey := true, afterKey := false)
  {
    SpaceRun(s, after);
    One(s, COMMA);
    FreeAppend(s, after, [COMMA]);
  }

  lemma {:induction false} MembersRun(s: Scan, ms: Members)
    requires Shallow(s) && s.expectKey && MembersOk(ms)
    ensures var t := Free(s, MembersText(ms));
            && t.overflow == s.overflow
            && (if FirstUsage(ms).Some? then t.done && t.buf == FirstUsage(ms).value else Shallow(t) && t.buf == s.buf)
    decreases ms, 0
  {
    match ms
    case NoMembers =>
    case Member(before, key, beforeColon, beforeValue, value, after, rest) =>
      var k := before + StringText(key) + beforeColon + [COLON] + beforeValue;
      var p := k + ValueText(value);
      MemberKey(s, before, key, beforeColon, beforeValue);
      var t := Free(s, k);
      FreeAppend(s, k, ValueText(value));
      if Read(key) == USAGE && value.Obj? {
        CapturedValue(t, value);
        var tail := after + (if rest.NoMembers? then [] else [COMMA] + MembersText(rest));
        assert MembersText(ms) == p + tail;
        DoneStays(s, p, tail);
      } else {
        ShallowValue(t, value);
        MembersRest(s, ms, p, Free(s, p));
      }
  }

  /** After a member that is not captured: the rest of the object. */
  lemma {:induction false} MembersRest(s: Scan, ms: Members, p: seq<Byte>, u: Scan)
    requires ms.Member? && MembersOk(ms) && Shallow(u) && u == Free(s, p) && u.buf == s.buf && u.overflow == s.overflow
    requires p == ms.before + StringText(ms.key) + ms.beforeColon + [COLON] + ms.beforeValue + ValueText(ms.value)
    ensures var t := Free(s, MembersText(ms));
            && t.overflow == s.overflow
            && (if FirstUsage(ms.rest).Some? then t.done && t.buf == FirstUsage(ms.rest).value else Shallow(t) && t.buf == s.buf)
    decreases ms.rest, 1
  {
    MembersSplit(ms);
    if ms.rest.NoMembers? {
      SpaceRun(u, ms.after);
      FreeAppend(s, p, ms.after);
    } else {
      CommaRun(u, ms.after);
      FreeAppend(s, p, ms.after + [COMMA]);
      FreeAppend(s, p + (ms.after + [COMMA]), MembersText(ms.rest));
      MembersRun(u.(expectKey := true, afterKey := false), ms.rest);
    }
  }

  /** The elements of a top-level array: a string after a comma is taken for a key, to no effect. */
  lemma {:induction false} TopElements(s: Scan, es: Elements)
    requires Shallow(s) && !s.afterKey && ElementsOk(es)
    ensures var t := Free(s, ElementsText(es)); Shallow(t) && t.buf == s.buf && t.overflow == s.overflow
    decreases es, 0
  {
    match es
    case NoElements =>
    case Element(before, value, after, rest) =>
      SpaceRun(s, before);
      ShallowValue(s, value);
      FreeAppend(s, before, ValueText(value));
      TopRest(s, es, before + ValueText(value), Free(s, before + ValueText(value)));
  }

  lemma {:induction false} TopRest(s: Scan, es: Elements, p: seq<Byte>, u: Scan)
    requires es.Element? && ElementsOk(es) && Shallow(u) && u == Free(s, p) && u.buf == s.buf && u.overflow == s.overflow
    requires p == es.before + ValueText(es.value)
    ensures var t := Free(s, ElementsText(es)); Shallow(t) && t.buf == s.buf && t.overflow == s.overflow
    decreases es.rest, 1
  {
    ElementsSplit(es);
    if es.rest.NoElements? {
      SpaceRun(u, es.after);
      FreeAppend(s, p, es.after);
    } else {
      CommaRun(u, es.after);
      FreeAppend(s, p, es.after + [COMMA]);
      FreeAppend(s, p + (es.after + [COMMA]), ElementsText(es.rest));
      TopElements(u.(expectKey := true, afterKey := false), es.rest);
    }
  }

  /** Over one whole text: the scan is done exactly when there is a usage object, and has kept it. */
  lemma DocumentRun(d: Document)
    requires DocumentOk(d)
    ensures var t := Free(START, DocumentText(d));
            !t.overflow && t.done == TopLevelUsage(d).Some? && (t.done ==> t.buf == TopLevelUsage(d).value) && (!t.done ==> t.buf == [])
  {
    SpaceRun(START, d.before);
    FreeAppend(START, d.before, ValueText(d.value));
    FreeAppend(START, d.before + ValueText(d.value), d.after);
    TopValue(d.value);
    var t := Free(START, ValueText(d.value));
    if !t.done {
      SpaceRun(t, d.after);
    }
  }

  lemma TopValue(v: Value)
    requires ValueOk(v)
    ensures var t := Free(START, ValueText(v));
            var usage := if v.Obj? then FirstUsage(v.members) else None;
            && !t.overflow && t.done == usage.Some? && (t.done ==> t.buf == usage.value)
            && (!t.done ==> !t.inString && !t.capturing && t.buf == [])
  {
    match v
    case Word(_) => ScalarText(v); DullRun(START, ValueText(v));
    case Num(_) => ScalarText(v); DullRun(START, ValueText(v));
    case Str(items) => StringRun(START, items);
    case Arr(space, elements) =>
      var t := START.(depth := 1);
      One(START, LBRACKET);
      assert FreeStep(START, LBRACKET) == t;
      SpaceRun(t, space);
      TopElements(t, elements);
      var u := Free(t, ElementsText(elements));
      One(u, RBRACKET);
      FreeAppend(START, [LBRACKET], space);
      FreeAppend(START, [LBRACKET] + space, ElementsText(elements));
      FreeAppend(START, [LBRACKET] + space + ElementsText(elements), [RBRACKET]);
    case Obj(space, members) =>
      var t := START.(depth := 1, expectKey := true);
      One(START, LBRACE);
      assert FreeStep(START, LBRACE) == t;
      SpaceRun(t, space);
      MembersRun(t, members);
      FreeAppend(START, [LBRACE], space);
      FreeAppend(START, [LBRACE] + space, MembersText(members));
      FreeAppend(START, [LBRACE] + space + MembersText(members), [RBRACE]);
      var u := Free(t, MembersText(members));
      if !u.done { One(u, RBRACE); }
  }

  // ------------------------------------------------------------ agreement

  /** For every JSON text, however it is cut into writes, the scanner reports exactly the first
      top-level object it reads "usage" before, if that fits the limit, and nothing otherwise. */
  lemma CaptureAgrees(d: Document, chunks: seq<seq<Byte>>)
    requires DocumentOk(d) && Joined(chunks) == DocumentText(d)
    ensures Written(START, chunks).Found() ==
            if TopLevelUsage(d).Some? && |TopLevelUsage(d).value| <= 65536 then TopLevelUsage(d) else None
  {
    ChunkingIrrelevant(START, chunks);
    DocumentRun(d);
    LimitRefines(START, DocumentText(d));
  }

  function HexDigit(b: Byte): int { if b <= 0x39 then b - 0x30 else if b <= 0x46 then b - 0x37 else b - 0x57 }

  function Unescaped(letter: Byte): int {
    match letter
    case 0x62 => 0x08
    case 0x66 => 0x0C
    case 0x6E => 0x0A
    case 0x72 => 0x0D
    case 0x74 => 0x09
    case _ => letter
  }

  /** The characters a key stands for, bytes of multi-byte characters kept as they are. */
  function Meaning(items: seq<Item>): seq<int> {
    if items == [] then []
    else
      var first := match items[0] {
        case Plain(b) => b as int
        case Escape(letter) => Unescaped(letter)
        case Unicode(hex) => if |hex| == 4 then 4096 * HexDigit(hex[0]) + 256 * HexDigit(hex[1]) + 16 * HexDigit(hex[2]) + HexDigit(hex[3]) else 0
      };
      [first] + Meaning(items[1..])
  }

  predicate NamesUsage(key: seq<Item>) { Meaning(key) == [0x75, 0x73, 0x61, 0x67, 0x65] }

  lemma HexRange(b: Byte, digit: nat)
    requires IsHex(b) && digit < 10
    ensures 0 <= HexDigit(b) < 16 && (HexDigit(b) == digit <==> b as int == 0x30 + digit)
  {
  }

  /** Four hexadecimal digits give one of these letters exactly when they are two zeros and its own two. */
  lemma HexOfLetter(hex: seq<Byte>, high: nat, low: nat)
    requires |hex| == 4 && (forall k :: 0 <= k < 4 ==> IsHex(hex[k])) && high < 10 && low < 10
    ensures 4096 * HexDigit(hex[0]) + 256 * HexDigit(hex[1]) + 16 * HexDigit(hex[2]) + HexDigit(hex[3]) == 16 * high + low <==>
            hex[0] == 0x30 && hex[1] == 0x30 && hex[2] as int == 0x30 + high && hex[3] as int == 0x30 + low
  {
    HexRange(hex[0], 0);
    HexRange(hex[1], 0);
    HexRange(hex[2], high);
    HexRange(hex[3], low);
  }

  /** The item stands for the letter whose code is `high` and `low` in hexadecimal: itself, or escaped so. */
  predicate Letter(item: Item, high: nat, low: nat) {
    match item
    case Plain(b) => b as int == 16 * high + low
    case Escape(_) => false
    case Unicode(hex) => |hex| == 4 && hex[0] == 0x30 && hex[1] == 0x30 && hex[2] as int == 0x30 + high && hex[3] as int == 0x30 + low
  }

  lemma LetterIs(items: seq<Item>, high: nat, low: nat)
    requires items != [] && ItemOk(items[0]) && 6 <= high < 8 && low < 10
    ensures Meaning(items)[0] == 16 * high + low <==> Letter(items[0], high, low)
    ensures Meaning(items)[1..] == Meaning(items[1..]) && |Meaning(items)| == |items|
  {
    MeaningLength(items);
    if items[0].Unicode? { HexOfLetter(items[0].hex, high, low); }
  }

  lemma {:induction false} MeaningLength(items: seq<Item>)
    ensures |Meaning(items)| == |items|
  {
    if items != [] { MeaningLength(items[1..]); }
  }

  /** Which keys name "usage", of all the ways JSON has to write it: five characters, each the letter itself or
      its escape by code. */
  lemma NamesUsageIff(key: seq<Item>)
    requires ItemsOk(key)
    ensures NamesUsage(key) <==>
            |key| == 5 && Letter(key[0], 7, 5) && Letter(key[1], 7, 3) && Letter(key[2], 6, 1) && Letter(key[3], 6, 7) && Letter(key[4], 6, 5)
  {
    MeaningLength(key);
    if |key| == 5 {
      LetterIs(key, 7, 5);
      LetterIs(key[1..], 7, 3);
      LetterIs(key[2..], 6, 1);
      LetterIs(key[3..], 6, 7);
      LetterIs(key[4..], 6, 5);
      assert key[1..][1..] == key[2..] && key[2..][1..] == key[3..] && key[3..][1..] == key[4..];
    }
  }

  function FirstNamed(ms: Members): Option<seq<Byte>> {
    match ms
    case NoMembers => None
    case Member(_, key, _, _, value, _, rest) =>
      if NamesUsage(key) && value.Obj? then Some(ValueText(value)) else FirstNamed(rest)
  }

  predicate PlainKey(key: seq<Item>) { forall i :: 0 <= i < |key| ==> key[i].Plain? }

  predicate PlainKeys(ms: Members) { ms.Member? ==> PlainKey(ms.key) && PlainKeys(ms.rest) }

  lemma {:induction false} PlainKeyRead(key: seq<Item>)
    requires PlainKey(key)
    ensures |Read(key)| == |Meaning(key)| == |key|
    ensures forall i :: 0 <= i < |key| ==> Read(key)[i] == Meaning(key)[i] == key[i].byte
  {
    if key != [] { PlainKeyRead(key[1..]); }
  }

  lemma {:induction false} PlainKeysAgree(ms: Members)
    requires PlainKeys(ms)
    ensures FirstUsage(ms) == FirstNamed(ms)
  {
    if ms.Member? {
      PlainKeyRead(ms.key);
      PlainKeysAgree(ms.rest);
    }
  }

  /** With no backslash in a top-level key the object reported is the first one named "usage". */
  lemma CaptureFindsUsage(d: Document, chunks: seq<seq<Byte>>)
    requires DocumentOk(d) && Joined(chunks) == DocumentText(d) && (d.value.Obj? ==> PlainKeys(d.value.members))
    ensures var named := if d.value.Obj? then FirstNamed(d.value.members) else None;
            Written(START, chunks).Found() == if named.Some? && |named.value| <= MAX_CAPTURED then named else None
  {
    CaptureAgrees(d, chunks);
    if d.value.Obj? { PlainKeysAgree(d.value.members); }
  }

  /** What is reported of an object found: itself, if it fits the limit. */
  function Reported(found: Option<seq<Byte>>): Option<seq<Byte>> {
    if found.Some? && |found.value| <= MAX_CAPTURED then found else None
  }

  predicate ReadsUsage(key: seq<Item>) { Read(key) == USAGE }

  /** The members from the first object on whose key is read as "usage" or means it. */
  function FromEither(ms: Members): Members {
    match ms
    case NoMembers => ms
    case Member(_, key, _, _, value, _, rest) => if value.Obj? && (ReadsUsage(key) || NamesUsage(key)) then ms else FromEither(rest)
  }

  lemma {:induction false} EitherDecides(ms: Members)
    ensures FirstUsage(ms) == FirstUsage(FromEither(ms)) && FirstNamed(ms) == FirstNamed(FromEither(ms))
    ensures FromEither(ms).Member? ==> FromEither(ms).value.Obj? && (ReadsUsage(FromEither(ms).key) || NamesUsage(FromEither(ms).key))
  {
    if ms.Member? { EitherDecides(ms.rest); }
  }

  /** For every JSON text under any chunking: the scanner reports the object named "usage" exactly when the
      first object whose key is read as "usage" or means it does both, or none does either, or the one that
      does one of them and the next that does the other are reported alike: of equal text, or neither of a
      size to be reported. */
  lemma CaptureIsNamedIff(d: Document, chunks: seq<seq<Byte>>)
    requires DocumentOk(d) && Joined(chunks) == DocumentText(d)
    ensures var members := if d.value.Obj? then d.value.members else NoMembers;
            var first := FromEither(members);
            Written(START, chunks).Found() == Reported(FirstNamed(members)) <==>
              || first.NoMembers?
              || (ReadsUsage(first.key) && NamesUsage(first.key))
              || Reported(Some(ValueText(first.value))) == Reported(if ReadsUsage(first.key) then FirstNamed(first.rest) else FirstUsage(first.rest))
  {
    CaptureAgrees(d, chunks);
    EitherDecides(if d.value.Obj? then d.value.members else NoMembers);
  }

  /** The text {"<key>":{}}. */
  function OneMember(key: seq<Item>): Document {
    Document([], Obj([], Member([], key, [], [], Obj([], NoMembers), [], NoMembers)), [])
  }

  lemma Singleton(p: seq<Byte>)
    ensures Joined([p]) == p
  {
    assert [p][1..] == [];
    assert p + [] == p;
  }

  lemma OneMemberUsage(key: seq<Item>)
    requires ItemsOk(key)
    ensures DocumentOk(OneMember(key))
    ensures TopLevelUsage(OneMember(key)) == if Read(key) == USAGE then Some([LBRACE, RBRACE]) else None
    ensures FirstNamed(OneMember(key).value.members).Some? == NamesUsage(key)
  {
    assert ValueText(Obj([], NoMembers)) == [LBRACE, RBRACE];
    assert FirstUsage(NoMembers).None? && FirstNamed(NoMembers).None?;
  }

  /** The scanner and the names disagree on this text exactly when they disagree on its key. */
  lemma OneMemberFound(key: seq<Item>)
    requires ItemsOk(key)
    ensures DocumentOk(OneMember(key))
    ensures FirstNamed(OneMember(key).value.members).Some? == NamesUsage(key)
    ensures Written(START, [DocumentText(OneMember(key))]).Found().Some? == (Read(key) == USAGE)
  {
    var text := DocumentText(OneMember(key));
    OneMemberUsage(key);
    Singleton(text);
    CaptureAgrees(OneMember(key), [text]);
  }

  const PLAIN_USAGE: seq<Item> := [Plain(0x75), Plain(0x73), Plain(0x61), Plain(0x67), Plain(0x65)]

  lemma {:induction false} MeaningAppend(a: seq<Item>, b: seq<Item>)
    ensures Meaning(a + b) == Meaning(a) + Meaning(b)
  {
    if a == [] {
      assert a + b == b;
    } else {
      assert (a + b)[1..] == a[1..] + b;
      MeaningAppend(a[1..], b);
    }
  }

  lemma {:induction false} ReadAppend(a: seq<Item>, b: seq<Item>)
    ensures Read(a + b) == Read(a) + Read(b)
  {
    if a == [] {
      assert a + b == b;
    } else {
      assert (a + b)[1..] == a[1..] + b;
      ReadAppend(a[1..], b);
    }
  }

  /** "us", then the escape of "a" as a code point, then "ge": the key is "usage", its object is missed. */
  lemma EscapedKeyMissed() returns (key: seq<Item>)
    ensures ItemsOk(key) && FirstNamed(OneMember(key).value.members).Some?
    ensures Written(START, [DocumentText(OneMember(key))]).Found().None?
  {
    var letter: Item := Unicode([0x30, 0x30, 0x36, 0x31]);
    key := PLAIN_USAGE[2 := letter];
    assert key == PLAIN_USAGE[..2] + [letter] + PLAIN_USAGE[3..];
    assert [letter][1..] == [];
    MeaningAppend(PLAIN_USAGE[..2] + [letter], PLAIN_USAGE[3..]);
    MeaningAppend(PLAIN_USAGE[..2], [letter]);
    ReadAppend(PLAIN_USAGE[..2] + [letter], PLAIN_USAGE[3..]);
    ReadAppend(PLAIN_USAGE[..2], [letter]);
    PlainKeyRead(PLAIN_USAGE[..2]);
    PlainKeyRead(PLAIN_USAGE[3..]);
    assert Meaning(key) == [0x75, 0x73, 0x61, 0x67, 0x65];
    OneMemberFound(key);
  }

  lemma PlainUsageReads()
    ensures Read(PLAIN_USAGE) == USAGE && ItemsOk(PLAIN_USAGE)
  {
    PlainKeyRead(PLAIN_USAGE);
  }

  /** A newline escape before "usage" makes another key, and its object is reported. */
  lemma EscapedKeyTaken() returns (key: seq<Item>)
    ensures ItemsOk(key) && FirstNamed(OneMember(key).value.members).None?
    ensures Written(START, [DocumentText(OneMember(key))]).Found().Some?
  {
    var newline: Item := Escape(0x6E);
    key := [newline] + PLAIN_USAGE;
    assert key[1..] == PLAIN_USAGE;
    PlainUsageReads();
    assert Read(key) == ReadItem(newline) + Read(PLAIN_USAGE) == USAGE;
    assert Meaning(key)[0] == 0x0A;
    OneMemberFound(key);
  }
}
