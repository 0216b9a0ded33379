/**
 JSON texts (RFC 8259, sections 2 to 7) as concrete syntax trees over bytes: a tree records every
 byte of the text, whitespace included, so `Text` is the grammar read forwards.
 */
module JsonText {
  import opened Prelude

  type Byte = b: int | 0 <= b < 256 witness 0

  const QUOTE: Byte := 0x22
  const BACKSLASH: Byte := 0x5C
  const COMMA: Byte := 0x2C
  const COLON: Byte := 0x3A
  const LBRACE: Byte := 0x7B
  const RBRACE: Byte := 0x7D
  const LBRACKET: Byte := 0x5B
  const RBRACKET: Byte := 0x5D

  predicate IsWs(b: Byte) { b == 0x20 || b == 0x09 || b == 0x0A || b == 0x0D }

  predicate AllWs(s: seq<Byte>) { forall i :: 0 <= i < |s| ==> IsWs(s[i]) }

  predicate IsDigit(b: Byte) { 0x30 <= b <= 0x39 }

  predicate IsHex(b: Byte) { IsDigit(b) || 0x41 <= b <= 0x46 || 0x61 <= b <= 0x66 }

  predicate Digits(s: seq<Byte>) { |s| > 0 && forall i :: 0 <= i < |s| ==> IsDigit(s[i]) }

  /** One character of a string: a byte standing for itself (a byte of a multi-byte character
      included) or an escape sequence. */
  datatype Item = Plain(byte: Byte) | Escape(letter: Byte) | Unicode(hex: seq<Byte>)

  predicate ItemOk(i: Item) {
    match i
    case Plain(b) => b >= 0x20 && b != QUOTE && b != BACKSLASH
    case Escape(l) => l in {0x22, 0x5C, 0x2F, 0x62, 0x66, 0x6E, 0x72, 0x74}
    case Unicode(hex) => |hex| == 4 && forall k :: 0 <= k < 4 ==> IsHex(hex[k])
  }

  function ItemText(i: Item): seq<Byte> {
    match i
    case Plain(b) => [b]
    case Escape(l) => [BACKSLASH, l]
    case Unicode(hex) => [BACKSLASH, 0x75] + hex
  }

  function ItemsText(items: seq<Item>): seq<Byte> {
    if items == [] then [] else ItemText(items[0]) + ItemsText(items[1..])
  }

  /** A number: minus sign, integer part, fraction and exponent digits. */
  datatype Number = Number(negative: bool, integer: seq<Byte>, fraction: Option<seq<Byte>>, exponent: Option<(Byte, seq<Byte>, seq<Byte>)>)

  predicate NumberOk(n: Number) {
    && Digits(n.integer) && (n.integer[0] == 0x30 ==> |n.integer| == 1)
    && (n.fraction.Some? ==> Digits(n.fraction.value))
    && (n.exponent.Some? ==>
          && (n.exponent.value.0 == 0x65 || n.exponent.value.0 == 0x45)
          && (n.exponent.value.1 == [] || n.exponent.value.1 == [0x2B] || n.exponent.value.1 == [0x2D])
          && Digits(n.exponent.value.2))
  }

  function NumberText(n: Number): seq<Byte> {
    (if n.negative then [0x2D] else []) + n.integer
    + (match n.fraction case None => [] case Some(digits) => [0x2E] + digits)
    + (match n.exponent case None => [] case Some(e) => [e.0] + e.1 + e.2)
  }

  datatype Literal = True | False | Null

  function LiteralText(l: Literal): seq<Byte> {
    match l
    case True => [0x74, 0x72, 0x75, 0x65]
    case False => [0x66, 0x61, 0x6C, 0x73, 0x65]
    case Null => [0x6E, 0x75, 0x6C, 0x6C]
  }

  datatype Value =
    | Word(literal: Literal)
    | Num(number: Number)
    | Str(items: seq<Item>)
    | Arr(space: seq<Byte>, elements: Elements)
    | Obj(space: seq<Byte>, members: Members)

  /** The elements of an array; `space` of an empty one is in `Arr`. */
  datatype Elements = NoElements | Element(before: seq<Byte>, value: Value, after: seq<Byte>, rest: Elements)

  datatype Members =
    | NoMembers
    | Member(before: seq<Byte>, key: seq<Item>, beforeColon: seq<Byte>, beforeValue: seq<Byte>, value: Value, after: seq<Byte>, rest: Members)

  predicate ItemsOk(items: seq<Item>) { forall i :: 0 <= i < |items| ==> ItemOk(items[i]) }

  predicate ValueOk(v: Value) {
    match v
    case Word(_) => true
    case Num(n) => NumberOk(n)
    case Str(items) => ItemsOk(items)
    case Arr(space, elements) => AllWs(space) && ElementsOk(elements)
    case Obj(space, members) => AllWs(space) && MembersOk(members)
  }

  predicate ElementsOk(es: Elements) {
    match es
    case NoElements => true
    case Element(before, value, after, rest) => AllWs(before) && ValueOk(value) && AllWs(after) && ElementsOk(rest)
  }

  predicate MembersOk(ms: Members) {
    match ms
    case NoMembers => true
    case Member(before, key, beforeColon, beforeValue, value, after, rest) =>
      AllWs(before) && ItemsOk(key) && AllWs(beforeColon) && AllWs(beforeValue) && ValueOk(value) && AllWs(after) && MembersOk(rest)
  }

  function StringText(items: seq<Item>): seq<Byte> { [QUOTE] + ItemsText(items) + [QUOTE] }

  function ValueText(v: Value): seq<Byte> {
    match v
    case Word(l) => LiteralText(l)
    case Num(n) => NumberText(n)
    case Str(items) => StringText(items)
    case Arr(space, elements) => [LBRACKET] + space + ElementsText(elements) + [RBRACKET]
    case Obj(space, members) => [LBRACE] + space + MembersText(members) + [RBRACE]
  }

  function ElementsText(es: Elements): seq<Byte> {
    match es
    case NoElements => []
    case Element(before, value, after, rest) =>
      before + ValueText(value) + after + (if rest.NoElements? then [] else [COMMA] + ElementsText(rest))
  }

  function MembersText(ms: Members): seq<Byte> {
    match ms
    case NoMembers => []
    case Member(before, key, beforeColon, beforeValue, value, after, rest) =>
      before + StringText(key) + beforeColon + [COLON] + beforeValue + ValueText(value) + after
      + (if rest.NoMembers? then [] else [COMMA] + MembersText(rest))
  }

  /** A JSON text: one value with whitespace around it. */
  datatype Document = Document(before: seq<Byte>, value: Value, after: seq<Byte>)

  predicate DocumentOk(d: Document) { AllWs(d.before) && ValueOk(d.value) && AllWs(d.after) }

  function DocumentText(d: Document): seq<Byte> { d.before + ValueText(d.value) + d.after }
}
