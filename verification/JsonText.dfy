/**
 The text of a JSON value whose object keys are already in order.

 Text is a sequence of UTF-16 code units. Strings are escaped as section 7 of RFC 8259 allows and as
 `JSON.stringify` does it: short escapes where they exist, `\u` escapes for other control characters
 and for unpaired surrogates, everything else as it is.
 */
module JsonText {
  import opened Wrappers

  type Text = seq<int>

  const QUOTE := 0x22
  const COMMA := 0x2C
  const COLON := 0x3A
  const OPEN_LIST := 0x5B
  const BACKSLASH := 0x5C
  const CLOSE_LIST := 0x5D
  const LETTER_U := 0x75
  const OPEN_OBJECT := 0x7B
  const CLOSE_OBJECT := 0x7D
  const NULL_TEXT: Text := [0x6E, 0x75, 0x6C, 0x6C]
  const TRUE_TEXT: Text := [0x74, 0x72, 0x75, 0x65]
  const FALSE_TEXT: Text := [0x66, 0x61, 0x6C, 0x73, 0x65]

  predicate Units(s: Text) {
    forall i :: 0 <= i < |s| ==> 0 <= s[i] < 0x10000
  }

  // ---- Strings ----

  predicate High(u: int) {
    0xD800 <= u <= 0xDBFF
  }

  predicate Low(u: int) {
    0xDC00 <= u <= 0xDFFF
  }

  function HexDigit(d: int): int {
    if d < 10 then 0x30 + d else 0x57 + d
  }

  function Hex(u: int): Text {
    [HexDigit(u / 0x1000), HexDigit(u / 0x100 % 0x10), HexDigit(u / 0x10 % 0x10), HexDigit(u % 0x10)]
  }

  /** The letter of a two-character escape. */
  function ShortEscape(u: int): Option<int> {
    if u == QUOTE then Some(QUOTE)
    else if u == BACKSLASH then Some(BACKSLASH)
    else if u == 0x08 then Some(0x62)
    else if u == 0x09 then Some(0x74)
    else if u == 0x0A then Some(0x6E)
    else if u == 0x0C then Some(0x66)
    else if u == 0x0D then Some(0x72)
    else None
  }

  predicate Paired(s: Text) {
    |s| >= 2 && High(s[0]) && Low(s[1])
  }

  function EscapeUnit(u: int): Text {
    if ShortEscape(u).Some? then [BACKSLASH, ShortEscape(u).value]
    else if u < 0x20 || High(u) || Low(u) then [BACKSLASH, LETTER_U] + Hex(u)
    else [u]
  }

  /** How many units the next piece of escaped text stands for. */
  function Width(s: Text): (width: nat)
    requires s != []
    ensures 1 <= width <= |s|
  {
    if Paired(s) then 2 else 1
  }

  function Piece(s: Text): Text
    requires s != []
  {
    if Paired(s) then [s[0], s[1]] else EscapeUnit(s[0])
  }

  function Escaped(s: Text): Text {
    if s == [] then [] else Piece(s) + Escaped(s[Width(s)..])
  }

  function Quoted(s: Text): Text {
    [QUOTE] + Escaped(s) + [QUOTE]
  }

  // ---- Surrogates ----

  /** Surrogates stand in pairs only. */
  predicate WellPaired(t: Text) {
    forall i :: 0 <= i < |t| ==> PairedAt(t, i)
  }

  predicate PairedAt(t: Text, i: int)
    requires 0 <= i < |t|
  {
    && (High(t[i]) ==> i + 1 < |t| && Low(t[i + 1]))
    && (Low(t[i]) ==> i > 0 && High(t[i - 1]))
  }

  lemma PairedTogether(a: Text, b: Text)
    requires WellPaired(a) && WellPaired(b)
    ensures WellPaired(a + b)
  {
    var t := a + b;
    forall i | 0 <= i < |t| ensures PairedAt(t, i) {
      if i < |a| {
        assert PairedAt(a, i);
      } else {
        assert PairedAt(b, i - |a|);
      }
    }
  }

  /** Escaped text can be encoded whatever the string: no surrogate stands alone in it. */
  lemma {:induction false} EscapedIsWellPaired(s: Text)
    requires Units(s)
    ensures WellPaired(Escaped(s))
    decreases |s|
  {
    if s != [] {
      EscapedIsWellPaired(s[Width(s)..]);
      PieceIsWellPaired(s);
      PairedTogether(Piece(s), Escaped(s[Width(s)..]));
    }
  }

  lemma DigitIsPlain(d: int)
    requires 0 <= d < 0x10
    ensures 0x30 <= HexDigit(d) <= 0x66
  {
  }

  lemma HexIsPlain(u: int)
    requires 0 <= u < 0x10000
    ensures forall i :: 0 <= i < |Hex(u)| ==> 0x30 <= Hex(u)[i] <= 0x66
  {
    DigitIsPlain(u / 0x1000);
    DigitIsPlain(u / 0x100 % 0x10);
    DigitIsPlain(u / 0x10 % 0x10);
    DigitIsPlain(u % 0x10);
    hide HexDigit;
  }

  lemma UnitIsPlain(u: int)
    requires 0 <= u < 0x10000
    ensures forall i :: 0 <= i < |EscapeUnit(u)| ==> !High(EscapeUnit(u)[i]) && !Low(EscapeUnit(u)[i])
  {
    HexIsPlain(u);
    hide Hex;
  }

  lemma PieceIsWellPaired(s: Text)
    requires s != [] && Units(s)
    ensures WellPaired(Piece(s))
  {
    UnitIsPlain(s[0]);
    hide EscapeUnit;
    forall i | 0 <= i < |Piece(s)| ensures PairedAt(Piece(s), i) {
    }
  }

  // ---- Values with their keys in order ----

  datatype Ordered =
    | NullValue
    | BoolValue(truth: bool)
    | NumberValue(token: Text)
    | TextValue(text: Text)
    | ListValue(items: seq<Ordered>)
    | ObjectValue(fields: seq<OrderedField>)

  datatype Keyed<T> = Keyed(key: Text, value: T)

  type OrderedField = Keyed<Ordered>

  /** Units a number's text is made of: digits, sign, point and exponent. */
  predicate NumberUnit(u: int) {
    0x30 <= u <= 0x39 || u == 0x2B || u == 0x2D || u == 0x2E || u == 0x45 || u == 0x65
  }

  predicate NumberToken(token: Text) {
    && token != [] && (0x30 <= token[0] <= 0x39 || token[0] == 0x2D)
    && (forall i :: 0 <= i < |token| ==> NumberUnit(token[i]))
  }

  predicate Printable(v: Ordered) {
    match v
    case NullValue => true
    case BoolValue(_) => true
    case NumberValue(token) => NumberToken(token)
    case TextValue(text) => Units(text)
    case ListValue(items) => forall i :: 0 <= i < |items| ==> Printable(items[i])
    case ObjectValue(fields) =>
      forall i :: 0 <= i < |fields| ==> Units(fields[i].key) && Printable(fields[i].value)
  }

  function Print(v: Ordered): Text {
    match v
    case NullValue => NULL_TEXT
    case BoolValue(truth) => if truth then TRUE_TEXT else FALSE_TEXT
    case NumberValue(token) => token
    case TextValue(text) => Quoted(text)
    case ListValue(items) => [OPEN_LIST] + PrintItems(items, false) + [CLOSE_LIST]
    case ObjectValue(fields) => [OPEN_OBJECT] + PrintFields(fields, false) + [CLOSE_OBJECT]
  }

  /** A list's items, each after a comma except the very first. */
  function PrintItems(items: seq<Ordered>, comma: bool): Text {
    if items == [] then []
    else (if comma then [COMMA] else []) + Print(items[0]) + PrintItems(items[1..], true)
  }

  function PrintFields(fields: seq<OrderedField>, comma: bool): Text {
    if fields == [] then []
    else (if comma then [COMMA] else []) + (Quoted(fields[0].key) + [COLON] + Print(fields[0].value))
         + PrintFields(fields[1..], true)
  }
}
