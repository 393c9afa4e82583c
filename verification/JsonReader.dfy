/**
 Reading JSON texts back, under RFC 8259 without blanks: a reader gets every printed string and value
 again, so no two values have the same text.
 */
module JsonReader {
  import opened Wrappers
  import opened JsonText

  // ---- Reading a string ----

  datatype Got<T> = Got(value: T, rest: Text)

  /** What a two-character escape stands for. */
  function EscapeOf(letter: int): Option<int> {
    if letter == QUOTE || letter == BACKSLASH || letter == 0x2F then Some(letter)
    else if letter == 0x62 then Some(0x08)
    else if letter == 0x66 then Some(0x0C)
    else if letter == 0x6E then Some(0x0A)
    else if letter == 0x72 then Some(0x0D)
    else if letter == 0x74 then Some(0x09)
    else None
  }

  function HexDigitOf(u: int): Option<int> {
    if 0x30 <= u <= 0x39 then Some(u - 0x30)
    else if 0x41 <= u <= 0x46 then Some(u - 0x37)
    else if 0x61 <= u <= 0x66 then Some(u - 0x57)
    else None
  }

  function HexOf(t: Text): Option<int>
    requires |t| == 4
  {
    var a, b, c, d := HexDigitOf(t[0]), HexDigitOf(t[1]), HexDigitOf(t[2]), HexDigitOf(t[3]);
    if a.None? || b.None? || c.None? || d.None? then None
    else Some(0x1000 * a.value + 0x100 * b.value + 0x10 * c.value + d.value)
  }

  function Then(u: Option<int>, more: Option<Got<Text>>): (r: Option<Got<Text>>)
    ensures r.Some? ==> more.Some? && r.value.rest == more.value.rest
  {
    if u.None? || more.None? then None
    else Some(Got([u.value] + more.value.value, more.value.rest))
  }

  /** The string whose text follows its opening quote, and what comes after it, under RFC 8259. */
  function ReadString(t: Text): (r: Option<Got<Text>>)
    ensures r.Some? ==> |r.value.rest| < |t|
  {
    if t == [] then None
    else if t[0] == QUOTE then Some(Got([], t[1..]))
    else if t[0] != BACKSLASH then
      if t[0] < 0x20 then None else Then(Some(t[0]), ReadString(t[1..]))
    else if |t| < 2 then None
    else if t[1] != LETTER_U then Then(EscapeOf(t[1]), ReadString(t[2..]))
    else if |t| < 6 then None
    else Then(HexOf(t[2..6]), ReadString(t[6..]))
  }

  lemma HexValue(u: int)
    ensures u == 0x1000 * (u / 0x1000) + 0x100 * (u / 0x100 % 0x10) + 0x10 * (u / 0x10 % 0x10)
                 + u % 0x10
  {
    assert u / 0x10 / 0x10 == u / 0x100 && u / 0x100 / 0x10 == u / 0x1000;
  }

  lemma HexReads(u: int)
    requires 0 <= u < 0x10000
    ensures HexOf(Hex(u)) == Some(u)
  {
    HexValue(u);
    DigitReads(u / 0x1000);
    DigitReads(u / 0x100 % 0x10);
    DigitReads(u / 0x10 % 0x10);
    DigitReads(u % 0x10);
    hide HexDigit, HexDigitOf;
  }

  lemma DigitReads(d: int)
    requires 0 <= d < 0x10
    ensures HexDigitOf(HexDigit(d)) == Some(d)
  {
  }

  lemma UnitReads(u: int, more: Text)
    requires 0 <= u < 0x10000
    ensures ReadString(EscapeUnit(u) + more) == Then(Some(u), ReadString(more))
  {
    var p := EscapeUnit(u);
    var all := p + more;
    assert all[|p|..] == more;
    if |p| == 6 {
      assert all[2..6] == Hex(u);
      HexReads(u);
      hide Hex, HexOf;
    }
    hide Then;
  }

  lemma PairReads(a: int, b: int, more: Text)
    requires High(a) && Low(b)
    ensures ReadString([a, b] + more) == Then(Some(a), Then(Some(b), ReadString(more)))
  {
    var all := [a, b] + more;
    assert all[1..] == [b] + more && all[1..][1..] == more;
    hide Then;
  }

  lemma PieceReads(s: Text, more: Text, later: Text, rest: Text)
    requires s != [] && Units(s) && later == s[Width(s)..]
    requires ReadString(more) == Some(Got(later, rest))
    ensures ReadString(Piece(s) + more) == Some(Got(s, rest))
  {
    if Paired(s) {
      PairReads(s[0], s[1], more);
      assert s == [s[0]] + ([s[1]] + later);
    } else {
      UnitReads(s[0], more);
      assert s == [s[0]] + later;
    }
    hide ReadString, EscapeUnit;
  }

  lemma EscapedFrom(s: Text, tail: Text)
    requires s != []
    ensures Escaped(s) + tail == Piece(s) + (Escaped(s[Width(s)..]) + tail)
  {
    hide Piece;
  }

  /** A reader gets the escaped string back, and what follows it. */
  lemma {:induction false} EscapedReads(s: Text, rest: Text)
    requires Units(s)
    ensures ReadString(Escaped(s) + ([QUOTE] + rest)) == Some(Got(s, rest))
    decreases |s|
  {
    var tail := [QUOTE] + rest;
    if s == [] {
      assert Escaped(s) + tail == tail && tail[1..] == rest;
    } else {
      EscapedReads(s[Width(s)..], rest);
      EscapedFrom(s, tail);
      PieceReads(s, Escaped(s[Width(s)..]) + tail, s[Width(s)..], rest);
    }
  }

  // ---- Reading a value ----

  /** A rest that cannot continue a number. */
  predicate Ends(rest: Text) {
    rest == [] || !NumberUnit(rest[0])
  }

  predicate Begins(t: Text, prefix: Text) {
    |prefix| <= |t| && t[..|prefix|] == prefix
  }

  /** How far a number's text reaches. */
  function Span(text: Text): (n: nat)
    ensures n <= |text|
  {
    if text == [] || !NumberUnit(text[0]) then 0 else 1 + Span(text[1..])
  }

  lemma {:induction false} SpanOfToken(x: Text, a: Text)
    requires (forall i :: 0 <= i < |x| ==> NumberUnit(x[i])) && Ends(a)
    ensures Span(x + a) == |x|
  {
    if x == [] {
      assert x + a == a;
    } else {
      assert (x + a)[1..] == x[1..] + a;
      SpanOfToken(x[1..], a);
    }
  }

  /** The value a text starts with, and what comes after it. */
  function ReadValue(t: Text): (r: Option<Got<Ordered>>)
    ensures r.Some? ==> |r.value.rest| < |t|
    decreases |t|, 0
  {
    if Begins(t, [0x6E, 0x75, 0x6C, 0x6C]) then Some(Got(NullValue, t[4..]))
    else if Begins(t, [0x74, 0x72, 0x75, 0x65]) then Some(Got(BoolValue(true), t[4..]))
    else if Begins(t, [0x66, 0x61, 0x6C, 0x73, 0x65]) then Some(Got(BoolValue(false), t[5..]))
    else if Begins(t, [0x22]) then
      var text := ReadString(t[1..]);
      if text.None? then None else Some(Got(TextValue(text.value.value), text.value.rest))
    else if Begins(t, [0x5B, 0x5D]) then Some(Got(ListValue([]), t[2..]))
    else if Begins(t, [0x5B]) then
      var items := ReadItems(t[1..]);
      if items.None? then None else Some(Got(ListValue(items.value.value), items.value.rest))
    else if Begins(t, [0x7B, 0x7D]) then Some(Got(ObjectValue([]), t[2..]))
    else if Begins(t, [0x7B]) then
      var fields := ReadFields(t[1..]);
      if fields.None? then None else Some(Got(ObjectValue(fields.value.value), fields.value.rest))
    else if NumberToken(t[..Span(t)]) then Some(Got(NumberValue(t[..Span(t)]), t[Span(t)..]))
    else None
  }

  /** One item or more, separated by commas, up to the closing bracket. */
  function ReadItems(t: Text): (r: Option<Got<seq<Ordered>>>)
    ensures r.Some? ==> |r.value.rest| < |t|
    decreases |t|, 1
  {
    var first := ReadValue(t);
    if first.None? then None
    else if Begins(first.value.rest, [0x5D]) then Some(Got([first.value.value], first.value.rest[1..]))
    else if !Begins(first.value.rest, [0x2C]) then None
    else
      var more := ReadItems(first.value.rest[1..]);
      if more.None? then None else Some(Got([first.value.value] + more.value.value, more.value.rest))
  }

  /** A string, a colon and a value. */
  function ReadField(t: Text): (r: Option<Got<OrderedField>>)
    ensures r.Some? ==> |r.value.rest| < |t|
    decreases |t|, 1
  {
    if !Begins(t, [0x22]) then None
    else
      var key := ReadString(t[1..]);
      if key.None? || !Begins(key.value.rest, [0x3A]) then None
      else
        var value := ReadValue(key.value.rest[1..]);
        if value.None? then None
        else Some(Got(Keyed(key.value.value, value.value.value), value.value.rest))
  }

  /** One member or more, separated by commas, up to the closing brace. */
  function ReadFields(t: Text): (r: Option<Got<seq<OrderedField>>>)
    ensures r.Some? ==> |r.value.rest| < |t|
    decreases |t|, 2
  {
    var first := ReadField(t);
    if first.None? then None
    else if Begins(first.value.rest, [0x7D]) then Some(Got([first.value.value], first.value.rest[1..]))
    else if !Begins(first.value.rest, [0x2C]) then None
    else
      var more := ReadFields(first.value.rest[1..]);
      if more.None? then None else Some(Got([first.value.value] + more.value.value, more.value.rest))
  }

  lemma SplitsAfter(prefix: Text, rest: Text)
    ensures Begins(prefix + rest, prefix) && (prefix + rest)[|prefix|..] == rest
  {
  }

  lemma BeginsWith(t: Text, prefix: Text)
    requires Begins(t, prefix) && prefix != []
    ensures t != [] && t[0] == prefix[0]
    ensures |prefix| == 2 ==> |t| > 1 && t[1] == prefix[1]
  {
    assert t[..|prefix|][0] == prefix[0];
    if |prefix| == 2 { assert t[..2][1] == prefix[1]; }
  }

  lemma StringReads(s: Text, rest: Text)
    requires Units(s)
    ensures Begins(Quoted(s) + rest, [0x22])
    ensures ReadString((Quoted(s) + rest)[1..]) == Some(Got(s, rest))
  {
    EscapedReads(s, rest);
    assert Quoted(s) + rest == [QUOTE] + (Escaped(s) + ([QUOTE] + rest));
    SplitsAfter([QUOTE], Escaped(s) + ([QUOTE] + rest));
  }

  /** The first units decide how a text is read. */
  lemma Dispatch(t: Text)
    requires t != []
    ensures t[0] == 0x22 ==>
              ReadValue(t) == var text := ReadString(t[1..]);
                              if text.None? then None
                              else Some(Got(TextValue(text.value.value), text.value.rest))
    ensures t[0] == 0x5B && |t| > 1 && t[1] != 0x5D ==>
              ReadValue(t) == var items := ReadItems(t[1..]);
                              if items.None? then None
                              else Some(Got(ListValue(items.value.value), items.value.rest))
    ensures t[0] == 0x7B && |t| > 1 && t[1] != 0x7D ==>
              ReadValue(t) == var fields := ReadFields(t[1..]);
                              if fields.None? then None
                              else Some(Got(ObjectValue(fields.value.value), fields.value.rest))
    ensures 0x30 <= t[0] <= 0x39 || t[0] == 0x2D ==>
              ReadValue(t) == if NumberToken(t[..Span(t)])
                              then Some(Got(NumberValue(t[..Span(t)]), t[Span(t)..])) else None
  {
    hide ReadString, ReadItems, ReadFields, Span, NumberToken;
    forall prefix: Text | prefix != [] && Begins(t, prefix)
      ensures t[0] == prefix[0] && (|prefix| == 2 ==> |t| > 1 && t[1] == prefix[1])
    {
      BeginsWith(t, prefix);
    }
  }

  lemma NumberReads(token: Text, rest: Text)
    requires NumberToken(token) && Ends(rest)
    ensures ReadValue(token + rest) == Some(Got(NumberValue(token), rest))
  {
    SpanOfToken(token, rest);
    var t := token + rest;
    assert t[..|token|] == token && t[|token|..] == rest && t[0] == token[0];
    Dispatch(t);
    hide ReadValue;
  }

  lemma WordsRead(rest: Text)
    ensures ReadValue(NULL_TEXT + rest) == Some(Got(NullValue, rest))
    ensures ReadValue(TRUE_TEXT + rest) == Some(Got(BoolValue(true), rest))
    ensures ReadValue(FALSE_TEXT + rest) == Some(Got(BoolValue(false), rest))
  {
    SplitsAfter(NULL_TEXT, rest);
    SplitsAfter(TRUE_TEXT, rest);
    SplitsAfter(FALSE_TEXT, rest);
    forall t: Text, prefix: Text | prefix != [] && Begins(t, prefix) ensures t[0] == prefix[0] {
      BeginsWith(t, prefix);
    }
    hide Begins, ReadString, ReadItems, ReadFields, Span, NumberToken;
  }

  lemma EmptyRead(rest: Text)
    ensures ReadValue([OPEN_LIST, CLOSE_LIST] + rest) == Some(Got(ListValue([]), rest))
    ensures ReadValue([OPEN_OBJECT, CLOSE_OBJECT] + rest) == Some(Got(ObjectValue([]), rest))
  {
    SplitsAfter([OPEN_LIST, CLOSE_LIST], rest);
    SplitsAfter([OPEN_OBJECT, CLOSE_OBJECT], rest);
    forall t: Text, prefix: Text | prefix != [] && Begins(t, prefix) ensures t[0] == prefix[0] {
      BeginsWith(t, prefix);
    }
    hide Begins, ReadString, ReadItems, ReadFields, Span, NumberToken;
  }

  /** No value's text starts as the end of a list does. */
  lemma PrintStarts(v: Ordered)
    requires Printable(v)
    ensures Print(v) != [] && Print(v)[0] != CLOSE_LIST
  {
    hide Escaped, PrintItems, PrintFields;
  }

  /** A reader gets every printed value back, and what follows it. */
  lemma {:induction false} PrintReads(v: Ordered, rest: Text)
    requires Printable(v) && Ends(rest)
    ensures ReadValue(Print(v) + rest) == Some(Got(v, rest))
    decreases v, 0
  {
    match v
    case NullValue =>
      WordsRead(rest);
    case BoolValue(_) =>
      WordsRead(rest);
    case NumberValue(token) =>
      NumberReads(token, rest);
    case TextValue(text) =>
      StringReads(text, rest);
      Dispatch(Quoted(text) + rest);
    case ListValue(items) =>
      if items == [] {
        EmptyRead(rest);
        assert Print(v) == [OPEN_LIST, CLOSE_LIST];
      } else {
        ItemsRead(items, rest);
        ListReads(items, rest);
      }
    case ObjectValue(fields) =>
      if fields == [] {
        EmptyRead(rest);
        assert Print(v) == [OPEN_OBJECT, CLOSE_OBJECT];
      } else {
        FieldsRead(fields, rest);
        ObjectReads(fields, rest);
      }
  }

  lemma ListReads(items: seq<Ordered>, rest: Text)
    requires items != [] && Printable(items[0])
    requires ReadItems(PrintItems(items, false) + ([CLOSE_LIST] + rest)) == Some(Got(items, rest))
    ensures ReadValue(Print(ListValue(items)) + rest) == Some(Got(ListValue(items), rest))
  {
    PrintStarts(items[0]);
    hide ReadItems, ReadValue;
    var inner := PrintItems(items, false) + ([CLOSE_LIST] + rest);
    assert Print(ListValue(items)) + rest == [OPEN_LIST] + inner;
    assert inner[0] == Print(items[0])[0];
    Dispatch([OPEN_LIST] + inner);
    assert ([OPEN_LIST] + inner)[1..] == inner;
  }

  lemma ObjectReads(fields: seq<OrderedField>, rest: Text)
    requires fields != []
    requires ReadFields(PrintFields(fields, false) + ([CLOSE_OBJECT] + rest)) == Some(Got(fields, rest))
    ensures ReadValue(Print(ObjectValue(fields)) + rest) == Some(Got(ObjectValue(fields), rest))
  {
    hide ReadFields, ReadValue;
    var inner := PrintFields(fields, false) + ([CLOSE_OBJECT] + rest);
    assert Print(ObjectValue(fields)) + rest == [OPEN_OBJECT] + inner;
    assert inner[0] == Quoted(fields[0].key)[0] == QUOTE;
    Dispatch([OPEN_OBJECT] + inner);
    assert ([OPEN_OBJECT] + inner)[1..] == inner;
  }

  lemma ItemsShape(items: seq<Ordered>, tail: Text)
    requires items != []
    ensures PrintItems(items, false) + tail == Print(items[0]) + (PrintItems(items[1..], true) + tail)
  {
    hide Print;
  }

  lemma CommaFirst(items: seq<Ordered>, tail: Text)
    requires items != []
    ensures PrintItems(items, true) + tail == [COMMA] + (PrintItems(items, false) + tail)
  {
    hide Print;
    var later := PrintItems(items[1..], true);
    assert PrintItems(items, true) == [COMMA] + Print(items[0]) + later;
    assert PrintItems(items, false) == Print(items[0]) + later;
  }

  lemma LastItem(t: Text, v: Ordered, rest: Text)
    requires ReadValue(t) == Some(Got(v, [CLOSE_LIST] + rest))
    ensures ReadItems(t) == Some(Got([v], rest))
  {
    SplitsAfter([CLOSE_LIST], rest);
    hide ReadValue;
  }

  lemma ItemThenMore(t: Text, v: Ordered, more: Text, items: seq<Ordered>, rest: Text)
    requires ReadValue(t) == Some(Got(v, [COMMA] + more)) && ReadItems(more) == Some(Got(items, rest))
    ensures ReadItems(t) == Some(Got([v] + items, rest))
  {
    SplitsAfter([COMMA], more);
    hide ReadValue;
  }

  lemma {:induction false} ItemsRead(items: seq<Ordered>, rest: Text)
    requires items != [] && forall i :: 0 <= i < |items| ==> Printable(items[i])
    ensures ReadItems(PrintItems(items, false) + ([CLOSE_LIST] + rest)) == Some(Got(items, rest))
    decreases items
  {
    var tail, t := [CLOSE_LIST] + rest, PrintItems(items, false) + ([CLOSE_LIST] + rest);
    ItemsShape(items, tail);
    if |items| == 1 {
      assert items == [items[0]] && items[1..] == [];
      NoMoreItems(tail);
      PrintReads(items[0], tail);
      LastItem(t, items[0], rest);
    } else {
      var more := PrintItems(items[1..], false) + tail;
      ItemsRead(items[1..], rest);
      CommaFirst(items[1..], tail);
      PrintReads(items[0], [COMMA] + more);
      ItemThenMore(t, items[0], more, items[1..], rest);
      assert items == [items[0]] + items[1..];
    }
  }

  lemma NoMoreItems(tail: Text)
    ensures PrintItems([], true) + tail == tail
  {
  }

  lemma FieldsShape(fields: seq<OrderedField>, tail: Text)
    requires fields != []
    ensures var f := fields[0];
            PrintFields(fields, false) + tail
            == Quoted(f.key) + ([COLON] + (Print(f.value) + (PrintFields(fields[1..], true) + tail)))
  {
    hide Print, Quoted, PrintFields;
    var key, value, later := Quoted(fields[0].key), Print(fields[0].value), PrintFields(fields[1..], true);
    Printed(fields);
    Regrouped(key, value, later, tail);
  }

  lemma Printed(fields: seq<OrderedField>)
    requires fields != []
    ensures PrintFields(fields, false)
            == (Quoted(fields[0].key) + [COLON] + Print(fields[0].value)) + PrintFields(fields[1..], true)
  {
    hide Print, Quoted;
    var first := Quoted(fields[0].key) + [COLON] + Print(fields[0].value);
    var later := PrintFields(fields[1..], true);
    var none: Text := [];
    assert PrintFields(fields, false) == none + first + later;
    hide PrintFields;
    assert none + first == first;
  }

  lemma Regrouped(key: Text, value: Text, later: Text, tail: Text)
    ensures ((key + [COLON] + value) + later) + tail == key + ([COLON] + (value + (later + tail)))
  {
  }

  lemma CommaFirstField(fields: seq<OrderedField>, tail: Text)
    requires fields != []
    ensures PrintFields(fields, true) + tail == [COMMA] + (PrintFields(fields, false) + tail)
  {
    hide Print, Quoted;
    var first := Quoted(fields[0].key) + [COLON] + Print(fields[0].value);
    var later := PrintFields(fields[1..], true);
    assert PrintFields(fields, true) == [COMMA] + first + later;
    assert PrintFields(fields, false) == first + later;
  }

  lemma FieldReads(f: OrderedField, later: Text)
    requires Units(f.key)
    requires ReadValue(Print(f.value) + later) == Some(Got(f.value, later))
    ensures ReadField(Quoted(f.key) + ([COLON] + (Print(f.value) + later))) == Some(Got(f, later))
  {
    StringReads(f.key, [COLON] + (Print(f.value) + later));
    SplitsAfter([COLON], Print(f.value) + later);
    hide Print, Quoted, ReadValue, ReadString;
  }

  lemma LastField(t: Text, f: OrderedField, rest: Text)
    requires ReadField(t) == Some(Got(f, [CLOSE_OBJECT] + rest))
    ensures ReadFields(t) == Some(Got([f], rest))
  {
    SplitsAfter([CLOSE_OBJECT], rest);
    hide ReadField;
  }

  lemma FieldThenMore(t: Text, f: OrderedField, more: Text, fields: seq<OrderedField>, rest: Text)
    requires ReadField(t) == Some(Got(f, [COMMA] + more)) && ReadFields(more) == Some(Got(fields, rest))
    ensures ReadFields(t) == Some(Got([f] + fields, rest))
  {
    SplitsAfter([COMMA], more);
    hide ReadField;
  }

  lemma NoMoreFields(tail: Text)
    ensures PrintFields([], true) + tail == tail
  {
  }

  lemma {:induction false} FieldsRead(fields: seq<OrderedField>, rest: Text)
    requires fields != [] && Printable(ObjectValue(fields))
    ensures ReadFields(PrintFields(fields, false) + ([CLOSE_OBJECT] + rest)) == Some(Got(fields, rest))
    decreases fields
  {
    hide Print, Quoted, PrintFields, ReadField, ReadFields;
    var tail, t := [CLOSE_OBJECT] + rest, PrintFields(fields, false) + ([CLOSE_OBJECT] + rest);
    FieldsShape(fields, tail);
    if |fields| == 1 {
      assert fields == [fields[0]] && fields[1..] == [];
      NoMoreFields(tail);
      PrintReads(fields[0].value, tail);
      FieldReads(fields[0], tail);
      LastField(t, fields[0], rest);
    } else {
      var more := PrintFields(fields[1..], false) + tail;
      FieldsRead(fields[1..], rest);
      CommaFirstField(fields[1..], tail);
      PrintReads(fields[0].value, [COMMA] + more);
      FieldReads(fields[0], [COMMA] + more);
      FieldThenMore(t, fields[0], more, fields[1..], rest);
      assert fields == [fields[0]] + fields[1..];
    }
  }

  // ---- Texts are unique ----

  /** Texts of two values followed by rests that end them agree only if values and rests agree. */
  lemma PrintUnique(v: Ordered, w: Ordered, a: Text, b: Text)
    requires Printable(v) && Printable(w) && Ends(a) && Ends(b)
    requires Print(v) + a == Print(w) + b
    ensures v == w && a == b
  {
    PrintReads(v, a);
    PrintReads(w, b);
  }

  /** The same of quoted strings, whatever follows. */
  lemma QuotedUnique(s: Text, t: Text, a: Text, b: Text)
    requires Units(s) && Units(t) && Quoted(s) + a == Quoted(t) + b
    ensures s == t && a == b
  {
    StringReads(s, a);
    StringReads(t, b);
  }
}
