/**
 Canonical JSON: the text of a value whose keys are sorted and whose undefined-valued keys are left
 out, and why two values have the same text exactly when they are the same value.

 An object lists its own keys in insertion order, each once. A number is its decimal text, which is
 unique for a finite number.
 */
module CanonicalJson {
  import opened Wrappers
  import opened JsonText
  import opened JsonReader
  import opened KeyOrder

  datatype Value =
    | Undefined
    | Null
    | Bool(truth: bool)
    | Number(token: Text)
    | Str(text: Text)
    | List(items: seq<Value>)
    | Object(fields: seq<Field>)

  datatype Field = Field(key: Text, value: Value)

  predicate DistinctKeys(fields: seq<Field>) {
    forall i, j :: 0 <= i < j < |fields| ==> fields[i].key != fields[j].key
  }

  /** Strings are UTF-16 text, numbers are finite, and an object has each key once. */
  predicate WellFormed(v: Value) {
    match v
    case Number(token) => NumberToken(token)
    case Str(text) => Units(text)
    case List(items) => forall i :: 0 <= i < |items| ==> WellFormed(items[i])
    case Object(fields) =>
      && DistinctKeys(fields)
      && (forall i :: 0 <= i < |fields| ==> Units(fields[i].key) && WellFormed(fields[i].value))
    case _ => true
  }

  /** The value of a key; a missing key reads as undefined. */
  function Get(fields: seq<Field>, k: Text): (v: Value)
    ensures v == Undefined || exists i :: 0 <= i < |fields| && fields[i] == Field(k, v)
  {
    if fields == [] then Undefined
    else if fields[0].key == k then
      assert fields[0] == Field(k, fields[0].value);
      fields[0].value
    else
      var v := Get(fields[1..], k);
      assert v == Undefined || exists i :: 0 <= i < |fields| && fields[i] == Field(k, v) by {
        if v != Undefined {
          var i :| 0 <= i < |fields[1..]| && fields[1..][i] == Field(k, v);
          assert fields[i + 1] == Field(k, v);
        }
      }
      v
  }

  // ---- The canonical text ----

  /** The text of a value, or none where the source throws: on an undefined item or value. */
  function Canonical(v: Value): Option<Text> {
    match v
    case Undefined => None
    case Null => Some(NULL_TEXT)
    case Bool(truth) => Some(if truth then TRUE_TEXT else FALSE_TEXT)
    case Number(token) => Some(token)
    case Str(text) => Some(Quoted(text))
    case List(items) =>
      var texts := CanonicalItems(items);
      if texts.None? then None else Some([OPEN_LIST] + Joined(texts.value, false) + [CLOSE_LIST])
    case Object(fields) =>
      var entries := CanonicalFields(fields);
      if entries.None? then None
      else Some([OPEN_OBJECT] + JoinedEntries(Sort(entries.value), false) + [CLOSE_OBJECT])
  }

  function CanonicalItems(items: seq<Value>): Option<seq<Text>> {
    if items == [] then Some([])
    else
      var head, tail := Canonical(items[0]), CanonicalItems(items[1..]);
      if head.None? || tail.None? then None else Some([head.value] + tail.value)
  }

  /** Keys with an undefined value are filtered out. */
  function CanonicalFields(fields: seq<Field>): Option<seq<Keyed<Text>>> {
    if fields == [] then Some([])
    else
      var tail := CanonicalFields(fields[1..]);
      if fields[0].value == Undefined then tail
      else
        var head := Canonical(fields[0].value);
        if head.None? || tail.None? then None
        else Some([Keyed(fields[0].key, head.value)] + tail.value)
  }

  function Joined(texts: seq<Text>, comma: bool): Text {
    if texts == [] then []
    else (if comma then [COMMA] else []) + texts[0] + Joined(texts[1..], true)
  }

  function JoinedEntries(entries: seq<Keyed<Text>>, comma: bool): Text {
    if entries == [] then []
    else (if comma then [COMMA] else []) + (Quoted(entries[0].key) + [COLON] + entries[0].value)
         + JoinedEntries(entries[1..], true)
  }

  // ---- Equality of values ----

  /** Equal up to the order of keys and keys with an undefined value. */
  ghost predicate Same(v: Value, w: Value)
    decreases v
  {
    match v
    case List(items) =>
      && w.List? && |items| == |w.items|
      && (forall i :: 0 <= i < |items| ==> Same(items[i], w.items[i]))
    case Object(fields) =>
      w.Object? && forall k :: Agree(fields, w.fields, k)
    case _ => v == w
  }

  ghost predicate Agree(fields: seq<Field>, others: seq<Field>, k: Text)
    decreases fields
  {
    if Get(fields, k) == Undefined then Get(others, k) == Undefined
    else Get(others, k) != Undefined && Same(Get(fields, k), Get(others, k))
  }

  /** Nothing undefined at the top or in a list, at any depth. */
  predicate Serializable(v: Value) {
    match v
    case Undefined => false
    case List(items) => forall i :: 0 <= i < |items| ==> Serializable(items[i])
    case Object(fields) =>
      forall i :: 0 <= i < |fields| ==>
        fields[i].value == Undefined || Serializable(fields[i].value)
    case _ => true
  }

  lemma {:induction false} CanonicalIffSerializable(v: Value)
    ensures Canonical(v).Some? <==> Serializable(v)
    decreases v, 0
  {
    match v
    case List(items) =>
      ItemsIffSerializable(items);
    case Object(fields) =>
      FieldsIffSerializable(fields);
    case _ =>
  }

  lemma {:induction false} ItemsIffSerializable(items: seq<Value>)
    ensures CanonicalItems(items).Some? <==> forall i :: 0 <= i < |items| ==> Serializable(items[i])
    decreases items
  {
    hide Canonical;
    if items != [] {
      CanonicalIffSerializable(items[0]);
      ItemsIffSerializable(items[1..]);
      if forall i :: 0 <= i < |items[1..]| ==> Serializable(items[1..][i]) {
        forall i | 0 < i < |items| ensures Serializable(items[i]) {
          assert items[i] == items[1..][i - 1];
        }
      } else {
        var i :| 0 <= i < |items[1..]| && !Serializable(items[1..][i]);
        assert !Serializable(items[i + 1]);
      }
    }
  }

  predicate FieldSerializable(f: Field) {
    f.value == Undefined || Serializable(f.value)
  }

  lemma {:induction false} FieldsIffSerializable(fields: seq<Field>)
    ensures CanonicalFields(fields).Some?
            <==> forall i :: 0 <= i < |fields| ==> FieldSerializable(fields[i])
    decreases fields
  {
    hide Canonical;
    if fields != [] {
      CanonicalIffSerializable(fields[0].value);
      FieldsIffSerializable(fields[1..]);
      if forall i :: 0 <= i < |fields[1..]| ==> FieldSerializable(fields[1..][i]) {
        forall i | 0 < i < |fields| ensures FieldSerializable(fields[i]) {
          assert fields[i] == fields[1..][i - 1];
        }
      } else {
        var i :| 0 <= i < |fields[1..]| && !FieldSerializable(fields[1..][i]);
        assert !FieldSerializable(fields[i + 1]);
      }
    }
  }

  // ---- The value with its keys in order ----

  function Order(v: Value): Ordered
    requires Serializable(v)
  {
    match v
    case Null => NullValue
    case Bool(truth) => BoolValue(truth)
    case Number(token) => NumberValue(token)
    case Str(text) => TextValue(text)
    case List(items) => ListValue(OrderItems(items))
    case Object(fields) =>
      assert forall i :: 0 <= i < |fields| ==> FieldSerializable(fields[i]);
      ObjectValue(Sort(OrderFields(fields)))
  }

  function OrderItems(items: seq<Value>): (ordered: seq<Ordered>)
    requires forall i :: 0 <= i < |items| ==> Serializable(items[i])
    ensures |ordered| == |items|
    ensures forall i :: 0 <= i < |items| ==> ordered[i] == Order(items[i])
  {
    if items == [] then [] else [Order(items[0])] + OrderItems(items[1..])
  }

  function OrderFields(fields: seq<Field>): seq<Keyed<Ordered>>
    requires forall i :: 0 <= i < |fields| ==> FieldSerializable(fields[i])
  {
    if fields == [] then []
    else
      assert FieldSerializable(fields[0]);
      if fields[0].value == Undefined then OrderFields(fields[1..])
      else [Keyed(fields[0].key, Order(fields[0].value))] + OrderFields(fields[1..])
  }

  // ---- The canonical text is the text of the ordered value ----

  function Printed(s: seq<Keyed<Ordered>>): seq<Keyed<Text>> {
    if s == [] then [] else [Keyed(s[0].key, Print(s[0].value))] + Printed(s[1..])
  }

  lemma {:induction false} InsertPrinted(e: Keyed<Ordered>, s: seq<Keyed<Ordered>>)
    ensures Insert(Keyed(e.key, Print(e.value)), Printed(s)) == Printed(Insert(e, s))
  {
    hide Print;
    if s != [] && Less(s[0].key, e.key) {
      InsertPrinted(e, s[1..]);
      assert Printed(s)[1..] == Printed(s[1..]);
      assert Insert(e, s)[1..] == Insert(e, s[1..]);
    } else {
      assert ([e] + s)[1..] == s;
    }
  }

  lemma {:induction false} SortPrinted(s: seq<Keyed<Ordered>>)
    ensures Sort(Printed(s)) == Printed(Sort(s))
  {
    hide Print;
    if s != [] {
      SortPrinted(s[1..]);
      assert Printed(s)[1..] == Printed(s[1..]);
      InsertPrinted(s[0], Sort(s[1..]));
    }
  }

  lemma {:induction false} JoinedPrinted(s: seq<Keyed<Ordered>>, comma: bool)
    ensures JoinedEntries(Printed(s), comma) == PrintFields(s, comma)
  {
    hide Print, Quoted;
    if s != [] {
      JoinedPrinted(s[1..], true);
      assert Printed(s)[1..] == Printed(s[1..]);
    }
  }

  lemma {:induction false} CanonicalIsPrint(v: Value)
    requires Serializable(v)
    ensures Canonical(v) == Some(Print(Order(v)))
    decreases v, 0
  {
    hide Quoted;
    match v
    case List(items) =>
      ItemsArePrinted(items, false);
    case Object(fields) =>
      assert forall i :: 0 <= i < |fields| ==> FieldSerializable(fields[i]);
      FieldsArePrinted(fields);
      SortPrinted(OrderFields(fields));
      JoinedPrinted(Sort(OrderFields(fields)), false);
    case _ =>
  }

  lemma {:induction false} ItemsArePrinted(items: seq<Value>, comma: bool)
    requires forall i :: 0 <= i < |items| ==> Serializable(items[i])
    ensures CanonicalItems(items).Some?
    ensures Joined(CanonicalItems(items).value, comma) == PrintItems(OrderItems(items), comma)
    decreases items
  {
    hide Canonical, Print, Order;
    if items != [] {
      CanonicalIsPrint(items[0]);
      ItemsArePrinted(items[1..], true);
      var texts := CanonicalItems(items).value;
      assert texts[1..] == CanonicalItems(items[1..]).value;
      assert OrderItems(items)[1..] == OrderItems(items[1..]);
    }
  }

  lemma {:induction false} FieldsArePrinted(fields: seq<Field>)
    requires forall i :: 0 <= i < |fields| ==> FieldSerializable(fields[i])
    ensures CanonicalFields(fields) == Some(Printed(OrderFields(fields)))
    decreases fields
  {
    hide Canonical, Print, Order;
    if fields != [] {
      assert FieldSerializable(fields[0]);
      FieldsArePrinted(fields[1..]);
      if fields[0].value != Undefined {
        CanonicalIsPrint(fields[0].value);
        assert OrderFields(fields)[1..] == OrderFields(fields[1..]);
      }
    }
  }

  lemma {:induction false} OrderIsPrintable(v: Value)
    requires Serializable(v) && WellFormed(v)
    ensures Printable(Order(v))
    decreases v, 0
  {
    match v
    case List(items) =>
      forall i | 0 <= i < |items| ensures Printable(OrderItems(items)[i]) {
        OrderIsPrintable(items[i]);
      }
    case Object(fields) =>
      assert forall i :: 0 <= i < |fields| ==> FieldSerializable(fields[i]);
      FieldsArePrintable(fields);
      var s := OrderFields(fields);
      SortMembers(s);
      forall i | 0 <= i < |Sort(s)| ensures Units(Sort(s)[i].key) && Printable(Sort(s)[i].value) {
        var j :| 0 <= j < |s| && s[j] == Sort(s)[i];
      }
    case _ =>
  }

  lemma {:induction false} FieldsArePrintable(fields: seq<Field>)
    requires forall i :: 0 <= i < |fields| ==> FieldSerializable(fields[i])
    requires forall i :: 0 <= i < |fields| ==> Units(fields[i].key) && WellFormed(fields[i].value)
    ensures forall i :: 0 <= i < |OrderFields(fields)| ==>
              Units(OrderFields(fields)[i].key) && Printable(OrderFields(fields)[i].value)
    decreases fields
  {
    hide Order, Printable;
    if fields != [] {
      assert FieldSerializable(fields[0]);
      FieldsArePrintable(fields[1..]);
      if fields[0].value != Undefined {
        OrderIsPrintable(fields[0].value);
      }
    }
  }

  // ---- Ordered values agree exactly when the values do ----

  /** An object's ordered list finds each defined key, and nothing else. */
  lemma {:induction false} OrderFinds(fields: seq<Field>, k: Text)
    requires forall i :: 0 <= i < |fields| ==> FieldSerializable(fields[i])
    requires DistinctKeys(fields)
    ensures Get(fields, k) == Undefined ==> Lookup(OrderFields(fields), k) == None
    ensures Get(fields, k) != Undefined ==>
              Serializable(Get(fields, k))
              && Lookup(OrderFields(fields), k) == Some(Order(Get(fields, k)))
    ensures forall i :: 0 <= i < |OrderFields(fields)| ==>
              exists j :: 0 <= j < |fields| && fields[j].key == OrderFields(fields)[i].key
  {
    hide Order, Serializable;
    if fields != [] {
      assert FieldSerializable(fields[0]);
      OrderFinds(fields[1..], k);
      var tail := OrderFields(fields[1..]);
      forall i | 0 <= i < |tail|
        ensures exists j :: 0 < j < |fields| && fields[j].key == tail[i].key
      {
        var j :| 0 <= j < |fields[1..]| && fields[1..][j].key == tail[i].key;
        assert fields[j + 1].key == tail[i].key;
      }
      LookupNone(tail, fields[0].key);
    }
  }

  lemma {:induction false} OrderDistinct(fields: seq<Field>)
    requires forall i :: 0 <= i < |fields| ==> FieldSerializable(fields[i])
    requires DistinctKeys(fields)
    ensures Distinct(OrderFields(fields))
  {
    hide Order, Serializable;
    if fields != [] {
      assert FieldSerializable(fields[0]);
      OrderDistinct(fields[1..]);
      OrderFinds(fields[1..], fields[0].key);
    }
  }

  lemma OrderedLookup(fields: seq<Field>, k: Text)
    requires forall i :: 0 <= i < |fields| ==> FieldSerializable(fields[i])
    requires DistinctKeys(fields)
    ensures Sorted(Sort(OrderFields(fields)))
    ensures Get(fields, k) == Undefined ==> Lookup(Sort(OrderFields(fields)), k) == None
    ensures Get(fields, k) != Undefined ==>
              Serializable(Get(fields, k))
              && Lookup(Sort(OrderFields(fields)), k) == Some(Order(Get(fields, k)))
  {
    hide Order, Serializable, Sort;
    OrderDistinct(fields);
    SortSorts(OrderFields(fields));
    OrderFinds(fields, k);
  }

  lemma {:induction false} OrderIff(v: Value, w: Value)
    requires WellFormed(v) && WellFormed(w) && Serializable(v) && Serializable(w)
    ensures Order(v) == Order(w) <==> Same(v, w)
    decreases v, 0
  {
    hide Sort, OrderFields;
    match v
    case List(items) =>
      if w.List? {
        ItemsIff(items, w.items);
      }
    case Object(fields) =>
      if w.Object? {
        assert forall i :: 0 <= i < |fields| ==> FieldSerializable(fields[i]);
        assert forall i :: 0 <= i < |w.fields| ==> FieldSerializable(w.fields[i]);
        FieldsIff(fields, w.fields);
        ObjectsSame(fields, w.fields);
      }
    case _ =>
  }

  lemma {:induction false} ItemsIff(items: seq<Value>, others: seq<Value>)
    requires forall i :: 0 <= i < |items| ==> WellFormed(items[i]) && Serializable(items[i])
    requires forall i :: 0 <= i < |others| ==> WellFormed(others[i]) && Serializable(others[i])
    ensures OrderItems(items) == OrderItems(others)
            <==> |items| == |others| && forall i :: 0 <= i < |items| ==> Same(items[i], others[i])
    decreases items
  {
    hide Order, Same, WellFormed, Serializable;
    if |items| == |others| {
      forall i | 0 <= i < |items|
        ensures Order(items[i]) == Order(others[i]) <==> Same(items[i], others[i])
      {
        OrderIff(items[i], others[i]);
      }
      if forall i :: 0 <= i < |items| ==> Same(items[i], others[i]) {
        assert OrderItems(items) == OrderItems(others);
      } else {
        var i :| 0 <= i < |items| && !Same(items[i], others[i]);
        assert OrderItems(items)[i] != OrderItems(others)[i];
      }
    }
  }

  ghost predicate SameFields(fields: seq<Field>, others: seq<Field>) {
    forall k :: Agree(fields, others, k)
  }

  lemma ObjectsSame(fields: seq<Field>, others: seq<Field>)
    ensures Same(Object(fields), Object(others)) <==> SameFields(fields, others)
  {
    if SameFields(fields, others) {
      forall k ensures Agree(fields, others, k) {}
    }
  }

  lemma {:induction false} KeyIff(fields: seq<Field>, others: seq<Field>, k: Text)
    requires WellFormed(Object(fields)) && WellFormed(Object(others))
    requires forall i :: 0 <= i < |fields| ==> FieldSerializable(fields[i])
    requires forall i :: 0 <= i < |others| ==> FieldSerializable(others[i])
    ensures Lookup(Sort(OrderFields(fields)), k) == Lookup(Sort(OrderFields(others)), k)
            <==> Agree(fields, others, k)
    decreases fields, 0
  {
    hide Order, Same, Serializable, Sort, OrderFields;
    OrderedLookup(fields, k);
    OrderedLookup(others, k);
    if Get(fields, k) != Undefined && Get(others, k) != Undefined {
      var i :| 0 <= i < |fields| && fields[i] == Field(k, Get(fields, k));
      var j :| 0 <= j < |others| && others[j] == Field(k, Get(others, k));
      OrderIff(fields[i].value, others[j].value);
    }
  }

  lemma {:induction false} FieldsIff(fields: seq<Field>, others: seq<Field>)
    requires WellFormed(Object(fields)) && WellFormed(Object(others))
    requires forall i :: 0 <= i < |fields| ==> FieldSerializable(fields[i])
    requires forall i :: 0 <= i < |others| ==> FieldSerializable(others[i])
    ensures Sort(OrderFields(fields)) == Sort(OrderFields(others))
            <==> SameFields(fields, others)
    decreases fields, 1
  {
    hide WellFormed, Get, Sort, OrderFields, FieldSerializable;
    var s, t := Sort(OrderFields(fields)), Sort(OrderFields(others));
    forall k ensures Lookup(s, k) == Lookup(t, k) <==> Agree(fields, others, k) {
      KeyIff(fields, others, k);
    }
    assert Sorted(s) && Sorted(t) by { SortedOrders(fields); SortedOrders(others); }
    if SameFields(fields, others) {
      SortedUnique(s, t);
    }
  }

  lemma SortedOrders(fields: seq<Field>)
    requires WellFormed(Object(fields))
    requires forall i :: 0 <= i < |fields| ==> FieldSerializable(fields[i])
    ensures Sorted(Sort(OrderFields(fields)))
  {
    OrderedLookup(fields, []);
  }

  /** A reader gets the ordered value back from canonical text: it is JSON, and nothing follows. */
  lemma CanonicalReads(v: Value)
    requires WellFormed(v) && Serializable(v)
    ensures Canonical(v).Some? && ReadValue(Canonical(v).value) == Some(Got(Order(v), []))
  {
    hide WellFormed, Canonical, Order, Print, Serializable;
    CanonicalIsPrint(v);
    OrderIsPrintable(v);
    PrintReads(Order(v), []);
    assert Print(Order(v)) + [] == Print(Order(v));
  }

  /**
   Canonical text is a canonical form: two values that serialize at all have equal text exactly when
   they are equal up to the order of keys and keys with an undefined value.
   */
  lemma CanonicalIff(v: Value, w: Value)
    requires WellFormed(v) && WellFormed(w) && Canonical(v).Some? && Canonical(w).Some?
    ensures Canonical(v) == Canonical(w) <==> Same(v, w)
  {
    hide WellFormed, Canonical, Same, Order, Print;
    CanonicalIffSerializable(v);
    CanonicalIffSerializable(w);
    CanonicalIsPrint(v);
    CanonicalIsPrint(w);
    OrderIff(v, w);
    if Canonical(v) == Canonical(w) {
      OrderIsPrintable(v);
      OrderIsPrintable(w);
      PrintUnique(Order(v), Order(w), [], []);
    }
  }
}
