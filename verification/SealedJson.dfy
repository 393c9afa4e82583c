/**
 Sealing an operation with the digest of its validated content, and verifying that digest.

 Validation is a schema of strict records, unions told apart by a tag, lists and leaves, any of them
 refined by a rule, with members that may be optional or carry a default. A cross-field check that
 does not look at the digest follows. The hash is any function from text to text.
 */
module SealedJson {
  import opened Wrappers
  import opened JsonText
  import opened CanonicalJson

  datatype Shape =
    | Leaf(accepts: Value -> bool)
    | ListOf(item: Shape)
    | Record(members: seq<Member>)
    | OneOf(tag: Text, branches: seq<Branch>)
    | Refined(base: Shape, holds: Value -> bool)

  /** A record of a union, for values whose tag is `name`. */
  datatype Branch = Branch(name: Text, members: seq<Member>)

  datatype Member = Member(key: Text, shape: Shape, absent: Absent)

  datatype Absent = Required | Optional | Default(value: Value)

  predicate KnownKey(members: seq<Member>, k: Text) {
    exists j :: 0 <= j < |members| && members[j].key == k
  }

  predicate Known(members: seq<Member>, fields: seq<Field>) {
    forall i :: 0 <= i < |fields| ==> KnownKey(members, fields[i].key)
  }

  /** The validated value, with defaults filled in, or none where validation throws. */
  function Parse(shape: Shape, v: Value): Option<Value>
    decreases shape, 0
  {
    match shape
    case Leaf(accepts) => if v != Undefined && accepts(v) then Some(v) else None
    case ListOf(item) =>
      if !v.List? then None
      else
        var items := ParseItems(item, v.items);
        if items.None? then None else Some(List(items.value))
    case Record(members) => ParseRecord(members, v)
    case OneOf(tag, branches) =>
      if !v.Object? then None
      else
        var n := BranchOf(branches, Get(v.fields, tag));
        if n.None? then None else ParseRecord(branches[n.value].members, v)
    case Refined(base, holds) =>
      var parsed := Parse(base, v);
      if parsed.Some? && holds(parsed.value) then parsed else None
  }

  /** The branch a tag selects. */
  function BranchOf(branches: seq<Branch>, tag: Value): (n: Option<nat>)
    ensures n.Some? ==> n.value < |branches| && Str(branches[n.value].name) == tag
    ensures n.None? ==> forall i :: 0 <= i < |branches| ==> Str(branches[i].name) != tag
  {
    if branches == [] then None
    else if Str(branches[0].name) == tag then Some(0)
    else
      var later := BranchOf(branches[1..], tag);
      if later.None? then None else Some(later.value + 1)
  }

  function ParseRecord(members: seq<Member>, v: Value): Option<Value>
    decreases members, 1
  {
    if !v.Object? || !Known(members, v.fields) then None
    else
      var fields := ParseMembers(members, v.fields);
      if fields.None? then None else Some(Object(fields.value))
  }

  function ParseItems(item: Shape, items: seq<Value>): Option<seq<Value>>
    decreases item, 1, |items|
  {
    if items == [] then Some([])
    else
      var head, tail := Parse(item, items[0]), ParseItems(item, items[1..]);
      if head.None? || tail.None? then None else Some([head.value] + tail.value)
  }

  /** A member's value after validation; undefined when it is left out. */
  function ParseMember(m: Member, v: Value): Option<Value>
    decreases m, 0
  {
    if v == Undefined then
      match m.absent
      case Required => None
      case Optional => Some(Undefined)
      case Default(value) => Some(value)
    else Parse(m.shape, v)
  }

  function ParseMembers(members: seq<Member>, fields: seq<Field>): Option<seq<Field>>
    decreases members, 0
  {
    if members == [] then Some([])
    else
      var m := members[0];
      var head, tail := ParseMember(m, Get(fields, m.key)), ParseMembers(members[1..], fields);
      if head.None? || tail.None? then None
      else if head.value == Undefined then tail
      else Some([Field(m.key, head.value)] + tail.value)
  }

  /**
   Member keys are distinct, every default is itself a validated value, and the branches of a union
   carry its tag as a required leaf.
   */
  ghost predicate WellShaped(shape: Shape)
    decreases shape, 0
  {
    match shape
    case Leaf(_) => true
    case ListOf(item) => WellShaped(item)
    case Record(members) => RecordShaped(members)
    case OneOf(tag, branches) =>
      forall n :: 0 <= n < |branches| ==>
        RecordShaped(branches[n].members) && exists i :: TagMember(branches[n].members, tag, i)
    case Refined(base, _) => WellShaped(base)
  }

  ghost predicate RecordShaped(members: seq<Member>)
    decreases members, 1
  {
    && (forall i, j :: 0 <= i < j < |members| ==> members[i].key != members[j].key)
    && (forall i :: 0 <= i < |members| ==> MemberShaped(members[i]))
  }

  ghost predicate MemberShaped(m: Member)
    decreases m, 1
  {
    && WellShaped(m.shape)
    && (m.absent.Default? ==>
          m.absent.value != Undefined && Parse(m.shape, m.absent.value) == Some(m.absent.value))
  }

  predicate TagMember(members: seq<Member>, tag: Text, i: int) {
    0 <= i < |members| && members[i].key == tag && members[i].absent == Required
    && members[i].shape.Leaf?
  }

  // ---- Validation is idempotent ----

  lemma {:induction false} ParsedIsDefined(shape: Shape, v: Value)
    requires Parse(shape, v).Some?
    ensures Parse(shape, v).value != Undefined
  {
    if shape.Refined? {
      ParsedIsDefined(shape.base, v);
    }
  }

  lemma {:induction false} GetNone(fields: seq<Field>, k: Text)
    requires forall i :: 0 <= i < |fields| ==> fields[i].key != k
    ensures Get(fields, k) == Undefined
  {
    if fields != [] {
      GetNone(fields[1..], k);
    }
  }

  /** Validated members can be read back, and no other key is there. */
  lemma {:induction false} MembersRead(members: seq<Member>, fields: seq<Field>)
    requires ParseMembers(members, fields).Some?
    requires forall i, j :: 0 <= i < j < |members| ==> members[i].key != members[j].key
    ensures var out := ParseMembers(members, fields).value;
            && Known(members, out)
            && (forall i :: 0 <= i < |members| ==>
                  ParseMember(members[i], Get(fields, members[i].key))
                  == Some(Get(out, members[i].key)))
  {
    hide ParseMember;
    if members != [] {
      var m, rest := members[0], members[1..];
      MembersRead(rest, fields);
      var out, tail := ParseMembers(members, fields).value, ParseMembers(rest, fields).value;
      KnownLater(members, tail);
      forall i | 0 <= i < |tail| ensures tail[i].key != m.key {
        var j :| 0 <= j < |rest| && rest[j].key == tail[i].key;
        assert members[0].key != members[j + 1].key;
      }
      GetNone(tail, m.key);
      forall i | 0 < i < |members|
        ensures ParseMember(members[i], Get(fields, members[i].key))
                == Some(Get(out, members[i].key))
      {
        assert members[i] == rest[i - 1];
        assert members[0].key != members[i].key;
        assert out != tail ==> out[1..] == tail;
      }
    }
  }

  lemma KnownLater(members: seq<Member>, tail: seq<Field>)
    requires members != [] && Known(members[1..], tail)
    ensures Known(members, tail)
  {
    forall i | 0 <= i < |tail| ensures KnownKey(members, tail[i].key) {
      var j :| 0 <= j < |members[1..]| && members[1..][j].key == tail[i].key;
      assert members[j + 1].key == tail[i].key;
    }
  }

  lemma {:induction false} SameReadsParseAlike(members: seq<Member>, fields: seq<Field>,
                                               others: seq<Field>)
    requires forall i :: 0 <= i < |members| ==>
               ParseMember(members[i], Get(fields, members[i].key))
               == ParseMember(members[i], Get(others, members[i].key))
    ensures ParseMembers(members, fields) == ParseMembers(members, others)
  {
    hide ParseMember;
    if members != [] {
      var rest := members[1..];
      forall i | 0 <= i < |rest|
        ensures ParseMember(rest[i], Get(fields, rest[i].key))
                == ParseMember(rest[i], Get(others, rest[i].key))
      {
        assert rest[i] == members[i + 1];
      }
      SameReadsParseAlike(rest, fields, others);
    }
  }

  /** A required leaf is kept as it is. */
  lemma LeafMemberKept(members: seq<Member>, v: Value, tag: Text, i: int)
    requires RecordShaped(members) && TagMember(members, tag, i) && ParseRecord(members, v).Some?
    ensures ParseRecord(members, v).value.Object?
    ensures Get(ParseRecord(members, v).value.fields, tag) == Get(v.fields, tag) != Undefined
  {
    MembersRead(members, v.fields);
    assert ParseMember(members[i], Get(v.fields, tag)).Some?;
  }

  /** Validation keeps the tag of a union, and so stays in its branch. */
  lemma TagKept(tag: Text, branches: seq<Branch>, v: Value) returns (n: nat)
    requires WellShaped(OneOf(tag, branches)) && Parse(OneOf(tag, branches), v).Some?
    ensures n < |branches| && BranchOf(branches, Get(v.fields, tag)) == Some(n)
    ensures Parse(OneOf(tag, branches), v) == ParseRecord(branches[n].members, v)
    ensures Parse(OneOf(tag, branches), v).value.Object?
    ensures Get(Parse(OneOf(tag, branches), v).value.fields, tag) == Get(v.fields, tag)
            == Str(branches[n].name)
  {
    hide MemberShaped;
    n := BranchOf(branches, Get(v.fields, tag)).value;
    var i :| TagMember(branches[n].members, tag, i);
    LeafMemberKept(branches[n].members, v, tag, i);
  }

  lemma {:induction false} ParseIdempotent(shape: Shape, v: Value)
    requires WellShaped(shape) && Parse(shape, v).Some?
    ensures Parse(shape, Parse(shape, v).value) == Parse(shape, v)
    decreases shape, 1
  {
    match shape
    case Leaf(_) =>
    case ListOf(item) =>
      ItemsIdempotent(item, v.items);
    case Record(members) =>
      RecordIdempotent(members, v);
    case OneOf(tag, branches) =>
      var n := TagKept(tag, branches, v);
      RecordIdempotent(branches[n].members, v);
    case Refined(base, _) =>
      ParseIdempotent(base, v);
  }

  lemma {:induction false} RecordIdempotent(members: seq<Member>, v: Value)
    requires RecordShaped(members) && ParseRecord(members, v).Some?
    ensures ParseRecord(members, ParseRecord(members, v).value) == ParseRecord(members, v)
    decreases members, 2
  {
    var out := ParseMembers(members, v.fields).value;
    MembersRead(members, v.fields);
    hide ParseMember;
    forall i | 0 <= i < |members|
      ensures ParseMember(members[i], Get(out, members[i].key))
              == ParseMember(members[i], Get(v.fields, members[i].key))
    {
      MemberIdempotent(members[i], Get(v.fields, members[i].key));
    }
    SameReadsParseAlike(members, out, v.fields);
  }

  lemma {:induction false} MemberIdempotent(m: Member, v: Value)
    requires MemberShaped(m) && ParseMember(m, v).Some?
    ensures ParseMember(m, ParseMember(m, v).value) == ParseMember(m, v)
    decreases m
  {
    if v != Undefined {
      ParseIdempotent(m.shape, v);
      ParsedIsDefined(m.shape, v);
    }
  }

  lemma {:induction false} ItemsIdempotent(item: Shape, items: seq<Value>)
    requires WellShaped(item) && ParseItems(item, items).Some?
    ensures ParseItems(item, ParseItems(item, items).value) == ParseItems(item, items)
    decreases item, 2, |items|
  {
    hide Parse;
    if items != [] {
      ParseIdempotent(item, items[0]);
      ItemsIdempotent(item, items[1..]);
      var out := ParseItems(item, items).value;
      assert out[1..] == ParseItems(item, items[1..]).value;
    }
  }

  // ---- Sealing ----

  /** The key of the digest member, `contentDigest`. */
  const DIGEST: Text := [0x63, 0x6F, 0x6E, 0x74, 0x65, 0x6E, 0x74,
                         0x44, 0x69, 0x67, 0x65, 0x73, 0x74]

  predicate HasKey(fields: seq<Field>, k: Text) {
    exists i :: 0 <= i < |fields| && fields[i].key == k
  }

  function Without(fields: seq<Field>, k: Text): seq<Field> {
    if fields == [] then []
    else if fields[0].key == k then Without(fields[1..], k)
    else [fields[0]] + Without(fields[1..], k)
  }

  function WithDigest(fields: seq<Field>, digest: Value): seq<Field> {
    if fields == [] then []
    else
      [if fields[0].key == DIGEST then Field(DIGEST, digest) else fields[0]]
      + WithDigest(fields[1..], digest)
  }

  /** The digest of an operation: the hash of its canonical text, its own digest left out. */
  function DigestBody(sha: Text -> Text, fields: seq<Field>): Option<Value> {
    var text := Canonical(Object(Without(fields, DIGEST)));
    if text.None? then None else Some(Str(sha(text.value)))
  }

  /** What validation demands: a shape, and rules across members other than the digest. */
  datatype Schema = Schema(shape: Shape, rules: seq<Field> -> bool)

  function Validated(schema: Schema, v: Value): Option<Value> {
    var parsed := Parse(schema.shape, v);
    if parsed.None? || !parsed.value.Object? then None
    else if !schema.rules(Without(parsed.value.fields, DIGEST)) then None
    else parsed
  }

  function Unsealed(v: Value, placeholder: Value): Value
    requires v.Object?
  {
    Object(v.fields + [Field(DIGEST, placeholder)])
  }

  function Seal(schema: Schema, sha: Text -> Text, placeholder: Value, v: Value): Option<Value> {
    if !v.Object? || HasKey(v.fields, DIGEST) then None
    else
      var normalized := Validated(schema, Unsealed(v, placeholder));
      if normalized.None? then None
      else
        var digest := DigestBody(sha, normalized.value.fields);
        if digest.None? then None
        else Validated(schema, Object(WithDigest(normalized.value.fields, digest.value)))
  }

  predicate Verifies(schema: Schema, sha: Text -> Text, operation: Value) {
    var normalized := Validated(schema, operation);
    && normalized.Some?
    && operation.Object?
    && DigestBody(sha, normalized.value.fields) == Some(Get(operation.fields, DIGEST))
  }

  /** A record, or a union of records, with a required digest leaf that takes what the hash makes. */
  ghost predicate Seals(schema: Schema, sha: Text -> Text) {
    && WellShaped(schema.shape)
    && match schema.shape {
         case Record(members) => Digested(members, sha)
         case OneOf(tag, branches) =>
           tag != DIGEST && forall n :: 0 <= n < |branches| ==> Digested(branches[n].members, sha)
         case _ => false
       }
  }

  ghost predicate Digested(members: seq<Member>, sha: Text -> Text) {
    exists i :: DigestMember(members, sha, i)
  }

  ghost predicate DigestMember(members: seq<Member>, sha: Text -> Text, i: int) {
    && 0 <= i < |members| && members[i].key == DIGEST
    && members[i].absent == Required && members[i].shape.Leaf?
    && forall text :: members[i].shape.accepts(Str(sha(text)))
  }

  lemma {:induction false} GetWithDigest(fields: seq<Field>, digest: Value, k: Text)
    requires digest != Undefined
    ensures Get(WithDigest(fields, digest), k)
            == if k == DIGEST && HasKey(fields, DIGEST) then digest else Get(fields, k)
    ensures Without(WithDigest(fields, digest), DIGEST) == Without(fields, DIGEST)
  {
    if fields != [] {
      var head := if fields[0].key == DIGEST then Field(DIGEST, digest) else fields[0];
      assert WithDigest(fields, digest)[1..] == WithDigest(fields[1..], digest);
      assert WithDigest(fields, digest)[0] == head;
      GetWithDigest(fields[1..], digest, k);
      HasKeyTail(fields);
    }
  }

  lemma HasKeyTail(fields: seq<Field>)
    requires fields != []
    ensures HasKey(fields, DIGEST) <==> fields[0].key == DIGEST || HasKey(fields[1..], DIGEST)
  {
    if HasKey(fields[1..], DIGEST) {
      var i :| 0 <= i < |fields[1..]| && fields[1..][i].key == DIGEST;
      assert fields[i + 1].key == DIGEST;
    }
    if HasKey(fields, DIGEST) && fields[0].key != DIGEST {
      var i :| 0 <= i < |fields| && fields[i].key == DIGEST;
      assert fields[1..][i - 1].key == DIGEST;
    }
  }

  lemma {:induction false} KnownWithDigest(members: seq<Member>, fields: seq<Field>, digest: Value)
    requires Known(members, fields)
    ensures Known(members, WithDigest(fields, digest))
  {
    if fields != [] {
      assert WithDigest(fields, digest)[1..] == WithDigest(fields[1..], digest);
      forall i | 0 <= i < |fields[1..]| ensures KnownKey(members, fields[1..][i].key) {
        assert fields[1..][i] == fields[i + 1];
      }
      KnownWithDigest(members, fields[1..], digest);
      var out := WithDigest(fields, digest);
      forall i | 0 <= i < |out| ensures KnownKey(members, out[i].key) {
        if i == 0 {
          assert out[0].key == fields[0].key;
        } else {
          assert out[i] == WithDigest(fields[1..], digest)[i - 1];
        }
      }
    }
  }

  /** Parsing members of a value with another digest gives the parsed members with that digest. */
  lemma {:induction false} ParseWithDigest(members: seq<Member>, fields: seq<Field>, digest: Value)
    requires ParseMembers(members, fields).Some? && digest != Undefined
    requires HasKey(fields, DIGEST)
    requires forall i :: 0 <= i < |members| && members[i].key == DIGEST ==>
               members[i].shape.Leaf? && members[i].shape.accepts(digest)
               && Get(fields, DIGEST) != Undefined
    ensures ParseMembers(members, WithDigest(fields, digest))
            == Some(WithDigest(ParseMembers(members, fields).value, digest))
  {
    hide Parse;
    if members != [] {
      var m := members[0];
      forall i | 0 <= i < |members[1..]| ensures members[1..][i] == members[i + 1] {}
      ParseWithDigest(members[1..], fields, digest);
      GetWithDigest(fields, digest, m.key);
      if m.key == DIGEST {
        LeafTakes(m.shape, digest);
        LeafKeeps(m.shape, Get(fields, DIGEST));
      }
      var out := ParseMembers(members, fields).value;
      assert out != ParseMembers(members[1..], fields).value ==>
          out[1..] == ParseMembers(members[1..], fields).value;
    }
  }

  lemma LeafTakes(shape: Shape, v: Value)
    requires shape.Leaf? && shape.accepts(v) && v != Undefined
    ensures Parse(shape, v) == Some(v)
  {
  }

  lemma LeafKeeps(shape: Shape, v: Value)
    requires shape.Leaf?
    ensures Parse(shape, v).Some? ==> Parse(shape, v).value == v != Undefined
  {
  }

  lemma {:induction false} GetHasKey(fields: seq<Field>, k: Text)
    ensures Get(fields, k) != Undefined ==> HasKey(fields, k)
  {
    if fields != [] && fields[0].key != k {
      GetHasKey(fields[1..], k);
      if HasKey(fields[1..], k) {
        var i :| 0 <= i < |fields[1..]| && fields[1..][i].key == k;
        assert fields[i + 1].key == k;
      }
    } else if fields != [] {
      assert fields[0].key == k;
    }
  }

  /** A validated record with a digest leaf stays validated under any digest the hash makes. */
  lemma RecordSwaps(members: seq<Member>, sha: Text -> Text, v: Value, digest: Value)
    requires RecordShaped(members) && Digested(members, sha) && ParseRecord(members, v).Some?
    requires exists text :: digest == Str(sha(text))
    ensures var out := ParseRecord(members, v).value.fields;
            && HasKey(out, DIGEST)
            && ParseRecord(members, Object(WithDigest(out, digest)))
               == Some(Object(WithDigest(out, digest)))
  {
    var out := ParseRecord(members, v).value.fields;
    RecordIdempotent(members, v);
    MembersRead(members, v.fields);
    var i :| DigestMember(members, sha, i);
    LeafKeeps(members[i].shape, Get(v.fields, DIGEST));
    hide Parse, MemberShaped;
    GetHasKey(out, DIGEST);
    forall j | 0 <= j < |members| && members[j].key == DIGEST ensures j == i {
      assert members[i].key == members[j].key;
    }
    ParseWithDigest(members, out, digest);
    KnownWithDigest(members, out, digest);
    GetWithDigest(out, digest, DIGEST);
  }

  /** A validated operation carries a digest, and stays validated under any digest the hash makes. */
  lemma DigestSwaps(schema: Schema, sha: Text -> Text, v: Value, digest: Value)
    requires Seals(schema, sha) && Validated(schema, v).Some?
    requires exists text :: digest == Str(sha(text))
    ensures var out := Validated(schema, v).value.fields;
            && HasKey(out, DIGEST)
            && Validated(schema, Object(WithDigest(out, digest)))
               == Some(Object(WithDigest(out, digest)))
  {
    var out := Validated(schema, v).value.fields;
    GetWithDigest(out, digest, DIGEST);
    hide ParseRecord, RecordShaped, Digested, BranchOf, HasKey;
    match schema.shape
    case Record(members) =>
      RecordSwaps(members, sha, v, digest);
    case OneOf(tag, branches) =>
      var n := TagKept(tag, branches, v);
      RecordSwaps(branches[n].members, sha, v, digest);
      GetWithDigest(out, digest, tag);
  }

  /** Every sealed operation verifies: its digest is the digest of its own validated content. */
  lemma SealedVerifies(schema: Schema, sha: Text -> Text, placeholder: Value, v: Value)
    requires Seals(schema, sha) && Seal(schema, sha, placeholder, v).Some?
    ensures Verifies(schema, sha, Seal(schema, sha, placeholder, v).value)
  {
    hide Validated, Canonical, Seals, Without, WithDigest, Get, HasKey;
    var normalized := Validated(schema, Unsealed(v, placeholder)).value;
    ValidatedIsObject(schema, Unsealed(v, placeholder));
    var out := normalized.fields;
    var text := Canonical(Object(Without(out, DIGEST))).value;
    var digest := DigestBody(sha, out).value;
    assert digest == Str(sha(text));
    DigestSwaps(schema, sha, Unsealed(v, placeholder), digest);
    GetWithDigest(out, digest, DIGEST);
  }

  lemma ValidatedIsObject(schema: Schema, v: Value)
    requires Validated(schema, v).Some?
    ensures Validated(schema, v).value.Object?
  {
  }

  /**
   When the hash tells their two texts apart, two operations' digests are equal exactly when their
   validated contents are the same value, whatever the order of keys.
   */
  lemma DigestsIff(sha: Text -> Text, fields: seq<Field>, others: seq<Field>)
    requires var v, w := Object(Without(fields, DIGEST)), Object(Without(others, DIGEST));
             && WellFormed(v) && WellFormed(w) && Canonical(v).Some? && Canonical(w).Some?
             && (sha(Canonical(v).value) == sha(Canonical(w).value) ==> Canonical(v) == Canonical(w))
    ensures DigestBody(sha, fields) == DigestBody(sha, others)
            <==> Same(Object(Without(fields, DIGEST)), Object(Without(others, DIGEST)))
  {
    hide Canonical, WellFormed, Same, Without;
    CanonicalIff(Object(Without(fields, DIGEST)), Object(Without(others, DIGEST)));
  }

  // ---- Defaults ----

  /** One value is the other with some defaulted members spelled out or left out, at any depth. */
  ghost predicate Spells(shape: Shape, v: Value, w: Value)
    decreases shape
  {
    match shape
    case Leaf(_) => v == w
    case ListOf(item) =>
      v == w || (v.List? && w.List? && |v.items| == |w.items|
                 && forall i :: 0 <= i < |v.items| ==> Spells(item, v.items[i], w.items[i]))
    case Record(members) => v == w || SpellsRecord(members, v, w)
    case OneOf(tag, branches) =>
      v == w || (v.Object? && w.Object? && Get(v.fields, tag) == Get(w.fields, tag)
                 && var n := BranchOf(branches, Get(v.fields, tag));
                    n.Some? ==> SpellsRecord(branches[n.value].members, v, w))
    case Refined(base, _) => Spells(base, v, w)
  }

  ghost predicate SpellsRecord(members: seq<Member>, v: Value, w: Value)
    decreases members, 1
  {
    && v.Object? && w.Object? && (Known(members, v.fields) <==> Known(members, w.fields))
    && forall i :: 0 <= i < |members| ==>
         SpellsMember(members[i], Get(v.fields, members[i].key), Get(w.fields, members[i].key))
  }

  ghost predicate SpellsMember(m: Member, v: Value, w: Value)
    decreases m
  {
    || v == w
    || (v == Undefined && SpellsDefault(m, w))
    || (w == Undefined && SpellsDefault(m, v))
    || (v != Undefined && w != Undefined && Spells(m.shape, v, w))
  }

  ghost predicate SpellsDefault(m: Member, v: Value)
    decreases m, 0
  {
    m.absent.Default? && v != Undefined && Parse(m.shape, v) == Some(m.absent.value)
  }

  /** The fields agree on every key but one. */
  ghost predicate AgreeBut(a: seq<Field>, b: seq<Field>, key: Text) {
    forall k :: k != key ==> Get(a, k) == Get(b, k) && (HasKey(a, k) <==> HasKey(b, k))
  }

  lemma KnownIff(members: seq<Member>, fields: seq<Field>)
    ensures Known(members, fields) <==> forall k :: HasKey(fields, k) ==> KnownKey(members, k)
  {
    if forall k :: HasKey(fields, k) ==> KnownKey(members, k) {
      forall i | 0 <= i < |fields| ensures KnownKey(members, fields[i].key) {
        assert HasKey(fields, fields[i].key);
      }
    }
  }

  /** Records that differ in one member only spell each other when that member does. */
  lemma SpellsButOne(members: seq<Member>, a: seq<Field>, b: seq<Field>, i: int)
    requires 0 <= i < |members| && AgreeBut(a, b, members[i].key)
    requires forall j :: 0 <= j < |members| && members[j].key == members[i].key ==> j == i
    requires SpellsMember(members[i], Get(a, members[i].key), Get(b, members[i].key))
    ensures SpellsRecord(members, Object(a), Object(b))
  {
    KnownIff(members, a);
    KnownIff(members, b);
    assert KnownKey(members, members[i].key);
    hide SpellsMember;
    forall j | 0 <= j < |members|
      ensures SpellsMember(members[j], Get(a, members[j].key), Get(b, members[j].key))
    {
      if j != i { SameSpells(members[j], Get(a, members[j].key)); }
    }
  }

  lemma SameSpells(m: Member, v: Value)
    ensures SpellsMember(m, v, v)
  {
  }

  lemma {:induction false} SpelledParsesAlike(shape: Shape, v: Value, w: Value)
    requires Spells(shape, v, w)
    ensures Parse(shape, v) == Parse(shape, w)
    decreases shape, 0
  {
    if v != w {
      match shape
      case Leaf(_) =>
      case ListOf(item) =>
        ItemsParseAlike(item, v.items, w.items);
      case Record(members) =>
        RecordParsesAlike(members, v, w);
      case OneOf(tag, branches) =>
        var n := BranchOf(branches, Get(v.fields, tag));
        if n.Some? {
          RecordParsesAlike(branches[n.value].members, v, w);
        }
      case Refined(base, _) =>
        SpelledParsesAlike(base, v, w);
    }
  }

  lemma {:induction false} RecordParsesAlike(members: seq<Member>, v: Value, w: Value)
    requires SpellsRecord(members, v, w)
    ensures ParseRecord(members, v) == ParseRecord(members, w)
    decreases members, 1
  {
    hide ParseMember;
    forall i | 0 <= i < |members|
      ensures ParseMember(members[i], Get(v.fields, members[i].key))
              == ParseMember(members[i], Get(w.fields, members[i].key))
    {
      MemberParsesAlike(members[i], Get(v.fields, members[i].key), Get(w.fields, members[i].key));
    }
    SameReadsParseAlike(members, v.fields, w.fields);
  }

  lemma {:induction false} MemberParsesAlike(m: Member, v: Value, w: Value)
    requires SpellsMember(m, v, w)
    ensures ParseMember(m, v) == ParseMember(m, w)
    decreases m, 0
  {
    if v != Undefined && w != Undefined && v != w {
      SpelledParsesAlike(m.shape, v, w);
    }
  }

  lemma {:induction false} ItemsParseAlike(item: Shape, items: seq<Value>, others: seq<Value>)
    requires |items| == |others|
    requires forall i :: 0 <= i < |items| ==> Spells(item, items[i], others[i])
    ensures ParseItems(item, items) == ParseItems(item, others)
    decreases item, 1, |items|
  {
    hide Parse, Spells;
    if items != [] {
      SpelledParsesAlike(item, items[0], others[0]);
      ItemsParseAlike(item, items[1..], others[1..]);
    }
  }

  /**
   Leaving a defaulted member out or spelling it out, at any depth, seals to the same operation and
   so to the same digest.
   */
  lemma DefaultsSealAlike(schema: Schema, sha: Text -> Text, placeholder: Value, v: Value, w: Value)
    requires v.Object? && w.Object? && !HasKey(v.fields, DIGEST) && !HasKey(w.fields, DIGEST)
    requires Spells(schema.shape, Unsealed(v, placeholder), Unsealed(w, placeholder))
    ensures Seal(schema, sha, placeholder, v) == Seal(schema, sha, placeholder, w)
  {
    SpelledParsesAlike(schema.shape, Unsealed(v, placeholder), Unsealed(w, placeholder));
    hide Parse, Spells, Canonical, Without, HasKey, WithDigest;
  }
}
