/**
 What validation accepts and returns, said without validating: which values conform to a shape, and the
 one value each becomes. And what a verified operation is: exactly what sealing its content makes.
 */
module SealedChecks {
  import opened Wrappers
  import opened JsonText
  import opened CanonicalJson
  import opened SealedJson

  // ---- Validation ----

  /**
   A value conforms to a shape and becomes another: accepted leaves stay, lists go item by item, records
   member by member without unknown keys, a union goes the way of the first branch its tag names, and a
   refinement asks its question of the result.
   */
  ghost predicate Becomes(shape: Shape, v: Value, w: Value)
    decreases shape, 0
  {
    match shape
    case Leaf(accepts) => v != Undefined && accepts(v) && w == v
    case ListOf(item) =>
      && v.List? && w.List? && |v.items| == |w.items|
      && forall i :: 0 <= i < |v.items| ==> Becomes(item, v.items[i], w.items[i])
    case Record(members) => RecordBecomes(members, v, w)
    case OneOf(tag, branches) =>
      v.Object? && exists n :: 0 <= n < |branches| && Chosen(branches, Get(v.fields, tag), n)
                               && RecordBecomes(branches[n].members, v, w)
    case Refined(base, holds) => Becomes(base, v, w) && holds(w)
  }

  /** The first branch of that name. */
  predicate Chosen(branches: seq<Branch>, tag: Value, n: int) {
    && 0 <= n < |branches| && tag == Str(branches[n].name)
    && forall k :: 0 <= k < n ==> branches[k].name != branches[n].name
  }

  ghost predicate RecordBecomes(members: seq<Member>, v: Value, w: Value)
    decreases members, 1
  {
    && v.Object? && w.Object?
    && (forall i :: 0 <= i < |v.fields| ==> KnownKey(members, v.fields[i].key))
    && InMemberOrder(members, w.fields)
    && forall i :: 0 <= i < |members| ==>
         MemberBecomes(members[i], Get(v.fields, members[i].key), Get(w.fields, members[i].key))
  }

  /** What a member becomes when it is there, and what when it is left out. */
  ghost predicate MemberBecomes(m: Member, v: Value, w: Value)
    decreases m, 0
  {
    if v != Undefined then Becomes(m.shape, v, w)
    else match m.absent
         case Required => false
         case Optional => w == Undefined
         case Default(value) => w == value
  }

  /** Defined members only, in the order of the shape, each at most once. */
  ghost predicate InMemberOrder(members: seq<Member>, fields: seq<Field>) {
    if members == [] then fields == []
    else if fields != [] && fields[0].key == members[0].key then
      fields[0].value != Undefined && InMemberOrder(members[1..], fields[1..])
    else InMemberOrder(members[1..], fields)
  }

  lemma {:induction false} OrderIsKnown(members: seq<Member>, fields: seq<Field>)
    requires InMemberOrder(members, fields)
    ensures Known(members, fields)
  {
    if members != [] {
      if fields != [] && fields[0].key == members[0].key {
        OrderIsKnown(members[1..], fields[1..]);
        KnownLater(members, fields[1..]);
        forall i | 0 <= i < |fields| ensures KnownKey(members, fields[i].key) {
          assert i > 0 ==> fields[i] == fields[1..][i - 1];
        }
      } else {
        OrderIsKnown(members[1..], fields);
        KnownLater(members, fields);
      }
    }
  }

  /** Validated fields stand in member order. */
  lemma {:induction false} ParsedInOrder(members: seq<Member>, fields: seq<Field>)
    requires ParseMembers(members, fields).Some?
    requires forall i, j :: 0 <= i < j < |members| ==> members[i].key != members[j].key
    ensures InMemberOrder(members, ParseMembers(members, fields).value)
  {
    hide ParseMember;
    if members != [] {
      var rest := members[1..];
      forall i, j | 0 <= i < j < |rest| ensures rest[i].key != rest[j].key {
        assert members[i + 1].key != members[j + 1].key;
      }
      ParsedInOrder(rest, fields);
      var tail := ParseMembers(rest, fields).value;
      OrderIsKnown(rest, tail);
      if tail != [] {
        assert KnownKey(rest, tail[0].key);
        var j :| 0 <= j < |rest| && rest[j].key == tail[0].key;
        assert members[0].key != members[j + 1].key;
      }
      var out := ParseMembers(members, fields).value;
      assert out != tail ==> out[1..] == tail;
    }
  }

  lemma {:induction false} BranchIsFirst(branches: seq<Branch>, tag: Value)
    ensures BranchOf(branches, tag).Some? ==> Chosen(branches, tag, BranchOf(branches, tag).value)
  {
    if branches != [] && Str(branches[0].name) != tag {
      BranchIsFirst(branches[1..], tag);
      if BranchOf(branches, tag).Some? {
        var n := BranchOf(branches, tag).value;
        forall k | 0 <= k < n ensures branches[k].name != branches[n].name {
          assert k > 0 ==> branches[k] == branches[1..][k - 1];
        }
      }
    }
  }

  lemma ChosenIsFound(branches: seq<Branch>, tag: Value, n: int)
    requires Chosen(branches, tag, n)
    ensures BranchOf(branches, tag) == Some(n)
  {
    BranchIsFirst(branches, tag);
    var found := BranchOf(branches, tag);
    assert Str(branches[n].name) == tag;
    assert found.Some?;
  }

  lemma {:induction false} ParseBecomes(shape: Shape, v: Value)
    requires WellShaped(shape) && Parse(shape, v).Some?
    ensures Becomes(shape, v, Parse(shape, v).value)
    decreases shape, 1
  {
    match shape
    case Leaf(_) =>
    case ListOf(item) =>
      ItemsBecome(item, v.items);
    case Record(members) =>
      RecordParseBecomes(members, v);
    case OneOf(tag, branches) =>
      BranchIsFirst(branches, Get(v.fields, tag));
      RecordParseBecomes(branches[BranchOf(branches, Get(v.fields, tag)).value].members, v);
    case Refined(base, _) =>
      ParseBecomes(base, v);
  }

  lemma {:induction false} ItemsBecome(item: Shape, items: seq<Value>)
    requires WellShaped(item) && ParseItems(item, items).Some?
    ensures var out := ParseItems(item, items).value;
            |out| == |items| && forall i :: 0 <= i < |items| ==> Becomes(item, items[i], out[i])
    decreases item, 2, |items|
  {
    hide Parse, Becomes;
    if items != [] {
      ParseBecomes(item, items[0]);
      ItemsBecome(item, items[1..]);
      var out, rest := ParseItems(item, items).value, ParseItems(item, items[1..]).value;
      forall i | 0 <= i < |items| ensures Becomes(item, items[i], out[i]) {
        assert i > 0 ==> items[i] == items[1..][i - 1] && out[i] == rest[i - 1];
      }
    }
  }

  lemma {:induction false} RecordParseBecomes(members: seq<Member>, v: Value)
    requires RecordShaped(members) && ParseRecord(members, v).Some?
    ensures RecordBecomes(members, v, ParseRecord(members, v).value)
    decreases members, 2
  {
    MembersRead(members, v.fields);
    ParsedInOrder(members, v.fields);
    var out := ParseMembers(members, v.fields).value;
    hide ParseMember, ParseMembers;
    forall i | 0 <= i < |members|
      ensures MemberBecomes(members[i], Get(v.fields, members[i].key), Get(out, members[i].key))
    {
      MemberParseBecomes(members[i], Get(v.fields, members[i].key));
    }
  }

  lemma {:induction false} MemberParseBecomes(m: Member, v: Value)
    requires MemberShaped(m) && ParseMember(m, v).Some?
    ensures MemberBecomes(m, v, ParseMember(m, v).value)
    decreases m
  {
    if v != Undefined {
      ParseBecomes(m.shape, v);
    }
  }

  lemma {:induction false} BecomesParses(shape: Shape, v: Value, w: Value)
    requires WellShaped(shape) && Becomes(shape, v, w)
    ensures Parse(shape, v) == Some(w)
    decreases shape, 1
  {
    match shape
    case Leaf(_) =>
    case ListOf(item) =>
      ItemsParse(item, v.items, w.items);
    case Record(members) =>
      RecordParses(members, v, w);
    case OneOf(tag, branches) =>
      var n :| 0 <= n < |branches| && Chosen(branches, Get(v.fields, tag), n)
               && RecordBecomes(branches[n].members, v, w);
      ChosenIsFound(branches, Get(v.fields, tag), n);
      RecordParses(branches[n].members, v, w);
    case Refined(base, _) =>
      BecomesParses(base, v, w);
  }

  lemma {:induction false} ItemsParse(item: Shape, items: seq<Value>, out: seq<Value>)
    requires WellShaped(item) && |items| == |out|
    requires forall i :: 0 <= i < |items| ==> Becomes(item, items[i], out[i])
    ensures ParseItems(item, items) == Some(out)
    decreases item, 2, |items|
  {
    hide Parse, Becomes;
    if items != [] {
      BecomesParses(item, items[0], out[0]);
      ItemsParse(item, items[1..], out[1..]);
      assert out == [out[0]] + out[1..];
    }
  }

  lemma {:induction false} RecordParses(members: seq<Member>, v: Value, w: Value)
    requires RecordShaped(members) && RecordBecomes(members, v, w)
    ensures ParseRecord(members, v) == Some(w)
    decreases members, 2
  {
    hide ParseMember, ParseMembers;
    forall i | 0 <= i < |members|
      ensures ParseMember(members[i], Get(v.fields, members[i].key))
              == Some(Get(w.fields, members[i].key))
    {
      MemberParses(members[i], Get(v.fields, members[i].key), Get(w.fields, members[i].key));
    }
    MembersParse(members, v.fields, w.fields);
  }

  lemma {:induction false} MemberParses(m: Member, v: Value, w: Value)
    requires MemberShaped(m) && MemberBecomes(m, v, w)
    ensures ParseMember(m, v) == Some(w)
    decreases m
  {
    if v != Undefined {
      BecomesParses(m.shape, v, w);
    }
  }

  /** Members that parse to what stands in order parse to exactly that. */
  lemma {:induction false} MembersParse(members: seq<Member>, fields: seq<Field>, out: seq<Field>)
    requires InMemberOrder(members, out)
    requires forall i, j :: 0 <= i < j < |members| ==> members[i].key != members[j].key
    requires forall i :: 0 <= i < |members| ==>
               ParseMember(members[i], Get(fields, members[i].key)) == Some(Get(out, members[i].key))
    ensures ParseMembers(members, fields) == Some(out)
  {
    hide ParseMember;
    if members != [] {
      var m, rest := members[0], members[1..];
      var here := out != [] && out[0].key == m.key;
      var tail := if here then out[1..] else out;
      OrderIsKnown(rest, tail);
      forall i, j | 0 <= i < j < |rest| ensures rest[i].key != rest[j].key {
        assert members[i + 1].key != members[j + 1].key;
      }
      forall i | 0 <= i < |rest|
        ensures ParseMember(rest[i], Get(fields, rest[i].key)) == Some(Get(tail, rest[i].key))
      {
        assert rest[i] == members[i + 1] && members[0].key != members[i + 1].key;
      }
      MembersParse(rest, fields, tail);
      if here {
        assert out == [Field(m.key, out[0].value)] + tail;
      } else {
        HeadIsAbsent(members, tail);
      }
    }
  }

  lemma HeadIsAbsent(members: seq<Member>, tail: seq<Field>)
    requires members != [] && Known(members[1..], tail)
    requires forall i, j :: 0 <= i < j < |members| ==> members[i].key != members[j].key
    ensures Get(tail, members[0].key) == Undefined
  {
    forall i | 0 <= i < |tail| ensures tail[i].key != members[0].key {
      var j :| 0 <= j < |members[1..]| && members[1..][j].key == tail[i].key;
      assert members[0].key != members[j + 1].key;
    }
    GetNone(tail, members[0].key);
  }

  /** Validation returns a value exactly when what it was given becomes that value. */
  lemma ParseIff(shape: Shape, v: Value, w: Value)
    requires WellShaped(shape)
    ensures Parse(shape, v) == Some(w) <==> Becomes(shape, v, w)
  {
    hide Parse, Becomes, WellShaped;
    if Parse(shape, v) == Some(w) {
      ParseBecomes(shape, v);
    } else if Becomes(shape, v, w) {
      BecomesParses(shape, v, w);
    }
  }

  // ---- Verification ----

  lemma {:induction false} GetUnsealed(fields: seq<Field>, placeholder: Value, k: Text)
    ensures Get(Without(fields, DIGEST) + [Field(DIGEST, placeholder)], k)
            == if k == DIGEST then placeholder else Get(fields, k)
  {
    var out := Without(fields, DIGEST) + [Field(DIGEST, placeholder)];
    if fields != [] {
      GetUnsealed(fields[1..], placeholder, k);
      if fields[0].key != DIGEST {
        assert out[1..] == Without(fields[1..], DIGEST) + [Field(DIGEST, placeholder)];
      }
    } else {
      assert out[1..] == [];
    }
  }

  lemma {:induction false} WithoutIsKnown(members: seq<Member>, fields: seq<Field>, placeholder: Value)
    requires Known(members, fields) && KnownKey(members, DIGEST)
    ensures Known(members, Without(fields, DIGEST) + [Field(DIGEST, placeholder)])
  {
    if fields != [] {
      forall i | 0 <= i < |fields[1..]| ensures KnownKey(members, fields[1..][i].key) {
        assert fields[1..][i] == fields[i + 1];
      }
      WithoutIsKnown(members, fields[1..], placeholder);
      var more := Without(fields[1..], DIGEST) + [Field(DIGEST, placeholder)];
      if fields[0].key != DIGEST {
        var out := Without(fields, DIGEST) + [Field(DIGEST, placeholder)];
        assert out == [fields[0]] + more;
      }
    }
  }

  lemma {:induction false} OrderedReads(members: seq<Member>, fields: seq<Field>, i: int)
    requires InMemberOrder(members, fields) && 0 <= i < |fields|
    requires forall i, j :: 0 <= i < j < |members| ==> members[i].key != members[j].key
    ensures Get(fields, fields[i].key) == fields[i].value
  {
    var rest := members[1..];
    forall k, j | 0 <= k < j < |rest| ensures rest[k].key != rest[j].key {
      assert members[k + 1].key != members[j + 1].key;
    }
    if fields[0].key != members[0].key {
      OrderedReads(rest, fields, i);
    } else if i > 0 {
      OrderedReads(rest, fields[1..], i - 1);
      OrderIsKnown(rest, fields[1..]);
      LaterKeyDiffers(members, fields, i);
    }
  }

  lemma LaterKeyDiffers(members: seq<Member>, fields: seq<Field>, i: int)
    requires members != [] && fields != [] && Known(members[1..], fields[1..]) && 0 < i < |fields|
    requires forall i, j :: 0 <= i < j < |members| ==> members[i].key != members[j].key
    ensures fields[i].key != members[0].key
  {
    assert KnownKey(members[1..], fields[1..][i - 1].key);
    var j :| 0 <= j < |members[1..]| && members[1..][j].key == fields[1..][i - 1].key;
    assert members[0].key != members[j + 1].key;
  }

  lemma {:induction false} SameDigestStays(fields: seq<Field>, digest: Value)
    requires forall i :: 0 <= i < |fields| && fields[i].key == DIGEST ==> fields[i].value == digest
    ensures WithDigest(fields, digest) == fields
  {
    if fields != [] {
      forall i | 0 <= i < |fields[1..]| && fields[1..][i].key == DIGEST
        ensures fields[1..][i].value == digest
      {
        assert fields[1..][i] == fields[i + 1];
      }
      SameDigestStays(fields[1..], digest);
      assert fields == [fields[0]] + fields[1..];
    }
  }

  /** A validated record reads the same before its digest is taken out and put back as a placeholder. */
  lemma RecordUnseals(members: seq<Member>, sha: Text -> Text, fields: seq<Field>, placeholder: Value)
    requires RecordShaped(members) && Digested(members, sha) && ParseRecord(members, Object(fields)).Some?
    requires exists text :: placeholder == Str(sha(text))
    ensures var out := ParseRecord(members, Object(fields)).value.fields;
            && ParseRecord(members, Object(Without(fields, DIGEST) + [Field(DIGEST, placeholder)]))
               == Some(Object(WithDigest(out, placeholder)))
            && (forall i :: 0 <= i < |out| && out[i].key == DIGEST ==> out[i].value == Get(fields, DIGEST))
  {
    var out := ParseMembers(members, fields).value;
    var given := Without(fields, DIGEST) + [Field(DIGEST, placeholder)];
    MembersRead(members, fields);
    ParsedInOrder(members, fields);
    var d :| DigestMember(members, sha, d);
    LeafKeeps(members[d].shape, Get(fields, DIGEST));
    hide Parse, MemberShaped, ParseMembers;
    assert KnownKey(members, DIGEST);
    WithoutIsKnown(members, fields, placeholder);
    GetHasKey(fields, DIGEST);
    forall j | 0 <= j < |members| && members[j].key == DIGEST ensures j == d {
      assert members[d].key == members[j].key;
    }
    ParseWithDigest(members, fields, placeholder);
    forall i | 0 <= i < |members|
      ensures ParseMember(members[i], Get(given, members[i].key))
              == ParseMember(members[i], Get(WithDigest(fields, placeholder), members[i].key))
    {
      GetUnsealed(fields, placeholder, members[i].key);
      GetWithDigest(fields, placeholder, members[i].key);
    }
    SameReadsParseAlike(members, given, WithDigest(fields, placeholder));
    forall i | 0 <= i < |out| && out[i].key == DIGEST ensures out[i].value == Get(fields, DIGEST) {
      OrderedReads(members, out, i);
    }
  }

  lemma ValidatedUnseals(schema: Schema, sha: Text -> Text, fields: seq<Field>, placeholder: Value)
    requires Seals(schema, sha) && Validated(schema, Object(fields)).Some?
    requires exists text :: placeholder == Str(sha(text))
    ensures var out := Validated(schema, Object(fields)).value.fields;
            && Validated(schema, Object(Without(fields, DIGEST) + [Field(DIGEST, placeholder)]))
               == Some(Object(WithDigest(out, placeholder)))
            && (forall i :: 0 <= i < |out| && out[i].key == DIGEST ==> out[i].value == Get(fields, DIGEST))
  {
    var out := Validated(schema, Object(fields)).value.fields;
    GetWithDigest(out, placeholder, DIGEST);
    hide ParseRecord, RecordShaped, Digested, BranchOf;
    match schema.shape
    case Record(members) =>
      RecordUnseals(members, sha, fields, placeholder);
    case OneOf(tag, branches) =>
      var n := TagKept(tag, branches, Object(fields));
      GetUnsealed(fields, placeholder, tag);
      RecordUnseals(branches[n].members, sha, fields, placeholder);
  }

  lemma {:induction false} WithDigestTwice(fields: seq<Field>, one: Value, two: Value)
    ensures WithDigest(WithDigest(fields, one), two) == WithDigest(fields, two)
  {
    if fields != [] {
      WithDigestTwice(fields[1..], one, two);
      assert WithDigest(fields, one)[1..] == WithDigest(fields[1..], one);
    }
  }

  lemma {:induction false} NothingToRemove(fields: seq<Field>)
    ensures !HasKey(Without(fields, DIGEST), DIGEST)
  {
    if fields != [] {
      NothingToRemove(fields[1..]);
      if fields[0].key != DIGEST {
        HasKeyTail(Without(fields, DIGEST));
        assert Without(fields, DIGEST)[1..] == Without(fields[1..], DIGEST);
      }
    }
  }

  /**
   An operation that verifies is exactly what sealing makes of its content: taking its digest away and
   sealing again gives its validated form, so no other digest verifies for that content.
   */
  lemma VerifiedIsSealed(schema: Schema, sha: Text -> Text, placeholder: Value, operation: Value)
    requires Seals(schema, sha) && Verifies(schema, sha, operation)
    requires exists text :: placeholder == Str(sha(text))
    ensures Seal(schema, sha, placeholder, Object(Without(operation.fields, DIGEST)))
            == Validated(schema, operation)
  {
    hide Validated, Canonical, Seals, Without, WithDigest, Get, HasKey;
    var fields := operation.fields;
    ValidatedIsObject(schema, operation);
    var out := Validated(schema, operation).value.fields;
    var digest := Get(fields, DIGEST);
    ValidatedUnseals(schema, sha, fields, placeholder);
    GetWithDigest(out, placeholder, DIGEST);
    WithDigestTwice(out, placeholder, digest);
    NothingToRemove(fields);
    var text := Canonical(Object(Without(out, DIGEST))).value;
    assert digest == Str(sha(text));
    DigestSwaps(schema, sha, operation, digest);
    SameDigestStays(out, digest);
  }

  /** Content that validation makes of a value: the shape takes it, and the rules hold of the rest of it. */
  ghost predicate Accepted(schema: Schema, v: Value, out: seq<Field>) {
    Becomes(schema.shape, v, Object(out)) && schema.rules(Without(out, DIGEST))
  }

  lemma AcceptedIff(schema: Schema, v: Value, out: seq<Field>)
    requires WellShaped(schema.shape)
    ensures Validated(schema, v) == Some(Object(out)) <==> Accepted(schema, v, out)
  {
    ParseIff(schema.shape, v, Object(out));
    hide Becomes, Parse, WellShaped, Without;
  }

  /**
   Sealing succeeds exactly for an object without a digest whose content is accepted and has a text, and
   then keeps that content as it is.
   */
  lemma SealsIff(schema: Schema, sha: Text -> Text, placeholder: Value, v: Value)
    requires Seals(schema, sha)
    ensures Seal(schema, sha, placeholder, v).Some? <==>
              && v.Object? && !HasKey(v.fields, DIGEST)
              && exists out :: Accepted(schema, Unsealed(v, placeholder), out)
                               && Serializable(Object(Without(out, DIGEST)))
    ensures Seal(schema, sha, placeholder, v).Some? ==>
              && Seal(schema, sha, placeholder, v).value.Object?
              && forall out :: Accepted(schema, Unsealed(v, placeholder), out) ==>
                   Without(Seal(schema, sha, placeholder, v).value.fields, DIGEST) == Without(out, DIGEST)
  {
    hide Seal, Validated, Accepted, Serializable, Without, HasKey, Becomes;
    SealsIffValidated(schema, sha, placeholder, v);
    if v.Object? {
      forall out ensures Validated(schema, Unsealed(v, placeholder)) == Some(Object(out))
                         <==> Accepted(schema, Unsealed(v, placeholder), out)
      {
        AcceptedIff(schema, Unsealed(v, placeholder), out);
      }
      if Validated(schema, Unsealed(v, placeholder)).Some? {
        ValidatedIsObject(schema, Unsealed(v, placeholder));
        assert Accepted(schema, Unsealed(v, placeholder),
                        Validated(schema, Unsealed(v, placeholder)).value.fields);
      }
    }
  }

  lemma SealsIffValidated(schema: Schema, sha: Text -> Text, placeholder: Value, v: Value)
    requires Seals(schema, sha)
    ensures Seal(schema, sha, placeholder, v).Some? <==>
              && v.Object? && !HasKey(v.fields, DIGEST)
              && Validated(schema, Unsealed(v, placeholder)).Some?
              && Serializable(Object(Without(Validated(schema, Unsealed(v, placeholder)).value.fields,
                                             DIGEST)))
    ensures Seal(schema, sha, placeholder, v).Some? ==>
              && Seal(schema, sha, placeholder, v).value.Object?
              && Without(Seal(schema, sha, placeholder, v).value.fields, DIGEST)
                 == Without(Validated(schema, Unsealed(v, placeholder)).value.fields, DIGEST)
  {
    hide Validated, Canonical, Seals, Without, WithDigest, Get, HasKey, Serializable;
    if v.Object? && Validated(schema, Unsealed(v, placeholder)).Some? {
      ValidatedIsObject(schema, Unsealed(v, placeholder));
      var out := Validated(schema, Unsealed(v, placeholder)).value.fields;
      CanonicalIffSerializable(Object(Without(out, DIGEST)));
      if DigestBody(sha, out).Some? {
        var digest := DigestBody(sha, out).value;
        DigestSwaps(schema, sha, Unsealed(v, placeholder), digest);
        GetWithDigest(out, digest, DIGEST);
      }
    }
  }
}
