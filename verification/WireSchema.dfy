/**
 The schema of a sync operation, spelled out as the unions and records that validate it, down to the
 items and grants inside. What a single text or number must look like, and the rules across members,
 are parameters.
 */
module WireSchema {
  import opened Wrappers
  import opened JsonText
  import opened CanonicalJson
  import opened SealedJson

  /** The checks on single texts and numbers, and the rules across members of a value. */
  datatype Formats = Formats(
    id: Value -> bool,
    timestamp: Value -> bool,
    digest: Value -> bool,
    policy: Value -> bool,
    methodId: Value -> bool,
    text: Value -> bool,
    shortText: Value -> bool,
    positive: Value -> bool,
    nonNegative: Value -> bool,
    atLeastMinusOne: Value -> bool,
    probability: Value -> bool,
    retentionDays: Value -> bool,
    itemRules: Value -> bool,
    grantRules: Value -> bool,
    revokedGrant: Value -> bool)

  function Utf(s: string): (t: Text)
    ensures |t| == |s| && forall i :: 0 <= i < |s| ==> t[i] == s[i] as int
  {
    seq(|s|, i requires 0 <= i < |s| => s[i] as int)
  }

  lemma UtfInjective(a: string, b: string)
    requires Utf(a) == Utf(b)
    ensures a == b
  {
    forall i | 0 <= i < |a| ensures a[i] == b[i] {
      assert Utf(a)[i] == Utf(b)[i];
    }
  }

  // ---- Pieces ----

  function Literal(s: string): Shape {
    Leaf(v => v == Str(Utf(s)))
  }

  function Enum(names: seq<string>): Shape {
    Leaf(v => exists i :: 0 <= i < |names| && v == Str(Utf(names[i])))
  }

  function Flag(truth: bool): Shape {
    Leaf(v => v == Bool(truth))
  }

  const VersionOne := Leaf(v => v == Number(Utf("1")))

  function Many(item: Shape, least: nat, most: nat): Shape {
    Refined(ListOf(item), (v: Value) => v.List? && least <= |v.items| <= most)
  }

  datatype Entry = Entry(key: string, shape: Shape, absent: Absent)

  function Req(key: string, shape: Shape): Entry {
    Entry(key, shape, Required)
  }

  function Opt(key: string, shape: Shape): Entry {
    Entry(key, shape, Optional)
  }

  function ToMember(e: Entry): Member {
    Member(Utf(e.key), e.shape, e.absent)
  }

  function Members(entries: seq<Entry>): (members: seq<Member>)
    ensures |members| == |entries|
    ensures forall i :: 0 <= i < |entries| ==> members[i] == ToMember(entries[i])
  {
    seq(|entries|, i requires 0 <= i < |entries| => ToMember(entries[i]))
  }

  function Strict(entries: seq<Entry>): Shape {
    Record(Members(entries))
  }

  function Variant(tag: string, name: string, entries: seq<Entry>): Branch {
    Branch(Utf(name), Members([Req(tag, Literal(name))] + entries))
  }

  // ---- Items ----

  function ScopeShape(f: Formats): Shape {
    OneOf(Utf("kind"), [
      Variant("kind", "personal", []),
      Variant("kind", "project", [Req("projectId", Leaf(f.id))])])
  }

  function RevisionRef(f: Formats): Shape {
    Strict([Req("itemId", Leaf(f.id)), Req("revision", Leaf(f.positive))])
  }

  function ConsentRef(f: Formats): Shape {
    Strict([Req("grantId", Leaf(f.id)), Req("revision", Leaf(f.positive))])
  }

  function MethodShape(f: Formats): Shape {
    Strict([Req("id", Leaf(f.methodId)), Req("version", Leaf(f.policy))])
  }

  function VerificationEntries(f: Formats): seq<Entry> {
    [Req("state", Enum(["verified", "unverified", "disputed", "unknown"])),
     Opt("method", MethodShape(f))]
  }

  function ConfidenceEntries(f: Formats): seq<Entry> {
    [Req("probability", Leaf(f.probability)), Req("method", MethodShape(f)),
     Opt("calibratedAt", Leaf(f.timestamp))]
  }

  function AssessmentShape(f: Formats): Shape {
    OneOf(Utf("mode"), [Variant("mode", "verification", VerificationEntries(f)),
                        Variant("mode", "confidence", ConfidenceEntries(f))])
  }

  function EvidenceEntries(f: Formats): seq<Entry> {
    [Req("evidenceId", Leaf(f.id)),
     Req("role", Enum(["supports", "contradicts", "corrects", "outcome"])),
     Req("authority", Enum(["user-explicit", "provider-record", "salidium-rule", "model"])),
     Req("capturedAt", Leaf(f.timestamp)),
     Req("independenceId", Leaf(f.id))]
  }

  function LinkEntries(f: Formats): seq<Entry> {
    [Req("relation", Enum(["supports", "contradicts", "corrects", "supersedes", "outcome-of",
                           "about", "derived-from"])),
     Req("target", RevisionRef(f))]
  }

  function RetentionEntries(f: Formats): seq<Entry> {
    [Req("policyId", Leaf(f.policy)), Req("expiresAt", Leaf(f.timestamp)),
     Req("deleteWithEvidence", Flag(true))]
  }

  function LifecycleEntries(f: Formats): seq<Entry> {
    [Req("state", Enum(["active", "disputed", "superseded", "corrected", "retracted", "expired"])),
     Req("validFrom", Leaf(f.timestamp)), Opt("validUntil", Leaf(f.timestamp)),
     Req("retention", Strict(RetentionEntries(f)))]
  }

  const Sensitivities := Enum(["public", "internal", "confidential", "restricted"])

  const NoItems := List([])

  /** The members every kind of item has. */
  function CommonItem(f: Formats): seq<Entry> {
    [
      Req("contract", Literal("salidium.intelligence-item")),
      Req("contractVersion", VersionOne),
      Req("itemId", Leaf(f.id)),
      Req("originReplicaId", Leaf(f.id)),
      Req("revision", Leaf(f.positive)),
      Req("scope", ScopeShape(f)),
      Req("capturedAt", Leaf(f.timestamp)),
      Req("effectiveFrom", Leaf(f.timestamp)),
      Opt("effectiveUntil", Leaf(f.timestamp)),
      Req("epistemic", Enum(["observed", "reported", "planned", "deterministic-inference",
                             "probabilistic-inference"])),
      Req("assessment", AssessmentShape(f)),
      Req("sensitivity", Sensitivities),
      Req("lifecycle", Strict(LifecycleEntries(f))),
      Req("consent", ConsentRef(f)),
      Req("evidence", Many(Strict(EvidenceEntries(f)), 1, 32)),
      Entry("links", Many(Strict(LinkEntries(f)), 0, 64), Default(NoItems)),
      Req("redactionPolicyVersion", Leaf(f.policy)),
      Req("minimizationPolicyVersion", Leaf(f.policy))
    ]
  }

  function Kind(f: Formats, name: string, entries: seq<Entry>): Branch {
    Variant("kind", name, CommonItem(f) + entries)
  }

  function AlternativeEntries(f: Formats): seq<Entry> {
    [Req("label", Leaf(f.shortText)),
     Req("disposition", Enum(["rejected", "deferred", "unknown"])),
     Req("rationale", Leaf(f.text))]
  }

  /** What the kinds that put something on a person's account add. */
  function PersonalEntries(f: Formats, name: string): seq<Entry> {
    match name
    case "decision" =>
      [Opt("question", Leaf(f.text)), Req("selected", Leaf(f.text)), Req("rationale", Leaf(f.text)),
       Req("owner", Literal("authenticated-user")),
       Req("status", Enum(["active", "fulfilled", "abandoned", "superseded"])),
       Req("alternatives", Many(Strict(AlternativeEntries(f)), 1, 12))]
    case "intention" =>
      [Req("actor", Enum(["authenticated-user", "agent"])), Req("description", Leaf(f.text)),
       Req("status", Enum(["active", "fulfilled", "abandoned", "expired"]))]
    case "commitment" =>
      [Req("actor", Literal("authenticated-user")), Req("description", Leaf(f.text)),
       Req("status", Enum(["active", "fulfilled", "abandoned", "expired"])),
       Opt("dueAt", Leaf(f.timestamp))]
    case "preference.explicit" =>
      [Req("owner", Literal("authenticated-user")), Req("key", Leaf(f.shortText)),
       Req("value", Leaf(f.text))]
    case "preference.inferred" =>
      [Req("owner", Literal("authenticated-user")), Req("key", Leaf(f.shortText)),
       Req("value", Leaf(f.text))]
    case _ => []
  }

  /** What each kind of item adds. */
  function KindEntries(f: Formats, name: string): seq<Entry> {
    match name
    case "observation" => [Req("statement", Leaf(f.text))]
    case "claim" =>
      [Req("claimant", Enum(["authenticated-user", "agent", "external"])),
       Req("statement", Leaf(f.text))]
    case "outcome" =>
      [Req("description", Leaf(f.text)),
       Req("result", Enum(["positive", "negative", "mixed", "unknown"]))]
    case "entity" =>
      [Req("entityType", Enum(["project", "component", "dependency", "person", "team",
                               "environment", "concept"])),
       Req("name", Leaf(f.shortText)),
       Entry("aliases", Many(Leaf(f.shortText), 0, 12), Default(NoItems))]
    case "relationship" =>
      [Req("subject", RevisionRef(f)), Req("predicate", Leaf(f.shortText)),
       Req("object", RevisionRef(f))]
    case "memory" =>
      [Req("layer", Enum(["episodic", "semantic", "decision", "procedural", "preference"])),
       Req("summary", Leaf(f.text)), Req("promotionPolicyVersion", Leaf(f.policy))]
    case "inference" => [Req("proposition", Leaf(f.text))]
    case _ => PersonalEntries(f, name)
  }

  const KINDS := ["observation", "claim", "decision", "intention", "commitment", "outcome", "entity",
                  "relationship", "preference.explicit", "preference.inferred", "memory",
                  "inference"]

  function ItemShape(f: Formats): Shape {
    Refined(
      OneOf(Utf("kind"), seq(|KINDS|, n requires 0 <= n < |KINDS| =>
        Kind(f, KINDS[n], KindEntries(f, KINDS[n])))),
      f.itemRules)
  }

  // ---- Grants and operations ----

  function GrantEntries(f: Formats): seq<Entry> {
    [
      Req("contract", Literal("salidium.consent-grant")),
      Req("contractVersion", VersionOne),
      Req("grantId", Leaf(f.id)),
      Req("revision", Leaf(f.positive)),
      Req("destinationId", Leaf(f.id)),
      Req("scope", ScopeShape(f)),
      Req("purpose", Literal("personal-continuity")),
      Req("allowedKinds", Many(Enum(KINDS), 1, 12)),
      Req("maximumSensitivity", Sensitivities),
      Req("issuedAt", Leaf(f.timestamp)),
      Req("effectiveAt", Leaf(f.timestamp)),
      Req("expiresAt", Leaf(f.timestamp)),
      Req("retentionMaximumDays", Leaf(f.retentionDays)),
      Req("redactionPolicyVersion", Leaf(f.policy)),
      Req("minimizationPolicyVersion", Leaf(f.policy)),
      Req("rawEvidence", Flag(false)),
      Req("status", Enum(["active", "revoked"])),
      Opt("revokedAt", Leaf(f.timestamp))
    ]
  }

  function GrantShape(f: Formats): Shape {
    Refined(Strict(GrantEntries(f)), f.grantRules)
  }

  function OperationBase(f: Formats, lane: string): seq<Entry> {
    [
      Req("contract", Literal("salidium.sync-operation")),
      Req("contractVersion", VersionOne),
      Req("streamId", Leaf(f.id)),
      Req("replicaId", Leaf(f.id)),
      Req("replicaGeneration", Leaf(f.positive)),
      Req("lane", Literal(lane)),
      Req("position", Leaf(f.nonNegative)),
      Req("operationId", Leaf(f.id)),
      Opt("previousOperationId", Leaf(f.id)),
      Req("occurredAt", Leaf(f.timestamp)),
      Req("contentDigest", Leaf(f.digest))
    ]
  }

  const Reasons := Enum(["user-request", "consent-withdrawn", "retention-expired", "corrected",
                         "scope-deleted"])

  /** The lane of an operation type, and what that type adds. */
  function TypeEntries(f: Formats, name: string): (string, seq<Entry>) {
    match name
    case "consent.put" => ("control", [Req("grant", GrantShape(f))])
    case "consent.revoke" => ("control", [Req("grant", Refined(GrantShape(f), f.revokedGrant))])
    case "item.put" => ("data", [Req("grant", ConsentRef(f)), Req("item", ItemShape(f))])
    case "item.delete" =>
      ("control", [Req("grant", ConsentRef(f)), Req("scope", ScopeShape(f)),
                   Req("itemId", Leaf(f.id)), Req("deleteThroughRevision", Leaf(f.positive)),
                   Req("reason", Reasons), Req("requestedAt", Leaf(f.timestamp))])
    case _ =>
      ("control", [Req("grant", ConsentRef(f)), Req("scope", ScopeShape(f)),
                   Req("deleteThroughDataPosition", Leaf(f.atLeastMinusOne)),
                   Req("reason", Reasons), Req("requestedAt", Leaf(f.timestamp))])
  }

  const TYPES := ["consent.put", "consent.revoke", "item.put", "item.delete", "scope.delete"]

  function OperationBranch(f: Formats, name: string): Branch {
    var (lane, entries) := TypeEntries(f, name);
    Variant("type", name, OperationBase(f, lane) + entries)
  }

  function OperationShape(f: Formats): Shape {
    OneOf(Utf("type"), seq(|TYPES|, n requires 0 <= n < |TYPES| => OperationBranch(f, TYPES[n])))
  }

  // ---- Well shaped ----

  predicate Sound(e: Entry) {
    && (e.absent.Default? ==> e.absent.value == NoItems && e.shape.Refined? && e.shape.base.ListOf?
                              && e.shape.holds(NoItems))
  }

  predicate Unlike(entries: seq<Entry>) {
    forall i, j :: 0 <= i < j < |entries| ==> entries[i].key != entries[j].key
  }

  /** Entries with distinct keys, each of a sound shape, make a sound record. */
  lemma StrictIsShaped(entries: seq<Entry>)
    requires Unlike(entries)
    requires forall i :: 0 <= i < |entries| ==> Sound(entries[i]) && WellShaped(entries[i].shape)
    ensures RecordShaped(Members(entries))
  {
    var members := Members(entries);
    forall i, j | 0 <= i < j < |members| ensures members[i].key != members[j].key {
      if members[i].key == members[j].key {
        UtfInjective(entries[i].key, entries[j].key);
      }
    }
    forall i | 0 <= i < |members| ensures MemberShaped(members[i]) {
      assert members[i] == ToMember(entries[i]);
      EntryIsShaped(entries[i]);
    }
  }

  lemma EntryIsShaped(e: Entry)
    requires Sound(e) && WellShaped(e.shape)
    ensures MemberShaped(ToMember(e))
  {
    if e.absent.Default? {
      assert ParseItems(e.shape.base.item, []) == Some([]);
    }
  }

  /** A variant is a sound branch when its own entries are, and none is named like its tag. */
  lemma VariantIsShaped(tag: string, name: string, entries: seq<Entry>)
    requires Unlike(entries) && forall i :: 0 <= i < |entries| ==> entries[i].key != tag
    requires forall i :: 0 <= i < |entries| ==> Sound(entries[i]) && WellShaped(entries[i].shape)
    ensures var members := Variant(tag, name, entries).members;
            RecordShaped(members) && exists i :: TagMember(members, Utf(tag), i)
  {
    var all := [Req(tag, Literal(name))] + entries;
    StrictIsShaped(all);
    assert Members(all)[0] == ToMember(all[0]);
    assert TagMember(Members(all), Utf(tag), 0);
  }

  lemma ScopeIsShaped(f: Formats)
    ensures WellShaped(ScopeShape(f))
  {
    VariantIsShaped("kind", "personal", []);
    VariantIsShaped("kind", "project", [Req("projectId", Leaf(f.id))]);
  }

  lemma ReferencesAreShaped(f: Formats)
    ensures WellShaped(RevisionRef(f)) && WellShaped(ConsentRef(f)) && WellShaped(MethodShape(f))
  {
    StrictIsShaped([Req("itemId", Leaf(f.id)), Req("revision", Leaf(f.positive))]);
    StrictIsShaped([Req("grantId", Leaf(f.id)), Req("revision", Leaf(f.positive))]);
    StrictIsShaped([Req("id", Leaf(f.methodId)), Req("version", Leaf(f.policy))]);
  }

  lemma AssessmentIsShaped(f: Formats)
    ensures WellShaped(AssessmentShape(f))
  {
    ReferencesAreShaped(f);
    hide MethodShape;
    VariantIsShaped("mode", "verification", VerificationEntries(f));
    VariantIsShaped("mode", "confidence", ConfidenceEntries(f));
  }

  lemma PartsAreShaped(f: Formats)
    ensures WellShaped(Strict(EvidenceEntries(f))) && WellShaped(Strict(LinkEntries(f)))
    ensures WellShaped(Strict(AlternativeEntries(f))) && WellShaped(Strict(LifecycleEntries(f)))
  {
    ReferencesAreShaped(f);
    hide RevisionRef, RecordShaped;
    StrictIsShaped(EvidenceEntries(f));
    StrictIsShaped(LinkEntries(f));
    StrictIsShaped(AlternativeEntries(f));
    StrictIsShaped(RetentionEntries(f));
    assert WellShaped(Strict(RetentionEntries(f)));
    hide RetentionEntries;
    StrictIsShaped(LifecycleEntries(f));
  }

  /** Everything a record needs of its entries. */
  ghost predicate AllShaped(entries: seq<Entry>) {
    forall i :: 0 <= i < |entries| ==> Sound(entries[i]) && WellShaped(entries[i].shape)
  }

  lemma ManyIsShaped(item: Shape, least: nat, most: nat)
    requires WellShaped(item)
    ensures WellShaped(Many(item, least, most))
    ensures least == 0 ==> Sound(Entry("", Many(item, least, most), Default(NoItems)))
  {
    assert WellShaped(ListOf(item));
  }

  lemma CommonIsShaped(f: Formats)
    ensures Unlike(CommonItem(f)) && AllShaped(CommonItem(f))
  {
    ScopeIsShaped(f);
    ReferencesAreShaped(f);
    AssessmentIsShaped(f);
    PartsAreShaped(f);
    hide ScopeShape, ConsentRef, AssessmentShape, EvidenceEntries, LinkEntries, LifecycleEntries,
      RecordShaped;
    ManyIsShaped(Strict(EvidenceEntries(f)), 1, 32);
    ManyIsShaped(Strict(LinkEntries(f)), 0, 64);
    hide Many, Strict;
  }

  /** No entry of one list is named like one of the other. */
  predicate Apart(a: seq<Entry>, b: seq<Entry>) {
    forall i, j :: 0 <= i < |a| && 0 <= j < |b| ==> a[i].key != b[j].key
  }

  lemma JoinedIsShaped(a: seq<Entry>, b: seq<Entry>, tag: string)
    requires Unlike(a) && AllShaped(a) && Unlike(b) && AllShaped(b) && Apart(a, b)
    requires forall i :: 0 <= i < |a| ==> a[i].key != tag
    requires forall i :: 0 <= i < |b| ==> b[i].key != tag
    ensures Unlike(a + b) && AllShaped(a + b)
    ensures forall i :: 0 <= i < |a + b| ==> (a + b)[i].key != tag
  {
    hide Sound, WellShaped;
  }

  lemma PersonalEntriesAreShaped(f: Formats, name: string)
    ensures Unlike(PersonalEntries(f, name)) && AllShaped(PersonalEntries(f, name))
  {
    PartsAreShaped(f);
    hide AlternativeEntries, RecordShaped;
    ManyIsShaped(Strict(AlternativeEntries(f)), 1, 12);
    hide Many, Strict;
  }

  lemma KindEntriesAreShaped(f: Formats, name: string)
    ensures Unlike(KindEntries(f, name)) && AllShaped(KindEntries(f, name))
  {
    ReferencesAreShaped(f);
    PersonalEntriesAreShaped(f, name);
    hide RevisionRef, PersonalEntries;
    ManyIsShaped(Leaf(f.shortText), 0, 12);
    hide Many;
  }

  const COMMON_KEYS := [
    "contract", "contractVersion", "itemId", "originReplicaId", "revision", "scope", "capturedAt",
    "effectiveFrom", "effectiveUntil", "epistemic", "assessment", "sensitivity", "lifecycle",
    "consent", "evidence", "links", "redactionPolicyVersion", "minimizationPolicyVersion", "kind"]

  lemma CommonKeys(f: Formats)
    ensures forall i :: 0 <= i < |CommonItem(f)| ==>
              CommonItem(f)[i].key in COMMON_KEYS && CommonItem(f)[i].key != "kind"
  {
    hide ScopeShape, AssessmentShape, ConsentRef, EvidenceEntries, LinkEntries, LifecycleEntries,
      Strict, Many, Literal, Enum;
    forall i | 0 <= i < |CommonItem(f)| ensures CommonItem(f)[i].key == COMMON_KEYS[i] {}
  }

  predicate OwnKeys(entries: seq<Entry>) {
    forall i :: 0 <= i < |entries| ==> entries[i].key !in COMMON_KEYS
  }

  lemma PersonalKeys(f: Formats, name: string)
    ensures OwnKeys(PersonalEntries(f, name))
  {
    hide AlternativeEntries, Strict, Many, Literal, Enum;
  }

  lemma KindKeys(f: Formats, name: string)
    ensures OwnKeys(KindEntries(f, name))
  {
    PersonalKeys(f, name);
    hide RevisionRef, Many, Enum, PersonalEntries;
  }

  lemma KindIsShaped(f: Formats, name: string)
    ensures var branch := Kind(f, name, KindEntries(f, name));
            RecordShaped(branch.members) && exists i :: TagMember(branch.members, Utf("kind"), i)
  {
    var common, own := CommonItem(f), KindEntries(f, name);
    CommonIsShaped(f);
    KindEntriesAreShaped(f, name);
    CommonKeys(f);
    KindKeys(f, name);
    assert COMMON_KEYS[|COMMON_KEYS| - 1] == "kind";
    hide AllShaped, Unlike, CommonItem, KindEntries;
    JoinedIsShaped(common, own, "kind");
    assert AllShaped(common + own) && Unlike(common + own);
    hide COMMON_KEYS;
    VariantOfAll("kind", name, common + own);
  }

  lemma VariantOfAll(tag: string, name: string, entries: seq<Entry>)
    requires Unlike(entries) && AllShaped(entries)
    requires forall i :: 0 <= i < |entries| ==> entries[i].key != tag
    ensures var members := Variant(tag, name, entries).members;
            RecordShaped(members) && exists i :: TagMember(members, Utf(tag), i)
  {
    hide Sound, WellShaped;
    VariantIsShaped(tag, name, entries);
  }

  lemma ItemIsShaped(f: Formats)
    ensures WellShaped(ItemShape(f))
  {
    var branches := ItemShape(f).base.branches;
    forall n | 0 <= n < |branches|
      ensures RecordShaped(branches[n].members)
      ensures exists i :: TagMember(branches[n].members, Utf("kind"), i)
    {
      KindIsShaped(f, KINDS[n]);
    }
    hide Kind, RecordShaped;
    assert WellShaped(ItemShape(f).base);
  }

  lemma GrantEntriesAreUnlike(f: Formats)
    ensures Unlike(GrantEntries(f))
  {
    hide ScopeShape, Many, KINDS, Literal, Enum, Flag;
  }

  lemma GrantEntriesAreShaped(f: Formats)
    ensures AllShaped(GrantEntries(f))
  {
    ScopeIsShaped(f);
    ManyIsShaped(Enum(KINDS), 1, 12);
    hide ScopeShape, Many, KINDS;
  }

  lemma GrantIsShaped(f: Formats)
    ensures WellShaped(GrantShape(f))
  {
    GrantEntriesAreUnlike(f);
    GrantEntriesAreShaped(f);
    hide GrantEntries, Unlike;
    StrictIsShaped(GrantEntries(f));
    assert WellShaped(Strict(GrantEntries(f)));
  }

  const BASE_KEYS := [
    "contract", "contractVersion", "streamId", "replicaId", "replicaGeneration", "lane", "position",
    "operationId", "previousOperationId", "occurredAt", "contentDigest", "type"]

  lemma BaseIsShaped(f: Formats, lane: string)
    ensures Unlike(OperationBase(f, lane)) && AllShaped(OperationBase(f, lane))
    ensures forall i :: 0 <= i < |OperationBase(f, lane)| ==>
              OperationBase(f, lane)[i].key in BASE_KEYS && OperationBase(f, lane)[i].key != "type"
  {
    var base := OperationBase(f, lane);
    forall i | 0 <= i < |base| ensures base[i].key == BASE_KEYS[i] {}
  }

  lemma TypeIsShaped(f: Formats, name: string)
    ensures var entries := TypeEntries(f, name).1;
            && Unlike(entries) && AllShaped(entries)
            && forall i :: 0 <= i < |entries| ==> entries[i].key !in BASE_KEYS
  {
    GrantIsShaped(f);
    ItemIsShaped(f);
    ReferencesAreShaped(f);
    ScopeIsShaped(f);
    assert WellShaped(Refined(GrantShape(f), f.revokedGrant));
    hide GrantShape, ItemShape, ConsentRef, ScopeShape;
  }

  lemma OperationIsShaped(f: Formats, sha: Text -> Text, name: string)
    requires forall text :: f.digest(Str(sha(text)))
    ensures var members := OperationBranch(f, name).members;
            && RecordShaped(members) && (exists i :: TagMember(members, Utf("type"), i))
            && Digested(members, sha)
  {
    var (lane, own) := TypeEntries(f, name);
    var base := OperationBase(f, lane);
    BaseIsShaped(f, lane);
    TypeIsShaped(f, name);
    assert BASE_KEYS[|BASE_KEYS| - 1] == "type";
    DigestIsThere(f, sha, lane, name, own);
    hide AllShaped, Unlike, OperationBase, TypeEntries;
    JoinedIsShaped(base, own, "type");
    hide BASE_KEYS;
    VariantOfAll("type", name, base + own);
  }

  lemma DigestIsThere(f: Formats, sha: Text -> Text, lane: string, name: string, own: seq<Entry>)
    requires forall text :: f.digest(Str(sha(text)))
    ensures Digested(Variant("type", name, OperationBase(f, lane) + own).members, sha)
  {
    var all := [Req("type", Literal(name))] + (OperationBase(f, lane) + own);
    var digest := Req("contentDigest", Leaf(f.digest));
    assert all[11] == digest;
    assert Members(all)[11] == ToMember(digest);
    assert Utf("contentDigest") == DIGEST;
    assert DigestMember(Members(all), sha, 11);
  }

  /** A schema of sync operations, with rules across members that do not look at the digest. */
  function Operations(f: Formats, rules: seq<Field> -> bool): Schema {
    Schema(OperationShape(f), rules)
  }

  /** The operation schema is one that seals, whatever the formats, if they take the hash's texts. */
  lemma OperationsSeal(f: Formats, rules: seq<Field> -> bool, sha: Text -> Text)
    requires forall text :: f.digest(Str(sha(text)))
    ensures Seals(Operations(f, rules), sha)
  {
    var branches := OperationShape(f).branches;
    forall n | 0 <= n < |branches|
      ensures RecordShaped(branches[n].members)
      ensures exists i :: TagMember(branches[n].members, Utf("type"), i)
      ensures Digested(branches[n].members, sha)
    {
      OperationIsShaped(f, sha, TYPES[n]);
    }
    assert |Utf("type")| != |DIGEST|;
    hide OperationBranch, RecordShaped, Digested;
  }

  /** Every sync operation that is sealed verifies. */
  lemma SealedOperationVerifies(f: Formats, rules: seq<Field> -> bool, sha: Text -> Text,
                                placeholder: Value, v: Value)
    requires forall text :: f.digest(Str(sha(text)))
    requires Seal(Operations(f, rules), sha, placeholder, v).Some?
    ensures Verifies(Operations(f, rules), sha,
                     Seal(Operations(f, rules), sha, placeholder, v).value)
  {
    OperationsSeal(f, rules, sha);
    hide Seal, Verifies, Seals;
    SealedVerifies(Operations(f, rules), sha, placeholder, v);
  }

  // ---- Defaults ----

  /** A defaulted list of an item: every kind has `links`, and entities have `aliases`. */
  predicate DefaultedIn(kind: Value, key: string) {
    key == "links" || (key == "aliases" && kind == Str(Utf("entity")))
  }

  /** Where a defaulted list stands among the members of a kind. */
  lemma DefaultedAt(f: Formats, name: string, key: string) returns (i: nat)
    requires key == "links" || (key == "aliases" && name == "entity")
    ensures var members := Kind(f, name, KindEntries(f, name)).members;
            && i < |members| && members[i].key == Utf(key)
            && SpellsMember(members[i], Undefined, NoItems)
            && forall j :: 0 <= j < |members| && members[j].key == members[i].key ==> j == i
  {
    var all := [Req("kind", Literal(name))] + (CommonItem(f) + KindEntries(f, name));
    i := if key == "links" then 16 else 21;
    KindIsShaped(f, name);
    assert Members(all)[i] == ToMember(all[i]);
    if key == "links" {
      NoItemsSpellDefault("links", Strict(LinkEntries(f)), 64);
    } else {
      NoItemsSpellDefault("aliases", Leaf(f.shortText), 12);
    }
  }

  lemma NoItemsSpellDefault(key: string, item: Shape, most: nat)
    ensures SpellsMember(ToMember(Entry(key, Many(item, 0, most), Default(NoItems))), Undefined, NoItems)
  {
    assert ParseItems(item, []) == Some([]);
    assert Parse(ListOf(item), NoItems) == Some(NoItems);
  }

  /** One item is the other with a defaulted empty list spelled out. */
  ghost predicate SpellsOut(a: Value, b: Value, key: string) {
    && a.Object? && b.Object? && DefaultedIn(Get(a.fields, Utf("kind")), key)
    && AgreeBut(a.fields, b.fields, Utf(key))
    && Get(a.fields, Utf(key)) == Undefined && Get(b.fields, Utf(key)) == NoItems
  }

  lemma ItemSpells(f: Formats, a: Value, b: Value, key: string)
    requires SpellsOut(a, b, key)
    ensures Spells(ItemShape(f), a, b)
  {
    var branches := ItemShape(f).base.branches;
    var n := BranchOf(branches, Get(a.fields, Utf("kind")));
    if n.Some? {
      var name := KINDS[n.value];
      if key == "aliases" { UtfInjective(name, "entity"); }
      var i := DefaultedAt(f, name, key);
      hide Kind;
      SpellsButOne(branches[n.value].members, a.fields, b.fields, i);
    }
    assert |Utf("kind")| != |Utf(key)|;
    hide SpellsRecord, KINDS;
    assert Spells(ItemShape(f).base, a, b);
  }

  lemma ItemAt(f: Formats)
    ensures var members := OperationBranch(f, "item.put").members;
            && 13 < |members| && members[13] == Member(Utf("item"), ItemShape(f), Required)
            && forall j :: 0 <= j < |members| && members[j].key == members[13].key ==> j == 13
  {
    var base := OperationBase(f, "data");
    var own := [Req("grant", ConsentRef(f)), Req("item", ItemShape(f))];
    var all := [Req("type", Literal("item.put"))] + (base + own);
    assert OperationBranch(f, "item.put").members == Members(all);
    assert Members(all)[13] == ToMember(all[13]);
    BaseIsShaped(f, "data");
    TypeIsShaped(f, "item.put");
    hide ItemShape, AllShaped;
    assert BASE_KEYS[|BASE_KEYS| - 1] == "type";
    forall j | 0 <= j < |all| && Members(all)[j].key == Utf("item") ensures j == 13 {
      UtfInjective(all[j].key, "item");
    }
  }

  /** Two puts that differ only in an item's empty list being spelled out or left out. */
  ghost predicate PutsAlike(v: Value, w: Value, key: string) {
    && v.Object? && w.Object? && !HasKey(v.fields, DIGEST) && !HasKey(w.fields, DIGEST)
    && Get(v.fields, Utf("type")) == Str(Utf("item.put"))
    && AgreeBut(v.fields, w.fields, Utf("item"))
    && SpellsOut(Get(v.fields, Utf("item")), Get(w.fields, Utf("item")), key)
  }

  /** Leaving an item's `links` or an entity's `aliases` out seals to the same operation and digest. */
  lemma DefaultsMayBeLeftOut(f: Formats, rules: seq<Field> -> bool, sha: Text -> Text,
                             placeholder: Value, v: Value, w: Value, key: string)
    requires PutsAlike(v, w, key)
    ensures Seal(Operations(f, rules), sha, placeholder, v)
            == Seal(Operations(f, rules), sha, placeholder, w)
  {
    var v', w' := Unsealed(v, placeholder), Unsealed(w, placeholder);
    UnsealedAgree(v.fields, w.fields, placeholder);
    assert |Utf("item")| != |DIGEST| && |Utf("type")| != |DIGEST|;
    UnsealedReads(v.fields, placeholder);
    UnsealedReads(w.fields, placeholder);
    ItemSpells(f, Get(v.fields, Utf("item")), Get(w.fields, Utf("item")), key);
    PutSpells(f, v', w');
    hide Spells, PutsAlike, OperationShape, Seal;
    DefaultsSealAlike(Operations(f, rules), sha, placeholder, v, w);
  }

  lemma PutSpells(f: Formats, v: Value, w: Value)
    requires v.Object? && w.Object? && AgreeBut(v.fields, w.fields, Utf("item"))
    requires Get(v.fields, Utf("type")) == Str(Utf("item.put"))
    requires Get(v.fields, Utf("item")).Object? && Get(w.fields, Utf("item")).Object?
    requires Spells(ItemShape(f), Get(v.fields, Utf("item")), Get(w.fields, Utf("item")))
    ensures Spells(OperationShape(f), v, w)
  {
    var branches := OperationShape(f).branches;
    var n := BranchOf(branches, Get(v.fields, Utf("type")));
    assert Utf("type")[0] != Utf("item")[0];
    if n.Some? {
      UtfInjective(TYPES[n.value], "item.put");
      ItemAt(f);
      hide OperationBranch, ItemShape;
      SpellsButOne(branches[n.value].members, v.fields, w.fields, 13);
    }
    hide SpellsRecord, TYPES, OperationBranch;
  }

  lemma {:induction false} GetAppended(fields: seq<Field>, last: Field, k: Text)
    ensures Get(fields + [last], k)
            == if HasKey(fields, k) then Get(fields, k) else if last.key == k then last.value else Undefined
    ensures HasKey(fields + [last], k) <==> HasKey(fields, k) || last.key == k
  {
    var all := fields + [last];
    if HasKey(fields, k) {
      var i :| 0 <= i < |fields| && fields[i].key == k;
      assert all[i].key == k;
    }
    assert all[|fields|] == last;
    if fields != [] {
      assert all[1..] == fields[1..] + [last] && all[0] == fields[0];
      GetAppended(fields[1..], last, k);
      if HasKey(fields, k) && fields[0].key != k {
        var i :| 0 <= i < |fields| && fields[i].key == k;
        assert fields[1..][i - 1].key == k;
      }
      if HasKey(fields[1..], k) {
        var i :| 0 <= i < |fields[1..]| && fields[1..][i].key == k;
        assert fields[i + 1].key == k;
      }
    } else {
      assert all == [last];
    }
  }

  lemma UnsealedReads(fields: seq<Field>, placeholder: Value)
    ensures forall k :: k != DIGEST ==>
              Get(fields + [Field(DIGEST, placeholder)], k) == Get(fields, k)
  {
    forall k | k != DIGEST ensures Get(fields + [Field(DIGEST, placeholder)], k) == Get(fields, k) {
      GetAppended(fields, Field(DIGEST, placeholder), k);
      GetHasKey(fields, k);
    }
  }

  lemma UnsealedAgree(a: seq<Field>, b: seq<Field>, placeholder: Value)
    requires AgreeBut(a, b, Utf("item"))
    ensures AgreeBut(a + [Field(DIGEST, placeholder)], b + [Field(DIGEST, placeholder)], Utf("item"))
  {
    var last := Field(DIGEST, placeholder);
    forall k | k != Utf("item")
      ensures Get(a + [last], k) == Get(b + [last], k)
      ensures HasKey(a + [last], k) <==> HasKey(b + [last], k)
    {
      GetAppended(a, last, k);
      GetAppended(b, last, k);
    }
  }
}
