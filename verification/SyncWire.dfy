/**
 The sync wire contract: consent grants, intelligence items, operations, batches and
 acknowledgements, with the cross-field rules a receiver checks.

 Identifiers are numbers, since only their equality and their order of enumeration matter.
 Timestamps are milliseconds since 1970; the contract's fixed-width text orders the same way for
 every instant it can spell, which is the range `Canonical` states.
 */
module SyncWire {
  import opened Wrappers

  const SYNC_BATCH_MAX_OPERATIONS := 100
  const SYNC_BATCH_MAX_BYTES := 256 * 1024
  const DAY_MS := 86_400_000
  const FIRST_INSTANT := -62_167_219_200_000 // 0000-01-01T00:00:00.000Z
  const LAST_INSTANT := 253_402_300_799_999 // 9999-12-31T23:59:59.999Z

  type Id = int
  type Instant = int

  predicate Canonical(t: Instant) {
    FIRST_INSTANT <= t <= LAST_INSTANT
  }

  datatype Sensitivity = Public | Internal | Confidential | Restricted {
    function Rank(): int {
      match this
      case Public => 0
      case Internal => 1
      case Confidential => 2
      case Restricted => 3
    }
  }

  datatype Kind =
    | Observation | Claim | Decision | Intention | Commitment | Outcome | Entity | Relationship
    | ExplicitPreference | InferredPreference | Memory | Inference

  datatype Scope = Personal | Project(projectId: Id)

  // ---- Consent ----

  datatype GrantStatus = Active | Revoked

  datatype GrantRef = GrantRef(grantId: Id, revision: int)

  datatype Grant = Grant(
    grantId: Id,
    revision: int,
    destinationId: Id,
    scope: Scope,
    purpose: string,
    allowedKinds: seq<Kind>,
    maximumSensitivity: Sensitivity,
    issuedAt: Instant,
    effectiveAt: Instant,
    expiresAt: Instant,
    retentionMaximumDays: int,
    redactionPolicy: string,
    minimizationPolicy: string,
    status: GrantStatus,
    revokedAt: Option<Instant>)
  {
    function Ref(): GrantRef {
      GrantRef(grantId, revision)
    }

    predicate Valid() {
      && 0 < revision
      && purpose == "personal-continuity"
      && |allowedKinds| > 0
      && (forall i, j :: 0 <= i < j < |allowedKinds| ==> allowedKinds[i] != allowedKinds[j])
      && Canonical(issuedAt) && Canonical(effectiveAt) && Canonical(expiresAt)
      && issuedAt <= effectiveAt < expiresAt
      && 1 <= retentionMaximumDays <= 365
      && (revokedAt.Some? ==> Canonical(revokedAt.value) && issuedAt <= revokedAt.value)
      && (status == Revoked <==> revokedAt.Some?)
    }
  }

  // ---- Items ----

  datatype Authority = UserExplicit | ProviderRecord | SalidiumRule | Model

  datatype EvidenceRole = Supporting | Contradicting | Correcting | Resulting

  datatype Evidence = Evidence(authority: Authority, role: EvidenceRole, capturedAt: Instant)

  datatype ItemKey = ItemKey(itemId: Id, revision: int)

  /** The two relations a revision may state to the revision it follows. */
  datatype Relation = Corrects | Supersedes

  datatype Link = Link(relation: Relation, target: ItemKey)

  datatype Alternative = Alternative(name: string, rationale: string)

  datatype DecisionStatus = InForce | Fulfilled | Abandoned | Superseded

  datatype DecisionText = DecisionText(
    question: Option<string>,
    selected: string,
    rationale: string,
    status: DecisionStatus,
    alternatives: seq<Alternative>)

  datatype Epistemic = Observed | Reported | Inferred

  datatype Assessment = Verified | Unverified | Confidence

  datatype Item = Item(
    itemId: Id,
    originReplicaId: Id,
    revision: int,
    kind: Kind,
    scope: Scope,
    capturedAt: Instant,
    effectiveFrom: Instant,
    epistemic: Epistemic,
    assessment: Assessment,
    sensitivity: Sensitivity,
    retentionPolicyDays: int,
    retentionExpiresAt: Instant,
    consent: GrantRef,
    evidence: seq<Evidence>,
    links: seq<Link>,
    redactionPolicy: string,
    minimizationPolicy: string,
    text: DecisionText)
  {
    function Key(): ItemKey {
      ItemKey(itemId, revision)
    }

    /** The shape of a decision record: bounds of each field, without the cross-field rules. */
    predicate Shaped() {
      && 0 < revision && 0 < consent.revision
      && kind == Decision
      && Canonical(capturedAt) && Canonical(effectiveFrom) && Canonical(retentionExpiresAt)
      && 1 <= |evidence| <= 32
      && (forall i :: 0 <= i < |evidence| ==> Canonical(evidence[i].capturedAt))
      && |links| <= 64
      && (forall i :: 0 <= i < |links| ==> 0 < links[i].target.revision)
      && (text.question.Some? ==> 1 <= |text.question.value| <= 2000)
      && 1 <= |text.selected| <= 2000
      && 1 <= |text.rationale| <= 2000
      && 1 <= |text.alternatives| <= 12
      && (forall i :: 0 <= i < |text.alternatives| ==>
            && 1 <= |text.alternatives[i].name| <= 300
            && 1 <= |text.alternatives[i].rationale| <= 2000)
    }

    /** The wire's cross-field rules as they apply to a decision. */
    predicate Valid() {
      && Shaped()
      && capturedAt < retentionExpiresAt
      && epistemic == Reported
      && assessment == Verified
      && (exists i :: 0 <= i < |evidence| && evidence[i].authority == UserExplicit)
    }
  }

  // ---- Operations ----

  datatype LaneId = Control | Data

  /** An operation identifier, fresh for its stream: `serial` is never drawn twice. */
  datatype OperationId = OperationId(streamId: Id, serial: nat)

  datatype Reason = UserRequest | ConsentWithdrawn | RetentionExpired | Corrected | ScopeDeleted

  datatype Body =
    | ConsentPut(grant: Grant)
    | ConsentRevoke(grant: Grant)
    | ItemPut(ref: GrantRef, item: Item)
    | ItemDelete(ref: GrantRef, scope: Scope, itemId: Id, deleteThroughRevision: int,
                 reason: Reason, requestedAt: Instant)
    | ScopeDelete(ref: GrantRef, scope: Scope, deleteThroughDataPosition: int,
                  reason: Reason, requestedAt: Instant)
  {
    function Lane(): LaneId {
      if ItemPut? then Data else Control
    }

    predicate Valid() {
      match this
      case ConsentPut(grant) => grant.Valid()
      case ConsentRevoke(grant) => grant.Valid() && grant.status == Revoked
      case ItemPut(ref, item) => item.Valid() && ref == item.consent
      case ItemDelete(ref, _, _, through, _, at) => 0 < ref.revision && 0 < through && Canonical(at)
      case ScopeDelete(ref, _, through, _, at) => 0 < ref.revision && -1 <= through && Canonical(at)
    }
  }

  /** The digest of an operation's content. SHA-256 stays symbolic: a token for what it covers. */
  datatype Digest = Unsealed | Sha256(content: Operation)

  datatype Operation = Operation(
    streamId: Id,
    replicaId: Id,
    generation: nat,
    lane: LaneId,
    position: int,
    operationId: OperationId,
    previous: Option<OperationId>,
    body: Body,
    digest: Digest)
  {
    predicate Valid() {
      && 0 < generation
      && 0 <= position
      && lane == body.Lane()
      && body.Valid()
      && (position == 0 <==> previous.None?)
    }

    function DigestBody(): Digest {
      Sha256(this.(digest := Unsealed))
    }

    /** Valid, and carrying the digest of its own content. */
    predicate Sealed() {
      Valid() && digest == DigestBody()
    }
  }

  datatype Batch = Batch(
    streamId: Id,
    replicaId: Id,
    generation: nat,
    lane: LaneId,
    afterPosition: int,
    operations: seq<Operation>)
  {
    /** Every rule a receiver applies to a batch before it reads the operations. */
    predicate Valid() {
      && 0 < generation
      && -1 <= afterPosition
      && 1 <= |operations| <= SYNC_BATCH_MAX_OPERATIONS
      && (forall i :: 0 <= i < |operations| ==> operations[i].Valid() && Belongs(operations[i]))
      && (forall i :: 0 <= i < |operations| ==> operations[i].position == afterPosition + i + 1)
      && (forall i :: 0 < i < |operations| ==>
            operations[i].previous == Some(operations[i - 1].operationId))
    }

    predicate Belongs(op: Operation) {
      op.streamId == streamId && op.replicaId == replicaId &&
      op.generation == generation && op.lane == lane
    }
  }

  datatype Rejection = Rejection(position: nat, code: string, retryable: bool)

  datatype Reconciliation = CursorAhead | HistoryGap | InventoryMismatch

  datatype Ack = Ack(
    streamId: Id,
    generation: nat,
    lane: LaneId,
    acceptedThrough: int,
    retryAfterMs: Option<int>,
    rejection: Option<Rejection>,
    reconciliationRequired: Option<Reconciliation>)
  {
    predicate Valid() {
      && 0 < generation
      && -1 <= acceptedThrough
      && (retryAfterMs.Some? ==> 100 <= retryAfterMs.value <= 86_400_000)
    }
  }

  datatype DeletionTarget =
    | ItemTarget(itemId: Id, deleteThroughRevision: int)
    | ScopeTarget(scope: Scope)

  datatype DeletionSink = Ledger | Projection | Search | Embedding | Cache | BackupFence

  datatype DeletionReceipt = DeletionReceipt(
    receiptId: Id,
    destinationId: Id,
    operationId: OperationId,
    target: DeletionTarget,
    completedAt: Instant,
    sinks: seq<DeletionSink>)
  {
    predicate Valid() {
      && Canonical(completedAt)
      && (target.ItemTarget? ==> 0 < target.deleteThroughRevision)
      && |sinks| == 6
      && (forall i, j :: 0 <= i < j < |sinks| ==> sinks[i] != sinks[j])
    }
  }
}
