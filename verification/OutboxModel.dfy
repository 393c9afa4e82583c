/**
 The tables of one sync stream, and what each outbox transaction makes of them.

 A stream value holds the rows of every table that belong to one stream: its cursors, its two lanes
 of operations keyed by position, consent revisions keyed by grant and revision, item records keyed
 by item and revision, and tombstones keyed by item. A transaction maps tables to tables, or names
 the reason it was rolled back.
 */
module OutboxModel {
  import opened Wrappers
  import opened IntSets
  import opened SyncWire

  datatype Error =
    | UnknownStream | InvalidId
    | InvalidGrant | NewGrantMustBeActive | KindsNotSupported | PolicyNotSupported
    | DestinationMismatch | RevisionMustAdvance | ScopeCannotChange | PurposeCannotChange
    | UnknownGrant | StaleGrant | GrantIsRevoked | GrantNotEffective
    | EvidenceRequired | InvalidItem | UnknownItem
    | KindNotConsented | ScopeNotConsented | SensitivityExceedsConsent
    | RetentionExceedsExpiry | RetentionExceedsMaximum | PolicyMismatch
    | InvalidOperation | InvalidTime
    | InvalidAck | SupersededGeneration | AheadOfOutbox | LocalHistoryGap | RejectionOfUnknownPosition
    | InvalidReceipt | UnknownOperation | ReceiptDestinationMismatch | ReceiptTargetMismatch
    | NotADeletion
    | OperationExceedsByteLimit | UnsendableBatch

  // ---- Tables ----

  datatype Refusal = Refusal(at: Instant, code: string)

  datatype Row = Row(op: Operation, acknowledgedAt: Option<Instant>, refused: Option<Refusal>)

  /** One lane of `sync_outbox`, with the stream's columns for that lane. */
  datatype LaneLog = LaneLog(
    rows: map<int, Row>,
    next: int,
    previous: Option<OperationId>,
    acknowledged: int)

  const EmptyLog := LaneLog(map[], 0, None, -1)

  datatype Record = Record(item: Item, current: bool)

  datatype Completion = Completion(receiptId: Id, completedAt: Instant)

  datatype Tombstone = Tombstone(
    deleteThroughRevision: int,
    reason: Reason,
    requestedAt: Instant,
    completion: Option<Completion>)

  datatype Stream = Stream(
    streamId: Id,
    replicaId: Id,
    generation: nat,
    destinationId: Id,
    control: LaneLog,
    data: LaneLog,
    consent: map<GrantRef, Grant>,
    records: map<ItemKey, Record>,
    tombstones: map<Id, Tombstone>,
    receipts: map<Id, DeletionReceipt>,
    minted: nat)
  {
    function Log(lane: LaneId): LaneLog {
      if lane == Control then control else data
    }

    function WithLog(lane: LaneId, log: LaneLog): Stream {
      if lane == Control then this.(control := log) else this.(data := log)
    }
  }

  function NewStream(streamId: Id, replicaId: Id, destinationId: Id): Stream {
    Stream(streamId, replicaId, 1, destinationId, EmptyLog, EmptyLog,
           map[], map[], map[], map[], 0)
  }

  // ---- Lookups ----

  function GrantRevisions(s: Stream, grantId: Id): set<int> {
    set k | k in s.consent && k.grantId == grantId :: k.revision
  }

  /** The newest revision of a grant. */
  function CurrentGrant(s: Stream, grantId: Id): (g: Option<Grant>) {
    var revisions := GrantRevisions(s, grantId);
    if revisions == {} then None else Some(s.consent[GrantRef(grantId, MaxOf(revisions))])
  }

  function LiveRevisions(s: Stream, itemId: Id): set<int> {
    set k | k in s.records && k.itemId == itemId && s.records[k].current :: k.revision
  }

  /** The record of an item flagged current. */
  function CurrentItem(s: Stream, itemId: Id): (item: Option<Item>) {
    var revisions := LiveRevisions(s, itemId);
    if revisions == {} then None else Some(s.records[ItemKey(itemId, MaxOf(revisions))].item)
  }

  function LiveItems(s: Stream): set<Id> {
    set k | k in s.records && s.records[k].current :: k.itemId
  }

  // ---- Enqueue ----

  /** The operation a body becomes at the end of its lane, before it is sealed. */
  function Unsigned(s: Stream, lane: LaneId, body: Body): Operation {
    Operation(s.streamId, s.replicaId, s.generation, lane, s.Log(lane).next,
              OperationId(s.streamId, s.minted), s.Log(lane).previous, body, Unsealed)
  }

  function Seal(op: Operation): Operation {
    op.(digest := op.DigestBody())
  }

  function Append(log: LaneLog, op: Operation): LaneLog {
    log.(rows := log.rows[log.next := Row(op, None, None)], next := log.next + 1,
         previous := Some(op.operationId))
  }

  /** Appends one sealed operation to a lane; a body the wire would refuse rolls everything back. */
  function Enqueue(s: Stream, lane: LaneId, body: Body): Result<Stream, Error> {
    var unsigned := Unsigned(s, lane, body);
    if !unsigned.Valid() then
      Failure(InvalidOperation)
    else
      Success(s.WithLog(lane, Append(s.Log(lane), Seal(unsigned))).(minted := s.minted + 1))
  }

  /** Enqueues each body in turn on one lane. */
  function EnqueueAll(s: Stream, lane: LaneId, bodies: seq<Body>): Result<Stream, Error> {
    if bodies == [] then
      Success(s)
    else
      var s1 :- EnqueueAll(s, lane, bodies[..|bodies| - 1]);
      Enqueue(s1, lane, bodies[|bodies| - 1])
  }

  // ---- Consent ----

  predicate SupportedPolicies(g: Grant) {
    g.redactionPolicy == "secrets-v1" && g.minimizationPolicy == "decision-v1"
  }

  function GrantConsent(s: Stream, g: Grant): Result<Stream, Error> {
    if !g.Valid() then Failure(InvalidGrant)
    else if g.status != Active then Failure(NewGrantMustBeActive)
    else if g.allowedKinds != [Decision] then Failure(KindsNotSupported)
    else if !SupportedPolicies(g) then Failure(PolicyNotSupported)
    else if g.destinationId != s.destinationId then Failure(DestinationMismatch)
    else
      var previous := CurrentGrant(s, g.grantId);
      if previous.Some? && g.revision != previous.value.revision + 1 then
        Failure(RevisionMustAdvance)
      else if previous.None? && g.revision != 1 then
        Failure(RevisionMustAdvance)
      else if previous.Some? && g.scope != previous.value.scope then
        Failure(ScopeCannotChange)
      else if previous.Some? && g.purpose != previous.value.purpose then
        Failure(PurposeCannotChange)
      else
        Enqueue(s.(consent := s.consent[g.Ref() := g]), Control, ConsentPut(g))
  }

  function RevokedGrant(g: Grant, at: Instant): Grant {
    g.(revision := g.revision + 1, status := Revoked, revokedAt := Some(at))
  }

  /** Revoking records a revoked revision, enqueues it, and deletes the grant's whole scope. */
  function RevokeConsent(s: Stream, grantId: Id, at: Instant): Result<Stream, Error> {
    var current := CurrentGrant(s, grantId);
    if current.None? then Failure(UnknownGrant)
    else if current.value.status == Revoked then Success(s)
    else
      var revoked := RevokedGrant(current.value, at);
      if !revoked.Valid() then Failure(InvalidGrant)
      else
        var s1 :- Enqueue(s.(consent := s.consent[revoked.Ref() := revoked]), Control,
                          ConsentRevoke(revoked));
        EnqueueScopeDelete(s1, revoked, ConsentWithdrawn, at)
  }

  // ---- Deletion ----

  /** The tombstone an item gets, keeping any completion and the higher revision on conflict. */
  function Buried(s: Stream, itemId: Id, revision: int, reason: Reason, at: Instant): Tombstone {
    if itemId in s.tombstones then
      var t := s.tombstones[itemId];
      Tombstone(if t.deleteThroughRevision < revision then revision else t.deleteThroughRevision,
                reason, at, t.completion)
    else
      Tombstone(revision, reason, at, None)
  }

  function ItemsInScope(s: Stream, scope: Scope): set<Id> {
    set k | k in s.records && s.records[k].current && s.records[k].item.scope == scope :: k.itemId
  }

  /** Clears the current flag of every doomed item and tombstones it through its live revision. */
  function Bury(s: Stream, doomed: set<Id>, reason: Reason, at: Instant): Stream
    requires forall i :: i in doomed ==> LiveRevisions(s, i) != {}
  {
    s.(records := map k | k in s.records ::
                    if k.itemId in doomed then s.records[k].(current := false) else s.records[k],
       tombstones := map i | i in s.tombstones.Keys + doomed ::
                       if i in doomed
                       then Buried(s, i, MaxOf(LiveRevisions(s, i)), reason, at)
                       else s.tombstones[i])
  }

  lemma LiveHaveRevisions(s: Stream, i: Id)
    requires i in LiveItems(s)
    ensures LiveRevisions(s, i) != {}
  {
    var k :| k in s.records && s.records[k].current && k.itemId == i;
    assert k.revision in LiveRevisions(s, i);
  }

  function EnqueueScopeDelete(s: Stream, g: Grant, reason: Reason, at: Instant)
    : Result<Stream, Error>
  {
    var doomed := ItemsInScope(s, g.scope);
    assert forall i :: i in doomed ==> LiveRevisions(s, i) != {} by {
      forall i | i in doomed ensures LiveRevisions(s, i) != {} { LiveHaveRevisions(s, i); }
    }
    var s1 := Bury(s, doomed, reason, at);
    Enqueue(s1, Control, ScopeDelete(g.Ref(), g.scope, s1.data.next - 1, reason, at))
  }

  function DeleteScope(s: Stream, grantId: Id, reason: Reason, at: Instant)
    : Result<Stream, Error>
  {
    var g := CurrentGrant(s, grantId);
    if g.None? then Failure(UnknownGrant) else EnqueueScopeDelete(s, g.value, reason, at)
  }

  /** Deleting an item that is not live changes nothing. */
  function DeleteItem(s: Stream, itemId: Id, reason: Reason, at: Instant): Result<Stream, Error> {
    if LiveRevisions(s, itemId) == {} then
      Success(s)
    else
      var item := CurrentItem(s, itemId).value;
      Enqueue(Bury(s, {itemId}, reason, at), Control,
              ItemDelete(item.consent, item.scope, itemId, item.revision, reason, at))
  }

  // ---- Capture ----

  datatype CaptureInput = CaptureInput(
    capturedAt: Instant,
    effectiveFrom: Option<Instant>,
    retentionExpiresAt: Instant,
    sensitivity: Sensitivity,
    evidence: seq<Evidence>,
    text: DecisionText)

  /** The grant a capture cites, when that very revision is newest, active and in effect. */
  function AuthorizingGrant(s: Stream, ref: GrantRef, capturedAt: Instant): Result<Grant, Error> {
    var g := CurrentGrant(s, ref.grantId);
    if g.None? || g.value.revision != ref.revision then Failure(StaleGrant)
    else if g.value.status != Active then Failure(GrantIsRevoked)
    else if capturedAt < g.value.effectiveAt || g.value.expiresAt <= capturedAt then
      Failure(GrantNotEffective)
    else Success(g.value)
  }

  /** The last instant a grant lets an item be kept. Past year 9999 the text no longer orders. */
  function RetentionLimit(g: Grant, item: Item): Option<Instant> {
    var limit := item.capturedAt + g.retentionMaximumDays * DAY_MS;
    if limit <= LAST_INSTANT then Some(limit) else None
  }

  function Ineligible(g: Grant, item: Item): Option<Error> {
    if g.status != Active then Some(GrantIsRevoked)
    else if item.kind !in g.allowedKinds then Some(KindNotConsented)
    else if g.scope != item.scope then Some(ScopeNotConsented)
    else if g.maximumSensitivity.Rank() < item.sensitivity.Rank() then
      Some(SensitivityExceedsConsent)
    else if g.expiresAt < item.retentionExpiresAt then Some(RetentionExceedsExpiry)
    else
      var limit := RetentionLimit(g, item);
      if limit.None? || limit.value < item.retentionExpiresAt then Some(RetentionExceedsMaximum)
      else if item.redactionPolicy != g.redactionPolicy ||
              item.minimizationPolicy != g.minimizationPolicy then Some(PolicyMismatch)
      else None
  }

  function PutBody(item: Item): Body {
    ItemPut(item.consent, item)
  }

  /** The records with one more item revision, which is now the only current one of its item. */
  function Inserted(s: Stream, item: Item): Stream {
    var cleared := map k | k in s.records ::
      if k.itemId == item.itemId then s.records[k].(current := false) else s.records[k];
    s.(records := cleared[item.Key() := Record(item, true)])
  }

  function InsertItem(s: Stream, item: Item): Result<Stream, Error> {
    var current := CurrentItem(s, item.itemId);
    if current.Some? && item.revision != current.value.revision + 1 then
      Failure(RevisionMustAdvance)
    else if current.None? && item.revision != 1 then
      Failure(RevisionMustAdvance)
    else
      Enqueue(Inserted(s, item), Data, PutBody(item))
  }

  function CapturedItem(s: Stream, itemId: Id, g: Grant, ref: GrantRef, input: CaptureInput): Item {
    Item(itemId, s.replicaId, 1, Decision, g.scope, input.capturedAt,
         if input.effectiveFrom.Some? then input.effectiveFrom.value else input.capturedAt,
         Reported, Verified, input.sensitivity, g.retentionMaximumDays, input.retentionExpiresAt,
         ref, input.evidence, [], g.redactionPolicy, g.minimizationPolicy, input.text)
  }

  /** The identifier the next captured item is given. */
  function FreshItem(s: Stream): Id {
    s.minted
  }

  function CaptureDecision(s: Stream, ref: GrantRef, input: CaptureInput): Result<Stream, Error> {
    var g :- AuthorizingGrant(s, ref, input.capturedAt);
    if input.evidence == [] then Failure(EvidenceRequired)
    else
      var item := CapturedItem(s, FreshItem(s), g, ref, input);
      if !item.Shaped() then Failure(InvalidItem)
      else
        var refused := Ineligible(g, item);
        if refused.Some? then Failure(refused.value)
        else InsertItem(s.(minted := s.minted + 1), item)
  }

  function RevisedItem(current: Item, g: Grant, relation: Relation, input: CaptureInput): Item {
    current.(
      revision := current.revision + 1,
      capturedAt := input.capturedAt,
      effectiveFrom :=
        if input.effectiveFrom.Some? then input.effectiveFrom.value else input.capturedAt,
      sensitivity := input.sensitivity,
      retentionPolicyDays := g.retentionMaximumDays,
      retentionExpiresAt := input.retentionExpiresAt,
      evidence := input.evidence,
      links := current.links + [Link(relation, current.Key())],
      text := input.text)
  }

  function ReviseDecision(s: Stream, itemId: Id, relation: Relation, input: CaptureInput)
    : Result<Stream, Error>
  {
    var current := CurrentItem(s, itemId);
    if current.None? || current.value.kind != Decision then Failure(UnknownItem)
    else
      var g :- AuthorizingGrant(s, current.value.consent, input.capturedAt);
      if input.evidence == [] then Failure(EvidenceRequired)
      else
        var item := RevisedItem(current.value, g, relation, input);
        if !item.Shaped() then Failure(InvalidItem)
        else
          var refused := Ineligible(g, item);
          if refused.Some? then Failure(refused.value) else InsertItem(s, item)
  }

  // ---- Generations ----

  function GrantIds(s: Stream): set<Id> {
    set k | k in s.consent :: k.grantId
  }

  function ConsentBody(g: Grant): Body {
    if g.status == Revoked then ConsentRevoke(g) else ConsentPut(g)
  }

  /** One body per stored revision of one grant, in revision order. */
  function RevisionBodies(s: Stream, grantId: Id, revisions: seq<int>): seq<Body>
    requires forall n :: 0 <= n < |revisions| ==> GrantRef(grantId, revisions[n]) in s.consent
  {
    seq(|revisions|, n requires 0 <= n < |revisions| =>
      ConsentBody(s.consent[GrantRef(grantId, revisions[n])]))
  }

  lemma RevisionsAreStored(s: Stream, grantId: Id, revisions: seq<int>)
    requires revisions == Ascending(GrantRevisions(s, grantId))
    ensures forall n :: 0 <= n < |revisions| ==> GrantRef(grantId, revisions[n]) in s.consent
  {
    forall n | 0 <= n < |revisions| ensures GrantRef(grantId, revisions[n]) in s.consent {
      assert revisions[n] in revisions;
      var k :| k in s.consent && k.grantId == grantId && k.revision == revisions[n];
      assert k == GrantRef(grantId, revisions[n]);
    }
  }

  function ConsentBodies(s: Stream, grantIds: seq<Id>): seq<Body> {
    if grantIds == [] then []
    else
      var last := grantIds[|grantIds| - 1];
      var revisions := Ascending(GrantRevisions(s, last));
      RevisionsAreStored(s, last, revisions);
      ConsentBodies(s, grantIds[..|grantIds| - 1])
        + RevisionBodies(s, last, revisions)
  }

  function PutBodies(s: Stream, itemIds: seq<Id>): seq<Body>
    requires forall n :: 0 <= n < |itemIds| ==> LiveRevisions(s, itemIds[n]) != {}
  {
    seq(|itemIds|, n requires 0 <= n < |itemIds| => PutBody(CurrentItem(s, itemIds[n]).value))
  }

  /** A tombstone whose join on the deleted revision finds its record. */
  predicate Joins(s: Stream, itemId: Id) {
    && itemId in s.tombstones
    && ItemKey(itemId, s.tombstones[itemId].deleteThroughRevision) in s.records
  }

  function JoinedTombstones(s: Stream): set<Id> {
    set i | i in s.tombstones && Joins(s, i)
  }

  function TombstoneBody(item: Item, itemId: Id, t: Tombstone): Body {
    ItemDelete(item.consent, item.scope, itemId, t.deleteThroughRevision, t.reason, t.requestedAt)
  }

  function DeleteBodies(s: Stream, itemIds: seq<Id>): seq<Body>
    requires forall n :: 0 <= n < |itemIds| ==> Joins(s, itemIds[n])
  {
    seq(|itemIds|, n requires 0 <= n < |itemIds| =>
      var i := itemIds[n];
      assert Joins(s, i);
      var t := s.tombstones[i];
      TombstoneBody(s.records[ItemKey(i, t.deleteThroughRevision)].item, i, t))
  }

  function Restarted(s: Stream): Stream {
    s.(generation := s.generation + 1, control := EmptyLog, data := EmptyLog)
  }

  lemma Enumerations(s: Stream)
    ensures forall n :: 0 <= n < |Ascending(LiveItems(s))| ==>
              LiveRevisions(s, Ascending(LiveItems(s))[n]) != {}
    ensures forall n :: 0 <= n < |Ascending(JoinedTombstones(s))| ==>
              Joins(s, Ascending(JoinedTombstones(s))[n])
  {
    var live, dead := Ascending(LiveItems(s)), Ascending(JoinedTombstones(s));
    forall n | 0 <= n < |live| ensures LiveRevisions(s, live[n]) != {} {
      assert live[n] in live;
      LiveHaveRevisions(s, live[n]);
    }
    forall n | 0 <= n < |dead| ensures Joins(s, dead[n]) {
      assert dead[n] in dead;
    }
  }

  /** A fresh position space that re-describes current state: consent, live items, tombstones. */
  function BeginGeneration(s: Stream): Result<Stream, Error> {
    Enumerations(s);
    var s1 :- EnqueueAll(Restarted(s), Control, ConsentBodies(s, Ascending(GrantIds(s))));
    var s2 :- EnqueueAll(s1, Data, PutBodies(s, Ascending(LiveItems(s))));
    EnqueueAll(s2, Control, DeleteBodies(s, Ascending(JoinedTombstones(s))))
  }

  // ---- Acknowledgement ----

  datatype Refused = Refused(position: int, code: string, blocking: bool)

  datatype AckResult = AckResult(
    acknowledgedThrough: int,
    refused: Option<Refused>,
    skipped: bool,
    regressed: bool,
    reconciliationRequired: Option<Reconciliation>,
    retryAfterMs: Option<int>)

  function MarkedThrough(log: LaneLog, through: int, at: Instant): LaneLog {
    log.(rows := map p | p in log.rows ::
                   if p <= through then log.rows[p].(acknowledgedAt := Some(at)) else log.rows[p],
         acknowledged := through)
  }

  /** The lane after the accepted part of an acknowledgement: forward only, and never over a gap. */
  function Accept(log: LaneLog, through: int, at: Instant): Result<LaneLog, Error> {
    if log.next <= through then Failure(AheadOfOutbox)
    else if through <= log.acknowledged then Success(log)
    else if exists p :: log.acknowledged < p <= through && p !in log.rows then
      Failure(LocalHistoryGap)
    else Success(MarkedThrough(log, through, at))
  }

  /** The lane after a permanent refusal; only the data lane steps over the very next operation. */
  function Refuse(log: LaneLog, lane: LaneId, position: int, code: string, at: Instant)
    : Result<LaneLog, Error>
  {
    if position !in log.rows then Failure(RejectionOfUnknownPosition)
    else
      var marked := log.(rows := log.rows[position :=
        log.rows[position].(refused := Some(Refusal(at, code)))]);
      if lane == Data && position == log.acknowledged + 1
      then Success(marked.(acknowledged := position))
      else Success(marked)
  }

  function AcknowledgedLog(s: Stream, ack: Ack, at: Instant): Result<LaneLog, Error> {
    var log :- Accept(s.Log(ack.lane), ack.acceptedThrough, at);
    if ack.rejection.Some? && !ack.rejection.value.retryable then
      Refuse(log, ack.lane, ack.rejection.value.position, ack.rejection.value.code, at)
    else Success(log)
  }

  function Acknowledge(s: Stream, ack: Ack, at: Instant): Result<Stream, Error> {
    if !ack.Valid() then Failure(InvalidAck)
    else if ack.generation != s.generation then Failure(SupersededGeneration)
    else
      var log :- AcknowledgedLog(s, ack, at);
      Success(s.WithLog(ack.lane, log))
  }

  // ---- Deletion receipts ----

  function OperationsNamed(s: Stream, id: OperationId): set<Operation> {
    (set p | p in s.control.rows && s.control.rows[p].op.operationId == id :: s.control.rows[p].op)
    + (set p | p in s.data.rows && s.data.rows[p].op.operationId == id :: s.data.rows[p].op)
  }

  predicate TargetMatches(target: DeletionTarget, body: Body) {
    match body
    case ItemDelete(_, _, itemId, through, _, _) => target == ItemTarget(itemId, through)
    case ScopeDelete(_, scope, _, _, _) => target == ScopeTarget(scope)
    case _ => false
  }

  function Completed(s: Stream, receipt: DeletionReceipt): Stream {
    var s1 := s.(receipts :=
      if receipt.receiptId in s.receipts then s.receipts
      else s.receipts[receipt.receiptId := receipt]);
    match receipt.target
    case ScopeTarget(_) => s1
    case ItemTarget(itemId, through) =>
      if itemId in s.tombstones && s.tombstones[itemId].deleteThroughRevision <= through then
        s1.(tombstones := s.tombstones[itemId := s.tombstones[itemId].(
              completion := Some(Completion(receipt.receiptId, receipt.completedAt)))])
      else s1
  }

  function RecordDeletionReceipt(s: Stream, receipt: DeletionReceipt): Result<Stream, Error> {
    if !receipt.Valid() then Failure(InvalidReceipt)
    else if OperationsNamed(s, receipt.operationId) == {} then Failure(UnknownOperation)
    else if receipt.destinationId != s.destinationId then Failure(ReceiptDestinationMismatch)
    else if exists op :: op in OperationsNamed(s, receipt.operationId) &&
                         !(op.body.ItemDelete? || op.body.ScopeDelete?) then Failure(NotADeletion)
    else if exists op :: op in OperationsNamed(s, receipt.operationId) &&
                         !TargetMatches(receipt.target, op.body) then Failure(ReceiptTargetMismatch)
    else Success(Completed(s, receipt))
  }
}
