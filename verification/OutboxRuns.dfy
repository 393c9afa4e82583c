/**
 Whole runs of one stream: any sequence of outbox calls, failing ones included, from a new stream.
 A call that throws is rolled back and leaves the tables as they were.
 */
module OutboxRuns {
  import opened Wrappers
  import opened IntSets
  import opened SyncWire
  import opened OutboxModel
  import opened OutboxInvariant
  import opened OutboxGeneration
  import opened Receiver

  datatype Call =
    | Grants(grant: Grant)
    | Revokes(grantId: Id, at: Instant)
    | Captures(ref: GrantRef, input: CaptureInput)
    | Revises(itemId: Id, relation: Relation, input: CaptureInput)
    | DeletesItem(itemId: Id, reason: Reason, at: Instant)
    | DeletesScope(grantId: Id, reason: Reason, at: Instant)
    | Restarts
    | Acknowledges(ack: Ack, at: Instant)
    | Receipts(receipt: DeletionReceipt)

  function Perform(s: Stream, call: Call): Result<Stream, Error> {
    match call
    case Grants(g) => GrantConsent(s, g)
    case Revokes(grantId, at) => RevokeConsent(s, grantId, at)
    case Captures(ref, input) => CaptureDecision(s, ref, input)
    case Revises(itemId, relation, input) => ReviseDecision(s, itemId, relation, input)
    case DeletesItem(itemId, reason, at) => DeleteItem(s, itemId, reason, at)
    case DeletesScope(grantId, reason, at) => DeleteScope(s, grantId, reason, at)
    case Restarts => BeginGeneration(s)
    case Acknowledges(ack, at) => Acknowledge(s, ack, at)
    case Receipts(receipt) => RecordDeletionReceipt(s, receipt)
  }

  function Step(s: Stream, call: Call): Stream {
    var outcome := Perform(s, call);
    if outcome.Success? then outcome.value else s
  }

  function Run(s: Stream, calls: seq<Call>): Stream {
    if calls == [] then s else Step(Run(s, calls[..|calls| - 1]), calls[|calls| - 1])
  }

  /** What any sequence of calls makes of a new stream. */
  ghost predicate Reachable(s: Stream) {
    exists streamId, replicaId, destinationId, calls ::
      s == Run(NewStream(streamId, replicaId, destinationId), calls)
  }

  lemma NewStreamIsReachable(streamId: Id, replicaId: Id, destinationId: Id)
    ensures Reachable(NewStream(streamId, replicaId, destinationId))
  {
    var s := NewStream(streamId, replicaId, destinationId);
    assert s == Run(s, []);
  }

  lemma StepStaysReachable(s: Stream, call: Call)
    requires Reachable(s)
    ensures Reachable(Step(s, call))
  {
    hide Step;
    var streamId, replicaId, destinationId, calls :|
      s == Run(NewStream(streamId, replicaId, destinationId), calls);
    var t := calls + [call];
    assert t[..|t| - 1] == calls;
    assert Step(s, call) == Run(NewStream(streamId, replicaId, destinationId), t);
  }

  lemma StepKeepsInv(s: Stream, call: Call)
    requires Inv(s)
    ensures Inv(Step(s, call))
  {
    hide Inv, GrantConsent, RevokeConsent, CaptureDecision, ReviseDecision, DeleteItem, DeleteScope,
      BeginGeneration, Acknowledge, RecordDeletionReceipt;
    if Perform(s, call).Success? {
      match call
      case Grants(g) => GrantConsentKeepsInv(s, g);
      case Revokes(grantId, at) => RevokeConsentKeepsInv(s, grantId, at);
      case Captures(ref, input) => CaptureKeepsInv(s, ref, input);
      case Revises(itemId, relation, input) => ReviseKeepsInv(s, itemId, relation, input);
      case DeletesItem(itemId, reason, at) => DeleteItemKeepsInv(s, itemId, reason, at);
      case DeletesScope(grantId, reason, at) => DeleteScopeKeepsInv(s, grantId, reason, at);
      case Restarts => BeginGenerationKeepsInv(s);
      case Acknowledges(ack, at) => AcknowledgeKeepsInv(s, ack, at);
      case Receipts(receipt) => ReceiptKeepsInv(s, receipt);
    }
  }

  /** Every reachable state satisfies the invariant. */
  lemma {:induction false} RunKeepsInv(s: Stream, calls: seq<Call>)
    requires Inv(s)
    ensures Inv(Run(s, calls))
  {
    hide Inv, Step;
    if calls != [] {
      RunKeepsInv(s, calls[..|calls| - 1]);
      StepKeepsInv(Run(s, calls[..|calls| - 1]), calls[|calls| - 1]);
    }
  }

  // ---- Tombstones ----

  /** The tombstones of `s` are in `s'`, through the same revisions. */
  ghost predicate TombstonesKept(s: Stream, s': Stream) {
    forall i :: i in s.tombstones ==>
      && i in s'.tombstones
      && s'.tombstones[i].deleteThroughRevision == s.tombstones[i].deleteThroughRevision
  }

  lemma BuryKeepsTombstones(s: Stream, doomed: set<Id>, reason: Reason, at: Instant, body: Body)
    requires RecordsInv(s.records, s.tombstones)
    requires forall i :: i in doomed ==> LiveRevisions(s, i) != {}
    requires Enqueue(Bury(s, doomed, reason, at), Control, body).Success?
    ensures TombstonesKept(s, Enqueue(Bury(s, doomed, reason, at), Control, body).value)
  {
    hide RecordsInv, LiveRevisions;
    EnqueueFrame(Bury(s, doomed, reason, at), Control, body);
    BuryEffect(s, doomed, reason, at);
    hide Bury, Enqueue;
  }

  lemma ScopeDeleteKeepsTombstones(s: Stream, g: Grant, reason: Reason, at: Instant)
    requires RecordsInv(s.records, s.tombstones) && EnqueueScopeDelete(s, g, reason, at).Success?
    ensures TombstonesKept(s, EnqueueScopeDelete(s, g, reason, at).value)
  {
    hide RecordsInv, LiveRevisions, Enqueue, Bury, TombstonesKept;
    var doomed := ItemsInScope(s, g.scope);
    forall i | i in doomed ensures LiveRevisions(s, i) != {} { LiveHaveRevisions(s, i); }
    var s1 := Bury(s, doomed, reason, at);
    BuryKeepsTombstones(s, doomed, reason, at,
                        ScopeDelete(g.Ref(), g.scope, s1.data.next - 1, reason, at));
  }

  lemma RevokeKeepsTombstones(s: Stream, grantId: Id, at: Instant)
    requires RecordsInv(s.records, s.tombstones) && RevokeConsent(s, grantId, at).Success?
    ensures TombstonesKept(s, RevokeConsent(s, grantId, at).value)
  {
    hide RecordsInv, Enqueue, EnqueueScopeDelete, CurrentGrant;
    var g := CurrentGrant(s, grantId).value;
    if g.status == Active {
      var revoked := RevokedGrant(g, at);
      EnqueueFrame(WithGrant(s, revoked), Control, ConsentRevoke(revoked));
      var s1 := Enqueue(WithGrant(s, revoked), Control, ConsentRevoke(revoked)).value;
      ScopeDeleteKeepsTombstones(s1, revoked, ConsentWithdrawn, at);
    }
  }

  lemma DeleteItemKeepsTombstones(s: Stream, itemId: Id, reason: Reason, at: Instant)
    requires RecordsInv(s.records, s.tombstones) && DeleteItem(s, itemId, reason, at).Success?
    ensures TombstonesKept(s, DeleteItem(s, itemId, reason, at).value)
  {
    hide RecordsInv, Enqueue, Bury;
    if LiveRevisions(s, itemId) != {} {
      var item := CurrentItem(s, itemId).value;
      BuryKeepsTombstones(s, {itemId}, reason, at,
        ItemDelete(item.consent, item.scope, itemId, item.revision, reason, at));
    }
  }

  lemma StepKeepsTombstones(s: Stream, call: Call)
    requires Inv(s)
    ensures TombstonesKept(s, Step(s, call))
  {
    hide LogInv, LanesInv, ConsentInv, AuthorityInv, LiveConsentInv, IdsInv, ItemsInv, PartitionInv,
      RevokeConsent, DeleteItem, DeleteScope, BeginGeneration, Acknowledge, RecordDeletionReceipt,
      CurrentGrant, CurrentItem, AuthorizingGrant, Ineligible, EnqueueScopeDelete, Grant.Valid,
      Item.Shaped;
    if Perform(s, call).Success? {
      match call
      case Grants(g) => EnqueueFrame(WithGrant(s, g), Control, ConsentPut(g));
      case Revokes(grantId, at) => RevokeKeepsTombstones(s, grantId, at);
      case Captures(ref, input) => CaptureKeepsTombstones(s, ref, input);
      case Revises(itemId, relation, input) => ReviseKeepsTombstones(s, itemId, relation, input);
      case DeletesItem(itemId, reason, at) => DeleteItemKeepsTombstones(s, itemId, reason, at);
      case DeletesScope(grantId, reason, at) => DeleteScopeKeepsTombstones(s, grantId, reason, at);
      case Restarts => RestartKeepsTombstones(s);
      case Acknowledges(ack, at) => AcknowledgeKeepsInv(s, ack, at);
      case Receipts(receipt) => ReceiptKeepsInv(s, receipt);
    }
  }

  lemma InsertKeepsTombstones(s: Stream, item: Item)
    requires InsertItem(s, item).Success?
    ensures InsertItem(s, item).value.tombstones == s.tombstones
  {
    hide CurrentItem, Enqueue;
    EnqueueFrame(Inserted(s, item), Data, PutBody(item));
  }

  lemma CaptureKeepsTombstones(s: Stream, ref: GrantRef, input: CaptureInput)
    requires CaptureDecision(s, ref, input).Success?
    ensures TombstonesKept(s, CaptureDecision(s, ref, input).value)
  {
    hide AuthorizingGrant, Ineligible, InsertItem, Item.Shaped;
    var g := AuthorizingGrant(s, ref, input.capturedAt).value;
    InsertKeepsTombstones(s.(minted := s.minted + 1), CapturedItem(s, FreshItem(s), g, ref, input));
  }

  lemma ReviseKeepsTombstones(s: Stream, itemId: Id, relation: Relation, input: CaptureInput)
    requires ReviseDecision(s, itemId, relation, input).Success?
    ensures TombstonesKept(s, ReviseDecision(s, itemId, relation, input).value)
  {
    hide AuthorizingGrant, Ineligible, InsertItem, Item.Shaped, CurrentItem;
    var current := CurrentItem(s, itemId).value;
    var g := AuthorizingGrant(s, current.consent, input.capturedAt).value;
    InsertKeepsTombstones(s, RevisedItem(current, g, relation, input));
  }

  lemma DeleteScopeKeepsTombstones(s: Stream, grantId: Id, reason: Reason, at: Instant)
    requires RecordsInv(s.records, s.tombstones) && DeleteScope(s, grantId, reason, at).Success?
    ensures TombstonesKept(s, DeleteScope(s, grantId, reason, at).value)
  {
    hide RecordsInv, CurrentGrant, EnqueueScopeDelete;
    ScopeDeleteKeepsTombstones(s, CurrentGrant(s, grantId).value, reason, at);
  }

  lemma RestartKeepsTombstones(s: Stream)
    requires Inv(s) && BeginGeneration(s).Success?
    ensures TombstonesKept(s, BeginGeneration(s).value)
  {
    hide Inv, CoreInv, BeginGeneration, Describes, DescribesDead, DescribesLive, Bodies;
    assert CoreInv(s) by { InvIsCore(s); }
    var consents, deletions := BeginGenerationRestates(s);
  }

  lemma InvIsCore(s: Stream)
    requires Inv(s)
    ensures CoreInv(s)
  {
  }

  /**
   A tombstoned item stays tombstoned, through the same revision, and never becomes live again,
   whatever calls follow.
   */
  lemma {:induction false} TombstonesAreFinal(s: Stream, calls: seq<Call>, i: Id)
    requires Inv(s) && i in s.tombstones
    ensures i in Run(s, calls).tombstones && i !in LiveItems(Run(s, calls))
    ensures Run(s, calls).tombstones[i].deleteThroughRevision
            == s.tombstones[i].deleteThroughRevision
  {
    RunKeepsInv(s, calls);
    if calls != [] {
      var front, last := calls[..|calls| - 1], calls[|calls| - 1];
      TombstonesAreFinal(s, front, i);
      RunKeepsInv(s, front);
      hide Inv, Step, LiveItems;
      StepKeepsTombstones(Run(s, front), last);
    }
    TombstonedIsNotLive(Run(s, calls), i);
  }

  lemma TombstonedIsNotLive(s: Stream, i: Id)
    requires Inv(s) && i in s.tombstones
    ensures i !in LiveItems(s)
  {
  }

  lemma InsertStores(s: Stream, item: Item)
    requires InsertItem(s, item).Success? && item.Valid()
    ensures var s' := InsertItem(s, item).value;
            && item.Key() in s'.records && s'.records[item.Key()] == Record(item, true)
            && s'.data.next == s.data.next + 1
            && s.data.next in s'.data.rows && s'.data.rows[s.data.next].op.body == PutBody(item)
  {
    hide CurrentItem, Item.Valid, Operation.Valid;
  }

  lemma InsertedIsValid(s: Stream, item: Item)
    requires InsertItem(s, item).Success?
    ensures item.Valid()
  {
    hide CurrentItem, Item.Valid, Inserted;
  }

  lemma RevisionsStartAtOne(records: map<ItemKey, Record>, k: ItemKey)
    requires ItemsInv(records) && k in records
    ensures 1 <= k.revision
  {
    ItemAtKey(records, k);
  }

  // ---- Acknowledgement ----

  function Larger(a: int, b: int): int {
    if a < b then b else a
  }

  lemma AcceptCursor(log: LaneLog, through: int, at: Instant)
    requires Dense(log) && -1 <= log.acknowledged < log.next
    ensures Accept(log, through, at).Success? <==> through < log.next
    ensures Accept(log, through, at).Failure? ==>
              Accept(log, through, at).error == AheadOfOutbox
    ensures Accept(log, through, at).Success? ==>
              var log' := Accept(log, through, at).value;
              && log'.acknowledged == Larger(log.acknowledged, through)
              && log'.next == log.next && log'.rows.Keys == log.rows.Keys
  {
  }

  lemma RefuseCursor(log: LaneLog, lane: LaneId, position: int, code: string, at: Instant)
    ensures Refuse(log, lane, position, code, at).Success? <==> position in log.rows
    ensures Refuse(log, lane, position, code, at).Failure? ==>
              Refuse(log, lane, position, code, at).error == RejectionOfUnknownPosition
    ensures position in log.rows ==>
              var log' := Refuse(log, lane, position, code, at).value;
              && position in log'.rows
              && log'.rows[position].refused == Some(Refusal(at, code))
              && log'.acknowledged == if lane == Data && position == log.acknowledged + 1
                                      then position else log.acknowledged
  {
  }

  /** Counting the rows up to a position finds a gap exactly when one is there. */
  lemma GapIffCountShort(log: LaneLog, through: int)
    requires log.acknowledged < through
    ensures |set p | p in log.rows && log.acknowledged < p <= through| == through - log.acknowledged
            <==> !(exists p :: log.acknowledged < p <= through && p !in log.rows)
  {
    var present := set p | p in log.rows && log.acknowledged < p <= through;
    var all := Interval(log.acknowledged, through);
    SubsetSize(present, all);
    if present == all {
      forall p | log.acknowledged < p <= through ensures p in log.rows {
        assert p in all;
      }
    } else {
      var p := Member(all - present);
      assert p !in log.rows;
    }
  }

  predicate Refuses(ack: Ack) {
    ack.rejection.Some? && !ack.rejection.value.retryable
  }

  /** Exactly which acknowledgements a stream applies; the history-gap check never fires. */
  lemma AcknowledgeAppliesIff(s: Stream, ack: Ack, at: Instant)
    requires Inv(s)
    ensures Acknowledge(s, ack, at).Success? <==>
            && ack.Valid() && ack.generation == s.generation
            && ack.acceptedThrough < s.Log(ack.lane).next
            && (Refuses(ack) ==> ack.rejection.value.position < s.Log(ack.lane).next)
    ensures Acknowledge(s, ack, at) != Failure(LocalHistoryGap)
  {
    InvLogs(s);
    var log := s.Log(ack.lane);
    hide Inv, Chained, Accept, Refuse, Ack.Valid;
    AcceptCursor(log, ack.acceptedThrough, at);
    if Refuses(ack) && Accept(log, ack.acceptedThrough, at).Success? {
      RefuseCursor(Accept(log, ack.acceptedThrough, at).value, ack.lane,
                   ack.rejection.value.position, ack.rejection.value.code, at);
    }
  }

  /** A lane's cursor after an acknowledgement that leaves it as `log'`. */
  ghost predicate CursorFollows(log: LaneLog, log': LaneLog, ack: Ack, at: Instant) {
    var accepted := Larger(log.acknowledged, ack.acceptedThrough);
    if ack.lane == Data && Refuses(ack) && ack.rejection.value.position == accepted + 1
    then
      && log'.acknowledged == accepted + 1 && accepted + 1 in log'.rows
      && log'.rows[accepted + 1].refused == Some(Refusal(at, ack.rejection.value.code))
    else
      log'.acknowledged == accepted
  }

  lemma AcknowledgedLogCursor(s: Stream, ack: Ack, at: Instant)
    requires Dense(s.Log(ack.lane))
    requires -1 <= s.Log(ack.lane).acknowledged < s.Log(ack.lane).next
    requires AcknowledgedLog(s, ack, at).Success?
    ensures CursorFollows(s.Log(ack.lane), AcknowledgedLog(s, ack, at).value, ack, at)
  {
    var log := s.Log(ack.lane);
    hide Accept, Refuse, Dense;
    AcceptCursor(log, ack.acceptedThrough, at);
    if Refuses(ack) {
      RefuseCursor(Accept(log, ack.acceptedThrough, at).value, ack.lane,
                   ack.rejection.value.position, ack.rejection.value.code, at);
    }
  }

  /**
   The cursor an applied acknowledgement leaves: what was accepted if that is further on, and on the
   data lane one more when it refuses exactly the next operation. The other lane does not move.
   */
  lemma AcknowledgedCursor(s: Stream, ack: Ack, at: Instant)
    requires Inv(s) && Acknowledge(s, ack, at).Success?
    ensures CursorFollows(s.Log(ack.lane), Acknowledge(s, ack, at).value.Log(ack.lane), ack, at)
    ensures forall lane :: lane != ack.lane ==>
              Acknowledge(s, ack, at).value.Log(lane) == s.Log(lane)
    ensures Acknowledge(s, ack, at).value.generation == s.generation
  {
    hide Inv, AcknowledgedLog, Ack.Valid, Dense, CursorFollows;
    CursorInRange(s, ack.lane);
    AcknowledgedLogCursor(s, ack, at);
  }

  lemma CursorInRange(s: Stream, lane: LaneId)
    requires Inv(s)
    ensures Dense(s.Log(lane)) && -1 <= s.Log(lane).acknowledged < s.Log(lane).next
  {
    hide Inv;
    InvLogs(s);
  }

  lemma ControlCursorAfterAck(s: Stream, ack: Ack, at: Instant)
    requires Inv(s) && Acknowledge(s, ack, at).Success?
    ensures Acknowledge(s, ack, at).value.control.acknowledged
            == if ack.lane == Control then Larger(s.control.acknowledged, ack.acceptedThrough)
               else s.control.acknowledged
  {
    hide Inv, Acknowledge;
    AcknowledgedCursor(s, ack, at);
    var s' := Acknowledge(s, ack, at).value;
    assert s'.control == s'.Log(Control) && s.control == s.Log(Control);
  }

  ghost predicate NamesKept(s: Stream, s': Stream) {
    && s'.streamId == s.streamId && s'.replicaId == s.replicaId
    && s'.destinationId == s.destinationId
  }

  /** The names, the generation and both cursors are as they were. */
  ghost predicate CursorsKept(s: Stream, s': Stream) {
    && NamesKept(s, s')
    && s'.generation == s.generation
    && s'.control.acknowledged == s.control.acknowledged
    && s'.data.acknowledged == s.data.acknowledged
  }

  lemma EnqueueKeepsCursors(s: Stream, lane: LaneId, body: Body)
    requires Enqueue(s, lane, body).Success?
    ensures CursorsKept(s, Enqueue(s, lane, body).value)
  {
    hide Operation.Valid;
  }

  lemma BuryKeepsCursors(s: Stream, doomed: set<Id>, reason: Reason, at: Instant)
    requires forall i :: i in doomed ==> LiveRevisions(s, i) != {}
    ensures CursorsKept(s, Bury(s, doomed, reason, at))
  {
  }

  lemma ScopeDeleteKeepsCursors(s: Stream, g: Grant, reason: Reason, at: Instant)
    requires EnqueueScopeDelete(s, g, reason, at).Success?
    ensures CursorsKept(s, EnqueueScopeDelete(s, g, reason, at).value)
  {
    hide LiveRevisions, Enqueue, Bury;
    var doomed := ItemsInScope(s, g.scope);
    forall i | i in doomed ensures LiveRevisions(s, i) != {} { LiveHaveRevisions(s, i); }
    var s1 := Bury(s, doomed, reason, at);
    BuryKeepsCursors(s, doomed, reason, at);
    EnqueueKeepsCursors(s1, Control,
                        ScopeDelete(g.Ref(), g.scope, s1.data.next - 1, reason, at));
  }

  lemma RevokeKeepsCursors(s: Stream, grantId: Id, at: Instant)
    requires RevokeConsent(s, grantId, at).Success?
    ensures CursorsKept(s, RevokeConsent(s, grantId, at).value)
  {
    hide Enqueue, EnqueueScopeDelete, CurrentGrant, Grant.Valid;
    var g := CurrentGrant(s, grantId).value;
    if g.status == Active {
      var revoked := RevokedGrant(g, at);
      EnqueueKeepsCursors(WithGrant(s, revoked), Control, ConsentRevoke(revoked));
      var s1 := Enqueue(WithGrant(s, revoked), Control, ConsentRevoke(revoked)).value;
      ScopeDeleteKeepsCursors(s1, revoked, ConsentWithdrawn, at);
    }
  }

  lemma DeleteItemKeepsCursors(s: Stream, itemId: Id, reason: Reason, at: Instant)
    requires DeleteItem(s, itemId, reason, at).Success?
    ensures CursorsKept(s, DeleteItem(s, itemId, reason, at).value)
  {
    hide Enqueue, Bury;
    if LiveRevisions(s, itemId) != {} {
      var item := CurrentItem(s, itemId).value;
      BuryKeepsCursors(s, {itemId}, reason, at);
      EnqueueKeepsCursors(Bury(s, {itemId}, reason, at), Control,
        ItemDelete(item.consent, item.scope, itemId, item.revision, reason, at));
    }
  }

  lemma InsertKeepsCursors(s: Stream, item: Item)
    requires InsertItem(s, item).Success?
    ensures CursorsKept(s, InsertItem(s, item).value)
  {
    hide CurrentItem, Enqueue;
    EnqueueKeepsCursors(Inserted(s, item), Data, PutBody(item));
  }

  lemma CaptureKeepsCursors(s: Stream, ref: GrantRef, input: CaptureInput)
    requires CaptureDecision(s, ref, input).Success?
    ensures CursorsKept(s, CaptureDecision(s, ref, input).value)
  {
    hide AuthorizingGrant, Ineligible, InsertItem, Item.Shaped;
    var g := AuthorizingGrant(s, ref, input.capturedAt).value;
    InsertKeepsCursors(s.(minted := s.minted + 1), CapturedItem(s, FreshItem(s), g, ref, input));
  }

  lemma ReviseKeepsCursors(s: Stream, itemId: Id, relation: Relation, input: CaptureInput)
    requires ReviseDecision(s, itemId, relation, input).Success?
    ensures CursorsKept(s, ReviseDecision(s, itemId, relation, input).value)
  {
    hide AuthorizingGrant, Ineligible, InsertItem, Item.Shaped, CurrentItem;
    var current := CurrentItem(s, itemId).value;
    var g := AuthorizingGrant(s, current.consent, input.capturedAt).value;
    InsertKeepsCursors(s, RevisedItem(current, g, relation, input));
  }

  lemma GrantKeepsCursors(s: Stream, g: Grant)
    requires GrantConsent(s, g).Success?
    ensures CursorsKept(s, GrantConsent(s, g).value)
  {
    hide CurrentGrant, Enqueue, Grant.Valid;
    EnqueueKeepsCursors(WithGrant(s, g), Control, ConsentPut(g));
  }

  lemma DeleteScopeKeepsCursors(s: Stream, grantId: Id, reason: Reason, at: Instant)
    requires DeleteScope(s, grantId, reason, at).Success?
    ensures CursorsKept(s, DeleteScope(s, grantId, reason, at).value)
  {
    hide CurrentGrant, EnqueueScopeDelete;
    ScopeDeleteKeepsCursors(s, CurrentGrant(s, grantId).value, reason, at);
  }

  lemma ReceiptKeepsCursors(s: Stream, receipt: DeletionReceipt)
    requires RecordDeletionReceipt(s, receipt).Success?
    ensures CursorsKept(s, RecordDeletionReceipt(s, receipt).value)
  {
    hide OperationsNamed;
  }

  /** Only acknowledgements and restarts move a cursor. */
  lemma CursorsMoveOnlyByAck(s: Stream, call: Call)
    requires !call.Acknowledges? && !call.Restarts?
    ensures CursorsKept(s, Step(s, call))
  {
    hide GrantConsent, RevokeConsent, CaptureDecision, ReviseDecision, DeleteItem, DeleteScope,
      BeginGeneration, Acknowledge, RecordDeletionReceipt;
    if Perform(s, call).Success? {
      match call
      case Grants(g) => GrantKeepsCursors(s, g);
      case Revokes(grantId, at) => RevokeKeepsCursors(s, grantId, at);
      case Captures(ref, input) => CaptureKeepsCursors(s, ref, input);
      case Revises(itemId, relation, input) => ReviseKeepsCursors(s, itemId, relation, input);
      case DeletesItem(itemId, reason, at) => DeleteItemKeepsCursors(s, itemId, reason, at);
      case DeletesScope(grantId, reason, at) => DeleteScopeKeepsCursors(s, grantId, reason, at);
      case Receipts(receipt) => ReceiptKeepsCursors(s, receipt);
    }
  }

  /**
   The furthest operation the destination ever confirmed on the control lane in this generation,
   read off the calls alone: applied control acknowledgements since the last restart.
   */
  ghost function Confirmed(s: Stream, calls: seq<Call>): int {
    if calls == [] then s.control.acknowledged
    else
      var front, last := calls[..|calls| - 1], calls[|calls| - 1];
      var before := Confirmed(s, front);
      match last
      case Restarts => -1
      case Acknowledges(ack, at) =>
        if ack.lane == Control && Acknowledge(Run(s, front), ack, at).Success?
        then Larger(before, ack.acceptedThrough) else before
      case _ => before
  }

  /**
   The control cursor is exactly the furthest operation the destination accepted: no refusal,
   stale confirmation or other call ever moves it.
   */
  lemma {:induction false} ControlCursorIsConfirmed(s: Stream, calls: seq<Call>)
    requires Inv(s)
    ensures Run(s, calls).control.acknowledged == Confirmed(s, calls)
  {
    if calls != [] {
      var front, last := calls[..|calls| - 1], calls[|calls| - 1];
      ControlCursorIsConfirmed(s, front);
      RunKeepsInv(s, front);
      var before := Run(s, front);
      hide Inv, Acknowledge, BeginGeneration;
      match last
      case Restarts =>
        RestartResetsCursors(before);
      case Acknowledges(ack, at) =>
        if Acknowledge(before, ack, at).Success? {
          ControlCursorAfterAck(before, ack, at);
        }
      case _ =>
        CursorsMoveOnlyByAck(before, last);
    }
  }

  lemma RestartResetsCursors(s: Stream)
    requires Inv(s)
    ensures BeginGeneration(s).Success?
    ensures BeginGeneration(s).value.control.acknowledged == -1
    ensures BeginGeneration(s).value.data.acknowledged == -1
  {
    hide CoreInv, BeginGeneration, Describes, DescribesDead, DescribesLive, Bodies;
    var consents, deletions := BeginGenerationRestates(s);
  }

  /** Within a generation no call moves a cursor backwards or past the end of its lane. */
  lemma CursorsAdvance(s: Stream, call: Call, lane: LaneId)
    requires Inv(s)
    ensures -1 <= Step(s, call).Log(lane).acknowledged < Step(s, call).Log(lane).next
    ensures Step(s, call).generation == s.generation ==>
              s.Log(lane).acknowledged <= Step(s, call).Log(lane).acknowledged
  {
    hide Inv, Acknowledge, BeginGeneration, Chained, Dense;
    StepKeepsInv(s, call);
    InvLogs(Step(s, call));
    match call
    case Restarts =>
      RestartAdvancesGeneration(s);
    case Acknowledges(ack, at) =>
      if Acknowledge(s, ack, at).Success? {
        AcknowledgedCursor(s, ack, at);
      }
    case _ =>
      CursorsMoveOnlyByAck(s, call);
  }

  lemma RestartAdvancesGeneration(s: Stream)
    requires Inv(s)
    ensures BeginGeneration(s).Success? && BeginGeneration(s).value.generation == s.generation + 1
  {
    hide CoreInv, BeginGeneration, Describes, DescribesDead, DescribesLive, Bodies;
    var consents, deletions := BeginGenerationRestates(s);
  }

  /** No call renames a stream, its replica or its destination. */
  lemma StepKeepsNames(s: Stream, call: Call)
    requires Inv(s)
    ensures NamesKept(s, Step(s, call))
  {
    hide Inv, Acknowledge, BeginGeneration;
    match call
    case Restarts =>
      RestartKeepsNames(s);
    case Acknowledges(ack, at) =>
      if Acknowledge(s, ack, at).Success? {
        AcknowledgeKeepsInv(s, ack, at);
      }
    case _ =>
      CursorsMoveOnlyByAck(s, call);
  }

  lemma RestartKeepsNames(s: Stream)
    requires Inv(s)
    ensures BeginGeneration(s).Success? && NamesKept(s, BeginGeneration(s).value)
  {
    hide CoreInv, BeginGeneration, Describes, DescribesDead, DescribesLive, Bodies;
    var consents, deletions := BeginGenerationRestates(s);
  }
}
