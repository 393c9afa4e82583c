/**
 The outbox itself: transactions that update the tables of one stream in place, and roll them back
 when any step of the transaction throws.
 */
module Outbox {
  import opened Wrappers
  import opened IntSets
  import opened SyncWire
  import opened OutboxModel
  import opened OutboxInvariant
  import opened OutboxGeneration
  import opened OutboxRuns
  import opened OutboxBatch
  import opened OutboxListing

  /** The tables after a transaction on one stream: its outcome, or nothing at all. */
  ghost predicate Committed(before: map<Id, Stream>, after: map<Id, Stream>, id: Id,
                            outcome: Result<Stream, Error>)
    requires id in before
  {
    after == if outcome.Success? then before[id := outcome.value] else before
  }

  /** What a call reports: the error its transaction met, or a value. */
  ghost predicate Reports<T>(r: Result<T, Error>, outcome: Result<Stream, Error>) {
    && (r.Success? <==> outcome.Success?)
    && (r.Failure? ==> r.error == outcome.error)
  }

  // ---- Burying row by row ----

  /** Clears one item's current flag and upserts its tombstone. */
  function BuryOne(s: Stream, itemId: Id, revision: int, reason: Reason, at: Instant): Stream {
    s.(records := map k | k in s.records ::
                    if k.itemId == itemId then s.records[k].(current := false) else s.records[k],
       tombstones := s.tombstones[itemId := Buried(s, itemId, revision, reason, at)])
  }

  lemma BuryOneMore(s: Stream, doomed: set<Id>, i: Id, reason: Reason, at: Instant)
    requires forall i :: i in doomed ==> LiveRevisions(s, i) != {}
    requires LiveRevisions(s, i) != {} && i !in doomed
    ensures Bury(s, doomed + {i}, reason, at)
            == BuryOne(Bury(s, doomed, reason, at), i, MaxOf(LiveRevisions(s, i)), reason, at)
  {
    hide LiveRevisions;
    var a := Bury(s, doomed + {i}, reason, at);
    var b := BuryOne(Bury(s, doomed, reason, at), i, MaxOf(LiveRevisions(s, i)), reason, at);
    assert a.records == b.records;
    assert a.tombstones == b.tombstones;
  }

  lemma BuryNone(s: Stream, reason: Reason, at: Instant)
    ensures Bury(s, {}, reason, at) == s
  {
    assert Bury(s, {}, reason, at).records == s.records;
    assert Bury(s, {}, reason, at).tombstones == s.tombstones;
  }

  /** The items of a scope among the first rows of a listing. */
  function Chosen(s: Stream, scope: Scope, rows: seq<Id>): set<Id> {
    set i | i in rows && i in ItemsInScope(s, scope)
  }

  lemma ChosenHaveRevisions(s: Stream, scope: Scope, rows: seq<Id>)
    ensures forall i :: i in Chosen(s, scope, rows) ==> LiveRevisions(s, i) != {}
  {
    forall i | i in Chosen(s, scope, rows) ensures LiveRevisions(s, i) != {} {
      assert i in LiveItems(s);
      LiveHaveRevisions(s, i);
    }
  }

  lemma ChosenOneMore(s: Stream, scope: Scope, rows: seq<Id>, n: int)
    requires 0 <= n < |rows| && forall i, j :: 0 <= i < j < |rows| ==> rows[i] < rows[j]
    ensures rows[n] !in Chosen(s, scope, rows[..n])
    ensures Chosen(s, scope, rows[..n + 1])
            == if rows[n] in ItemsInScope(s, scope)
               then Chosen(s, scope, rows[..n]) + {rows[n]} else Chosen(s, scope, rows[..n])
  {
    assert rows[..n + 1] == rows[..n] + [rows[n]];
  }

  lemma InScopeIffItemIs(s: Stream, scope: Scope, i: Id)
    requires RecordsInv(s.records, s.tombstones) && i in LiveItems(s)
    ensures LiveRevisions(s, i) != {} && CurrentItem(s, i).Some?
    ensures CurrentItem(s, i).value.revision == MaxOf(LiveRevisions(s, i))
    ensures i in ItemsInScope(s, scope) <==> CurrentItem(s, i).value.scope == scope
  {
    LiveHaveRevisions(s, i);
    var k := LiveItemFound(s, i);
    ItemAtKey(s.records, k);
    assert MaxOf(LiveRevisions(s, i)) in LiveRevisions(s, i);
    if i in ItemsInScope(s, scope) {
      var l :| l in s.records && s.records[l].current && s.records[l].item.scope == scope
               && l.itemId == i;
      CurrentItemIsLive(s, l);
    }
  }

  /** The tables once the first rows of a listing were walked. */
  function Walked(s: Stream, scope: Scope, rows: seq<Id>, reason: Reason, at: Instant): Stream {
    ChosenHaveRevisions(s, scope, rows);
    Bury(s, Chosen(s, scope, rows), reason, at)
  }

  lemma WalkOne(s: Stream, scope: Scope, rows: seq<Id>, n: int, reason: Reason, at: Instant)
    requires RecordsInv(s.records, s.tombstones)
    requires rows == Ascending(LiveItems(s)) && 0 <= n < |rows|
    ensures CurrentItem(s, rows[n]).Some?
    ensures var item := CurrentItem(s, rows[n]).value;
            var walked := Walked(s, scope, rows[..n], reason, at);
            && Walked(s, scope, rows[..n + 1], reason, at)
               == (if item.scope == scope
                   then BuryOne(walked, rows[n], item.revision, reason, at) else walked)
            && |Chosen(s, scope, rows[..n + 1])|
               == |Chosen(s, scope, rows[..n])| + if item.scope == scope then 1 else 0
  {
    hide ItemsInv, PartitionInv, LiveRevisions, Bury, BuryOne, ItemsInScope, CurrentItem;
    assert rows[n] in rows;
    InScopeIffItemIs(s, scope, rows[n]);
    ChosenOneMore(s, scope, rows, n);
    ChosenHaveRevisions(s, scope, rows[..n]);
    hide Chosen, RecordsInv;
    if rows[n] in ItemsInScope(s, scope) {
      BuryOneMore(s, Chosen(s, scope, rows[..n]), rows[n], reason, at);
    }
  }

  lemma WalkNone(s: Stream, scope: Scope, reason: Reason, at: Instant)
    ensures Walked(s, scope, [], reason, at) == s && Chosen(s, scope, []) == {}
  {
    assert Chosen(s, scope, []) == {};
    BuryNone(s, reason, at);
  }

  lemma AllWalked(s: Stream, scope: Scope, reason: Reason, at: Instant)
    ensures var rows := Ascending(LiveItems(s));
            && Chosen(s, scope, rows) == ItemsInScope(s, scope)
            && (forall i :: i in ItemsInScope(s, scope) ==> LiveRevisions(s, i) != {})
            && Walked(s, scope, rows, reason, at) == Bury(s, ItemsInScope(s, scope), reason, at)
  {
    hide Bury, LiveRevisions;
    var rows := Ascending(LiveItems(s));
    forall i | i in ItemsInScope(s, scope) ensures i in rows {
      assert i in LiveItems(s);
    }
    assert Chosen(s, scope, rows) == ItemsInScope(s, scope);
    ChosenHaveRevisions(s, scope, rows);
  }

  lemma ScopeDeleteAfterWalk(s: Stream, g: Grant, reason: Reason, at: Instant)
    ensures var walked := Walked(s, g.scope, Ascending(LiveItems(s)), reason, at);
            OutboxModel.EnqueueScopeDelete(s, g, reason, at)
            == OutboxModel.Enqueue(walked, Control,
                 ScopeDelete(g.Ref(), g.scope, walked.data.next - 1, reason, at))
  {
    hide ItemsInScope, Bury, LiveItems, LiveRevisions, Walked, OutboxModel.Enqueue, Chosen;
    AllWalked(s, g.scope, reason, at);
  }

  /**
   Every stream is what some sequence of calls makes of a new one, and keeps the invariant; there is
   one stream per destination, and one replica.
   */
  ghost predicate TablesValid(streams: map<Id, Stream>, replica: Option<Id>, minted: nat) {
    && (forall id :: id in streams ==> StreamValid(streams[id], id, replica, minted))
    && (forall id, other :: id in streams && other in streams && id != other ==>
          streams[id].destinationId != streams[other].destinationId)
  }

  ghost predicate StreamValid(s: Stream, id: Id, replica: Option<Id>, minted: nat) {
    && s.streamId == id && id < minted && replica == Some(s.replicaId)
    && Inv(s) && Reachable(s)
  }

  /** A call on one stream keeps the tables valid. */
  lemma CommitKeepsValid(before: map<Id, Stream>, after: map<Id, Stream>, replica: Option<Id>,
                         minted: nat, id: Id, call: Call)
    requires TablesValid(before, replica, minted) && id in before
    requires Committed(before, after, id, Perform(before[id], call))
    ensures TablesValid(after, replica, minted)
  {
    hide Inv, NamesKept, Perform, Reachable;
    assert StreamValid(before[id], id, replica, minted);
    CallKeepsStream(before[id], id, replica, minted, call);
    assert after == before[id := Step(before[id], call)];
    hide StreamValid, Step;
  }

  lemma CallKeepsStream(s: Stream, id: Id, replica: Option<Id>, minted: nat, call: Call)
    requires StreamValid(s, id, replica, minted)
    ensures StreamValid(Step(s, call), id, replica, minted)
    ensures Step(s, call).destinationId == s.destinationId
  {
    hide Inv, Step, Reachable;
    StepKeepsInv(s, call);
    StepStaysReachable(s, call);
    StepKeepsNames(s, call);
  }

  /** A new stream under an unused name and destination keeps the tables valid. */
  lemma NewStreamKeepsValid(before: map<Id, Stream>, replica: Option<Id>, minted: nat, id: Id,
                            replicaId: Id, destinationId: Id, minted': nat)
    requires TablesValid(before, replica, minted)
    requires minted == id < minted' && (replica.Some? ==> replica == Some(replicaId))
    requires forall other :: other in before ==> before[other].destinationId != destinationId
    ensures id !in before
    ensures TablesValid(before[id := NewStream(id, replicaId, destinationId)], Some(replicaId), minted')
  {
    hide Inv, Reachable;
    NewStreamInv(id, replicaId, destinationId);
    NewStreamIsReachable(id, replicaId, destinationId);
    assert forall other :: other in before ==> StreamValid(before[other], other, replica, minted);
    var after := before[id := NewStream(id, replicaId, destinationId)];
    forall other | other in after
      ensures StreamValid(after[other], other, Some(replicaId), minted')
    {
    }
  }

  datatype Regeneration = Regeneration(generation: nat, operations: nat)

  class SyncOutbox {
    /** The replica's own identity, drawn when the first stream is created. */
    var replica: Option<Id>
    var streams: map<Id, Stream>
    /** How many stream and replica identifiers have been drawn. */
    var minted: nat

    ghost predicate Valid()
      reads this
    {
      TablesValid(streams, replica, minted)
    }

    constructor ()
      ensures Valid() && streams == map[] && replica == None
    {
      replica := None;
      streams := map[];
      minted := 0;
    }

    /** The stream for a destination: the existing one, or a new empty one under a fresh name. */
    method CreateStream(destinationId: Id) returns (id: Id)
      requires Valid()
      modifies this
      ensures Valid()
      ensures id in streams && streams[id].destinationId == destinationId
      ensures id in old(streams) ==> streams == old(streams) && replica == old(replica)
      ensures id !in old(streams) ==>
                && (forall other :: other in old(streams) ==>
                      old(streams)[other].destinationId != destinationId)
                && streams == old(streams)[id := NewStream(id, streams[id].replicaId, destinationId)]
      ensures old(replica).Some? ==> replica == old(replica)
    {
      hide TablesValid;
      if existing :| existing in streams && streams[existing].destinationId == destinationId {
        return existing;
      }
      id := minted;
      minted := minted + 1;
      if replica.None? {
        replica := Some(minted);
        minted := minted + 1;
      }
      NewStreamKeepsValid(streams, old(replica), id, id, replica.value, destinationId, minted);
      streams := streams[id := NewStream(id, replica.value, destinationId)];
    }

    /** Seals an operation and appends it to its lane. */
    method Enqueue(id: Id, lane: LaneId, body: Body) returns (r: Result<OperationId, Error>)
      requires id in streams
      modifies this`streams
      ensures Committed(old(streams), streams, id,
                        OutboxModel.Enqueue(old(streams)[id], lane, body))
      ensures Reports(r, OutboxModel.Enqueue(old(streams)[id], lane, body))
      ensures r.Success? ==> r.value == streams[id].Log(lane).previous.value
    {
      var s := streams[id];
      var log := s.Log(lane);
      var operationId := OperationId(s.streamId, s.minted);
      var op := Operation(s.streamId, s.replicaId, s.generation, lane, log.next, operationId,
                          log.previous, body, Unsealed);
      if !op.Valid() {
        return Failure(InvalidOperation);
      }
      op := op.(digest := op.DigestBody());
      log := log.(rows := log.rows[log.next := Row(op, None, None)]);
      log := log.(next := log.next + 1, previous := Some(operationId));
      streams := streams[id := s.WithLog(lane, log).(minted := s.minted + 1)];
      r := Success(operationId);
    }

    method GrantConsent(id: Id, g: Grant) returns (r: Result<Grant, Error>)
      requires Valid()
      modifies this`streams
      ensures Valid()
      ensures id !in old(streams) ==> r.Failure? && streams == old(streams)
      ensures id in old(streams) ==>
                var outcome := OutboxModel.GrantConsent(old(streams)[id], g);
                Committed(old(streams), streams, id, outcome) && Reports(r, outcome)
      ensures r.Success? ==> r.value == g
    {
      hide TablesValid, CurrentGrant, Grant.Valid, OutboxModel.Enqueue;
      if !g.Valid() { return Failure(InvalidGrant); }
      if g.status != Active { return Failure(NewGrantMustBeActive); }
      if g.allowedKinds != [Decision] { return Failure(KindsNotSupported); }
      if !SupportedPolicies(g) { return Failure(PolicyNotSupported); }
      if id !in streams { return Failure(UnknownStream); }
      if g.destinationId != streams[id].destinationId { return Failure(DestinationMismatch); }
      var previous := CurrentGrant(streams[id], g.grantId);
      if previous.Some? && g.revision != previous.value.revision + 1 {
        return Failure(RevisionMustAdvance);
      }
      if previous.None? && g.revision != 1 { return Failure(RevisionMustAdvance); }
      if previous.Some? && g.scope != previous.value.scope { return Failure(ScopeCannotChange); }
      if previous.Some? && g.purpose != previous.value.purpose {
        return Failure(PurposeCannotChange);
      }
      var saved := streams;
      var s := streams[id];
      streams := streams[id := s.(consent := s.consent[g.Ref() := g])];
      var enqueued := Enqueue(id, Control, ConsentPut(g));
      if enqueued.Failure? {
        streams := saved;
        return Failure(enqueued.error);
      }
      CommitKeepsValid(saved, streams, replica, minted, id, Grants(g));
      r := Success(g);
    }

    /**
     Tombstones every live item in the grant's scope, row by row, and enqueues one fenced deletion.
     Runs inside a caller's transaction, so a failure leaves the rollback to the caller.
     */
    method EnqueueScopeDelete(id: Id, g: Grant, reason: Reason, at: Instant)
      returns (r: Result<nat, Error>)
      requires id in streams && RecordsInv(streams[id].records, streams[id].tombstones)
      modifies this`streams
      ensures Reports(r, OutboxModel.EnqueueScopeDelete(old(streams)[id], g, reason, at))
      ensures r.Success? ==>
                && Committed(old(streams), streams, id,
                             OutboxModel.EnqueueScopeDelete(old(streams)[id], g, reason, at))
                && r.value == |ItemsInScope(old(streams)[id], g.scope)|
    {
      hide RecordsInv, LiveRevisions, Bury, BuryOne, Walked, OutboxModel.Enqueue,
        OutboxModel.EnqueueScopeDelete, ItemsInScope, CurrentItem, LiveItems, Chosen, Ascending;
      ghost var before := streams;
      var s := streams[id];
      var rows := Ascending(LiveItems(s));
      var tombstoned: nat := 0;
      WalkNone(s, g.scope, reason, at);
      assert rows[..0] == [];
      for n := 0 to |rows|
        invariant streams == before[id := Walked(s, g.scope, rows[..n], reason, at)]
        invariant tombstoned == |Chosen(s, g.scope, rows[..n])|
      {
        WalkOne(s, g.scope, rows, n, reason, at);
        var item := CurrentItem(s, rows[n]).value;
        if item.scope == g.scope {
          streams := streams[id := BuryOne(streams[id], rows[n], item.revision, reason, at)];
          tombstoned := tombstoned + 1;
        }
      }
      assert rows[..|rows|] == rows;
      AllWalked(s, g.scope, reason, at);
      ScopeDeleteAfterWalk(s, g, reason, at);
      var position := streams[id].data.next;
      var enqueued := Enqueue(id, Control, ScopeDelete(g.Ref(), g.scope, position - 1, reason, at));
      if enqueued.Failure? {
        return Failure(enqueued.error);
      }
      r := Success(tombstoned);
    }

    method RevokeConsent(id: Id, grantId: Id, at: Instant) returns (r: Result<Grant, Error>)
      requires Valid()
      modifies this`streams
      ensures Valid()
      ensures id !in old(streams) ==> r == Failure(UnknownStream) && streams == old(streams)
      ensures id in old(streams) ==>
                var outcome := OutboxModel.RevokeConsent(old(streams)[id], grantId, at);
                Committed(old(streams), streams, id, outcome) && Reports(r, outcome)
      ensures r.Success? ==> Some(r.value) == CurrentGrant(streams[id], grantId)
    {
      hide TablesValid, CurrentGrant, Grant.Valid, OutboxModel.Enqueue,
        OutboxModel.EnqueueScopeDelete, Inv, CoreInv, RecordsInv, ItemsInScope;
      if id !in streams { return Failure(UnknownStream); }
      var saved := streams;
      var s := streams[id];
      var current := CurrentGrant(s, grantId);
      if current.None? { return Failure(UnknownGrant); }
      if current.value.status == Revoked { return Success(current.value); }
      var revoked := RevokedGrant(current.value, at);
      if !revoked.Valid() { return Failure(InvalidGrant); }
      streams := streams[id := s.(consent := s.consent[revoked.Ref() := revoked])];
      var enqueued := Enqueue(id, Control, ConsentRevoke(revoked));
      if enqueued.Failure? {
        streams := saved;
        return Failure(enqueued.error);
      }
      StreamIsValid(saved, id);
      EnqueueFrame(WithGrant(s, revoked), Control, ConsentRevoke(revoked));
      var deleted := EnqueueScopeDelete(id, revoked, ConsentWithdrawn, at);
      if deleted.Failure? {
        streams := saved;
        return Failure(deleted.error);
      }
      CommitKeepsValid(saved, streams, replica, minted, id, Revokes(grantId, at));
      RevokedIsCurrent(s, grantId, at);
      r := Success(revoked);
    }

    lemma StreamIsValid(tables: map<Id, Stream>, id: Id)
      requires TablesValid(tables, replica, minted) && id in tables
      ensures Inv(tables[id]) && CoreInv(tables[id])
      ensures RecordsInv(tables[id].records, tables[id].tombstones)
      ensures tables[id].streamId == id
    {
      hide LogInv, LanesInv, ItemsInv, PartitionInv, ConsentInv, AuthorityInv, LiveConsentInv;
      assert StreamValid(tables[id], id, replica, minted);
    }

    /** An operation identifier is found in one stream only. */
    lemma OperationsHaveOneStream(id: Id, operationId: OperationId)
      requires Valid() && id in streams && OperationsNamed(streams[id], operationId) != {}
      ensures forall other :: other in streams && other != id ==>
                OperationsNamed(streams[other], operationId) == {}
    {
      hide TablesValid, OperationsNamed;
      forall other | other in streams && OperationsNamed(streams[other], operationId) != {}
        ensures other == id
      {
        StreamIsValid(streams, id);
        StreamIsValid(streams, other);
        NamedIsOwn(streams[id], operationId);
        NamedIsOwn(streams[other], operationId);
      }
    }

    /** Records an item revision and enqueues its put, inside a caller's transaction. */
    method InsertItem(id: Id, item: Item) returns (r: Result<Item, Error>)
      requires id in streams
      modifies this`streams
      ensures Reports(r, OutboxModel.InsertItem(old(streams)[id], item))
      ensures r.Success? ==>
                && Committed(old(streams), streams, id,
                             OutboxModel.InsertItem(old(streams)[id], item))
                && r.value == item
    {
      hide CurrentItem, OutboxModel.Enqueue;
      var s := streams[id];
      var current := CurrentItem(s, item.itemId);
      if current.Some? && item.revision != current.value.revision + 1 {
        return Failure(RevisionMustAdvance);
      }
      if current.None? && item.revision != 1 { return Failure(RevisionMustAdvance); }
      var cleared := map k | k in s.records ::
        if k.itemId == item.itemId then s.records[k].(current := false) else s.records[k];
      streams := streams[id := s.(records := cleared[item.Key() := Record(item, true)])];
      var enqueued := Enqueue(id, Data, ItemPut(item.consent, item));
      if enqueued.Failure? { return Failure(enqueued.error); }
      r := Success(item);
    }

    method CaptureDecision(id: Id, ref: GrantRef, input: CaptureInput)
      returns (r: Result<Item, Error>)
      requires Valid()
      modifies this`streams
      ensures Valid()
      ensures id !in old(streams) ==> r == Failure(UnknownStream) && streams == old(streams)
      ensures id in old(streams) ==>
                var outcome := OutboxModel.CaptureDecision(old(streams)[id], ref, input);
                Committed(old(streams), streams, id, outcome) && Reports(r, outcome)
      ensures r.Success? ==>
                && r.value.itemId == FreshItem(old(streams)[id]) && r.value.consent == ref
                && r.value.Key() in streams[id].records
                && streams[id].records[r.value.Key()] == Record(r.value, true)
    {
      hide TablesValid, CurrentGrant, Ineligible, Item.Shaped, OutboxModel.InsertItem;
      if id !in streams { return Failure(UnknownStream); }
      var saved := streams;
      var s := streams[id];
      var authorised := AuthorizingGrant(s, ref, input.capturedAt);
      if authorised.Failure? { return Failure(authorised.error); }
      var g := authorised.value;
      if input.evidence == [] { return Failure(EvidenceRequired); }
      var item := CapturedItem(s, FreshItem(s), g, ref, input);
      if !item.Shaped() { return Failure(InvalidItem); }
      var refused := Ineligible(g, item);
      if refused.Some? { return Failure(refused.value); }
      streams := streams[id := s.(minted := s.minted + 1)];
      r := InsertItem(id, item);
      if r.Failure? {
        streams := saved;
        return;
      }
      CommitKeepsValid(saved, streams, replica, minted, id, Captures(ref, input));
      InsertedIsValid(s.(minted := s.minted + 1), item);
      InsertStores(s.(minted := s.minted + 1), item);
    }

    method ReviseDecision(id: Id, itemId: Id, relation: Relation, input: CaptureInput)
      returns (r: Result<Item, Error>)
      requires Valid()
      modifies this`streams
      ensures Valid()
      ensures id !in old(streams) ==> r == Failure(UnknownStream) && streams == old(streams)
      ensures id in old(streams) ==>
                var outcome := OutboxModel.ReviseDecision(old(streams)[id], itemId, relation, input);
                Committed(old(streams), streams, id, outcome) && Reports(r, outcome)
      ensures r.Success? ==>
                && r.value.Key() in streams[id].records
                && streams[id].records[r.value.Key()] == Record(r.value, true)
    {
      hide TablesValid, CurrentGrant, CurrentItem, Ineligible, Item.Shaped, OutboxModel.InsertItem,
        AuthorizingGrant;
      if id !in streams { return Failure(UnknownStream); }
      var saved := streams;
      var s := streams[id];
      var current := CurrentItem(s, itemId);
      if current.None? || current.value.kind != Decision { return Failure(UnknownItem); }
      var authorised := AuthorizingGrant(s, current.value.consent, input.capturedAt);
      if authorised.Failure? { return Failure(authorised.error); }
      if input.evidence == [] { return Failure(EvidenceRequired); }
      var item := RevisedItem(current.value, authorised.value, relation, input);
      if !item.Shaped() { return Failure(InvalidItem); }
      var refused := Ineligible(authorised.value, item);
      if refused.Some? { return Failure(refused.value); }
      r := InsertItem(id, item);
      if r.Failure? {
        streams := saved;
        return;
      }
      CommitKeepsValid(saved, streams, replica, minted, id, Revises(itemId, relation, input));
      InsertedIsValid(s, item);
      InsertStores(s, item);
    }

    /** Deletes a live item; a known item that is no longer live is left alone. */
    method DeleteItem(id: Id, itemId: Id, reason: Reason, at: Instant)
      returns (r: Result<bool, Error>)
      requires Valid()
      modifies this`streams
      ensures Valid()
      ensures id !in old(streams) ==> r == Failure(UnknownStream) && streams == old(streams)
      ensures id in old(streams) ==>
                var outcome := OutboxModel.DeleteItem(old(streams)[id], itemId, reason, at);
                Committed(old(streams), streams, id, outcome) && Reports(r, outcome)
      ensures r.Success? ==> r.value == (itemId in LiveItems(old(streams)[id]))
    {
      hide TablesValid, Inv, CoreInv, RecordsInv, Bury, BuryOne, OutboxModel.Enqueue, CurrentItem,
        LiveRevisions, LiveItems;
      if id !in streams { return Failure(UnknownStream); }
      var saved := streams;
      var s := streams[id];
      StreamIsValid(saved, id);
      LiveIffCurrent(s, itemId);
      var current := CurrentItem(s, itemId);
      if current.None? { return Success(false); }
      var item := current.value;
      BuryLive(s, itemId, reason, at);
      streams := streams[id := BuryOne(s, itemId, item.revision, reason, at)];
      var enqueued := Enqueue(id, Control,
        ItemDelete(item.consent, item.scope, itemId, item.revision, reason, at));
      if enqueued.Failure? {
        streams := saved;
        return Failure(enqueued.error);
      }
      CommitKeepsValid(saved, streams, replica, minted, id, DeletesItem(itemId, reason, at));
      r := Success(true);
    }

    /** Deletes everything live in a grant's scope and says how many items that was. */
    method DeleteScope(id: Id, grantId: Id, reason: Reason, at: Instant)
      returns (r: Result<nat, Error>)
      requires Valid()
      modifies this`streams
      ensures Valid()
      ensures id !in old(streams) ==> r == Failure(UnknownStream) && streams == old(streams)
      ensures id in old(streams) ==>
                var outcome := OutboxModel.DeleteScope(old(streams)[id], grantId, reason, at);
                Committed(old(streams), streams, id, outcome) && Reports(r, outcome)
      ensures r.Success? ==>
                && CurrentGrant(old(streams)[id], grantId).Some?
                && r.value == |ItemsInScope(old(streams)[id],
                                            CurrentGrant(old(streams)[id], grantId).value.scope)|
    {
      hide TablesValid, Inv, CoreInv, RecordsInv, CurrentGrant, OutboxModel.EnqueueScopeDelete,
        ItemsInScope;
      if id !in streams { return Failure(UnknownStream); }
      var saved := streams;
      var g := CurrentGrant(streams[id], grantId);
      if g.None? { return Failure(UnknownGrant); }
      StreamIsValid(saved, id);
      r := EnqueueScopeDelete(id, g.value, reason, at);
      if r.Failure? {
        streams := saved;
        return;
      }
      CommitKeepsValid(saved, streams, replica, minted, id, DeletesScope(grantId, reason, at));
    }

    /** Enqueues every body of a listing on one lane, inside a caller's transaction. */
    method EnqueueEach(id: Id, lane: LaneId, bodies: seq<Body>) returns (r: Result<nat, Error>)
      requires id in streams
      modifies this`streams
      ensures Reports(r, EnqueueAll(old(streams)[id], lane, bodies))
      ensures r.Success? ==>
                && Committed(old(streams), streams, id, EnqueueAll(old(streams)[id], lane, bodies))
                && r.value == |bodies|
    {
      hide OutboxModel.Enqueue, EnqueueAll;
      ghost var before := streams;
      EnqueueAllNone(before[id], lane);
      var n: nat := 0;
      while n < |bodies|
        invariant n <= |bodies|
        invariant EnqueueAll(before[id], lane, bodies[..n]).Success?
        invariant streams == before[id := EnqueueAll(before[id], lane, bodies[..n]).value]
      {
        EnqueueAllOne(before[id], lane, bodies, n);
        var enqueued := Enqueue(id, lane, bodies[n]);
        if enqueued.Failure? {
          EnqueueAllFails(before[id], lane, bodies, n + 1);
          return Failure(enqueued.error);
        }
        n := n + 1;
      }
      assert bodies[..n] == bodies;
      r := Success(n);
    }

    /**
     Starts a fresh position space that re-describes everything the stream holds, with one operation
     per consent revision, live item and tombstone. `BeginGenerationRestates` shows it cannot fail.
     */
    method BeginGeneration(id: Id) returns (r: Result<Regeneration, Error>)
      requires Valid()
      modifies this`streams
      ensures Valid()
      ensures id !in old(streams) ==> r == Failure(UnknownStream) && streams == old(streams)
      ensures id in old(streams) ==>
                var s, outcome := old(streams)[id], OutboxModel.BeginGeneration(old(streams)[id]);
                && Committed(old(streams), streams, id, outcome) && Reports(r, outcome)
                && (r.Success? ==> r.value == Regeneration(
                      s.generation + 1, |s.consent| + |LiveItems(s)| + |s.tombstones|))
    {
      hide TablesValid, Inv, CoreInv, RecordsInv, EnqueueAll, OutboxModel.BeginGeneration,
        ConsentBodies, LiveItems, LiveRevisions, Joins, Ascending, JoinedTombstones;
      if id !in streams { return Failure(UnknownStream); }
      var saved := streams;
      StreamIsValid(saved, id);
      var previous := streams[id];
      RestartUnfolds(previous);
      RestartCount(previous);
      streams := streams[id := Restarted(previous)];
      var consents := EnqueueEach(id, Control, ConsentBodies(previous, Ascending(GrantIds(previous))));
      if consents.Failure? {
        streams := saved;
        return Failure(consents.error);
      }
      var puts := EnqueueEach(id, Data, PutBodies(previous, Ascending(LiveItems(previous))));
      if puts.Failure? {
        streams := saved;
        return Failure(puts.error);
      }
      var deletions := EnqueueEach(id, Control,
        DeleteBodies(previous, Ascending(JoinedTombstones(previous))));
      if deletions.Failure? {
        streams := saved;
        return Failure(deletions.error);
      }
      CommitKeepsValid(saved, streams, replica, minted, id, Restarts);
      r := Success(Regeneration(previous.generation + 1,
                                consents.value + puts.value + deletions.value));
    }

    method NextBatch(id: Id, lane: LaneId, operations: Option<int>, bytes: Option<int>,
                     size: Batch -> nat) returns (r: Result<Option<Batch>, Error>)
      requires Valid()
      ensures id !in streams ==> r == Failure(UnknownStream)
      ensures id in streams ==>
                && Dense(streams[id].Log(lane))
                && -1 <= streams[id].Log(lane).acknowledged < streams[id].Log(lane).next
                && Cut(streams[id], lane, OperationLimit(operations), ByteLimit(bytes), size, r)
    {
      hide TablesValid, Inv, CoreInv, RecordsInv, Cut, Dense;
      if id !in streams { return Failure(UnknownStream); }
      StreamIsValid(streams, id);
      r := CutBatch(streams[id], lane, operations, bytes, size);
    }

    /** Applies an acknowledgement and reports everything it said. */
    method Acknowledge(ack: Ack, at: Instant) returns (r: Result<AckResult, Error>)
      requires Valid()
      modifies this`streams
      ensures Valid()
      ensures ack.streamId !in old(streams) ==>
                && streams == old(streams)
                && r == Failure(if ack.Valid() then UnknownStream else InvalidAck)
      ensures ack.streamId in old(streams) ==>
                var outcome := OutboxModel.Acknowledge(old(streams)[ack.streamId], ack, at);
                Committed(old(streams), streams, ack.streamId, outcome) && Reports(r, outcome)
      ensures r.Success? ==>
                Reflects(old(streams)[ack.streamId].Log(ack.lane),
                         streams[ack.streamId].Log(ack.lane), ack, r.value)
    {
      hide TablesValid, Ack.Valid;
      var id := ack.streamId;
      if !ack.Valid() { return Failure(InvalidAck); }
      if id !in streams { return Failure(UnknownStream); }
      var saved := streams;
      if ack.generation != streams[id].generation { return Failure(SupersededGeneration); }
      var log := streams[id].Log(ack.lane);
      var current := log.acknowledged;
      var result := AckResult(current, None, false, false, ack.reconciliationRequired,
                              ack.retryAfterMs);
      if log.next <= ack.acceptedThrough { return Failure(AheadOfOutbox); }
      if ack.acceptedThrough < current {
        result := result.(regressed := true);
      } else if current < ack.acceptedThrough {
        var count := |set p | p in log.rows && current < p <= ack.acceptedThrough|;
        GapIffCountShort(log, ack.acceptedThrough);
        if count != ack.acceptedThrough - current { return Failure(LocalHistoryGap); }
        log := MarkedThrough(log, ack.acceptedThrough, at);
        streams := streams[id := streams[id].WithLog(ack.lane, log)];
        result := result.(acknowledgedThrough := ack.acceptedThrough);
      }
      if ack.rejection.Some? && !ack.rejection.value.retryable {
        var position, code := ack.rejection.value.position, ack.rejection.value.code;
        if position !in log.rows {
          streams := saved;
          return Failure(RejectionOfUnknownPosition);
        }
        var refused := log.rows[position].(refused := Some(Refusal(at, code)));
        log := log.(rows := log.rows[position := refused]);
        var blocking := ack.lane == Control;
        result := result.(refused := Some(Refused(position, code, blocking)));
        if !blocking && position == result.acknowledgedThrough + 1 {
          log := log.(acknowledged := position);
          result := result.(acknowledgedThrough := position, skipped := true);
        }
        streams := streams[id := streams[id].WithLog(ack.lane, log)];
      }
      CommitKeepsValid(saved, streams, replica, minted, id, Acknowledges(ack, at));
      r := Success(result);
    }

    /** Records that a destination carried out a deletion this outbox asked for. */
    method RecordDeletionReceipt(receipt: DeletionReceipt) returns (r: Result<bool, Error>)
      requires Valid()
      modifies this`streams
      ensures Valid()
      ensures forall id ::
                id in old(streams) && OperationsNamed(old(streams)[id], receipt.operationId) != {} ==>
                  var outcome := OutboxModel.RecordDeletionReceipt(old(streams)[id], receipt);
                  Committed(old(streams), streams, id, outcome) && Reports(r, outcome)
      ensures (forall id :: id in old(streams) ==>
                  OperationsNamed(old(streams)[id], receipt.operationId) == {}) ==>
                && streams == old(streams)
                && r == Failure(if receipt.Valid() then UnknownOperation else InvalidReceipt)
    {
      hide TablesValid, DeletionReceipt.Valid, OperationsNamed;
      if !receipt.Valid() { return Failure(InvalidReceipt); }
      if id :| id in streams && OperationsNamed(streams[id], receipt.operationId) != {} {
        var s := streams[id];
        OperationsHaveOneStream(id, receipt.operationId);
        if s.destinationId != receipt.destinationId { return Failure(ReceiptDestinationMismatch); }
        var named := OperationsNamed(s, receipt.operationId);
        if exists op :: op in named && !(op.body.ItemDelete? || op.body.ScopeDelete?) {
          return Failure(NotADeletion);
        }
        if exists op :: op in named && !TargetMatches(receipt.target, op.body) {
          return Failure(ReceiptTargetMismatch);
        }
        ghost var saved := streams;
        if receipt.receiptId !in s.receipts {
          s := s.(receipts := s.receipts[receipt.receiptId := receipt]);
        }
        if receipt.target.ItemTarget? && receipt.target.itemId in s.tombstones {
          var t := s.tombstones[receipt.target.itemId];
          if t.deleteThroughRevision <= receipt.target.deleteThroughRevision {
            s := s.(tombstones := s.tombstones[receipt.target.itemId :=
              t.(completion := Some(Completion(receipt.receiptId, receipt.completedAt)))]);
          }
        }
        streams := streams[id := s];
        CommitKeepsValid(saved, streams, replica, minted, id, Receipts(receipt));
        r := Success(true);
      } else {
        r := Failure(UnknownOperation);
      }
    }

    /** What is live and what is tombstoned, each in item order; empty for an unknown stream. */
    method Inventory(id: Id) returns (live: seq<ItemKey>, tombstones: seq<ItemKey>)
      requires Valid()
      ensures id !in streams ==> live == [] && tombstones == []
      ensures id in streams ==> Inventories(streams[id], live, tombstones)
    {
      hide TablesValid, Inv, CoreInv, RecordsInv;
      if id !in streams { return [], []; }
      var s := streams[id];
      StreamIsValid(streams, id);
      InventoryListed(s);
      live, tombstones := LiveListing(s), TombstoneListing(s);
    }
  }

  lemma BuryLive(s: Stream, itemId: Id, reason: Reason, at: Instant)
    requires RecordsInv(s.records, s.tombstones) && LiveRevisions(s, itemId) != {}
    ensures CurrentItem(s, itemId).Some?
    ensures Bury(s, {itemId}, reason, at)
            == BuryOne(s, itemId, CurrentItem(s, itemId).value.revision, reason, at)
  {
    hide ItemsInv, PartitionInv, Bury, BuryOne;
    LiveIffCurrent(s, itemId);
    hide LiveRevisions, CurrentItem;
    InScopeIffItemIs(s, CurrentItem(s, itemId).value.scope, itemId);
    BuryNone(s, reason, at);
    BuryOneMore(s, {}, itemId, reason, at);
    assert {} + {itemId} == {itemId};
  }

  lemma LiveIffCurrent(s: Stream, itemId: Id)
    ensures itemId in LiveItems(s) <==> LiveRevisions(s, itemId) != {}
    ensures CurrentItem(s, itemId).Some? <==> LiveRevisions(s, itemId) != {}
  {
    if itemId in LiveItems(s) {
      LiveHaveRevisions(s, itemId);
    }
    if LiveRevisions(s, itemId) != {} {
      var r := Member(LiveRevisions(s, itemId));
      var k :| k in s.records && k.itemId == itemId && s.records[k].current && k.revision == r;
      assert k.itemId in LiveItems(s);
    }
  }

  lemma RevokedIsCurrent(s: Stream, grantId: Id, at: Instant)
    requires Inv(s) && RevokeConsent(s, grantId, at).Success?
    requires CurrentGrant(s, grantId).value.status == Active
    ensures CurrentGrant(RevokeConsent(s, grantId, at).value, grantId)
            == Some(RevokedGrant(CurrentGrant(s, grantId).value, at))
  {
    hide LogInv, LanesInv, ItemsInv, PartitionInv, AuthorityInv, LiveConsentInv, CurrentGrant,
      Enqueue, Bury, LiveRevisions;
    var g := CurrentGrant(s, grantId).value;
    CurrentGrantIsNewest(s, grantId);
    var revoked := RevokedGrant(g, at);
    assert Follows(s, revoked);
    CurrentAfterStoring(s, revoked, grantId);
    RevokeConsentFrame(s, grantId, at);
    CurrentGrantFrame(WithGrant(s, revoked), RevokeConsent(s, grantId, at).value, grantId);
  }

  lemma RevokeConsentFrame(s: Stream, grantId: Id, at: Instant)
    requires RevokeConsent(s, grantId, at).Success? && CurrentGrant(s, grantId).Some?
    requires CurrentGrant(s, grantId).value.status == Active
    ensures RevokeConsent(s, grantId, at).value.consent
            == WithGrant(s, RevokedGrant(CurrentGrant(s, grantId).value, at)).consent
  {
    hide CurrentGrant, Grant.Valid, Operation.Valid, LiveRevisions, MaxOf;
  }

  lemma NamedIsOwn(s: Stream, operationId: OperationId)
    requires Inv(s) && OperationsNamed(s, operationId) != {}
    ensures operationId.streamId == s.streamId
  {
    hide LanesInv, RecordsInv, ConsentInv, AuthorityInv, LiveConsentInv, IdsInv, Chained, Settled;
    var op := Member(OperationsNamed(s, operationId));
    hide Operation.Sealed;
    if p :| p in s.control.rows && s.control.rows[p].op.operationId == operationId {
      assert Placed(s, Control, p, s.control.rows[p].op);
    } else {
      var q :| q in s.data.rows && s.data.rows[q].op.operationId == operationId;
      assert Placed(s, Data, q, s.data.rows[q].op);
    }
  }

  /** What an acknowledgement reports, against the lane before and after it. */
  ghost predicate Reflects(log: LaneLog, log': LaneLog, ack: Ack, result: AckResult) {
    var accepted := Larger(log.acknowledged, ack.acceptedThrough);
    && result.acknowledgedThrough == log'.acknowledged
    && (result.regressed <==> ack.acceptedThrough < log.acknowledged)
    && (result.skipped <==> log'.acknowledged != accepted)
    && (result.refused.Some? <==> Refuses(ack))
    && (result.refused.Some? ==>
          result.refused.value == Refused(ack.rejection.value.position, ack.rejection.value.code,
                                          ack.lane == Control))
    && result.reconciliationRequired == ack.reconciliationRequired
    && result.retryAfterMs == ack.retryAfterMs
  }
}
