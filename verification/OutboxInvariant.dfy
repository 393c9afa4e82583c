/**
 What every outbox transaction keeps.

 The invariant has one predicate per concern: each lane is a dense sealed chain, consent revisions
 are dense with constant terms, item revisions are dense and either live or tombstoned, every item
 was authorised by the grant revision it cites, and the two lanes agree with the records about
 which puts a deletion covers.
 */
module OutboxInvariant {
  import opened Wrappers
  import opened IntSets
  import opened SyncWire
  import opened OutboxModel

  // ---- The invariant ----

  ghost predicate Dense(log: LaneLog) {
    && 0 <= log.next
    && (forall p :: p in log.rows <==> 0 <= p < log.next)
  }

  ghost predicate Placed(s: Stream, lane: LaneId, p: int, op: Operation) {
    && op.Sealed()
    && op.streamId == s.streamId && op.replicaId == s.replicaId
    && op.generation == s.generation && op.lane == lane && op.position == p
    && op.operationId.streamId == s.streamId && op.operationId.serial < s.minted
  }

  ghost predicate Chained(log: LaneLog)
    requires Dense(log)
  {
    && (forall p :: 0 < p < log.next ==>
          log.rows[p].op.previous == Some(log.rows[p - 1].op.operationId))
    && log.previous ==
       (if log.next == 0 then None else Some(log.rows[log.next - 1].op.operationId))
    && (forall p, q :: 0 <= p < q < log.next ==>
          log.rows[p].op.operationId.serial < log.rows[q].op.operationId.serial)
  }

  /** At or below the cursor a row was acknowledged, or on the data lane refused for good. */
  ghost predicate Settled(lane: LaneId, log: LaneLog)
    requires Dense(log)
  {
    && -1 <= log.acknowledged < log.next
    && (forall p :: 0 <= p <= log.acknowledged ==>
          log.rows[p].acknowledgedAt.Some? || (lane == Data && log.rows[p].refused.Some?))
  }

  ghost predicate LogInv(s: Stream, lane: LaneId) {
    var log := s.Log(lane);
    && Dense(log)
    && (forall p :: p in log.rows ==> Placed(s, lane, p, log.rows[p].op))
    && Chained(log)
    && Settled(lane, log)
  }

  /** Revisions of a grant are 1..n, with one scope and purpose, for this stream's destination. */
  ghost predicate ConsentInv(consent: map<GrantRef, Grant>, destinationId: Id) {
    && (forall k :: k in consent ==>
          && consent[k].Ref() == k && consent[k].Valid()
          && consent[k].destinationId == destinationId
          && consent[k].allowedKinds == [Decision] && SupportedPolicies(consent[k]))
    && (forall k, r :: k in consent && 1 <= r <= k.revision ==> GrantRef(k.grantId, r) in consent)
    && (forall k, l :: k in consent && l in consent && k.grantId == l.grantId ==>
          consent[k].scope == consent[l].scope && consent[k].purpose == consent[l].purpose)
  }

  /** Everything a grant revision demands of an item captured under it. */
  ghost predicate Authorised(g: Grant, item: Item) {
    && g.status == Active
    && g.effectiveAt <= item.capturedAt < g.expiresAt
    && item.kind in g.allowedKinds
    && item.scope == g.scope
    && item.sensitivity.Rank() <= g.maximumSensitivity.Rank()
    && item.capturedAt < item.retentionExpiresAt <= g.expiresAt
    && item.retentionExpiresAt <= item.capturedAt + g.retentionMaximumDays * DAY_MS
    && item.redactionPolicy == g.redactionPolicy
    && item.minimizationPolicy == g.minimizationPolicy
  }

  ghost predicate IsNewest(records: map<ItemKey, Record>, k: ItemKey) {
    k in records && ItemKey(k.itemId, k.revision + 1) !in records
  }

  /** Revisions of an item are 1..n, in one scope and under one consent reference. */
  ghost predicate ItemsInv(records: map<ItemKey, Record>) {
    && (forall k :: k in records ==> records[k].item.Key() == k && records[k].item.Valid())
    && (forall k, r :: k in records && 1 <= r <= k.revision ==> ItemKey(k.itemId, r) in records)
    && (forall k, l :: k in records && l in records && k.itemId == l.itemId ==>
          records[k].item.scope == records[l].item.scope &&
          records[k].item.consent == records[l].item.consent)
  }

  /** A known item is live at its newest revision or tombstoned through it, never both. */
  ghost predicate PartitionInv(records: map<ItemKey, Record>, tombstones: map<Id, Tombstone>) {
    && (forall k {:trigger records[k].current} :: k in records && records[k].current ==>
          IsNewest(records, k) && k.itemId !in tombstones)
    && (forall k :: IsNewest(records, k) && k.itemId !in tombstones ==> records[k].current)
    && (forall i :: i in tombstones ==>
          && IsNewest(records, ItemKey(i, tombstones[i].deleteThroughRevision))
          && Canonical(tombstones[i].requestedAt))
  }

  ghost predicate RecordsInv(records: map<ItemKey, Record>, tombstones: map<Id, Tombstone>) {
    ItemsInv(records) && PartitionInv(records, tombstones)
  }

  ghost predicate AuthorityInv(consent: map<GrantRef, Grant>, records: map<ItemKey, Record>) {
    forall k :: k in records ==>
      records[k].item.consent in consent
      && Authorised(consent[records[k].item.consent], records[k].item)
  }

  /** No live item cites a grant whose newest revision is revoked. */
  ghost predicate LiveConsentInv(s: Stream) {
    forall k :: k in s.records && s.records[k].current ==>
      var g := CurrentGrant(s, s.records[k].item.consent.grantId);
      g.Some? && g.value.status == Active
  }

  /** A deletion covers a put: by item and revision, or by scope and data position. */
  predicate Covers(deletion: Body, item: Item, position: int) {
    match deletion
    case ItemDelete(_, _, itemId, through, _, _) =>
      itemId == item.itemId && item.revision <= through
    case ScopeDelete(_, scope, through, _, _) =>
      scope == item.scope && position <= through
    case _ => false
  }

  ghost predicate Covered(control: LaneLog, item: Item, position: int) {
    exists c :: c in control.rows && Covers(control.rows[c].op.body, item, position)
  }

  ghost predicate IsPut(data: LaneLog, p: int, k: ItemKey) {
    p in data.rows && data.rows[p].op.body.ItemPut? && data.rows[p].op.body.item.Key() == k
  }

  /** Every data row puts a stored item revision. */
  ghost predicate PutsStored(data: LaneLog, records: map<ItemKey, Record>) {
    forall p :: p in data.rows ==>
      var body := data.rows[p].op.body;
      && body.ItemPut? && body.item.Key() in records
      && body.item == records[body.item.Key()].item
  }

  ghost predicate PutsAdvance(data: LaneLog) {
    forall p, q :: p in data.rows && q in data.rows && p < q ==>
      Advances(data.rows[p].op.body, data.rows[q].op.body)
  }

  /** Every live revision has a put in this generation. */
  ghost predicate LivePut(data: LaneLog, records: map<ItemKey, Record>) {
    forall k :: k in records && records[k].current ==> exists p :: IsPut(data, p, k)
  }

  ghost predicate FencesBounded(s: Stream) {
    forall c :: c in s.control.rows ==> FenceBounded(s, s.control.rows[c].op.body)
  }

  /** A put is covered by some deletion exactly when its item is tombstoned. */
  ghost predicate LanesAgree(s: Stream) {
    forall p :: p in s.data.rows && s.data.rows[p].op.body.ItemPut? ==>
      var item := s.data.rows[p].op.body.item;
      Covered(s.control, item, p) <==> item.itemId in s.tombstones
  }

  ghost predicate LanesInv(s: Stream) {
    && PutsStored(s.data, s.records) && PutsAdvance(s.data) && LivePut(s.data, s.records)
    && FencesBounded(s) && LanesAgree(s)
  }

  /** Of two puts of one item, the later one in the lane carries the higher revision. */
  ghost predicate Advances(earlier: Body, later: Body) {
    earlier.ItemPut? && later.ItemPut? && earlier.item.itemId == later.item.itemId ==>
      earlier.item.revision < later.item.revision
  }

  ghost predicate FenceBounded(s: Stream, body: Body) {
    match body
    case ItemDelete(_, _, itemId, through, _, _) =>
      itemId in s.tombstones && through == s.tombstones[itemId].deleteThroughRevision
    case ScopeDelete(_, _, through, _, _) => through < s.data.next
    case _ => true
  }

  /** Captured item identifiers come from the same fresh supply as operation identifiers. */
  ghost predicate IdsInv(s: Stream) {
    forall k :: k in s.records ==> k.itemId < s.minted
  }

  ghost predicate CoreInv(s: Stream) {
    && 0 < s.generation
    && LogInv(s, Control) && LogInv(s, Data)
    && ConsentInv(s.consent, s.destinationId)
    && RecordsInv(s.records, s.tombstones)
    && AuthorityInv(s.consent, s.records)
    && LanesInv(s)
    && IdsInv(s)
  }

  ghost predicate Inv(s: Stream) {
    CoreInv(s) && LiveConsentInv(s)
  }

  lemma NewStreamInv(streamId: Id, replicaId: Id, destinationId: Id)
    ensures Inv(NewStream(streamId, replicaId, destinationId))
  {
  }

  // ---- Lookups under the invariant ----

  lemma NewestGrant(s: Stream, k: GrantRef)
    requires ConsentInv(s.consent, s.destinationId)
    requires k in s.consent && GrantRef(k.grantId, k.revision + 1) !in s.consent
    ensures CurrentGrant(s, k.grantId) == Some(s.consent[k])
  {
    var revisions := GrantRevisions(s, k.grantId);
    assert k.revision in revisions;
    var m := MaxOf(revisions);
    var l :| l in s.consent && l.grantId == k.grantId && l.revision == m;
    assert l == GrantRef(k.grantId, m);
    assert k.revision < m ==> GrantRef(l.grantId, k.revision + 1) in s.consent;
  }

  lemma CurrentGrantIsNewest(s: Stream, grantId: Id)
    requires ConsentInv(s.consent, s.destinationId)
    ensures CurrentGrant(s, grantId).None? ==> forall k :: k in s.consent ==> k.grantId != grantId
    ensures CurrentGrant(s, grantId).Some? ==>
              var g := CurrentGrant(s, grantId).value;
              && g.grantId == grantId && g.Ref() in s.consent && s.consent[g.Ref()] == g
              && GrantRef(grantId, g.revision + 1) !in s.consent
              && (forall k :: k in s.consent && k.grantId == grantId ==> k.revision <= g.revision)
  {
    var revisions := GrantRevisions(s, grantId);
    forall k | k in s.consent && k.grantId == grantId
      ensures k.revision in revisions
    {
    }
    if revisions != {} {
      var m := MaxOf(revisions);
      var l :| l in s.consent && l.grantId == grantId && l.revision == m;
      assert l == GrantRef(grantId, m);
      assert GrantRef(grantId, m + 1) in s.consent ==> m + 1 in revisions;
    }
  }

  lemma CurrentItemIsLive(s: Stream, k: ItemKey)
    requires RecordsInv(s.records, s.tombstones)
    requires k in s.records && s.records[k].current
    ensures LiveRevisions(s, k.itemId) == {k.revision}
    ensures CurrentItem(s, k.itemId) == Some(s.records[k].item)
  {
    var revisions := LiveRevisions(s, k.itemId);
    assert k.revision in revisions;
    forall r | r in revisions ensures r == k.revision {
      var l :| l in s.records && l.itemId == k.itemId && s.records[l].current && l.revision == r;
      SameNewest(s.records, k, l);
    }
    assert revisions == {k.revision};
    assert MaxOf(revisions) in revisions;
  }

  lemma SameNewest(records: map<ItemKey, Record>, k: ItemKey, l: ItemKey)
    requires ItemsInv(records)
    requires IsNewest(records, k) && IsNewest(records, l) && k.itemId == l.itemId
    ensures k == l
  {
    assert k.revision < l.revision ==> ItemKey(l.itemId, k.revision + 1) in records;
    assert l.revision < k.revision ==> ItemKey(k.itemId, l.revision + 1) in records;
  }

  lemma LiveItemFound(s: Stream, itemId: Id) returns (k: ItemKey)
    requires RecordsInv(s.records, s.tombstones)
    requires LiveRevisions(s, itemId) != {}
    ensures k.itemId == itemId && k in s.records && s.records[k].current
    ensures LiveRevisions(s, itemId) == {k.revision}
    ensures CurrentItem(s, itemId) == Some(s.records[k].item)
  {
    var r := Member(LiveRevisions(s, itemId));
    k :| k in s.records && k.itemId == itemId && s.records[k].current && k.revision == r;
    CurrentItemIsLive(s, k);
  }

  /** A known item has a newest revision, at or above every revision of it. */
  lemma NewestExists(records: map<ItemKey, Record>, k: ItemKey) returns (n: ItemKey)
    requires k in records
    ensures IsNewest(records, n) && n.itemId == k.itemId && k.revision <= n.revision
  {
    var revisions := set l | l in records && l.itemId == k.itemId :: l.revision;
    assert k.revision in revisions;
    var m := MaxOf(revisions);
    var l :| l in records && l.itemId == k.itemId && l.revision == m;
    n := l;
    assert ItemKey(n.itemId, m + 1) in records ==> m + 1 in revisions;
  }

  // ---- Enqueue ----

  /** A log's invariant survives anything that keeps the stream's names and only mints more. */
  lemma LogFrame(s: Stream, s': Stream, lane: LaneId)
    requires LogInv(s, lane)
    requires s'.streamId == s.streamId && s'.replicaId == s.replicaId
    requires s'.generation == s.generation && s.minted <= s'.minted
    requires s'.Log(lane) == s.Log(lane)
    ensures LogInv(s', lane)
  {
    forall p | p in s'.Log(lane).rows ensures Placed(s', lane, p, s'.Log(lane).rows[p].op) {
      assert Placed(s, lane, p, s.Log(lane).rows[p].op);
    }
  }

  lemma AppendKeepsChain(lane: LaneId, log: LaneLog, op: Operation)
    requires Dense(log) && Chained(log) && Settled(lane, log)
    requires op.previous == log.previous
    requires forall p :: 0 <= p < log.next ==>
               log.rows[p].op.operationId.serial < op.operationId.serial
    ensures Dense(Append(log, op)) && Chained(Append(log, op)) && Settled(lane, Append(log, op))
  {
    AppendKeepsRows(log, op);
    var log' := Append(log, op);
    assert log'.rows[log.next].op == op;
    hide Append;
  }

  lemma AppendKeepsRows(log: LaneLog, op: Operation)
    requires Dense(log)
    ensures Dense(Append(log, op)) && Append(log, op).next == log.next + 1
    ensures Append(log, op).previous == Some(op.operationId)
    ensures Append(log, op).acknowledged == log.acknowledged
    ensures forall p :: 0 <= p < log.next ==> Append(log, op).rows[p] == log.rows[p]
    ensures Append(log, op).rows[log.next].op == op
  {
  }

  lemma EnqueueKeepsOwnLog(s: Stream, lane: LaneId, body: Body)
    requires LogInv(s, lane)
    requires Enqueue(s, lane, body).Success?
    ensures LogInv(Enqueue(s, lane, body).value, lane)
  {
    var s' := Enqueue(s, lane, body).value;
    var op := Seal(Unsigned(s, lane, body));
    AppendKeepsChain(lane, s.Log(lane), op);
    assert s'.Log(lane) == Append(s.Log(lane), op);
    forall p | p in s'.Log(lane).rows ensures Placed(s', lane, p, s'.Log(lane).rows[p].op) {
      if p < s.Log(lane).next {
        assert Placed(s, lane, p, s.Log(lane).rows[p].op);
      } else {
        assert op.Sealed();
      }
    }
  }

  lemma EnqueueKeepsLogs(s: Stream, lane: LaneId, body: Body)
    requires LogInv(s, Control) && LogInv(s, Data)
    requires Enqueue(s, lane, body).Success?
    ensures LogInv(Enqueue(s, lane, body).value, Control)
    ensures LogInv(Enqueue(s, lane, body).value, Data)
  {
    EnqueueKeepsOwnLog(s, lane, body);
    LogFrame(s, Enqueue(s, lane, body).value, if lane == Control then Data else Control);
  }

  /** A body the wire accepts always fits at the end of its own lane. */
  lemma EnqueueSucceeds(s: Stream, lane: LaneId, body: Body)
    requires 0 < s.generation && LogInv(s, lane)
    ensures Enqueue(s, lane, body).Success? <==> lane == body.Lane() && body.Valid()
  {
  }

  /** What one more control operation covers. */
  lemma CoveredAfter(s: Stream, body: Body, item: Item, position: int)
    requires Dense(s.control) && Enqueue(s, Control, body).Success?
    ensures Covered(Enqueue(s, Control, body).value.control, item, position)
            <==> Covered(s.control, item, position) || Covers(body, item, position)
  {
    var control, control' := s.control, Enqueue(s, Control, body).value.control;
    if Covers(body, item, position) {
      assert control'.rows[control.next].op.body == body;
    }
    if Covered(control, item, position) {
      var c :| c in control.rows && Covers(control.rows[c].op.body, item, position);
      assert control'.rows[c] == control.rows[c];
    }
    if Covered(control', item, position) {
      var c :| c in control'.rows && Covers(control'.rows[c].op.body, item, position);
      assert c != control.next ==> control'.rows[c] == control.rows[c];
    }
  }

  // ---- Consent ----

  /** A grant revision that may be stored next: the first one, or one past the newest. */
  ghost predicate Follows(s: Stream, g: Grant) {
    var previous := CurrentGrant(s, g.grantId);
    && g.Valid() && g.allowedKinds == [Decision] && SupportedPolicies(g)
    && g.destinationId == s.destinationId
    && (previous.None? ==> g.revision == 1)
    && (previous.Some? ==> g.revision == previous.value.revision + 1
                           && g.scope == previous.value.scope
                           && g.purpose == previous.value.purpose)
  }

  function WithGrant(s: Stream, g: Grant): Stream {
    s.(consent := s.consent[g.Ref() := g])
  }

  lemma StoringKeepsConsent(s: Stream, g: Grant)
    requires ConsentInv(s.consent, s.destinationId) && Follows(s, g)
    ensures g.Ref() !in s.consent
    ensures ConsentInv(WithGrant(s, g).consent, s.destinationId)
  {
    CurrentGrantIsNewest(s, g.grantId);
    var consent' := WithGrant(s, g).consent;
    forall k, r | k in consent' && 1 <= r <= k.revision
      ensures GrantRef(k.grantId, r) in consent'
    {
      if k == g.Ref() && r < g.revision {
        var previous := CurrentGrant(s, g.grantId).value;
        assert GrantRef(previous.Ref().grantId, r) in s.consent;
      }
    }
  }

  lemma CurrentAfterStoring(s: Stream, g: Grant, grantId: Id)
    requires ConsentInv(s.consent, s.destinationId) && Follows(s, g)
    ensures CurrentGrant(WithGrant(s, g), grantId)
            == if grantId == g.grantId then Some(g) else CurrentGrant(s, grantId)
  {
    var s' := WithGrant(s, g);
    StoringKeepsConsent(s, g);
    CurrentGrantIsNewest(s, g.grantId);
    if grantId == g.grantId {
      NewestGrant(s', g.Ref());
    } else {
      assert GrantRevisions(s', grantId) == GrantRevisions(s, grantId);
    }
  }

  lemma StoringKeepsAuthority(s: Stream, g: Grant)
    requires ConsentInv(s.consent, s.destinationId) && Follows(s, g)
    requires AuthorityInv(s.consent, s.records)
    ensures AuthorityInv(WithGrant(s, g).consent, s.records)
  {
    StoringKeepsConsent(s, g);
  }

  /** Enqueuing a body that covers nothing leaves the lanes in agreement. */
  lemma NeutralEnqueueKeepsLanes(s: Stream, body: Body)
    requires LanesInv(s) && Dense(s.control) && Enqueue(s, Control, body).Success?
    requires body.ConsentPut? || body.ConsentRevoke?
    ensures LanesInv(Enqueue(s, Control, body).value)
  {
    var s' := Enqueue(s, Control, body).value;
    forall p | p in s'.data.rows
      ensures Covered(s'.control, s'.data.rows[p].op.body.item, p)
              <==> s'.data.rows[p].op.body.item.itemId in s'.tombstones
    {
      CoveredAfter(s, body, s.data.rows[p].op.body.item, p);
    }
    forall k | k in s'.records && s'.records[k].current ensures exists p :: IsPut(s'.data, p, k) {
      var p :| IsPut(s.data, p, k);
      assert IsPut(s'.data, p, k);
    }
  }

  lemma LanesFrame(s: Stream, s': Stream)
    requires LanesInv(s)
    requires s'.control == s.control && s'.data == s.data
    requires s'.records == s.records && s'.tombstones == s.tombstones
    ensures LanesInv(s')
  {
  }

  lemma ConsentEnqueueKeepsCore(s: Stream, g: Grant, body: Body)
    requires CoreInv(s) && Follows(s, g)
    requires body == ConsentPut(g) || body == ConsentRevoke(g)
    requires Enqueue(WithGrant(s, g), Control, body).Success?
    ensures CoreInv(Enqueue(WithGrant(s, g), Control, body).value)
  {
    hide LogInv, LanesInv, RecordsInv, ConsentInv, AuthorityInv;
    var s1 := WithGrant(s, g);
    StoringKeepsConsent(s, g);
    StoringKeepsAuthority(s, g);
    LogFrame(s, s1, Control);
    LogFrame(s, s1, Data);
    EnqueueKeepsLogs(s1, Control, body);
    LanesFrame(s, s1);
    NeutralEnqueueKeepsLanes(s1, body);
  }

  lemma ConsentEnqueueKeepsLiveConsent(s: Stream, g: Grant, body: Body)
    requires ConsentInv(s.consent, s.destinationId) && LiveConsentInv(s) && Follows(s, g)
    requires Enqueue(WithGrant(s, g), Control, body).Success?
    requires forall k :: k in s.records && s.records[k].current ==>
               s.records[k].item.consent.grantId != g.grantId || g.status == Active
    ensures LiveConsentInv(Enqueue(WithGrant(s, g), Control, body).value)
  {
    hide ConsentInv, Follows;
    var s' := Enqueue(WithGrant(s, g), Control, body).value;
    forall k | k in s'.records && s'.records[k].current
      ensures var h := CurrentGrant(s', s'.records[k].item.consent.grantId);
              h.Some? && h.value.status == Active
    {
      var grantId := s.records[k].item.consent.grantId;
      CurrentAfterStoring(s, g, grantId);
      assert CurrentGrant(s', grantId) == CurrentGrant(WithGrant(s, g), grantId);
    }
  }

  lemma GrantConsentKeepsInv(s: Stream, g: Grant)
    requires Inv(s) && GrantConsent(s, g).Success?
    ensures Inv(GrantConsent(s, g).value)
  {
    hide LogInv, LanesInv, RecordsInv, ConsentInv, AuthorityInv, LiveConsentInv, Enqueue;
    CurrentGrantIsNewest(s, g.grantId);
    assert Follows(s, g);
    ConsentEnqueueKeepsCore(s, g, ConsentPut(g));
    ConsentEnqueueKeepsLiveConsent(s, g, ConsentPut(g));
  }

  // ---- Deletion ----

  /** Burying flips flags and adds one tombstone per doomed item, through its newest revision. */
  lemma BuryEffect(s: Stream, doomed: set<Id>, reason: Reason, at: Instant)
    requires RecordsInv(s.records, s.tombstones)
    requires forall i :: i in doomed ==> LiveRevisions(s, i) != {}
    ensures var s' := Bury(s, doomed, reason, at);
            && s'.tombstones.Keys == s.tombstones.Keys + doomed
            && (forall i :: i in s.tombstones ==> s'.tombstones[i] == s.tombstones[i])
            && (forall i :: i in doomed ==>
                  && i !in s.tombstones && s'.tombstones[i].requestedAt == at
                  && IsNewest(s.records, ItemKey(i, s'.tombstones[i].deleteThroughRevision)))
            && s'.records.Keys == s.records.Keys
            && (forall k :: k in s.records ==>
                  && s'.records[k].item == s.records[k].item
                  && s'.records[k].current == (s.records[k].current && k.itemId !in doomed))
  {
    var s' := Bury(s, doomed, reason, at);
    forall i | i in doomed
      ensures i !in s.tombstones
      ensures IsNewest(s.records, ItemKey(i, s'.tombstones[i].deleteThroughRevision))
    {
      var k := LiveItemFound(s, i);
      assert MaxOf(LiveRevisions(s, i)) in LiveRevisions(s, i);
      assert k == ItemKey(i, s'.tombstones[i].deleteThroughRevision);
    }
  }

  lemma ItemsFrame(records: map<ItemKey, Record>, records': map<ItemKey, Record>)
    requires ItemsInv(records) && records'.Keys == records.Keys
    requires forall k :: k in records ==> records'[k].item == records[k].item
    ensures ItemsInv(records')
  {
  }

  lemma NewestFrame(records: map<ItemKey, Record>, records': map<ItemKey, Record>)
    requires records.Keys == records'.Keys
    ensures forall k :: IsNewest(records', k) <==> IsNewest(records, k)
  {
  }

  lemma BuryKeepsPartition(s: Stream, doomed: set<Id>, reason: Reason, at: Instant)
    requires RecordsInv(s.records, s.tombstones) && Canonical(at)
    requires forall i :: i in doomed ==> LiveRevisions(s, i) != {}
    ensures PartitionInv(Bury(s, doomed, reason, at).records,
                         Bury(s, doomed, reason, at).tombstones)
  {
    hide ItemsInv, LiveRevisions, Bury;
    var s' := Bury(s, doomed, reason, at);
    BuryEffect(s, doomed, reason, at);
    NewestFrame(s.records, s'.records);
    hide IsNewest;
    forall k | k in s'.records && s'.records[k].current
      ensures IsNewest(s'.records, k) && k.itemId !in s'.tombstones
    {
      assert s.records[k].current;
    }
    forall k | IsNewest(s'.records, k) && k.itemId !in s'.tombstones
      ensures s'.records[k].current
    {
      assert IsNewest(s.records, k);
    }
    forall i | i in s'.tombstones
      ensures IsNewest(s'.records, ItemKey(i, s'.tombstones[i].deleteThroughRevision))
      ensures Canonical(s'.tombstones[i].requestedAt)
    {
      assert i in s.tombstones || i in doomed;
    }
  }

  lemma BuryKeepsRecords(s: Stream, doomed: set<Id>, reason: Reason, at: Instant)
    requires RecordsInv(s.records, s.tombstones) && Canonical(at)
    requires forall i :: i in doomed ==> LiveRevisions(s, i) != {}
    ensures RecordsInv(Bury(s, doomed, reason, at).records, Bury(s, doomed, reason, at).tombstones)
  {
    BuryEffect(s, doomed, reason, at);
    BuryKeepsPartition(s, doomed, reason, at);
    hide Bury, PartitionInv, LiveRevisions;
    ItemsFrame(s.records, Bury(s, doomed, reason, at).records);
  }

  /** A deletion matches its tombstones: every doomed put is covered, and nothing else live is. */
  ghost predicate Fences(s: Stream, doomed: set<Id>, body: Body) {
    forall p :: p in s.data.rows && s.data.rows[p].op.body.ItemPut? ==>
      var item := s.data.rows[p].op.body.item;
      && (item.itemId in doomed ==> Covers(body, item, p))
      && (Covers(body, item, p) ==> item.itemId in doomed || item.itemId in s.tombstones)
  }

  lemma BuryAndFenceKeepsLanes(s: Stream, doomed: set<Id>, reason: Reason, at: Instant, body: Body)
    requires RecordsInv(s.records, s.tombstones) && LanesInv(s) && Dense(s.control)
    requires forall i :: i in doomed ==> LiveRevisions(s, i) != {}
    requires Canonical(at) && Fences(s, doomed, body)
    requires FenceBounded(Bury(s, doomed, reason, at), body)
    requires Enqueue(Bury(s, doomed, reason, at), Control, body).Success?
    ensures LanesInv(Enqueue(Bury(s, doomed, reason, at), Control, body).value)
  {
    hide RecordsInv;
    var s1 := Bury(s, doomed, reason, at);
    var s' := Enqueue(s1, Control, body).value;
    assert s'.data == s.data && s'.records == s1.records && s'.tombstones == s1.tombstones;
    BuryEffect(s, doomed, reason, at);
    hide Bury, Covers, LiveRevisions;
    forall p | p in s'.data.rows
      ensures Covered(s'.control, s'.data.rows[p].op.body.item, p)
              <==> s'.data.rows[p].op.body.item.itemId in s'.tombstones
    {
      CoveredAfter(s1, body, s.data.rows[p].op.body.item, p);
    }
    forall k | k in s'.records && s'.records[k].current ensures exists p :: IsPut(s'.data, p, k) {
      var p :| IsPut(s.data, p, k);
      assert IsPut(s'.data, p, k);
    }
    FencesStayBounded(s, s1, body);
    hide FencesBounded, FenceBounded, PutsStored, PutsAdvance;
  }

  lemma FencesStayBounded(s: Stream, s1: Stream, body: Body)
    requires FencesBounded(s) && Dense(s.control) && s1.control == s.control && s1.data == s.data
    requires forall i :: i in s.tombstones ==>
               i in s1.tombstones && s1.tombstones[i] == s.tombstones[i]
    requires FenceBounded(s1, body) && Enqueue(s1, Control, body).Success?
    ensures FencesBounded(Enqueue(s1, Control, body).value)
  {
    var s' := Enqueue(s1, Control, body).value;
    forall c | c in s'.control.rows ensures FenceBounded(s', s'.control.rows[c].op.body) {
      if c != s.control.next {
        assert s'.control.rows[c] == s.control.rows[c];
        assert FenceBounded(s, s.control.rows[c].op.body);
      }
    }
  }

  lemma BuryAndFenceKeepsCore(s: Stream, doomed: set<Id>, reason: Reason, at: Instant, body: Body)
    requires CoreInv(s)
    requires forall i :: i in doomed ==> LiveRevisions(s, i) != {}
    requires Canonical(at) && Fences(s, doomed, body)
    requires FenceBounded(Bury(s, doomed, reason, at), body)
    requires Enqueue(Bury(s, doomed, reason, at), Control, body).Success?
    ensures CoreInv(Enqueue(Bury(s, doomed, reason, at), Control, body).value)
  {
    hide LogInv, LanesInv, RecordsInv, ConsentInv, LiveRevisions, Fences, FenceBounded;
    var s1 := Bury(s, doomed, reason, at);
    assert Dense(s.control) by { LogIsDense(s, Control); }
    BuryEffect(s, doomed, reason, at);
    BuryKeepsRecords(s, doomed, reason, at);
    BuryAndFenceKeepsLanes(s, doomed, reason, at, body);
    LogFrame(s, s1, Control);
    LogFrame(s, s1, Data);
    EnqueueKeepsLogs(s1, Control, body);
    var s' := Enqueue(s1, Control, body).value;
    assert AuthorityInv(s'.consent, s'.records) && IdsInv(s');
  }

  lemma LogIsDense(s: Stream, lane: LaneId)
    requires LogInv(s, lane)
    ensures Dense(s.Log(lane)) && Chained(s.Log(lane)) && Settled(lane, s.Log(lane))
  {
  }

  lemma CurrentGrantFrame(s: Stream, s': Stream, grantId: Id)
    requires s'.consent == s.consent
    ensures CurrentGrant(s', grantId) == CurrentGrant(s, grantId)
  {
    assert GrantRevisions(s', grantId) == GrantRevisions(s, grantId);
  }

  /** After burying, live items are a subset of what they were, under the same consent. */
  lemma BuryKeepsLiveConsent(s: Stream, doomed: set<Id>, reason: Reason, at: Instant, body: Body)
    requires RecordsInv(s.records, s.tombstones)
    requires forall i :: i in doomed ==> LiveRevisions(s, i) != {}
    requires Enqueue(Bury(s, doomed, reason, at), Control, body).Success?
    requires forall k :: k in s.records && s.records[k].current && k.itemId !in doomed ==>
               var g := CurrentGrant(s, s.records[k].item.consent.grantId);
               g.Some? && g.value.status == Active
    ensures LiveConsentInv(Enqueue(Bury(s, doomed, reason, at), Control, body).value)
  {
    hide RecordsInv, LiveRevisions, CurrentGrant;
    var s' := Enqueue(Bury(s, doomed, reason, at), Control, body).value;
    assert s'.consent == s.consent && s'.records == Bury(s, doomed, reason, at).records;
    BuryEffect(s, doomed, reason, at);
    hide Bury, Enqueue;
    forall k | k in s'.records && s'.records[k].current
      ensures var g := CurrentGrant(s', s'.records[k].item.consent.grantId);
              g.Some? && g.value.status == Active
    {
      assert s.records[k].current && k.itemId !in doomed;
      CurrentGrantFrame(s, s', s.records[k].item.consent.grantId);
    }
  }

  lemma NewestIsHighest(records: map<ItemKey, Record>, k: ItemKey, l: ItemKey)
    requires ItemsInv(records) && IsNewest(records, k) && l in records && l.itemId == k.itemId
    ensures l.revision <= k.revision
  {
    assert 1 <= k.revision by { assert records[k].item.Key() == k; }
    assert k.revision < l.revision ==> ItemKey(l.itemId, k.revision + 1) in records;
  }

  lemma DeletionFences(s: Stream, k: ItemKey, body: Body)
    requires RecordsInv(s.records, s.tombstones) && PutsStored(s.data, s.records)
    requires k in s.records && s.records[k].current
    requires body.ItemDelete? && body.itemId == k.itemId
    requires body.deleteThroughRevision == k.revision
    ensures Fences(s, {k.itemId}, body)
  {
    assert IsNewest(s.records, k);
    hide PartitionInv, IsNewest, ItemsInv;
    forall p | p in s.data.rows && s.data.rows[p].op.body.ItemPut?
               && s.data.rows[p].op.body.item.itemId == k.itemId
      ensures s.data.rows[p].op.body.item.revision <= k.revision
    {
      NewestIsHighest(s.records, k, s.data.rows[p].op.body.item.Key());
    }
  }

  lemma DeletionIsBounded(s: Stream, k: ItemKey, reason: Reason, at: Instant, body: Body)
    requires RecordsInv(s.records, s.tombstones)
    requires k in s.records && s.records[k].current && LiveRevisions(s, k.itemId) != {}
    requires body.ItemDelete? && body.itemId == k.itemId
    requires body.deleteThroughRevision == k.revision
    ensures FenceBounded(Bury(s, {k.itemId}, reason, at), body)
  {
    CurrentItemIsLive(s, k);
    BuryEffect(s, {k.itemId}, reason, at);
    assert MaxOf(LiveRevisions(s, k.itemId)) in LiveRevisions(s, k.itemId);
  }

  lemma DeleteItemKeepsInv(s: Stream, itemId: Id, reason: Reason, at: Instant)
    requires Inv(s) && DeleteItem(s, itemId, reason, at).Success?
    ensures Inv(DeleteItem(s, itemId, reason, at).value)
  {
    hide LogInv, PutsStored, PutsAdvance, LivePut, FencesBounded, LanesAgree, ItemsInv,
      PartitionInv, ConsentInv, AuthorityInv, Fences, FenceBounded, Bury, CurrentGrant,
      LiveRevisions, IdsInv;
    if LiveRevisions(s, itemId) != {} {
      var k := LiveItemFound(s, itemId);
      var item := s.records[k].item;
      var body := ItemDelete(item.consent, item.scope, itemId, item.revision, reason, at);
      assert item.Key() == k by { ItemAtKey(s.records, k); }
      DeletionFences(s, k, body);
      DeletionIsBounded(s, k, reason, at, body);
      BuryAndFenceKeepsCore(s, {itemId}, reason, at, body);
      BuryKeepsLiveConsent(s, {itemId}, reason, at, body);
    }
  }

  lemma ItemAtKey(records: map<ItemKey, Record>, k: ItemKey)
    requires ItemsInv(records) && k in records
    ensures records[k].item.Key() == k && records[k].item.Valid()
  {
  }

  lemma ScopeFences(s: Stream, scope: Scope, body: Body)
    requires RecordsInv(s.records, s.tombstones) && LanesInv(s) && Dense(s.data)
    requires body.ScopeDelete? && body.scope == scope
    requires body.deleteThroughDataPosition == s.data.next - 1
    ensures Fences(s, ItemsInScope(s, scope), body)
  {
    var doomed := ItemsInScope(s, scope);
    forall p | p in s.data.rows && s.data.rows[p].op.body.ItemPut?
      ensures var item := s.data.rows[p].op.body.item;
              && (item.itemId in doomed ==> Covers(body, item, p))
              && (Covers(body, item, p) ==> item.itemId in doomed || item.itemId in s.tombstones)
    {
      var item := s.data.rows[p].op.body.item;
      assert item.Key() in s.records;
      var n := NewestExists(s.records, item.Key());
      assert item.itemId !in s.tombstones ==> s.records[n].current;
      if item.itemId in doomed {
        var k :| k in s.records && s.records[k].current && s.records[k].item.scope == scope
                 && k.itemId == item.itemId;
        assert s.records[k].item.scope == s.records[item.Key()].item.scope;
      }
      assert s.records[n].item.scope == item.scope;
    }
  }

  /** Burying a scope keeps the invariant if what stays live cites active grants. */
  lemma ScopeDeleteKeepsInv(s: Stream, g: Grant, reason: Reason, at: Instant)
    requires CoreInv(s) && EnqueueScopeDelete(s, g, reason, at).Success?
    requires forall k :: k in s.records && s.records[k].current
                         && s.records[k].item.scope != g.scope ==>
               var h := CurrentGrant(s, s.records[k].item.consent.grantId);
               h.Some? && h.value.status == Active
    ensures Inv(EnqueueScopeDelete(s, g, reason, at).value)
  {
    hide LogInv, LanesInv, RecordsInv, ConsentInv, AuthorityInv, Fences, CurrentGrant, IdsInv,
      LiveRevisions;
    var doomed := ItemsInScope(s, g.scope);
    forall i | i in doomed ensures LiveRevisions(s, i) != {} { LiveHaveRevisions(s, i); }
    var body := ScopeDelete(g.Ref(), g.scope, s.data.next - 1, reason, at);
    LogIsDense(s, Data);
    ScopeFences(s, g.scope, body);
    BuryAndFenceKeepsCore(s, doomed, reason, at, body);
    forall k | k in s.records && s.records[k].current && k.itemId !in doomed
      ensures s.records[k].item.scope != g.scope
    {
    }
    BuryKeepsLiveConsent(s, doomed, reason, at, body);
  }

  lemma DeleteScopeKeepsInv(s: Stream, grantId: Id, reason: Reason, at: Instant)
    requires Inv(s) && DeleteScope(s, grantId, reason, at).Success?
    ensures Inv(DeleteScope(s, grantId, reason, at).value)
  {
    hide CoreInv, CurrentGrant, EnqueueScopeDelete;
    ScopeDeleteKeepsInv(s, CurrentGrant(s, grantId).value, reason, at);
  }

  lemma RevokeConsentKeepsInv(s: Stream, grantId: Id, at: Instant)
    requires Inv(s) && RevokeConsent(s, grantId, at).Success?
    ensures Inv(RevokeConsent(s, grantId, at).value)
  {
    hide LogInv, LanesInv, RecordsInv, IdsInv, Enqueue, EnqueueScopeDelete;
    var g := CurrentGrant(s, grantId).value;
    if g.status == Active {
      CurrentGrantIsNewest(s, grantId);
      var revoked := RevokedGrant(g, at);
      assert Follows(s, revoked);
      ConsentEnqueueKeepsCore(s, revoked, ConsentRevoke(revoked));
      var s1 := Enqueue(WithGrant(s, revoked), Control, ConsentRevoke(revoked)).value;
      assert s1.records == s.records by { EnqueueFrame(WithGrant(s, revoked), Control, ConsentRevoke(revoked)); }
      forall k | k in s1.records && s1.records[k].current && s1.records[k].item.scope != g.scope
        ensures var h := CurrentGrant(s1, s1.records[k].item.consent.grantId);
                h.Some? && h.value.status == Active
      {
        RevokedLeaves(s, revoked, ConsentRevoke(revoked), k);
      }
      hide ConsentInv, CurrentGrant;
      ScopeDeleteKeepsInv(s1, revoked, ConsentWithdrawn, at);
    }
  }

  lemma EnqueueFrame(s: Stream, lane: LaneId, body: Body)
    requires Enqueue(s, lane, body).Success?
    ensures var s' := Enqueue(s, lane, body).value;
            && s' == s.WithLog(lane, s'.Log(lane)).(minted := s.minted + 1)
            && s'.consent == s.consent && s'.records == s.records
            && s'.tombstones == s.tombstones
  {
  }

  /** An item outside the revoked scope was captured under another grant, whose state stands. */
  lemma RevokedLeaves(s: Stream, revoked: Grant, body: Body, k: ItemKey)
    requires Inv(s) && Follows(s, revoked) && CurrentGrant(s, revoked.grantId).Some?
    requires Enqueue(WithGrant(s, revoked), Control, body).Success?
    requires k in s.records && s.records[k].current && s.records[k].item.scope != revoked.scope
    ensures var s1 := Enqueue(WithGrant(s, revoked), Control, body).value;
            var h := CurrentGrant(s1, s.records[k].item.consent.grantId);
            h.Some? && h.value.status == Active
  {
    hide LogInv, LanesInv, RecordsInv, IdsInv;
    var s1 := Enqueue(WithGrant(s, revoked), Control, body).value;
    assert s1.consent == WithGrant(s, revoked).consent;
    hide Enqueue;
    var ref := s.records[k].item.consent;
    CurrentGrantIsNewest(s, revoked.grantId);
    assert s.consent[ref].scope == s.records[k].item.scope;
    assert ref.grantId != revoked.grantId;
    CurrentAfterStoring(s, revoked, ref.grantId);
    CurrentGrantFrame(WithGrant(s, revoked), s1, ref.grantId);
  }

  // ---- Capture ----

  /** An item revision that may be stored next: fresh at 1, or one past the live one. */
  ghost predicate Extends(s: Stream, item: Item) {
    && item.Valid() && item.itemId !in s.tombstones && item.itemId < s.minted
    && (forall k :: k in s.records && k.itemId == item.itemId ==>
          && k.revision < item.revision
          && s.records[k].item.scope == item.scope && s.records[k].item.consent == item.consent)
    && (forall r :: 1 <= r < item.revision ==> ItemKey(item.itemId, r) in s.records)
  }

  lemma InsertedEffect(s: Stream, item: Item)
    ensures var records' := Inserted(s, item).records;
            && records'.Keys == s.records.Keys + {item.Key()}
            && records'[item.Key()] == Record(item, true)
            && (forall k :: k in s.records && k != item.Key() ==>
                  && records'[k].item == s.records[k].item
                  && records'[k].current == (s.records[k].current && k.itemId != item.itemId))
  {
  }

  lemma InsertedKeepsItems(s: Stream, item: Item)
    requires ItemsInv(s.records) && Extends(s, item)
    ensures item.Key() !in s.records
    ensures ItemsInv(Inserted(s, item).records)
  {
    InsertedEffect(s, item);
    hide Inserted;
    var records' := Inserted(s, item).records;
    forall k, r | k in records' && 1 <= r <= k.revision ensures ItemKey(k.itemId, r) in records' {
      assert k == item.Key() || k in s.records;
    }
    forall k, l | k in records' && l in records' && k.itemId == l.itemId
      ensures records'[k].item.scope == records'[l].item.scope
      ensures records'[k].item.consent == records'[l].item.consent
    {
      assert k == item.Key() || k in s.records;
      assert l == item.Key() || l in s.records;
    }
    forall k | k in records' ensures records'[k].item.Key() == k && records'[k].item.Valid() {
      assert k == item.Key() || k in s.records;
    }
  }

  lemma InsertedNewest(s: Stream, item: Item, k: ItemKey)
    requires ItemsInv(s.records) && Extends(s, item)
    ensures IsNewest(Inserted(s, item).records, k)
            <==> k == item.Key() || (IsNewest(s.records, k) && k.itemId != item.itemId)
  {
    InsertedEffect(s, item);
    hide Inserted;
    if k != item.Key() && k.itemId == item.itemId && k in s.records {
      ItemAtKey(s.records, k);
      hide ItemsInv;
      assert k.revision < item.revision;
      assert k.revision + 1 < item.revision ==> ItemKey(item.itemId, k.revision + 1) in s.records;
    }
  }

  lemma NewestIsKnown(records: map<ItemKey, Record>)
    ensures forall k :: IsNewest(records, k) ==> k in records
  {
  }

  lemma PartitionAfterPut(records: map<ItemKey, Record>, records': map<ItemKey, Record>,
                          tombstones: map<Id, Tombstone>, key: ItemKey)
    requires PartitionInv(records, tombstones) && key.itemId !in tombstones
    requires records'.Keys == records.Keys + {key} && records'[key].current
    requires forall k :: k in records && k != key ==>
               records'[k].current == (records[k].current && k.itemId != key.itemId)
    requires forall k :: IsNewest(records', k)
               <==> k == key || (IsNewest(records, k) && k.itemId != key.itemId)
    ensures PartitionInv(records', tombstones)
  {
    NewestIsKnown(records);
    hide IsNewest;
    forall k | k in records' && records'[k].current
      ensures IsNewest(records', k) && k.itemId !in tombstones
    {
      assert k == key || records[k].current;
    }
    forall i | i in tombstones
      ensures IsNewest(records', ItemKey(i, tombstones[i].deleteThroughRevision))
    {
      assert i != key.itemId;
    }
  }

  lemma InsertedKeepsPartition(s: Stream, item: Item)
    requires RecordsInv(s.records, s.tombstones) && Extends(s, item)
    ensures PartitionInv(Inserted(s, item).records, s.tombstones)
  {
    var records' := Inserted(s, item).records;
    forall k ensures IsNewest(records', k) <==>
                     k == item.Key() || (IsNewest(s.records, k) && k.itemId != item.itemId)
    {
      InsertedNewest(s, item, k);
    }
    InsertedEffect(s, item);
    assert item.itemId !in s.tombstones;
    hide *;
    PartitionAfterPut(s.records, records', s.tombstones, item.Key());
  }

  /** The tables after a put: one data row more, nothing else in the lanes. */
  ghost predicate PutAppended(s: Stream, s': Stream, item: Item) {
    && s'.control == s.control && s'.tombstones == s.tombstones
    && s'.records == Inserted(s, item).records
    && s'.data.next == s.data.next + 1
    && s'.data.rows.Keys == s.data.rows.Keys + {s.data.next}
    && s'.data.rows[s.data.next].op.body == PutBody(item)
    && (forall p :: p in s.data.rows ==> s'.data.rows[p] == s.data.rows[p])
  }

  lemma PutAppends(s: Stream, item: Item)
    requires Dense(s.data) && Enqueue(Inserted(s, item), Data, PutBody(item)).Success?
    ensures PutAppended(s, Enqueue(Inserted(s, item), Data, PutBody(item)).value, item)
  {
  }

  /** No fence reaches a position not yet produced, and no item fence names a live item. */
  lemma NewPutUncovered(s: Stream, item: Item)
    requires LanesInv(s) && item.itemId !in s.tombstones
    ensures !Covered(s.control, item, s.data.next)
  {
    forall c | c in s.control.rows
      ensures !Covers(s.control.rows[c].op.body, item, s.data.next)
    {
      assert FenceBounded(s, s.control.rows[c].op.body);
    }
  }

  lemma PutKeepsStored(s: Stream, s': Stream, item: Item)
    requires PutsStored(s.data, s.records) && Extends(s, item) && PutAppended(s, s', item)
    ensures PutsStored(s'.data, s'.records)
  {
    InsertedEffect(s, item);
    hide Inserted;
    forall p | p in s'.data.rows
      ensures s'.data.rows[p].op.body.ItemPut?
      ensures s'.data.rows[p].op.body.item.Key() in s'.records
      ensures s'.data.rows[p].op.body.item == s'.records[s'.data.rows[p].op.body.item.Key()].item
    {
      if p != s.data.next {
        assert s.data.rows[p].op.body.item.Key() in s.records;
      }
    }
  }

  lemma PutKeepsAdvance(s: Stream, s': Stream, item: Item)
    requires PutsStored(s.data, s.records) && PutsAdvance(s.data) && Dense(s.data)
    requires Extends(s, item) && PutAppended(s, s', item)
    ensures PutsAdvance(s'.data)
  {
    hide Inserted;
    forall p, q | p in s'.data.rows && q in s'.data.rows && p < q
      ensures Advances(s'.data.rows[p].op.body, s'.data.rows[q].op.body)
    {
      assert p in s.data.rows && s.data.rows[p].op.body.item.Key() in s.records;
    }
  }

  lemma PutKeepsLive(s: Stream, s': Stream, item: Item)
    requires LivePut(s.data, s.records) && Dense(s.data) && PutAppended(s, s', item)
    ensures LivePut(s'.data, s'.records)
  {
    InsertedEffect(s, item);
    hide Inserted;
    forall k | k in s'.records && s'.records[k].current ensures exists p :: IsPut(s'.data, p, k) {
      if k == item.Key() {
        assert IsPut(s'.data, s.data.next, k);
      } else {
        var p :| IsPut(s.data, p, k);
        assert IsPut(s'.data, p, k);
      }
    }
  }

  lemma PutKeepsLanes(s: Stream, s': Stream, item: Item)
    requires LanesInv(s) && Dense(s.data) && Extends(s, item) && PutAppended(s, s', item)
    ensures LanesInv(s')
  {
    PutKeepsStored(s, s', item);
    PutKeepsAdvance(s, s', item);
    PutKeepsLive(s, s', item);
    NewPutUncovered(s, item);
    hide PutsStored, PutsAdvance, LivePut, Inserted;
    forall c | c in s'.control.rows ensures FenceBounded(s', s'.control.rows[c].op.body) {
      assert FenceBounded(s, s.control.rows[c].op.body);
    }
  }

  lemma PutKeepsInv(s: Stream, item: Item)
    requires Inv(s) && Extends(s, item)
    requires item.consent in s.consent && Authorised(s.consent[item.consent], item)
    requires CurrentGrant(s, item.consent.grantId).Some?
    requires CurrentGrant(s, item.consent.grantId).value.status == Active
    requires Enqueue(Inserted(s, item), Data, PutBody(item)).Success?
    ensures Inv(Enqueue(Inserted(s, item), Data, PutBody(item)).value)
  {
    hide LogInv, LanesInv, ItemsInv, PartitionInv, ConsentInv, CurrentGrant, Authorised;
    var s1 := Inserted(s, item);
    var s' := Enqueue(s1, Data, PutBody(item)).value;
    LogFrame(s, s1, Control);
    LogFrame(s, s1, Data);
    LogIsDense(s, Data);
    EnqueueKeepsLogs(s1, Data, PutBody(item));
    InsertedKeepsItems(s, item);
    InsertedKeepsPartition(s, item);
    InsertedEffect(s, item);
    PutAppends(s, item);
    PutKeepsLanes(s, s', item);
    assert s'.records == s1.records && s'.consent == s.consent;
    hide Inserted, Enqueue, Extends;
    forall k | k in s'.records && s'.records[k].current
      ensures var g := CurrentGrant(s', s'.records[k].item.consent.grantId);
              g.Some? && g.value.status == Active
    {
      CurrentGrantFrame(s, s', s'.records[k].item.consent.grantId);
      assert k == item.Key() || s.records[k].current;
    }
    forall k | k in s'.records
      ensures s'.records[k].item.consent in s'.consent
      ensures Authorised(s'.consent[s'.records[k].item.consent], s'.records[k].item)
    {
      assert k == item.Key() || k in s.records;
    }
  }

  /** The grant a capture may use is the stored revision it cites, active and in effect. */
  lemma AuthorizingGrantIsCurrent(s: Stream, ref: GrantRef, capturedAt: Instant)
    requires ConsentInv(s.consent, s.destinationId)
    requires AuthorizingGrant(s, ref, capturedAt).Success?
    ensures var g := AuthorizingGrant(s, ref, capturedAt).value;
            && CurrentGrant(s, ref.grantId) == Some(g)
            && ref in s.consent && s.consent[ref] == g
            && GrantRef(ref.grantId, ref.revision + 1) !in s.consent
            && g.status == Active && g.effectiveAt <= capturedAt < g.expiresAt
  {
    CurrentGrantIsNewest(s, ref.grantId);
    assert AuthorizingGrant(s, ref, capturedAt).value.Ref() == ref;
  }

  /** An item passes the eligibility check exactly when the grant authorises it, once it is valid. */
  lemma EligibleIffAuthorised(g: Grant, item: Item)
    requires item.Valid() && g.Valid() && g.effectiveAt <= item.capturedAt < g.expiresAt
    ensures Authorised(g, item) && RetentionLimit(g, item).Some? <==> Ineligible(g, item).None?
  {
  }

  lemma FreshExtends(s: Stream, item: Item)
    requires RecordsInv(s.records, s.tombstones) && IdsInv(s) && item.Valid()
    requires item.itemId == FreshItem(s) && item.revision == 1
    ensures Extends(s.(minted := s.minted + 1), item)
  {
    hide ItemsInv, PartitionInv, Item.Valid;
    FreshIsUntombstoned(s);
  }

  lemma CaptureKeepsInv(s: Stream, ref: GrantRef, input: CaptureInput)
    requires Inv(s) && CaptureDecision(s, ref, input).Success?
    ensures Inv(CaptureDecision(s, ref, input).value)
  {
    hide LogInv, LanesInv, ItemsInv, PartitionInv, CurrentGrant, Authorised, Ineligible, Inserted,
      AuthorityInv, LiveRevisions, LiveConsentInv, IdsInv;
    var g := AuthorizingGrant(s, ref, input.capturedAt).value;
    AuthorizingGrantIsCurrent(s, ref, input.capturedAt);
    assert g.Valid();
    hide ConsentInv;
    var item := CapturedItem(s, FreshItem(s), g, ref, input);
    var s0 := s.(minted := s.minted + 1);
    FreshExtends(s, item);
    MintingKeepsInv(s);
    EligibleIffAuthorised(g, item);
    CurrentGrantFrame(s, s0, ref.grantId);
    PutKeepsInv(s0, item);
  }

  lemma FreshIsUntombstoned(s: Stream)
    requires RecordsInv(s.records, s.tombstones) && IdsInv(s)
    ensures FreshItem(s) !in s.tombstones
  {
  }

  lemma MintingKeepsInv(s: Stream)
    requires Inv(s)
    ensures Inv(s.(minted := s.minted + 1))
  {
    hide ItemsInv, PartitionInv, ConsentInv, AuthorityInv, CurrentGrant;
    var s' := s.(minted := s.minted + 1);
    LogFrame(s, s', Control);
    LogFrame(s, s', Data);
    hide LogInv;
    LanesFrame(s, s');
    hide LanesInv;
    forall k | k in s'.records && s'.records[k].current
      ensures var g := CurrentGrant(s', s'.records[k].item.consent.grantId);
              g.Some? && g.value.status == Active
    {
      CurrentGrantFrame(s, s', s'.records[k].item.consent.grantId);
    }
  }

  lemma RevisionExtends(s: Stream, k: ItemKey, item: Item)
    requires RecordsInv(s.records, s.tombstones) && IdsInv(s) && item.Valid()
    requires k in s.records && s.records[k].current
    requires item.Key() == ItemKey(k.itemId, k.revision + 1)
    requires item.scope == s.records[k].item.scope && item.consent == s.records[k].item.consent
    ensures Extends(s, item)
  {
    assert IsNewest(s.records, k) && k.itemId !in s.tombstones;
    hide PartitionInv;
    forall l | l in s.records && l.itemId == k.itemId ensures l.revision < item.revision {
      NewestIsHighest(s.records, k, l);
    }
  }

  lemma ReviseKeepsInv(s: Stream, itemId: Id, relation: Relation, input: CaptureInput)
    requires Inv(s) && ReviseDecision(s, itemId, relation, input).Success?
    ensures Inv(ReviseDecision(s, itemId, relation, input).value)
  {
    hide LogInv, LanesInv, ItemsInv, PartitionInv, CurrentGrant, Authorised, Ineligible, Inserted,
      GrantRevisions;
    var k := LiveItemFound(s, itemId);
    var current := s.records[k].item;
    ItemAtKey(s.records, k);
    var g := AuthorizingGrant(s, current.consent, input.capturedAt).value;
    AuthorizingGrantIsCurrent(s, current.consent, input.capturedAt);
    assert g.Valid();
    hide ConsentInv, LiveRevisions;
    var item := RevisedItem(current, g, relation, input);
    EligibleIffAuthorised(g, item);
    RevisionExtends(s, k, item);
    PutKeepsInv(s, item);
  }

  // ---- Acknowledgement and receipts ----

  /** Two logs with the same operations at the same positions. */
  ghost predicate SameOperations(log: LaneLog, log': LaneLog) {
    && log'.next == log.next && log'.previous == log.previous
    && log'.rows.Keys == log.rows.Keys
    && (forall p :: p in log.rows ==> log'.rows[p].op == log.rows[p].op)
  }

  lemma CoveredFrame(control: LaneLog, control': LaneLog, item: Item, position: int)
    requires SameOperations(control, control')
    ensures Covered(control', item, position) <==> Covered(control, item, position)
  {
    if Covered(control, item, position) {
      var c :| c in control.rows && Covers(control.rows[c].op.body, item, position);
      assert Covers(control'.rows[c].op.body, item, position);
    }
  }

  /** The same tables, up to what was acknowledged, refused or completed. */
  ghost predicate SameHistory(s: Stream, s': Stream) {
    && s'.streamId == s.streamId && s'.replicaId == s.replicaId
    && s'.generation == s.generation && s'.destinationId == s.destinationId
    && s'.consent == s.consent && s'.records == s.records && s'.minted == s.minted
    && SameOperations(s.control, s'.control) && SameOperations(s.data, s'.data)
    && s'.tombstones.Keys == s.tombstones.Keys
    && (forall i :: i in s.tombstones ==>
          && s'.tombstones[i].deleteThroughRevision == s.tombstones[i].deleteThroughRevision
          && s'.tombstones[i].requestedAt == s.tombstones[i].requestedAt)
  }

  lemma LanesKeptBySameHistory(s: Stream, s': Stream)
    requires LanesInv(s) && SameHistory(s, s')
    ensures LanesInv(s')
  {
    forall p, q | p in s'.data.rows && q in s'.data.rows && p < q
      ensures Advances(s'.data.rows[p].op.body, s'.data.rows[q].op.body)
    {
      assert Advances(s.data.rows[p].op.body, s.data.rows[q].op.body);
    }
    forall k | k in s'.records && s'.records[k].current ensures exists p :: IsPut(s'.data, p, k) {
      var p :| IsPut(s.data, p, k);
      assert IsPut(s'.data, p, k);
    }
    forall c | c in s'.control.rows ensures FenceBounded(s', s'.control.rows[c].op.body) {
      assert FenceBounded(s, s.control.rows[c].op.body);
    }
    forall p | p in s'.data.rows && s'.data.rows[p].op.body.ItemPut?
      ensures Covered(s'.control, s'.data.rows[p].op.body.item, p)
              <==> s'.data.rows[p].op.body.item.itemId in s'.tombstones
    {
      assert s'.data.rows[p].op == s.data.rows[p].op;
      CoveredFrame(s.control, s'.control, s'.data.rows[p].op.body.item, p);
    }
  }

  lemma ChainFrame(log: LaneLog, log': LaneLog)
    requires Dense(log) && Chained(log) && SameOperations(log, log')
    ensures Dense(log') && Chained(log')
  {
  }

  lemma LogKeptBySameHistory(s: Stream, s': Stream, lane: LaneId)
    requires LogInv(s, lane) && SameHistory(s, s')
    requires Dense(s'.Log(lane)) && Settled(lane, s'.Log(lane))
    ensures LogInv(s', lane)
  {
    var log, log' := s.Log(lane), s'.Log(lane);
    assert SameOperations(log, log');
    ChainFrame(log, log');
    hide Settled, Chained, Dense, Operation.Sealed;
    forall p | p in log'.rows ensures Placed(s', lane, p, log'.rows[p].op) {
      assert Placed(s, lane, p, log.rows[p].op);
    }
  }

  lemma PartitionKeptBySameHistory(s: Stream, s': Stream)
    requires PartitionInv(s.records, s.tombstones) && SameHistory(s, s')
    ensures PartitionInv(s'.records, s'.tombstones)
  {
    hide IsNewest, SameOperations;
    forall i | i in s'.tombstones
      ensures IsNewest(s'.records, ItemKey(i, s'.tombstones[i].deleteThroughRevision))
    {
      assert IsNewest(s.records, ItemKey(i, s.tombstones[i].deleteThroughRevision));
    }
  }

  lemma LiveConsentFrame(s: Stream, s': Stream)
    requires LiveConsentInv(s) && s'.records == s.records && s'.consent == s.consent
    ensures LiveConsentInv(s')
  {
    hide CurrentGrant;
    forall k | k in s'.records && s'.records[k].current
      ensures var g := CurrentGrant(s', s'.records[k].item.consent.grantId);
              g.Some? && g.value.status == Active
    {
      CurrentGrantFrame(s, s', s'.records[k].item.consent.grantId);
    }
  }

  lemma SameHistoryKeepsInv(s: Stream, s': Stream)
    requires Inv(s) && SameHistory(s, s')
    requires Dense(s'.control) && Settled(Control, s'.control)
    requires Dense(s'.data) && Settled(Data, s'.data)
    ensures Inv(s')
  {
    hide LogInv, LanesInv, ConsentInv, AuthorityInv, ItemsInv, PartitionInv, LiveConsentInv,
      Settled, Dense, SameOperations;
    LanesKeptBySameHistory(s, s');
    PartitionKeptBySameHistory(s, s');
    LogKeptBySameHistory(s, s', Control);
    LogKeptBySameHistory(s, s', Data);
    LiveConsentFrame(s, s');
  }

  lemma AcceptKeepsSettled(lane: LaneId, log: LaneLog, through: int, at: Instant)
    requires Dense(log) && Settled(lane, log) && Accept(log, through, at).Success?
    ensures var log' := Accept(log, through, at).value;
            && SameOperations(log, log') && Dense(log') && Settled(lane, log')
            && log'.acknowledged == if log.acknowledged < through then through else log.acknowledged
  {
  }

  lemma RefuseKeepsSettled(lane: LaneId, log: LaneLog, position: int, code: string, at: Instant)
    requires Dense(log) && Settled(lane, log) && Refuse(log, lane, position, code, at).Success?
    ensures var log' := Refuse(log, lane, position, code, at).value;
            && SameOperations(log, log') && Dense(log') && Settled(lane, log')
            && log'.acknowledged == (if lane == Data && position == log.acknowledged + 1
                                     then position else log.acknowledged)
            && log'.rows[position].refused == Some(Refusal(at, code))
  {
  }

  lemma AcknowledgedLogKeeps(s: Stream, ack: Ack, at: Instant)
    requires Dense(s.Log(ack.lane)) && Settled(ack.lane, s.Log(ack.lane))
    requires AcknowledgedLog(s, ack, at).Success?
    ensures var log, log' := s.Log(ack.lane), AcknowledgedLog(s, ack, at).value;
            && SameOperations(log, log') && Dense(log') && Settled(ack.lane, log')
            && log.acknowledged <= log'.acknowledged
  {
    AcceptKeepsSettled(ack.lane, s.Log(ack.lane), ack.acceptedThrough, at);
    var accepted := Accept(s.Log(ack.lane), ack.acceptedThrough, at).value;
    if ack.rejection.Some? && !ack.rejection.value.retryable {
      RefuseKeepsSettled(ack.lane, accepted, ack.rejection.value.position,
                         ack.rejection.value.code, at);
    }
    hide Accept, Refuse, Settled, Dense;
  }

  lemma SameLog(log: LaneLog)
    ensures SameOperations(log, log)
  {
  }

  lemma InvLogs(s: Stream)
    requires Inv(s)
    ensures Dense(s.control) && Chained(s.control) && Settled(Control, s.control)
    ensures Dense(s.data) && Chained(s.data) && Settled(Data, s.data)
  {
    LogIsDense(s, Control);
    LogIsDense(s, Data);
  }

  lemma AcknowledgeKeepsInv(s: Stream, ack: Ack, at: Instant)
    requires Inv(s) && Acknowledge(s, ack, at).Success?
    ensures Inv(Acknowledge(s, ack, at).value)
    ensures SameHistory(s, Acknowledge(s, ack, at).value)
  {
    hide Inv, AcknowledgedLog, Settled, Chained, Dense, SameOperations;
    InvLogs(s);
    AcknowledgedLogKeeps(s, ack, at);
    SameLog(s.control);
    SameLog(s.data);
    SameHistoryKeepsInv(s, Acknowledge(s, ack, at).value);
  }

  lemma ReceiptKeepsInv(s: Stream, receipt: DeletionReceipt)
    requires Inv(s) && RecordDeletionReceipt(s, receipt).Success?
    ensures Inv(RecordDeletionReceipt(s, receipt).value)
    ensures SameHistory(s, RecordDeletionReceipt(s, receipt).value)
  {
    hide Inv, Settled, Chained, Dense, SameOperations, OperationsNamed;
    InvLogs(s);
    SameLog(s.control);
    SameLog(s.data);
    SameHistoryKeepsInv(s, RecordDeletionReceipt(s, receipt).value);
  }
}
