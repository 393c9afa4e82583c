/**
 Starting a generation: the new lanes re-describe everything the stream holds, once each, and the
 restart can always be carried out.
 */
module OutboxGeneration {
  import opened Wrappers
  import opened IntSets
  import opened SyncWire
  import opened OutboxModel
  import opened OutboxInvariant

  // ---- Enqueuing a list of bodies ----

  /** `s'` is `s` with exactly `bodies` appended to one lane, in order. */
  ghost predicate Appended(s: Stream, s': Stream, lane: LaneId, bodies: seq<Body>) {
    var log, log' := s.Log(lane), s'.Log(lane);
    && s' == s.WithLog(lane, log').(minted := s.minted + |bodies|)
    && log'.acknowledged == log.acknowledged
    && log'.next == log.next + |bodies|
    && (forall p :: p in log'.rows <==> p in log.rows || log.next <= p < log'.next)
    && (forall p :: p in log.rows && p < log.next ==> log'.rows[p] == log.rows[p])
    && (forall n :: 0 <= n < |bodies| ==> log'.rows[log.next + n].op.body == bodies[n])
  }

  ghost predicate Enqueueable(lane: LaneId, bodies: seq<Body>) {
    forall n :: 0 <= n < |bodies| ==> bodies[n].Lane() == lane && bodies[n].Valid()
  }

  lemma AppendOne(s: Stream, s1: Stream, lane: LaneId, bodies: seq<Body>, body: Body)
    requires Appended(s, s1, lane, bodies) && Dense(s.Log(lane)) && Dense(s1.Log(lane))
    requires Enqueue(s1, lane, body).Success?
    ensures Appended(s, Enqueue(s1, lane, body).value, lane, bodies + [body])
  {
    hide Operation.Valid;
    var s2 := Enqueue(s1, lane, body).value;
    assert s2.Log(lane) == Append(s1.Log(lane), Seal(Unsigned(s1, lane, body)));
    assert s2 == s.WithLog(lane, s2.Log(lane)).(minted := s.minted + |bodies| + 1);
  }

  lemma AppendedNothing(s: Stream, lane: LaneId)
    requires Dense(s.Log(lane))
    ensures Appended(s, s, lane, [])
  {
  }

  lemma AppendedKeepsNames(s: Stream, s': Stream, lane: LaneId, bodies: seq<Body>)
    requires Appended(s, s', lane, bodies)
    ensures s'.streamId == s.streamId && s'.replicaId == s.replicaId
    ensures s'.generation == s.generation && s'.destinationId == s.destinationId
    ensures s'.consent == s.consent && s'.records == s.records && s'.tombstones == s.tombstones
    ensures forall other :: other != lane ==> s'.Log(other) == s.Log(other)
    ensures s.minted <= s'.minted
  {
  }

  lemma {:induction false} EnqueueAllAppends(s: Stream, lane: LaneId, bodies: seq<Body>)
    requires 0 < s.generation && LogInv(s, Control) && LogInv(s, Data)
    requires Enqueueable(lane, bodies)
    ensures EnqueueAll(s, lane, bodies).Success?
    ensures var s' := EnqueueAll(s, lane, bodies).value;
            Appended(s, s', lane, bodies) && LogInv(s', Control) && LogInv(s', Data)
  {
    hide LogInv, Dense, Body.Valid, Enqueue, Appended, Chained, Settled;
    LogIsDense(s, lane);
    if bodies == [] {
      AppendedNothing(s, lane);
    } else {
      var front, body := bodies[..|bodies| - 1], bodies[|bodies| - 1];
      EnqueueAllAppends(s, lane, front);
      var s1 := EnqueueAll(s, lane, front).value;
      AppendedKeepsNames(s, s1, lane, front);
      LogIsDense(s1, lane);
      EnqueueSucceeds(s1, lane, body);
      EnqueueKeepsLogs(s1, lane, body);
      AppendOne(s, s1, lane, front, body);
      assert front + [body] == bodies;
    }
  }

  // ---- What is enqueued ----

  predicate Before(k: GrantRef, l: GrantRef) {
    k.grantId < l.grantId || (k.grantId == l.grantId && k.revision < l.revision)
  }

  /** The grant revision a body carries or cites. */
  function Cites(body: Body): GrantRef {
    match body
    case ConsentPut(grant) => grant.Ref()
    case ConsentRevoke(grant) => grant.Ref()
    case ItemPut(ref, _) => ref
    case ItemDelete(ref, _, _, _, _, _) => ref
    case ScopeDelete(ref, _, _, _, _) => ref
  }

  ghost predicate StatesConsent(s: Stream, grantIds: seq<Id>, body: Body) {
    var k := Cites(body);
    k in s.consent && k.grantId in grantIds && body == ConsentBody(s.consent[k])
  }

  /** Bodies that describe the stored revisions of some grants: each once, in revision order. */
  ghost predicate Describes(s: Stream, grantIds: seq<Id>, bodies: seq<Body>) {
    && (forall n :: 0 <= n < |bodies| ==> StatesConsent(s, grantIds, bodies[n]))
    && (forall n, m :: 0 <= n < m < |bodies| ==> Before(Cites(bodies[n]), Cites(bodies[m])))
    && (forall k :: k in s.consent && k.grantId in grantIds ==>
          ConsentBody(s.consent[k]) in bodies)
  }

  lemma RevisionBodyAt(s: Stream, grantId: Id, revisions: seq<int>, n: int)
    requires ConsentInv(s.consent, s.destinationId)
    requires forall n :: 0 <= n < |revisions| ==> GrantRef(grantId, revisions[n]) in s.consent
    requires 0 <= n < |revisions|
    ensures var body := RevisionBodies(s, grantId, revisions)[n];
            Cites(body) == GrantRef(grantId, revisions[n]) && StatesConsent(s, [grantId], body)
  {
    assert s.consent[GrantRef(grantId, revisions[n])].Ref() == GrantRef(grantId, revisions[n]);
  }

  lemma RevisionListed(s: Stream, revisions: seq<int>, k: GrantRef)
    requires k in s.consent && revisions == Ascending(GrantRevisions(s, k.grantId))
    requires forall n :: 0 <= n < |revisions| ==> GrantRef(k.grantId, revisions[n]) in s.consent
    ensures ConsentBody(s.consent[k]) in RevisionBodies(s, k.grantId, revisions)
  {
    assert k.revision in GrantRevisions(s, k.grantId);
    var n :| 0 <= n < |revisions| && revisions[n] == k.revision;
    assert k == GrantRef(k.grantId, revisions[n]);
    assert RevisionBodies(s, k.grantId, revisions)[n] == ConsentBody(s.consent[k]);
  }

  lemma RevisionsComplete(s: Stream, grantId: Id, revisions: seq<int>)
    requires revisions == Ascending(GrantRevisions(s, grantId))
    requires forall n :: 0 <= n < |revisions| ==> GrantRef(grantId, revisions[n]) in s.consent
    ensures forall k :: k in s.consent && k.grantId in [grantId] ==>
              ConsentBody(s.consent[k]) in RevisionBodies(s, grantId, revisions)
  {
    hide *;
    forall k | k in s.consent && k.grantId in [grantId]
      ensures ConsentBody(s.consent[k]) in RevisionBodies(s, grantId, revisions)
    {
      RevisionListed(s, revisions, k);
    }
  }

  lemma RevisionsDescribe(s: Stream, grantId: Id, revisions: seq<int>)
    requires ConsentInv(s.consent, s.destinationId)
    requires revisions == Ascending(GrantRevisions(s, grantId))
    requires forall n :: 0 <= n < |revisions| ==> GrantRef(grantId, revisions[n]) in s.consent
    ensures Describes(s, [grantId], RevisionBodies(s, grantId, revisions))
  {
    var bodies := RevisionBodies(s, grantId, revisions);
    assert |bodies| == |revisions|;
    hide ConsentInv, RevisionBodies, Ascending, GrantRevisions, ConsentBody, StatesConsent, Cites;
    RevisionsComplete(s, grantId, revisions);
    forall n | 0 <= n < |bodies|
      ensures StatesConsent(s, [grantId], bodies[n])
      ensures Cites(bodies[n]) == GrantRef(grantId, revisions[n])
    {
      RevisionBodyAt(s, grantId, revisions, n);
    }
  }

  lemma JoinDescriptions(s: Stream, front: seq<Id>, last: Id, a: seq<Body>, b: seq<Body>)
    requires Describes(s, front, a) && Describes(s, [last], b)
    requires forall i :: i in front ==> i < last
    ensures Describes(s, front + [last], a + b)
  {
    hide ConsentBody, Cites;
    forall n, m | 0 <= n < |a| && 0 <= m < |b| ensures Before(Cites(a[n]), Cites(b[m])) {
      assert StatesConsent(s, front, a[n]) && StatesConsent(s, [last], b[m]);
    }
    forall n | 0 <= n < |a + b| ensures StatesConsent(s, front + [last], (a + b)[n]) {
      assert n < |a| ==> StatesConsent(s, front, a[n]);
      assert n >= |a| ==> StatesConsent(s, [last], b[n - |a|]);
    }
    hide StatesConsent;
    forall k | k in s.consent && k.grantId in front + [last]
      ensures ConsentBody(s.consent[k]) in a + b
    {
      assert ConsentBody(s.consent[k]) in a || ConsentBody(s.consent[k]) in b;
    }
  }

  lemma {:induction false} ConsentDescribes(s: Stream, grantIds: seq<Id>)
    requires ConsentInv(s.consent, s.destinationId)
    requires forall i, j :: 0 <= i < j < |grantIds| ==> grantIds[i] < grantIds[j]
    ensures Describes(s, grantIds, ConsentBodies(s, grantIds))
  {
    hide ConsentInv, Ascending, GrantRevisions, RevisionBodies, ConsentBody;
    if grantIds == [] {
      NothingDescribed(s);
    } else {
      hide Describes;
      var front, last := grantIds[..|grantIds| - 1], grantIds[|grantIds| - 1];
      ConsentDescribes(s, front);
      RevisionsAreStored(s, last, Ascending(GrantRevisions(s, last)));
      RevisionsDescribe(s, last, Ascending(GrantRevisions(s, last)));
      assert forall i :: i in front ==> i < last;
      JoinDescriptions(s, front, last, ConsentBodies(s, front),
                       RevisionBodies(s, last, Ascending(GrantRevisions(s, last))));
      assert front + [last] == grantIds;
    }
  }

  lemma NothingDescribed(s: Stream)
    ensures Describes(s, [], [])
  {
  }

  /** Bodies that put every live item at its newest revision, once each, in item order. */
  ghost predicate DescribesLive(s: Stream, bodies: seq<Body>) {
    && (forall n :: 0 <= n < |bodies| ==>
          && bodies[n].ItemPut? && bodies[n].item.Key() in s.records
          && s.records[bodies[n].item.Key()].current
          && bodies[n] == PutBody(s.records[bodies[n].item.Key()].item))
    && (forall n, m :: 0 <= n < m < |bodies| ==> bodies[n].item.itemId < bodies[m].item.itemId)
    && (forall k :: k in s.records && s.records[k].current ==>
          PutBody(s.records[k].item) in bodies)
  }

  /** The deletion that restates one tombstone. */
  function Restatement(s: Stream, itemId: Id): Body
    requires Joins(s, itemId)
  {
    var t := s.tombstones[itemId];
    TombstoneBody(s.records[ItemKey(itemId, t.deleteThroughRevision)].item, itemId, t)
  }

  /** Bodies that delete every tombstoned item through its tombstone, once each, in item order. */
  ghost predicate DescribesDead(s: Stream, bodies: seq<Body>) {
    && (forall n :: 0 <= n < |bodies| ==>
          && bodies[n].ItemDelete? && Joins(s, bodies[n].itemId)
          && bodies[n] == Restatement(s, bodies[n].itemId))
    && (forall n, m :: 0 <= n < m < |bodies| ==> bodies[n].itemId < bodies[m].itemId)
    && (forall i :: i in s.tombstones ==> Joins(s, i) && Restatement(s, i) in bodies)
  }

  lemma PutBodyAt(s: Stream, live: seq<Id>, n: int)
    requires RecordsInv(s.records, s.tombstones)
    requires forall n :: 0 <= n < |live| ==> LiveRevisions(s, live[n]) != {}
    requires 0 <= n < |live|
    ensures var body := PutBodies(s, live)[n];
            && body.ItemPut? && body.item.itemId == live[n] && body.item.Key() in s.records
            && s.records[body.item.Key()].current
            && body == PutBody(s.records[body.item.Key()].item)
  {
    var k := LiveItemFound(s, live[n]);
    ItemAtKey(s.records, k);
  }

  lemma PutsDescribe(s: Stream, live: seq<Id>, bodies: seq<Body>)
    requires RecordsInv(s.records, s.tombstones)
    requires live == Ascending(LiveItems(s))
    requires forall n :: 0 <= n < |live| ==> LiveRevisions(s, live[n]) != {}
    requires bodies == PutBodies(s, live)
    ensures DescribesLive(s, bodies)
  {
    assert forall n, m :: 0 <= n < m < |live| ==> live[n] < live[m];
    hide PutBodies, LiveRevisions, ItemsInv, PartitionInv, Ascending, LiveItems, PutBody;
    forall n | 0 <= n < |bodies|
      ensures bodies[n].ItemPut? && bodies[n].item.itemId == live[n]
      ensures bodies[n].item.Key() in s.records && s.records[bodies[n].item.Key()].current
      ensures bodies[n] == PutBody(s.records[bodies[n].item.Key()].item)
    {
      PutBodyAt(s, live, n);
    }
    forall k | k in s.records && s.records[k].current
      ensures PutBody(s.records[k].item) in bodies
    {
      LivePutListed(s, live, k);
    }
  }

  lemma LivePutListed(s: Stream, live: seq<Id>, k: ItemKey)
    requires RecordsInv(s.records, s.tombstones)
    requires live == Ascending(LiveItems(s))
    requires forall n :: 0 <= n < |live| ==> LiveRevisions(s, live[n]) != {}
    requires k in s.records && s.records[k].current
    ensures PutBody(s.records[k].item) in PutBodies(s, live)
  {
    assert k.itemId in LiveItems(s);
    var n :| 0 <= n < |live| && live[n] == k.itemId;
    CurrentItemIsLive(s, k);
    assert PutBodies(s, live)[n] == PutBody(s.records[k].item);
  }

  /** Under the invariant the join on the deleted revision finds the record of every tombstone. */
  lemma TombstonesJoin(s: Stream)
    requires RecordsInv(s.records, s.tombstones)
    ensures forall i :: i in s.tombstones ==> Joins(s, i)
    ensures JoinedTombstones(s) == s.tombstones.Keys
  {
    forall i | i in s.tombstones ensures Joins(s, i) {
      assert IsNewest(s.records, ItemKey(i, s.tombstones[i].deleteThroughRevision));
    }
  }

  lemma DeadListed(s: Stream, dead: seq<Id>, i: Id)
    requires dead == Ascending(JoinedTombstones(s)) && Joins(s, i)
    requires forall n :: 0 <= n < |dead| ==> Joins(s, dead[n])
    ensures Restatement(s, i) in DeleteBodies(s, dead)
  {
    assert i in JoinedTombstones(s);
    var n :| 0 <= n < |dead| && dead[n] == i;
    assert DeleteBodies(s, dead)[n] == Restatement(s, i);
  }

  lemma DeleteBodyAt(s: Stream, dead: seq<Id>, n: int)
    requires forall n :: 0 <= n < |dead| ==> Joins(s, dead[n])
    requires 0 <= n < |dead|
    ensures var body := DeleteBodies(s, dead)[n];
            && body.ItemDelete? && body.itemId == dead[n]
            && Joins(s, dead[n]) && body == Restatement(s, dead[n])
  {
    assert Joins(s, dead[n]);
  }

  lemma DeadComplete(s: Stream, dead: seq<Id>, bodies: seq<Body>)
    requires RecordsInv(s.records, s.tombstones)
    requires dead == Ascending(JoinedTombstones(s))
    requires forall n :: 0 <= n < |dead| ==> Joins(s, dead[n])
    requires bodies == DeleteBodies(s, dead)
    ensures forall i :: i in s.tombstones ==> Joins(s, i) && Restatement(s, i) in bodies
  {
    TombstonesJoin(s);
    hide *;
    forall i | i in s.tombstones ensures Joins(s, i) && Restatement(s, i) in bodies {
      DeadListed(s, dead, i);
    }
  }

  lemma DeletesDescribe(s: Stream, dead: seq<Id>, bodies: seq<Body>)
    requires RecordsInv(s.records, s.tombstones)
    requires dead == Ascending(JoinedTombstones(s))
    requires forall n :: 0 <= n < |dead| ==> Joins(s, dead[n])
    requires bodies == DeleteBodies(s, dead)
    ensures DescribesDead(s, bodies)
  {
    DeadComplete(s, dead, bodies);
    assert |bodies| == |dead|;
    hide RecordsInv, ItemsInv, PartitionInv, Ascending, JoinedTombstones, DeleteBodies, Joins, Restatement;
    forall n | 0 <= n < |bodies|
      ensures bodies[n].ItemDelete? && bodies[n].itemId == dead[n]
      ensures Joins(s, dead[n]) && bodies[n] == Restatement(s, dead[n])
    {
      DeleteBodyAt(s, dead, n);
    }
  }

  lemma ConsentBodiesValid(s: Stream, grantIds: seq<Id>, bodies: seq<Body>)
    requires ConsentInv(s.consent, s.destinationId) && Describes(s, grantIds, bodies)
    ensures Enqueueable(Control, bodies)
  {
    hide Grant.Valid;
    forall n | 0 <= n < |bodies| ensures bodies[n].Lane() == Control && bodies[n].Valid() {
      assert StatesConsent(s, grantIds, bodies[n]);
      assert s.consent[Cites(bodies[n])].Valid();
    }
  }

  lemma PutBodiesValid(s: Stream, bodies: seq<Body>)
    requires ItemsInv(s.records) && DescribesLive(s, bodies)
    ensures Enqueueable(Data, bodies)
  {
    forall n | 0 <= n < |bodies| ensures bodies[n].Lane() == Data && bodies[n].Valid() {
      ItemAtKey(s.records, bodies[n].item.Key());
    }
  }

  lemma DeleteBodiesValid(s: Stream, bodies: seq<Body>)
    requires RecordsInv(s.records, s.tombstones) && DescribesDead(s, bodies)
    ensures Enqueueable(Control, bodies)
  {
    forall n | 0 <= n < |bodies| ensures bodies[n].Lane() == Control && bodies[n].Valid() {
      var i := bodies[n].itemId;
      assert Joins(s, i);
      ItemAtKey(s.records, ItemKey(i, s.tombstones[i].deleteThroughRevision));
    }
  }

  // ---- The restart ----

  function Bodies(log: LaneLog): seq<Body>
    requires forall p :: 0 <= p < log.next ==> p in log.rows
  {
    if log.next < 0 then [] else seq(log.next, p requires 0 <= p < log.next => log.rows[p].op.body)
  }

  /** A restarted stream holds the same tables and lanes that restate them, nothing confirmed. */
  ghost predicate Restates(s: Stream, s': Stream, consents: seq<Body>, deletions: seq<Body>) {
    && s'.generation == s.generation + 1 && s.minted <= s'.minted
    && s'.streamId == s.streamId && s'.replicaId == s.replicaId
    && s'.destinationId == s.destinationId
    && s'.consent == s.consent && s'.records == s.records && s'.tombstones == s.tombstones
    && s'.control.acknowledged == -1 && s'.data.acknowledged == -1
    && Dense(s'.control) && Dense(s'.data)
    && Bodies(s'.control) == consents + deletions
    && Describes(s, Ascending(GrantIds(s)), consents)
    && DescribesDead(s, deletions)
    && DescribesLive(s, Bodies(s'.data))
  }

  lemma RestartedLogs(s: Stream)
    ensures LogInv(Restarted(s), Control) && LogInv(Restarted(s), Data)
  {
  }

  lemma BodiesOfAppended(s: Stream, s': Stream, lane: LaneId, bodies: seq<Body>)
    requires Dense(s.Log(lane)) && Dense(s'.Log(lane)) && Appended(s, s', lane, bodies)
    ensures Bodies(s'.Log(lane)) == Bodies(s.Log(lane)) + bodies
  {
    hide Appended;
    AppendedLength(s, s', lane, bodies);
    forall p | 0 <= p < s'.Log(lane).next
      ensures Bodies(s'.Log(lane))[p] == (Bodies(s.Log(lane)) + bodies)[p]
    {
      AppendedBodyAt(s, s', lane, bodies, p);
    }
  }

  lemma AppendedLength(s: Stream, s': Stream, lane: LaneId, bodies: seq<Body>)
    requires Appended(s, s', lane, bodies) && Dense(s.Log(lane)) && Dense(s'.Log(lane))
    ensures s'.Log(lane).next == s.Log(lane).next + |bodies|
  {
  }

  lemma AppendedBodyAt(s: Stream, s': Stream, lane: LaneId, bodies: seq<Body>, p: int)
    requires Dense(s.Log(lane)) && Dense(s'.Log(lane)) && Appended(s, s', lane, bodies)
    requires 0 <= p < s'.Log(lane).next
    ensures p < |Bodies(s.Log(lane)) + bodies|
    ensures Bodies(s'.Log(lane))[p] == (Bodies(s.Log(lane)) + bodies)[p]
  {
    AppendedRowAt(s, s', lane, bodies, p);
    AppendedLength(s, s', lane, bodies);
    hide Appended, Stream.Log;
  }

  lemma AppendedRowAt(s: Stream, s': Stream, lane: LaneId, bodies: seq<Body>, p: int)
    requires Appended(s, s', lane, bodies) && Dense(s.Log(lane)) && Dense(s'.Log(lane))
    requires 0 <= p < s'.Log(lane).next
    ensures p < s.Log(lane).next ==> s'.Log(lane).rows[p] == s.Log(lane).rows[p]
    ensures s.Log(lane).next <= p ==> p - s.Log(lane).next < |bodies|
    ensures s.Log(lane).next <= p ==>
              s'.Log(lane).rows[p].op.body == bodies[p - s.Log(lane).next]
  {
    var n := p - s.Log(lane).next;
    assert n >= 0 ==> s'.Log(lane).rows[s.Log(lane).next + n].op.body == bodies[n];
  }

  /** Appending to one lane extends its bodies and leaves the other lane and the tables alone. */
  lemma AppendStep(s: Stream, lane: LaneId, bodies: seq<Body>)
    requires 0 < s.generation && LogInv(s, Control) && LogInv(s, Data)
    requires Enqueueable(lane, bodies)
    ensures EnqueueAll(s, lane, bodies).Success?
    ensures var s' := EnqueueAll(s, lane, bodies).value;
            && s' == s.WithLog(lane, s'.Log(lane)).(minted := s'.minted)
            && LogInv(s', Control) && LogInv(s', Data)
            && Dense(s.Log(lane)) && Dense(s'.Log(lane))
            && s.minted <= s'.minted
            && s'.Log(lane).acknowledged == s.Log(lane).acknowledged
            && Bodies(s'.Log(lane)) == Bodies(s.Log(lane)) + bodies
  {
    EnqueueAllAppends(s, lane, bodies);
    var s' := EnqueueAll(s, lane, bodies).value;
    hide EnqueueAll, Enqueueable, LogInv, Chained, Settled, Bodies;
    LogIsDense(s, lane);
    LogIsDense(s', lane);
    BodiesOfAppended(s, s', lane, bodies);
  }

  /**
   A restart never fails, and its lanes hold exactly one operation per stored consent revision in
   revision order, one put per live item at its newest revision, and one deletion per tombstone.
   */
  lemma BeginGenerationRestates(s: Stream) returns (consents: seq<Body>, deletions: seq<Body>)
    requires CoreInv(s)
    ensures BeginGeneration(s).Success?
    ensures Restates(s, BeginGeneration(s).value, consents, deletions)
    ensures LogInv(BeginGeneration(s).value, Control) && LogInv(BeginGeneration(s).value, Data)
  {
    hide ConsentInv, ItemsInv, PartitionInv, AuthorityInv, LanesInv, LogInv, Describes, EnqueueAll,
      DescribesLive, DescribesDead, Enqueueable, Appended, Dense, Chained, Settled, LiveRevisions,
      Joins;
    Enumerations(s);
    var live, dead := Ascending(LiveItems(s)), Ascending(JoinedTombstones(s));
    consents := ConsentBodies(s, Ascending(GrantIds(s)));
    var puts := PutBodies(s, live);
    deletions := DeleteBodies(s, dead);
    ConsentDescribes(s, Ascending(GrantIds(s)));
    PutsDescribe(s, live, puts);
    DeletesDescribe(s, dead, deletions);
    ConsentBodiesValid(s, Ascending(GrantIds(s)), consents);
    PutBodiesValid(s, puts);
    DeleteBodiesValid(s, deletions);
    RestartedLogs(s);
    var s1, s2, s3 := RestartAppends(Restarted(s), consents, puts, deletions);
  }

  lemma RestartAppends(s0: Stream, consents: seq<Body>, puts: seq<Body>, deletions: seq<Body>)
    returns (s1: Stream, s2: Stream, s3: Stream)
    requires 0 < s0.generation && LogInv(s0, Control) && LogInv(s0, Data)
    requires s0.control == EmptyLog && s0.data == EmptyLog
    requires Enqueueable(Control, consents) && Enqueueable(Data, puts)
    requires Enqueueable(Control, deletions)
    ensures EnqueueAll(s0, Control, consents) == Success(s1)
    ensures EnqueueAll(s1, Data, puts) == Success(s2)
    ensures EnqueueAll(s2, Control, deletions) == Success(s3)
    ensures LogInv(s3, Control) && LogInv(s3, Data) && Dense(s3.control) && Dense(s3.data)
    ensures Bodies(s3.control) == consents + deletions && Bodies(s3.data) == puts
    ensures s3 == s0.(control := s3.control, data := s3.data, minted := s3.minted)
    ensures s3.control.acknowledged == -1 && s3.data.acknowledged == -1
    ensures s0.minted <= s3.minted
  {
    hide LogInv, Enqueueable, EnqueueAll, Dense, Bodies;
    AppendStep(s0, Control, consents);
    s1 := EnqueueAll(s0, Control, consents).value;
    AppendStep(s1, Data, puts);
    s2 := EnqueueAll(s1, Data, puts).value;
    AppendStep(s2, Control, deletions);
    s3 := EnqueueAll(s2, Control, deletions).value;
    assert s3.data == s2.data && s2.control == s1.control && s1.data == s0.data;
    EmptyBodies();
  }

  lemma EmptyBodies()
    ensures Bodies(EmptyLog) == []
  {
  }

  // ---- The restart keeps the invariant ----

  lemma BodyAt(log: LaneLog, p: int)
    requires Dense(log) && p in log.rows
    ensures 0 <= p < |Bodies(log)| && log.rows[p].op.body == Bodies(log)[p]
  {
  }

  lemma RestatedPuts(s: Stream, s': Stream)
    requires s'.records == s.records && Dense(s'.data) && DescribesLive(s, Bodies(s'.data))
    ensures PutsStored(s'.data, s'.records) && PutsAdvance(s'.data)
  {
    forall p | p in s'.data.rows
      ensures var body := s'.data.rows[p].op.body;
              && body.ItemPut? && body.item.Key() in s'.records
              && body.item == s'.records[body.item.Key()].item
    {
      BodyAt(s'.data, p);
    }
    hide DescribesLive;
    forall p, q | p in s'.data.rows && q in s'.data.rows && p < q
      ensures Advances(s'.data.rows[p].op.body, s'.data.rows[q].op.body)
    {
      RestatedDistinct(s, s', p, q);
    }
  }

  lemma RestatedDistinct(s: Stream, s': Stream, p: int, q: int)
    requires Dense(s'.data) && DescribesLive(s, Bodies(s'.data))
    requires p in s'.data.rows && q in s'.data.rows && p < q
    ensures Advances(s'.data.rows[p].op.body, s'.data.rows[q].op.body)
  {
    BodyAt(s'.data, p);
    BodyAt(s'.data, q);
    assert Bodies(s'.data)[p].item.itemId < Bodies(s'.data)[q].item.itemId;
  }

  lemma RestatedLive(s: Stream, s': Stream)
    requires ItemsInv(s.records) && s'.records == s.records
    requires Dense(s'.data) && DescribesLive(s, Bodies(s'.data))
    ensures LivePut(s'.data, s'.records)
  {
    forall k | k in s'.records && s'.records[k].current ensures exists p :: IsPut(s'.data, p, k) {
      var p :| 0 <= p < |Bodies(s'.data)| && Bodies(s'.data)[p] == PutBody(s.records[k].item);
      BodyAt(s'.data, p);
      ItemAtKey(s.records, k);
      assert IsPut(s'.data, p, k);
    }
  }

  /** Each control row of the new generation states consent or restates a tombstone. */
  lemma RestatedControl(s: Stream, s': Stream, consents: seq<Body>, deletions: seq<Body>, c: int)
    requires Restates(s, s', consents, deletions) && c in s'.control.rows
    ensures var body := s'.control.rows[c].op.body;
            body.ConsentPut? || body.ConsentRevoke? ||
            (body.ItemDelete? && Joins(s, body.itemId) && body == Restatement(s, body.itemId))
  {
    BodyAt(s'.control, c);
    hide Bodies, Dense, DescribesLive, Ascending, Joins, Restatement;
    if c < |consents| {
      assert StatesConsent(s, Ascending(GrantIds(s)), consents[c]);
    } else {
      assert Bodies(s'.control)[c] == deletions[c - |consents|];
    }
  }

  lemma RestatedFences(s: Stream, s': Stream, consents: seq<Body>, deletions: seq<Body>)
    requires Restates(s, s', consents, deletions)
    requires RecordsInv(s.records, s.tombstones)
    ensures FencesBounded(s') && LanesAgree(s')
  {
    forall c | c in s'.control.rows ensures FenceBounded(s', s'.control.rows[c].op.body) {
      RestatedControl(s, s', consents, deletions, c);
    }
    forall p | p in s'.data.rows && s'.data.rows[p].op.body.ItemPut?
      ensures var item := s'.data.rows[p].op.body.item;
              !Covered(s'.control, item, p) && item.itemId !in s'.tombstones
    {
      RestatedUncovered(s, s', consents, deletions, p);
    }
  }

  lemma RestatedUncovered(s: Stream, s': Stream, consents: seq<Body>, deletions: seq<Body>, p: int)
    requires Restates(s, s', consents, deletions)
    requires RecordsInv(s.records, s.tombstones)
    requires p in s'.data.rows && s'.data.rows[p].op.body.ItemPut?
    ensures var item := s'.data.rows[p].op.body.item;
            !Covered(s'.control, item, p) && item.itemId !in s'.tombstones
  {
    var item := s'.data.rows[p].op.body.item;
    BodyAt(s'.data, p);
    assert s.records[item.Key()].current;
    assert item.itemId !in s.tombstones;
    forall c | c in s'.control.rows ensures !Covers(s'.control.rows[c].op.body, item, p) {
      RestatedControl(s, s', consents, deletions, c);
    }
  }

  lemma BeginGenerationKeepsInv(s: Stream)
    requires Inv(s)
    ensures BeginGeneration(s).Success? && Inv(BeginGeneration(s).value)
  {
    hide ConsentInv, ItemsInv, PartitionInv, AuthorityInv, LanesInv, LogInv, LiveConsentInv,
      BeginGeneration;
    var consents, deletions := BeginGenerationRestates(s);
    var s' := BeginGeneration(s).value;
    RestatedLanes(s, s', consents, deletions);
    hide DescribesLive, DescribesDead, Describes;
    LiveConsentFrame(s, s');
  }

  lemma RestatedLanes(s: Stream, s': Stream, consents: seq<Body>, deletions: seq<Body>)
    requires Restates(s, s', consents, deletions) && RecordsInv(s.records, s.tombstones)
    ensures LanesInv(s')
  {
    hide DescribesLive, DescribesDead, Describes, ItemsInv, PartitionInv, Dense, PutsStored,
      PutsAdvance, LivePut, FencesBounded, LanesAgree;
    RestatedPuts(s, s');
    RestatedLive(s, s');
    RestatedFences(s, s', consents, deletions);
  }
}
