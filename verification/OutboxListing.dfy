/**
 Listings of a stream: the bodies a restart enqueues one by one and how many they are, and the
 inventory of live and tombstoned items.
 */
module OutboxListing {
  import opened Wrappers
  import opened IntSets
  import opened SyncWire
  import opened OutboxModel
  import opened OutboxInvariant
  import opened OutboxGeneration

  lemma EnqueueAllNone(s: Stream, lane: LaneId)
    ensures EnqueueAll(s, lane, []) == Success(s)
  {
  }

  lemma EnqueueAllOne(s: Stream, lane: LaneId, bodies: seq<Body>, n: nat)
    requires n < |bodies| && EnqueueAll(s, lane, bodies[..n]).Success?
    ensures EnqueueAll(s, lane, bodies[..n + 1])
            == Enqueue(EnqueueAll(s, lane, bodies[..n]).value, lane, bodies[n])
  {
    hide Enqueue;
    assert bodies[..n + 1][..n] == bodies[..n];
  }

  lemma {:induction false} EnqueueAllFails(s: Stream, lane: LaneId, bodies: seq<Body>, n: nat)
    requires n <= |bodies| && EnqueueAll(s, lane, bodies[..n]).Failure?
    ensures EnqueueAll(s, lane, bodies) == EnqueueAll(s, lane, bodies[..n])
    decreases |bodies|
  {
    hide Enqueue;
    if n == |bodies| {
      assert bodies[..n] == bodies;
    } else {
      var front := bodies[..|bodies| - 1];
      assert front[..n] == bodies[..n];
      EnqueueAllFails(s, lane, front, n);
    }
  }

  lemma RestartUnfolds(s: Stream)
    ensures forall n :: 0 <= n < |Ascending(LiveItems(s))| ==>
              LiveRevisions(s, Ascending(LiveItems(s))[n]) != {}
    ensures forall n :: 0 <= n < |Ascending(JoinedTombstones(s))| ==>
              Joins(s, Ascending(JoinedTombstones(s))[n])
    ensures BeginGeneration(s) ==
              var s1 := EnqueueAll(Restarted(s), Control, ConsentBodies(s, Ascending(GrantIds(s))));
              if s1.Failure? then s1 else
              var s2 := EnqueueAll(s1.value, Data, PutBodies(s, Ascending(LiveItems(s))));
              if s2.Failure? then s2 else
              EnqueueAll(s2.value, Control, DeleteBodies(s, Ascending(JoinedTombstones(s))))
  {
    hide EnqueueAll, LiveItems, LiveRevisions, Joins, JoinedTombstones, ConsentBodies, Ascending,
      PutBodies, DeleteBodies;
    Enumerations(s);
  }

  lemma {:induction false} CitesCount(bodies: seq<Body>)
    requires forall n, m :: 0 <= n < m < |bodies| ==> Before(Cites(bodies[n]), Cites(bodies[m]))
    ensures |set body | body in bodies :: Cites(body)| == |bodies|
  {
    hide Cites;
    var cited := set body | body in bodies :: Cites(body);
    if bodies != [] {
      var front, last := bodies[..|bodies| - 1], bodies[|bodies| - 1];
      CitesCount(front);
      var citedFront := set body | body in front :: Cites(body);
      assert bodies == front + [last];
      assert cited == citedFront + {Cites(last)};
      assert Cites(last) !in citedFront;
    } else {
      assert cited == {};
    }
  }

  lemma CitedIsStored(s: Stream, grantIds: seq<Id>, bodies: seq<Body>, k: GrantRef)
    requires ConsentInv(s.consent, s.destinationId) && Describes(s, grantIds, bodies)
    requires forall k :: k in s.consent ==> k.grantId in grantIds
    ensures k in (set body | body in bodies :: Cites(body)) <==> k in s.consent
  {
    if k in s.consent {
      assert ConsentBody(s.consent[k]) in bodies;
      hide Describes;
      assert s.consent[k].Ref() == k;
      assert Cites(ConsentBody(s.consent[k])) == k;
    }
    hide ConsentInv, ConsentBody;
    if body :| body in bodies && Cites(body) == k {
      var n :| 0 <= n < |bodies| && bodies[n] == body;
      assert StatesConsent(s, grantIds, bodies[n]);
    }
  }

  lemma ConsentCount(s: Stream)
    requires ConsentInv(s.consent, s.destinationId)
    ensures |ConsentBodies(s, Ascending(GrantIds(s)))| == |s.consent|
  {
    hide ConsentBodies, ConsentInv, Cites, StatesConsent, ConsentBody;
    var grantIds := Ascending(GrantIds(s));
    ConsentDescribes(s, grantIds);
    CitesCount(ConsentBodies(s, grantIds));
    hide Describes;
    GrantsListed(s);
    CitedAreStored(s, grantIds, ConsentBodies(s, grantIds));
  }

  lemma GrantsListed(s: Stream)
    ensures forall k :: k in s.consent ==> k.grantId in Ascending(GrantIds(s))
  {
    forall k | k in s.consent ensures k.grantId in Ascending(GrantIds(s)) {
      assert k.grantId in GrantIds(s);
    }
  }

  lemma CitedAreStored(s: Stream, grantIds: seq<Id>, bodies: seq<Body>)
    requires ConsentInv(s.consent, s.destinationId) && Describes(s, grantIds, bodies)
    requires forall k :: k in s.consent ==> k.grantId in grantIds
    ensures (set body | body in bodies :: Cites(body)) == s.consent.Keys
  {
    hide *;
    var cited := set body | body in bodies :: Cites(body);
    forall k ensures k in cited <==> k in s.consent.Keys {
      CitedIsStored(s, grantIds, bodies, k);
    }
  }

  /** A restart enqueues one operation per stored consent revision, live item and tombstone. */
  lemma RestartCount(s: Stream)
    requires CoreInv(s)
    ensures |ConsentBodies(s, Ascending(GrantIds(s)))| == |s.consent|
    ensures |Ascending(LiveItems(s))| == |LiveItems(s)|
    ensures |Ascending(JoinedTombstones(s))| == |s.tombstones|
  {
    hide LogInv, LanesInv, AuthorityInv, ItemsInv, PartitionInv, ConsentInv, ConsentBodies,
      JoinedTombstones, Joins, LiveItems, GrantIds;
    ConsentCount(s);
    TombstonesJoin(s);
    AscendingSize(LiveItems(s));
    AscendingSize(JoinedTombstones(s));
  }

  function LiveListing(s: Stream): seq<ItemKey> {
    Enumerations(s);
    var ids := Ascending(LiveItems(s));
    seq(|ids|, n requires 0 <= n < |ids| => CurrentItem(s, ids[n]).value.Key())
  }

  function TombstoneListing(s: Stream): seq<ItemKey> {
    var ids := Ascending(s.tombstones.Keys);
    assert forall n :: 0 <= n < |ids| ==> ids[n] in ids;
    seq(|ids|, n requires 0 <= n < |ids| =>
      ItemKey(ids[n], s.tombstones[ids[n]].deleteThroughRevision))
  }

  /** Each list in item order; one names the live revisions, the other the tombstones. */
  ghost predicate Inventories(s: Stream, live: seq<ItemKey>, tombstones: seq<ItemKey>) {
    && (forall n, m :: 0 <= n < m < |live| ==> live[n].itemId < live[m].itemId)
    && (forall n, m :: 0 <= n < m < |tombstones| ==> tombstones[n].itemId < tombstones[m].itemId)
    && (forall k :: k in live <==> k in s.records && s.records[k].current)
    && (forall k :: k in tombstones <==>
          k.itemId in s.tombstones && s.tombstones[k.itemId].deleteThroughRevision == k.revision)
  }

  lemma LiveListed(s: Stream)
    requires RecordsInv(s.records, s.tombstones)
    ensures forall n, m :: 0 <= n < m < |LiveListing(s)| ==>
              LiveListing(s)[n].itemId < LiveListing(s)[m].itemId
    ensures forall k :: k in LiveListing(s) <==> k in s.records && s.records[k].current
  {
    hide ItemsInv, PartitionInv;
    Enumerations(s);
    var ids := Ascending(LiveItems(s));
    var live := LiveListing(s);
    forall n | 0 <= n < |live|
      ensures live[n].itemId == ids[n] && live[n] in s.records && s.records[live[n]].current
    {
      var k := LiveItemFound(s, ids[n]);
      ItemAtKey(s.records, k);
    }
    hide LiveListing;
    forall k | k in s.records && s.records[k].current ensures k in live {
      assert k.itemId in LiveItems(s);
      var n :| 0 <= n < |ids| && ids[n] == k.itemId;
      CurrentItemIsLive(s, live[n]);
      CurrentItemIsLive(s, k);
      assert live[n].revision in {k.revision};
    }
  }

  lemma TombstonesListed(s: Stream)
    ensures forall n, m :: 0 <= n < m < |TombstoneListing(s)| ==>
              TombstoneListing(s)[n].itemId < TombstoneListing(s)[m].itemId
    ensures forall k :: k in TombstoneListing(s) <==>
              k.itemId in s.tombstones && s.tombstones[k.itemId].deleteThroughRevision == k.revision
  {
    var ids := Ascending(s.tombstones.Keys);
    forall k: ItemKey | k.itemId in s.tombstones
               && s.tombstones[k.itemId].deleteThroughRevision == k.revision
      ensures k in TombstoneListing(s)
    {
      var n :| 0 <= n < |ids| && ids[n] == k.itemId;
      assert TombstoneListing(s)[n] == k;
    }
  }

  lemma InventoryListed(s: Stream)
    requires RecordsInv(s.records, s.tombstones)
    ensures Inventories(s, LiveListing(s), TombstoneListing(s))
  {
    hide LiveListing, TombstoneListing, RecordsInv;
    LiveListed(s);
    TombstonesListed(s);
  }

  /** The inventory names every known item exactly once, at its highest revision. */
  lemma InventoryPartitions(s: Stream, live: seq<ItemKey>, tombstones: seq<ItemKey>, k: ItemKey)
    requires Inv(s) && Inventories(s, live, tombstones) && k in s.records
    ensures exists n :: (n in live || n in tombstones) && n.itemId == k.itemId
                        && k.revision <= n.revision && IsNewest(s.records, n)
    ensures forall n, m :: n in live && m in tombstones ==> n.itemId != m.itemId
  {
    hide LogInv, LanesInv, AuthorityInv, ConsentInv, LiveConsentInv, IdsInv;
    var n := NewestExists(s.records, k);
    if n.itemId in s.tombstones {
      var t := ItemKey(n.itemId, s.tombstones[n.itemId].deleteThroughRevision);
      SameNewest(s.records, n, t);
    }
    assert n in live || n in tombstones;
  }
}
