/**
 What the outbox guarantees in every reachable state: after any sequence of calls on a stream that
 started empty, successful or not.
 */
module OutboxGuarantees {
  import opened Wrappers
  import opened SyncWire
  import opened OutboxModel
  import opened OutboxInvariant
  import opened OutboxGeneration
  import opened OutboxRuns
  import opened Receiver

  lemma ReachableInv(s: Stream)
    requires Reachable(s)
    ensures Inv(s)
  {
    hide Inv, Run;
    var streamId, replicaId, destinationId, calls :|
      s == Run(NewStream(streamId, replicaId, destinationId), calls);
    NewStreamInv(streamId, replicaId, destinationId);
    RunKeepsInv(NewStream(streamId, replicaId, destinationId), calls);
  }

  /** The receiver holds exactly the sender's live items, each at its newest revision. */
  ghost predicate HoldsLive(r: State, s: Stream) {
    && (forall i :: i in r.live ==> i in LiveItems(s))
    && (forall k :: k in s.records && s.records[k].current ==>
          k.itemId in r.live && r.live[k.itemId].item == s.records[k].item)
  }

  /**
   Two-lane convergence: a receiver that starts empty and is given the two lanes of the current
   generation, merged in any way that keeps each in order, ends with exactly the live items.
   */
  lemma LanesConverge(s: Stream)
    requires Reachable(s)
    ensures Dense(s.control) && Dense(s.data)
    ensures forall t :: Interleaves(t, Operations(s.control), Operations(s.data)) ==>
              HoldsLive(DeliverAll(t), s)
  {
    hide Reachable, CoreInv, LiveConsentInv, Interleaves, Operations, DeliverAll, LiveItems;
    ReachableInv(s);
    InvLogs(s);
    hide Dense;
    forall t | Interleaves(t, Operations(s.control), Operations(s.data))
      ensures HoldsLive(DeliverAll(t), s)
    {
      InterleavingsConverge(s, t);
    }
  }

  /** Convergence needs no order at all: any deliveries, repeated or not, that leave nothing out. */
  lemma DeliveriesConverge(s: Stream, t: seq<Operation>)
    requires Reachable(s) && DeliversAll(s, t)
    ensures HoldsLive(DeliverAll(t), s)
  {
    hide Reachable, CoreInv, LiveConsentInv, DeliverAll, LiveItems;
    ReachableInv(s);
    Converges(s, t);
  }

  /**
   Convergence when puts are left out, as those are that a destination refuses for good and the sender
   steps over: with the control lane delivered, the receiver holds exactly the live items of which any
   put was delivered, each at the newest revision delivered, and nothing tombstoned.
   */
  lemma LeftOutPutsConverge(s: Stream, t: seq<Operation>, i: Id)
    requires Reachable(s) && DeliversControl(s, t)
    ensures i in DeliverAll(t).live <==> i in LiveItems(s) && exists op :: op in t && PutOf(op, i)
    ensures i in DeliverAll(t).live ==> HoldsNewestOf(DeliverAll(t), t, i) && i !in s.tombstones
  {
    hide Reachable, LiveConsentInv, DeliverAll, LiveItems, DeliversControl, HoldsNewestOf, PutOf,
      CoreInv;
    ReachableInv(s);
    LeftOutPuts(s, t, i);
    if i in s.tombstones {
      TombstonedIsNotLive(s, i);
    }
  }

  /**
   Deletions bind a receiver before it has seen everything: whatever part of the lanes was delivered,
   in whatever order, a deleted item is not held, and what is held of a deleted scope was produced
   after the deletion.
   */
  lemma DeletionsBind(s: Stream, t: seq<Operation>, d: Operation)
    requires Reachable(s) && OnlyProduced(s, t) && d in t
    ensures d.body.ItemDelete? ==> d.body.itemId !in DeliverAll(t).live
    ensures d.body.ScopeDelete? ==>
              forall i :: i in DeliverAll(t).live && DeliverAll(t).live[i].item.scope == d.body.scope ==>
                d.body.deleteThroughDataPosition < DeliverAll(t).live[i].position
  {
    hide Reachable, CoreInv, LiveConsentInv, DeliverAll, OnlyProduced;
    ReachableInv(s);
    if d.body.ItemDelete? {
      DeletionIsFinal(s, t, d, d.body.itemId);
    }
    if d.body.ScopeDelete? {
      forall i | i in DeliverAll(t).live && DeliverAll(t).live[i].item.scope == d.body.scope
        ensures d.body.deleteThroughDataPosition < DeliverAll(t).live[i].position
      {
        ScopeFenceIsFinal(s, t, d, i);
      }
    }
  }

  /**
   A new generation loses nothing: a fresh receiver of it, given every operation in any order, ends
   with the live items of the old tables and a fence for each tombstone, and no other fence.
   */
  lemma RestartConverges(s: Stream, t: seq<Operation>)
    requires Reachable(s) && BeginGeneration(s).Success?
    requires DeliversAll(BeginGeneration(s).value, t)
    ensures HoldsLive(DeliverAll(t), s)
    ensures forall i :: i in s.tombstones <==> i in DeliverAll(t).itemFences
    ensures forall i :: i in s.tombstones && i in DeliverAll(t).itemFences ==>
              DeliverAll(t).itemFences[i] == s.tombstones[i].deleteThroughRevision
    ensures DeliverAll(t).scopeFences == map[]
  {
    hide Reachable, CoreInv, LiveConsentInv, DeliverAll, LiveItems, BeginGeneration;
    ReachableInv(s);
    RestartReachesInventory(s, t);
  }

  lemma RestartSucceeds(s: Stream) returns (consents: seq<Body>, deletions: seq<Body>)
    requires Reachable(s)
    ensures BeginGeneration(s).Success?
    ensures Restates(s, BeginGeneration(s).value, consents, deletions)
  {
    hide Reachable, BeginGeneration, Restates, LiveConsentInv;
    ReachableInv(s);
    InvIsCore(s);
    hide Inv, CoreInv;
    consents, deletions := BeginGenerationRestates(s);
  }

  /**
   Revisions of an item are dense from 1, and a known item is either live at its highest revision, and
   only there, or tombstoned through it.
   */
  lemma ItemsArePartitioned(s: Stream, k: ItemKey)
    requires Reachable(s) && k in s.records
    ensures 1 <= k.revision
    ensures forall r :: 1 <= r <= k.revision ==> ItemKey(k.itemId, r) in s.records
    ensures s.records[k].current ==>
              && k.itemId !in s.tombstones
              && forall l :: l in s.records && l.itemId == k.itemId ==>
                   l.revision <= k.revision && (s.records[l].current ==> l == k)
    ensures k.itemId !in s.tombstones ==>
              exists l :: l in s.records && l.itemId == k.itemId && s.records[l].current
    ensures k.itemId in s.tombstones ==>
              && ItemKey(k.itemId, s.tombstones[k.itemId].deleteThroughRevision) in s.records
              && k.revision <= s.tombstones[k.itemId].deleteThroughRevision
  {
    hide Reachable, LogInv, LanesInv, ConsentInv, AuthorityInv, LiveConsentInv, IdsInv;
    ReachableInv(s);
    RevisionsStartAtOne(s.records, k);
    if s.records[k].current {
      forall l | l in s.records && l.itemId == k.itemId
        ensures l.revision <= k.revision && (s.records[l].current ==> l == k)
      {
        NewestIsHighest(s.records, k, l);
        if s.records[l].current { SameNewest(s.records, k, l); }
      }
    }
    var n := NewestExists(s.records, k);
    if k.itemId in s.tombstones {
      NewestIsHighest(s.records, ItemKey(k.itemId, s.tombstones[k.itemId].deleteThroughRevision), k);
    }
  }

  /** A tombstoned item stays tombstoned through the same revision, and never becomes live again. */
  lemma TombstonesStay(s: Stream, calls: seq<Call>, i: Id)
    requires Reachable(s) && i in s.tombstones
    ensures i in Run(s, calls).tombstones && i !in LiveItems(Run(s, calls))
    ensures Run(s, calls).tombstones[i].deleteThroughRevision
            == s.tombstones[i].deleteThroughRevision
  {
    hide Reachable, Inv, Run, LiveItems;
    ReachableInv(s);
    TombstonesAreFinal(s, calls, i);
  }

  /**
   No live item cites a grant whose newest revision is revoked, and the revision it cites is stored,
   active and permits it.
   */
  lemma LiveItemsHaveConsent(s: Stream, k: ItemKey)
    requires Reachable(s) && k in s.records && s.records[k].current
    ensures var item := s.records[k].item;
            && item.consent in s.consent
            && Authorised(s.consent[item.consent], item)
            && CurrentGrant(s, item.consent.grantId).Some?
            && CurrentGrant(s, item.consent.grantId).value.status == Active
  {
    hide Reachable, CurrentGrant, LogInv, LanesInv, RecordsInv, ConsentInv;
    ReachableInv(s);
  }

  /** Revisions of a grant are dense from 1, with one scope, purpose and destination. */
  lemma GrantRevisionsAgree(s: Stream, k: GrantRef, l: GrantRef)
    requires Reachable(s) && k in s.consent && l in s.consent && k.grantId == l.grantId
    ensures forall r :: 1 <= r <= k.revision ==> GrantRef(k.grantId, r) in s.consent
    ensures s.consent[k].Ref() == k && s.consent[k].destinationId == s.destinationId
    ensures s.consent[k].scope == s.consent[l].scope
    ensures s.consent[k].purpose == s.consent[l].purpose
  {
    hide Reachable, LogInv, LanesInv, RecordsInv, AuthorityInv, LiveConsentInv;
    ReachableInv(s);
  }

  /** Every position at or below a cursor was acknowledged, or on the data lane refused for good. */
  lemma SettledBelowCursor(s: Stream, lane: LaneId, p: int)
    requires Reachable(s) && 0 <= p <= s.Log(lane).acknowledged
    ensures -1 <= s.Log(lane).acknowledged < s.Log(lane).next
    ensures p in s.Log(lane).rows
    ensures s.Log(lane).rows[p].acknowledgedAt.Some?
            || (lane == Data && s.Log(lane).rows[p].refused.Some?)
  {
    hide Reachable, Inv;
    ReachableInv(s);
    InvLogs(s);
  }

  /**
   Positions of each lane are exactly 0 up to the next one, and each operation is sealed, stands at
   its position in the current generation, and names the operation before it.
   */
  lemma LanesAreChains(s: Stream, lane: LaneId, p: int)
    requires Reachable(s)
    ensures p in s.Log(lane).rows <==> 0 <= p < s.Log(lane).next
    ensures p in s.Log(lane).rows ==>
              var op := s.Log(lane).rows[p].op;
              && op.Sealed() && op.lane == lane && op.position == p
              && op.generation == s.generation && op.streamId == s.streamId
              && (p > 0 ==> p - 1 in s.Log(lane).rows
                            && op.previous == Some(s.Log(lane).rows[p - 1].op.operationId))
              && (p == 0 ==> op.previous == None)
  {
    hide Reachable, LanesInv, RecordsInv, ConsentInv, AuthorityInv, LiveConsentInv, IdsInv, Settled,
      Operation.Sealed;
    ReachableInv(s);
    LogOfInv(s, lane);
    hide Inv;
    if p in s.Log(lane).rows {
      assert Placed(s, lane, p, s.Log(lane).rows[p].op);
      SealedFirst(s.Log(lane).rows[p].op);
    }
  }

  lemma LogOfInv(s: Stream, lane: LaneId)
    requires Inv(s)
    ensures LogInv(s, lane)
  {
    hide LanesInv, RecordsInv, ConsentInv, AuthorityInv, LiveConsentInv, IdsInv;
  }

  lemma SealedFirst(op: Operation)
    requires op.Sealed()
    ensures op.position == 0 <==> op.previous.None?
  {
  }

  lemma GenerationIsPositive(s: Stream)
    requires Inv(s)
    ensures 0 < s.generation
  {
    hide LogInv, LanesInv, RecordsInv, ConsentInv, AuthorityInv, LiveConsentInv, IdsInv;
  }

  /** Exactly which acknowledgements are applied; the check for a local history gap never fires. */
  lemma AcknowledgementsApplyIff(s: Stream, ack: Ack, at: Instant)
    requires Reachable(s)
    ensures Acknowledge(s, ack, at).Success? <==>
            && ack.generation == s.generation
            && (ack.retryAfterMs.Some? ==> 100 <= ack.retryAfterMs.value <= 86_400_000)
            && -1 <= ack.acceptedThrough < s.Log(ack.lane).next
            && (Refuses(ack) ==> ack.rejection.value.position < s.Log(ack.lane).next)
    ensures Acknowledge(s, ack, at) != Failure(LocalHistoryGap)
  {
    hide Reachable, CoreInv, LiveConsentInv, Acknowledge;
    ReachableInv(s);
    AcknowledgeAppliesIff(s, ack, at);
    assert 0 < s.generation by { GenerationIsPositive(s); }
  }

  /** Within a generation no call moves a cursor backwards, or past the end of its lane. */
  lemma CursorsNeverRetreat(s: Stream, call: Call, lane: LaneId)
    requires Reachable(s)
    ensures -1 <= Step(s, call).Log(lane).acknowledged < Step(s, call).Log(lane).next
    ensures Step(s, call).generation == s.generation ==>
              s.Log(lane).acknowledged <= Step(s, call).Log(lane).acknowledged
  {
    hide Reachable, Inv, Step;
    ReachableInv(s);
    CursorsAdvance(s, call, lane);
  }
}
