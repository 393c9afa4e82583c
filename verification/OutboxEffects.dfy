/**
 What each call does to the tables, said of the rows before and after it: exactly when it is accepted,
 the rows it adds or changes, and that it leaves every other row alone. Every statement holds of each
 reachable stream.
 */
module OutboxEffects {
  import opened Wrappers
  import opened IntSets
  import opened SyncWire
  import opened OutboxModel
  import opened OutboxInvariant
  import opened OutboxGeneration
  import opened OutboxRuns
  import opened OutboxGuarantees

  // ---- Changes of single tables ----

  /** The lane ends with these bodies in order, not yet acknowledged or refused; its other rows stand. */
  ghost predicate Gains(log: LaneLog, log': LaneLog, bodies: seq<Body>) {
    && log'.next == log.next + |bodies|
    && log'.acknowledged == log.acknowledged
    && (forall p :: p in log'.rows <==> p in log.rows || log.next <= p < log.next + |bodies|)
    && (forall p :: p in log.rows ==> log'.rows[p] == log.rows[p])
    && (forall p :: log.next <= p < log.next + |bodies| ==>
          && p in log'.rows && log'.rows[p].op.body == bodies[p - log.next]
          && log'.rows[p].acknowledgedAt.None? && log'.rows[p].refused.None?)
  }

  /** The rows that name the stream, its receipts among them. */
  ghost predicate SameStream(s: Stream, s': Stream) {
    && s'.streamId == s.streamId && s'.replicaId == s.replicaId
    && s'.generation == s.generation && s'.destinationId == s.destinationId
    && s'.receipts == s.receipts
  }

  ghost predicate SameItems(s: Stream, s': Stream) {
    s'.records == s.records && s'.tombstones == s.tombstones
  }

  /**
   The doomed records are not current any more, and each has a tombstone through its own revision.
   Every other record and tombstone is as it was.
   */
  ghost predicate Entombs(s: Stream, s': Stream, doomed: set<ItemKey>, reason: Reason, at: Instant) {
    && s'.records.Keys == s.records.Keys
    && (forall k :: k in s.records ==>
          && s'.records[k].item == s.records[k].item
          && (s'.records[k].current <==> s.records[k].current && k !in doomed))
    && (forall i :: i in s'.tombstones <==> i in s.tombstones || exists r :: ItemKey(i, r) in doomed)
    && (forall i :: i in s.tombstones ==> s'.tombstones[i] == s.tombstones[i])
    && (forall k :: k in doomed ==>
          && k.itemId !in s.tombstones && k.itemId in s'.tombstones
          && s'.tombstones[k.itemId] == Tombstone(k.revision, reason, at, None))
  }

  /** The records that are live in a scope. */
  ghost function LiveIn(s: Stream, scope: Scope): set<ItemKey> {
    set k | k in s.records && s.records[k].current && s.records[k].item.scope == scope
  }

  /** One more record, the only current one of its item; every other record is as it was. */
  ghost predicate Records(s: Stream, s': Stream, item: Item) {
    && item.Key() !in s.records
    && s'.records.Keys == s.records.Keys + {item.Key()}
    && s'.records[item.Key()] == Record(item, true)
    && (forall k :: k in s.records ==>
          && s'.records[k].item == s.records[k].item
          && (s'.records[k].current <==> s.records[k].current && k.itemId != item.itemId))
  }

  /** A stored grant revision with no later one. */
  ghost predicate Newest(s: Stream, ref: GrantRef) {
    ref in s.consent && GrantRef(ref.grantId, ref.revision + 1) !in s.consent
  }

  lemma EnqueueGains(s: Stream, lane: LaneId, body: Body)
    requires Dense(s.Log(lane)) && Enqueue(s, lane, body).Success?
    ensures var s' := Enqueue(s, lane, body).value;
            && Gains(s.Log(lane), s'.Log(lane), [body])
            && SameStream(s, s') && SameItems(s, s') && s'.consent == s.consent
            && (lane == Control ==> s'.data == s.data)
            && (lane == Data ==> s'.control == s.control)
  {
    hide Operation.Valid, Operation.DigestBody;
  }

  lemma GainsTwice(log: LaneLog, log1: LaneLog, log2: LaneLog, first: Body, second: Body)
    requires Dense(log) && Gains(log, log1, [first]) && Gains(log1, log2, [second])
    ensures Gains(log, log2, [first, second])
  {
  }

  lemma GainKeepsDense(log: LaneLog, log': LaneLog, bodies: seq<Body>)
    requires Dense(log) && Gains(log, log', bodies)
    ensures Dense(log')
  {
  }

  /** The newest revision of a grant is the one the lookup finds. */
  lemma NewestIsCurrent(s: Stream, ref: GrantRef)
    requires ConsentInv(s.consent, s.destinationId) && Newest(s, ref)
    ensures CurrentGrant(s, ref.grantId) == Some(s.consent[ref]) && s.consent[ref].Ref() == ref
  {
    NewestGrant(s, ref);
  }

  lemma BuriedThrough(s: Stream, doomed: set<Id>, k: ItemKey, reason: Reason, at: Instant)
    requires RecordsInv(s.records, s.tombstones)
    requires forall i :: i in doomed ==> LiveRevisions(s, i) != {}
    requires k in s.records && s.records[k].current && k.itemId in doomed
    ensures k.itemId !in s.tombstones && k.itemId in Bury(s, doomed, reason, at).tombstones
    ensures Bury(s, doomed, reason, at).tombstones[k.itemId]
            == Tombstone(k.revision, reason, at, None)
  {
    assert k.itemId !in s.tombstones;
    hide RecordsInv;
    assert LiveRevisions(s, k.itemId) == {k.revision} by { CurrentItemIsLive(s, k); }
    assert MaxOf({k.revision}) == k.revision;
    hide LiveRevisions;
  }

  lemma BuryEntombs(s: Stream, doomed: set<Id>, keys: set<ItemKey>, reason: Reason, at: Instant)
    requires RecordsInv(s.records, s.tombstones)
    requires forall k :: k in keys <==> k in s.records && s.records[k].current && k.itemId in doomed
    requires forall i :: i in doomed ==> LiveRevisions(s, i) != {}
    ensures Entombs(s, Bury(s, doomed, reason, at), keys, reason, at)
  {
    hide Bury, ItemsInv, PartitionInv, LiveRevisions, IsNewest;
    var s' := Bury(s, doomed, reason, at);
    BuryEffect(s, doomed, reason, at);
    forall k | k in keys
      ensures k.itemId !in s.tombstones
      ensures s'.tombstones[k.itemId] == Tombstone(k.revision, reason, at, None)
    {
      BuriedThrough(s, doomed, k, reason, at);
    }
    forall i | i in doomed ensures exists r :: ItemKey(i, r) in keys {
      var k := LiveOf(s, i);
      assert ItemKey(i, k.revision) in keys;
    }
  }

  lemma LiveOf(s: Stream, i: Id) returns (k: ItemKey)
    requires LiveRevisions(s, i) != {}
    ensures k in s.records && s.records[k].current && k.itemId == i
  {
    var r := Member(LiveRevisions(s, i));
    k :| k in s.records && k.itemId == i && s.records[k].current && k.revision == r;
  }

  // ---- Item deletion ----

  ghost predicate NotLive(s: Stream, i: Id) {
    forall k :: k in s.records && k.itemId == i ==> !s.records[k].current
  }

  /** Deleting an item that is not live succeeds and changes nothing. */
  lemma DeletesNothing(s: Stream, itemId: Id, reason: Reason, at: Instant)
    requires NotLive(s, itemId)
    ensures DeleteItem(s, itemId, reason, at) == Success(s)
  {
    if LiveRevisions(s, itemId) != {} {
      var k := LiveOf(s, itemId);
      assert false;
    }
  }

  /**
   Deleting a live item succeeds exactly for an instant the wire can spell. Then the item is not live
   any more, it is tombstoned through the revision that was live, and the control lane ends with one
   deletion that names the item, that revision, its consent and its scope.
   */
  lemma DeletesItem(s: Stream, k: ItemKey, reason: Reason, at: Instant)
    requires Reachable(s) && k in s.records && s.records[k].current
    ensures DeleteItem(s, k.itemId, reason, at).Success? <==> Canonical(at)
    ensures Canonical(at) ==>
              var s', item := DeleteItem(s, k.itemId, reason, at).value, s.records[k].item;
              && Entombs(s, s', {k}, reason, at) && NotLive(s', k.itemId)
              && Gains(s.control, s'.control,
                       [ItemDelete(item.consent, item.scope, k.itemId, k.revision, reason, at)])
              && s'.data == s.data && s'.consent == s.consent && SameStream(s, s')
  {
    hide Reachable, LogInv, LanesInv, ConsentInv, AuthorityInv, LiveConsentInv, IdsInv,
      LiveRevisions, Bury, Entombs, Gains, Enqueue, ItemsInv, PartitionInv, Item.Valid;
    ReachableInv(s);
    CurrentItemIsLive(s, k);
    ItemAtKey(s.records, k);
    var item := s.records[k].item;
    var body := ItemDelete(item.consent, item.scope, k.itemId, item.revision, reason, at);
    assert 0 < item.consent.revision && 0 < item.revision by { ValidIsShaped(item); }
    var s1 := Bury(s, {k.itemId}, reason, at);
    BuryFrame(s, {k.itemId}, reason, at);
    LogFrame(s, s1, Control);
    EnqueueSucceeds(s1, Control, body);
    LogIsDense(s, Control);
    OnlyLive(s, k);
    BuryEntombs(s, {k.itemId}, {k}, reason, at);
    if Canonical(at) {
      EnqueueGains(s1, Control, body);
      EntombsFrame(s, s1, Enqueue(s1, Control, body).value, {k}, reason, at);
      EntombedIsNotLive(s, Enqueue(s1, Control, body).value, k, reason, at);
    }
  }

  lemma ValidIsShaped(item: Item)
    requires item.Valid()
    ensures 0 < item.consent.revision && 0 < item.revision && |item.links| <= 64
    ensures forall i :: 0 <= i < |item.links| ==> 0 < item.links[i].target.revision
  {
  }

  lemma BuryFrame(s: Stream, doomed: set<Id>, reason: Reason, at: Instant)
    requires forall i :: i in doomed ==> LiveRevisions(s, i) != {}
    ensures var s' := Bury(s, doomed, reason, at);
            && s'.control == s.control && s'.data == s.data && s'.consent == s.consent
            && SameStream(s, s') && s'.minted == s.minted
  {
  }

  lemma OnlyLive(s: Stream, k: ItemKey)
    requires RecordsInv(s.records, s.tombstones) && k in s.records && s.records[k].current
    ensures forall l :: l in {k} <==> l in s.records && s.records[l].current && l.itemId in {k.itemId}
  {
    forall l | l in s.records && s.records[l].current && l.itemId == k.itemId ensures l == k {
      SameNewest(s.records, k, l);
    }
  }

  lemma EntombsFrame(s: Stream, s1: Stream, s': Stream, doomed: set<ItemKey>, reason: Reason,
                     at: Instant)
    requires Entombs(s, s1, doomed, reason, at) && SameItems(s1, s')
    ensures Entombs(s, s', doomed, reason, at)
  {
  }

  lemma EntombedIsNotLive(s: Stream, s': Stream, k: ItemKey, reason: Reason, at: Instant)
    requires RecordsInv(s.records, s.tombstones) && k in s.records && s.records[k].current
    requires Entombs(s, s', {k}, reason, at)
    ensures NotLive(s', k.itemId)
  {
    OnlyLive(s, k);
    hide RecordsInv;
  }

  // ---- Scope deletion and revocation ----

  ghost predicate NothingLiveIn(s: Stream, scope: Scope) {
    forall k :: k in s.records && s.records[k].current ==> s.records[k].item.scope != scope
  }

  /** A scope is emptied, and the control lane ends with these bodies; nothing else changes. */
  ghost predicate Empties(s: Stream, s': Stream, scope: Scope, reason: Reason, at: Instant,
                          bodies: seq<Body>)
  {
    && Entombs(s, s', LiveIn(s, scope), reason, at) && NothingLiveIn(s', scope)
    && Gains(s.control, s'.control, bodies)
    && s'.data == s.data && SameStream(s, s')
  }

  lemma EntombedScopeIsEmpty(s: Stream, s': Stream, scope: Scope, reason: Reason, at: Instant)
    requires Entombs(s, s', LiveIn(s, scope), reason, at)
    ensures NothingLiveIn(s', scope)
  {
  }

  lemma ScopeKeys(s: Stream, scope: Scope)
    requires RecordsInv(s.records, s.tombstones)
    ensures forall k :: k in LiveIn(s, scope) <==>
              k in s.records && s.records[k].current && k.itemId in ItemsInScope(s, scope)
    ensures forall i :: i in ItemsInScope(s, scope) ==> LiveRevisions(s, i) != {}
  {
    forall i | i in ItemsInScope(s, scope) ensures LiveRevisions(s, i) != {} {
      LiveHaveRevisions(s, i);
    }
    forall k | k in s.records && s.records[k].current && k.itemId in ItemsInScope(s, scope)
      ensures k in LiveIn(s, scope)
    {
      var l :| l in s.records && s.records[l].current && s.records[l].item.scope == scope
               && l.itemId == k.itemId;
      SameNewest(s.records, k, l);
    }
  }

  lemma ScopeDeletes(s: Stream, g: Grant, reason: Reason, at: Instant)
    requires CoreInv(s) && 0 < g.revision
    ensures EnqueueScopeDelete(s, g, reason, at).Success? <==> Canonical(at)
    ensures Canonical(at) ==>
              var s' := EnqueueScopeDelete(s, g, reason, at).value;
              && Empties(s, s', g.scope, reason, at,
                         [ScopeDelete(g.Ref(), g.scope, s.data.next - 1, reason, at)])
              && s'.consent == s.consent
  {
    hide LogInv, LanesInv, ConsentInv, AuthorityInv, IdsInv, ItemsInv, PartitionInv, LiveRevisions,
      Bury, Entombs, Gains, Enqueue, NothingLiveIn, LiveIn, ItemsInScope;
    var doomed := ItemsInScope(s, g.scope);
    ScopeKeys(s, g.scope);
    var s1 := Bury(s, doomed, reason, at);
    var body := ScopeDelete(g.Ref(), g.scope, s.data.next - 1, reason, at);
    BuryFrame(s, doomed, reason, at);
    LogFrame(s, s1, Control);
    EnqueueSucceeds(s1, Control, body);
    LogIsDense(s, Control);
    DataStartsAtZero(s);
    BuryEntombs(s, doomed, LiveIn(s, g.scope), reason, at);
    if Canonical(at) {
      var s' := Enqueue(s1, Control, body).value;
      EnqueueGains(s1, Control, body);
      EntombsFrame(s, s1, s', LiveIn(s, g.scope), reason, at);
      EntombedScopeIsEmpty(s, s', g.scope, reason, at);
    }
  }

  lemma DataStartsAtZero(s: Stream)
    requires LogInv(s, Data)
    ensures 0 <= s.data.next
  {
    LogIsDense(s, Data);
    assert s.Log(Data) == s.data;
  }

  lemma GrantAtKey(s: Stream, ref: GrantRef)
    requires ConsentInv(s.consent, s.destinationId) && ref in s.consent
    ensures s.consent[ref].Ref() == ref && s.consent[ref].Valid() && 0 < ref.revision
    ensures s.consent[ref].allowedKinds == [Decision] && SupportedPolicies(s.consent[ref])
    ensures s.consent[ref].destinationId == s.destinationId
  {
  }

  /**
   Deleting the scope of a known grant succeeds exactly for an instant the wire can spell, and leaves
   nothing live in it; the control lane ends with one deletion of the scope through the last put.
   */
  lemma DeletesScope(s: Stream, ref: GrantRef, reason: Reason, at: Instant)
    requires Reachable(s) && Newest(s, ref)
    ensures DeleteScope(s, ref.grantId, reason, at).Success? <==> Canonical(at)
    ensures Canonical(at) ==>
              var s', scope := DeleteScope(s, ref.grantId, reason, at).value, s.consent[ref].scope;
              && Empties(s, s', scope, reason, at,
                         [ScopeDelete(ref, scope, s.data.next - 1, reason, at)])
              && s'.consent == s.consent
  {
    hide Reachable, LogInv, LanesInv, ConsentInv, AuthorityInv, IdsInv, RecordsInv, LiveConsentInv,
      EnqueueScopeDelete, Empties, CurrentGrant;
    ReachableInv(s);
    NewestIsCurrent(s, ref);
    GrantAtKey(s, ref);
    ScopeDeletes(s, s.consent[ref], reason, at);
  }

  /** Neither a scope nor a consent can be withdrawn through a grant that was never stored. */
  lemma UnknownGrantsFail(s: Stream, grantId: Id, reason: Reason, at: Instant)
    requires forall k :: k in s.consent ==> k.grantId != grantId
    ensures DeleteScope(s, grantId, reason, at) == Failure(UnknownGrant)
    ensures RevokeConsent(s, grantId, at) == Failure(UnknownGrant)
  {
    assert GrantRevisions(s, grantId) == {};
  }

  lemma RevokedIsValidIff(g: Grant, at: Instant)
    requires g.Valid()
    ensures RevokedGrant(g, at).Valid() <==> Canonical(at) && g.issuedAt <= at
  {
  }

  lemma StoresRevoked(s: Stream, ref: GrantRef, at: Instant)
    requires Inv(s) && Newest(s, ref) && s.consent[ref].status == Active
    requires Canonical(at) && s.consent[ref].issuedAt <= at
    ensures var revoked := RevokedGrant(s.consent[ref], at);
            var r := Enqueue(WithGrant(s, revoked), Control, ConsentRevoke(revoked));
            && r.Success? && CoreInv(r.value)
            && Gains(s.control, r.value.control, [ConsentRevoke(revoked)])
            && SameStream(s, r.value) && SameItems(s, r.value) && r.value.data == s.data
            && r.value.consent == s.consent[revoked.Ref() := revoked]
  {
    hide LogInv, LanesInv, AuthorityInv, IdsInv, RecordsInv, LiveConsentInv, Gains, Enqueue,
      CurrentGrant, ConsentInv, Grant.Valid;
    NewestIsCurrent(s, ref);
    GrantAtKey(s, ref);
    var g := s.consent[ref];
    var revoked := RevokedGrant(g, at);
    RevokedIsValidIff(g, at);
    assert Follows(s, revoked);
    var s1 := WithGrant(s, revoked);
    LogFrame(s, s1, Control);
    EnqueueSucceeds(s1, Control, ConsentRevoke(revoked));
    LogIsDense(s, Control);
    EnqueueGains(s1, Control, ConsentRevoke(revoked));
    ConsentEnqueueKeepsCore(s, revoked, ConsentRevoke(revoked));
  }

  /**
   Revoking an active grant succeeds exactly for an instant the wire can spell and not before it was
   issued. Then one more revision is stored, revoked at that instant and otherwise the same; nothing is
   live in the grant's scope; and the control lane ends with the revocation and a deletion of the scope
   under it. Revoking again changes nothing.
   */
  lemma RevokesConsent(s: Stream, ref: GrantRef, at: Instant)
    requires Reachable(s) && Newest(s, ref)
    ensures s.consent[ref].status == Revoked ==> RevokeConsent(s, ref.grantId, at) == Success(s)
    ensures s.consent[ref].status == Active ==>
              (RevokeConsent(s, ref.grantId, at).Success? <==>
               Canonical(at) && s.consent[ref].issuedAt <= at)
    ensures s.consent[ref].status == Active && RevokeConsent(s, ref.grantId, at).Success? ==>
              var s', g := RevokeConsent(s, ref.grantId, at).value, s.consent[ref];
              var ref' := GrantRef(ref.grantId, ref.revision + 1);
              var revoked := g.(revision := ref'.revision, status := Revoked, revokedAt := Some(at));
              && s'.consent == s.consent[ref' := revoked]
              && Empties(s, s', g.scope, ConsentWithdrawn, at,
                         [ConsentRevoke(revoked),
                          ScopeDelete(ref', g.scope, s.data.next - 1, ConsentWithdrawn, at)])
  {
    hide Reachable, CoreInv, LiveConsentInv, EnqueueScopeDelete, Enqueue, CurrentGrant, Entombs, Gains,
      NothingLiveIn, LiveIn, Grant.Valid;
    ReachableInv(s);
    NewestLookup(s, ref);
    var g := s.consent[ref];
    if g.status == Active {
      RevokedIsValidIff(g, at);
      if Canonical(at) && g.issuedAt <= at {
        var revoked := RevokedGrant(g, at);
        StoresRevoked(s, ref, at);
        var s1 := Enqueue(WithGrant(s, revoked), Control, ConsentRevoke(revoked)).value;
        ScopeDeletes(s1, revoked, ConsentWithdrawn, at);
        var s' := EnqueueScopeDelete(s1, revoked, ConsentWithdrawn, at).value;
        EmptiesAfter(s, s1, s', g.scope, ConsentWithdrawn, at, ConsentRevoke(revoked),
                     ScopeDelete(revoked.Ref(), g.scope, s.data.next - 1, ConsentWithdrawn, at));
      }
    }
  }

  lemma NewestLookup(s: Stream, ref: GrantRef)
    requires Inv(s) && Newest(s, ref)
    ensures CurrentGrant(s, ref.grantId) == Some(s.consent[ref])
    ensures s.consent[ref].Ref() == ref && s.consent[ref].Valid() && 0 < ref.revision
  {
    hide LogInv, LanesInv, AuthorityInv, IdsInv, RecordsInv, LiveConsentInv, CurrentGrant;
    NewestIsCurrent(s, ref);
    GrantAtKey(s, ref);
  }

  lemma EmptiesAfter(s: Stream, s1: Stream, s': Stream, scope: Scope, reason: Reason, at: Instant,
                     first: Body, second: Body)
    requires Inv(s) && Gains(s.control, s1.control, [first])
    requires SameStream(s, s1) && SameItems(s, s1) && s1.data == s.data
    requires Empties(s1, s', scope, reason, at, [second])
    ensures Empties(s, s', scope, reason, at, [first, second])
  {
    assert Dense(s.control) by { InvLogs(s); }
    hide Inv;
    assert LiveIn(s1, scope) == LiveIn(s, scope);
    hide LiveIn, NothingLiveIn;
    EntombsSame(s, s1, s', LiveIn(s, scope), reason, at);
    GainsTwice(s.control, s1.control, s'.control, first, second);
  }

  lemma EntombsSame(s: Stream, s1: Stream, s': Stream, doomed: set<ItemKey>, reason: Reason,
                    at: Instant)
    requires SameItems(s, s1) && Entombs(s1, s', doomed, reason, at)
    ensures Entombs(s, s', doomed, reason, at)
  {
  }

  // ---- Grants ----

  /** The first revision of a new grant, or one that follows the newest in the same scope. */
  ghost predicate Succeeds(s: Stream, g: Grant) {
    if g.revision == 1
    then forall k :: k in s.consent ==> k.grantId != g.grantId
    else Newest(s, GrantRef(g.grantId, g.revision - 1))
         && s.consent[GrantRef(g.grantId, g.revision - 1)].scope == g.scope
  }

  lemma FollowsIffSucceeds(s: Stream, g: Grant)
    requires Inv(s) && g.Valid() && g.allowedKinds == [Decision] && SupportedPolicies(g)
    requires g.destinationId == s.destinationId
    ensures Follows(s, g) <==> Succeeds(s, g)
  {
    hide LogInv, LanesInv, AuthorityInv, IdsInv, RecordsInv, LiveConsentInv, CurrentGrant, Grant.Valid;
    CurrentGrantIsNewest(s, g.grantId);
    var previous := GrantRef(g.grantId, g.revision - 1);
    if Newest(s, previous) {
      NewestLookup(s, previous);
      SamePurpose(s.consent[previous]);
    }
    SamePurpose(g);
    if Follows(s, g) && CurrentGrant(s, g.grantId).Some? {
      GrantAtKey(s, CurrentGrant(s, g.grantId).value.Ref());
    }
  }

  lemma SamePurpose(g: Grant)
    requires g.Valid()
    ensures g.purpose == "personal-continuity" && 0 < g.revision
  {
  }

  lemma GrantConsentIffFollows(s: Stream, g: Grant)
    requires Inv(s)
    ensures GrantConsent(s, g).Success? <==> Follows(s, g) && g.status == Active
    ensures Follows(s, g) && g.status == Active ==>
              GrantConsent(s, g) == Enqueue(WithGrant(s, g), Control, ConsentPut(g))
  {
    hide LogInv, LanesInv, AuthorityInv, IdsInv, RecordsInv, LiveConsentInv, CurrentGrant, Enqueue,
      Grant.Valid, ConsentInv;
    LogFrame(s, WithGrant(s, g), Control);
    EnqueueSucceeds(WithGrant(s, g), Control, ConsentPut(g));
  }

  /**
   Exactly which grants are accepted: active decision grants to this destination under the two local
   policies, with ordered instants, one to 365 days of retention and no revocation, that open a grant or
   follow its newest revision in the same scope. One is stored under its own revision and enqueued as it
   is; nothing else changes.
   */
  lemma GrantsIff(s: Stream, g: Grant)
    requires Reachable(s)
    ensures GrantConsent(s, g).Success? <==>
              && g.status == Active && g.revokedAt.None?
              && g.purpose == "personal-continuity" && g.allowedKinds == [Decision]
              && g.redactionPolicy == "secrets-v1" && g.minimizationPolicy == "decision-v1"
              && g.destinationId == s.destinationId
              && Canonical(g.issuedAt) && Canonical(g.effectiveAt) && Canonical(g.expiresAt)
              && g.issuedAt <= g.effectiveAt < g.expiresAt
              && 1 <= g.retentionMaximumDays <= 365
              && 1 <= g.revision && Succeeds(s, g)
    ensures GrantConsent(s, g).Success? ==>
              var s' := GrantConsent(s, g).value;
              && g.Ref() !in s.consent && s'.consent == s.consent[g.Ref() := g]
              && Gains(s.control, s'.control, [ConsentPut(g)])
              && s'.data == s.data && SameItems(s, s') && SameStream(s, s')
  {
    hide Reachable, LogInv, LanesInv, AuthorityInv, IdsInv, RecordsInv, LiveConsentInv, CurrentGrant,
      GrantConsent, Follows, Succeeds, Enqueue, Gains, ConsentInv;
    ReachableInv(s);
    GrantConsentIffFollows(s, g);
    FollowsIsValid(s, g);
    if g.Valid() && g.allowedKinds == [Decision] && SupportedPolicies(g)
       && g.destinationId == s.destinationId {
      FollowsIffSucceeds(s, g);
    }
    if GrantConsent(s, g).Success? {
      hide Grant.Valid;
      StoringKeepsConsent(s, g);
      LogIsDense(s, Control);
      EnqueueGains(WithGrant(s, g), Control, ConsentPut(g));
    }
  }

  lemma FollowsIsValid(s: Stream, g: Grant)
    ensures Follows(s, g) ==> g.Valid() && g.allowedKinds == [Decision] && SupportedPolicies(g)
                              && g.destinationId == s.destinationId
  {
  }

  // ---- Deletion receipts ----

  /** The deletion a receipt must be for: the item and revision, or the scope, it names. */
  predicate Answers(target: DeletionTarget, body: Body) {
    || (body.ItemDelete? && target == ItemTarget(body.itemId, body.deleteThroughRevision))
    || (body.ScopeDelete? && target == ScopeTarget(body.scope))
  }

  /** A row of the control lane is the operation named, no data row is, and the receipt answers it. */
  ghost predicate AnswersNamed(s: Stream, receipt: DeletionReceipt) {
    && (forall p :: p in s.data.rows ==> s.data.rows[p].op.operationId != receipt.operationId)
    && exists p :: p in s.control.rows && s.control.rows[p].op.operationId == receipt.operationId
                   && Answers(receipt.target, s.control.rows[p].op.body)
  }

  lemma OneRowNamed(log: LaneLog, p: int, q: int)
    requires Dense(log) && Chained(log) && p in log.rows && q in log.rows
    requires log.rows[p].op.operationId == log.rows[q].op.operationId
    ensures p == q
  {
  }

  lemma NamedIsOne(s: Stream, id: OperationId, p: int)
    requires Dense(s.control) && Chained(s.control)
    requires p in s.control.rows && s.control.rows[p].op.operationId == id
    requires forall q :: q in s.data.rows ==> s.data.rows[q].op.operationId != id
    ensures OperationsNamed(s, id) == {s.control.rows[p].op}
  {
    forall op | op in OperationsNamed(s, id) ensures op == s.control.rows[p].op {
      var q :| q in s.control.rows && s.control.rows[q].op == op && op.operationId == id;
      OneRowNamed(s.control, p, q);
    }
    assert s.control.rows[p].op in OperationsNamed(s, id);
  }

  lemma PutsAreStored(s: Stream)
    requires Inv(s)
    ensures PutsStored(s.data, s.records)
  {
    hide LogInv, ConsentInv, RecordsInv, AuthorityInv;
  }

  lemma AnsweredIsNamed(s: Stream, receipt: DeletionReceipt)
    requires PutsStored(s.data, s.records) && OperationsNamed(s, receipt.operationId) != {}
    requires forall op :: op in OperationsNamed(s, receipt.operationId) ==>
               TargetMatches(receipt.target, op.body)
    ensures AnswersNamed(s, receipt)
  {
    var named := OperationsNamed(s, receipt.operationId);
    forall p | p in s.data.rows ensures s.data.rows[p].op.operationId != receipt.operationId {
      var row := s.data.rows[p].op;
      assert row.operationId == receipt.operationId ==> row in named;
    }
    var op :| op in named;
    assert Answers(receipt.target, op.body);
  }

  lemma NamedIsAnswered(s: Stream, receipt: DeletionReceipt)
    requires Dense(s.control) && Chained(s.control) && AnswersNamed(s, receipt)
    ensures OperationsNamed(s, receipt.operationId) != {}
    ensures forall op :: op in OperationsNamed(s, receipt.operationId) ==>
              TargetMatches(receipt.target, op.body)
  {
    hide Dense, Chained, OperationsNamed;
    var p :| p in s.control.rows && s.control.rows[p].op.operationId == receipt.operationId
             && Answers(receipt.target, s.control.rows[p].op.body);
    NamedIsOne(s, receipt.operationId, p);
  }

  lemma NamedControlRow(s: Stream, receipt: DeletionReceipt)
    requires Inv(s)
    ensures AnswersNamed(s, receipt) <==>
              && OperationsNamed(s, receipt.operationId) != {}
              && forall op :: op in OperationsNamed(s, receipt.operationId) ==>
                   TargetMatches(receipt.target, op.body)
  {
    hide CoreInv, LiveConsentInv, Settled, Dense, Chained, OperationsNamed, PutsStored, AnswersNamed,
      TargetMatches;
    InvLogs(s);
    PutsAreStored(s);
    if AnswersNamed(s, receipt) {
      NamedIsAnswered(s, receipt);
    } else if OperationsNamed(s, receipt.operationId) != {}
              && forall op :: op in OperationsNamed(s, receipt.operationId) ==>
                   TargetMatches(receipt.target, op.body) {
      AnsweredIsNamed(s, receipt);
    }
  }

  /** What an accepted receipt leaves: itself on file, and the tombstone of its item completed. */
  ghost predicate Completes(s: Stream, s': Stream, receipt: DeletionReceipt) {
    && s'.receipts.Keys == s.receipts.Keys + {receipt.receiptId}
    && (forall r :: r in s.receipts ==> s'.receipts[r] == s.receipts[r])
    && (receipt.receiptId !in s.receipts ==> s'.receipts[receipt.receiptId] == receipt)
    && s'.tombstones.Keys == s.tombstones.Keys
    && (forall i :: i in s.tombstones ==>
          s'.tombstones[i] ==
          if receipt.target.ItemTarget? && i == receipt.target.itemId
          then s.tombstones[i].(completion :=
                 Some(Completion(receipt.receiptId, receipt.completedAt)))
          else s.tombstones[i])
    && s'.control == s.control && s'.data == s.data && s'.consent == s.consent
    && s'.records == s.records && s'.minted == s.minted && s'.generation == s.generation
  }

  lemma CompletedCompletes(s: Stream, receipt: DeletionReceipt)
    requires receipt.target.ItemTarget? ==>
               && receipt.target.itemId in s.tombstones
               && s.tombstones[receipt.target.itemId].deleteThroughRevision
                  == receipt.target.deleteThroughRevision
    ensures Completes(s, Completed(s, receipt), receipt)
  {
  }

  lemma AnsweredHasTombstone(s: Stream, receipt: DeletionReceipt)
    requires Inv(s) && AnswersNamed(s, receipt) && receipt.target.ItemTarget?
    ensures receipt.target.itemId in s.tombstones
    ensures s.tombstones[receipt.target.itemId].deleteThroughRevision
            == receipt.target.deleteThroughRevision
  {
    assert FencesBounded(s) by { hide LogInv, ConsentInv, RecordsInv, AuthorityInv; }
    hide Inv;
    var p :| p in s.control.rows && s.control.rows[p].op.operationId == receipt.operationId
             && Answers(receipt.target, s.control.rows[p].op.body);
    assert FenceBounded(s, s.control.rows[p].op.body);
  }

  lemma ReceiptAcceptedIff(s: Stream, receipt: DeletionReceipt)
    requires Inv(s)
    ensures RecordDeletionReceipt(s, receipt).Success? <==>
              receipt.Valid() && receipt.destinationId == s.destinationId && AnswersNamed(s, receipt)
    ensures RecordDeletionReceipt(s, receipt).Success? ==>
              RecordDeletionReceipt(s, receipt).value == Completed(s, receipt)
  {
    hide CoreInv, LiveConsentInv, AnswersNamed, OperationsNamed, DeletionReceipt.Valid;
    NamedControlRow(s, receipt);
    forall op | op in OperationsNamed(s, receipt.operationId) && TargetMatches(receipt.target, op.body)
      ensures op.body.ItemDelete? || op.body.ScopeDelete?
    {
    }
  }

  /**
   Exactly which deletion receipts are accepted: the six sinks once each, an instant the
   wire can spell, and the stream's own destination, for an operation that is a control row of the
   current generation and deletes just what the receipt names. An accepted one is filed once and
   completes the tombstone of its item, with its own identifier and instant.
   */
  lemma ReceiptsIff(s: Stream, receipt: DeletionReceipt)
    requires Reachable(s)
    ensures RecordDeletionReceipt(s, receipt).Success? <==>
              && Canonical(receipt.completedAt)
              && |receipt.sinks| == 6
              && (forall i, j :: 0 <= i < j < 6 ==> receipt.sinks[i] != receipt.sinks[j])
              && receipt.destinationId == s.destinationId && AnswersNamed(s, receipt)
    ensures RecordDeletionReceipt(s, receipt).Success? ==>
              Completes(s, RecordDeletionReceipt(s, receipt).value, receipt)
  {
    hide Reachable, CoreInv, LiveConsentInv, AnswersNamed, RecordDeletionReceipt, Completes;
    ReachableInv(s);
    ReceiptAcceptedIff(s, receipt);
    if AnswersNamed(s, receipt) && receipt.target.ItemTarget? {
      AnsweredHasTombstone(s, receipt);
      TombstonesStartAtOne(s, receipt.target.itemId);
    }
    if RecordDeletionReceipt(s, receipt).Success? {
      CompletedCompletes(s, receipt);
    }
  }

  lemma TombstonesStartAtOne(s: Stream, i: Id)
    requires Inv(s) && i in s.tombstones
    ensures 0 < s.tombstones[i].deleteThroughRevision
  {
    hide LogInv, ConsentInv, LanesInv, AuthorityInv, ItemsInv;
    var k := ItemKey(i, s.tombstones[i].deleteThroughRevision);
    assert IsNewest(s.records, k);
    RevisionsStartAtOne(s.records, k);
  }

  // ---- Acknowledgements ----

  /** One row after an acknowledgement of its lane. */
  ghost predicate Marked(log: LaneLog, ack: Ack, at: Instant, p: int, row: Row, row': Row) {
    && row'.op == row.op
    && row'.acknowledgedAt == (if log.acknowledged < ack.acceptedThrough && p <= ack.acceptedThrough
                               then Some(at) else row.acknowledgedAt)
    && row'.refused == (if Refuses(ack) && p == ack.rejection.value.position
                        then Some(Refusal(at, ack.rejection.value.code)) else row.refused)
  }

  lemma AcceptMarks(log: LaneLog, through: int, at: Instant)
    requires Accept(log, through, at).Success?
    ensures var log' := Accept(log, through, at).value;
            && log'.rows.Keys == log.rows.Keys
            && log'.next == log.next && log'.previous == log.previous
            && forall p :: p in log.rows ==>
                 log'.rows[p] == if log.acknowledged < through && p <= through
                                 then log.rows[p].(acknowledgedAt := Some(at)) else log.rows[p]
  {
  }

  lemma AcknowledgedLogMarks(s: Stream, ack: Ack, at: Instant)
    requires AcknowledgedLog(s, ack, at).Success?
    ensures var log, log' := s.Log(ack.lane), AcknowledgedLog(s, ack, at).value;
            && log'.rows.Keys == log.rows.Keys
            && log'.next == log.next && log'.previous == log.previous
            && forall p :: p in log.rows ==> Marked(log, ack, at, p, log.rows[p], log'.rows[p])
  {
    hide Accept, Ack.Valid;
    AcceptMarks(s.Log(ack.lane), ack.acceptedThrough, at);
  }

  /**
   What an applied acknowledgement writes: its instant in every row it newly accepts, its refusal in the
   row it refuses, and nothing in any other row, lane or table but the lane's cursor.
   */
  lemma AcknowledgementMarks(s: Stream, ack: Ack, at: Instant)
    requires Acknowledge(s, ack, at).Success?
    ensures var s' := Acknowledge(s, ack, at).value;
            var log, log' := s.Log(ack.lane), s'.Log(ack.lane);
            && log'.rows.Keys == log.rows.Keys
            && (forall p :: p in log.rows ==> Marked(log, ack, at, p, log.rows[p], log'.rows[p]))
            && s' == s.WithLog(ack.lane, log.(rows := log'.rows, acknowledged := log'.acknowledged))
  {
    hide Ack.Valid, AcknowledgedLog, Marked;
    AcknowledgedLogMarks(s, ack, at);
  }

  // ---- Restarts ----

  /** A row restates a stored grant revision: its revocation if it is revoked, else the grant. */
  predicate RestatesGrant(s: Stream, k: GrantRef, body: Body) {
    && k in s.consent
    && body == if s.consent[k].status == Revoked then ConsentRevoke(s.consent[k])
               else ConsentPut(s.consent[k])
  }

  /** A row restates a tombstone, under the consent and scope of the revision it was buried at. */
  predicate RestatesTombstone(s: Stream, i: Id, body: Body) {
    && i in s.tombstones && ItemKey(i, s.tombstones[i].deleteThroughRevision) in s.records
    && var t, item := s.tombstones[i], s.records[ItemKey(i, s.tombstones[i].deleteThroughRevision)].item;
       body == ItemDelete(item.consent, item.scope, i, t.deleteThroughRevision, t.reason, t.requestedAt)
  }

  predicate RestatesLive(s: Stream, k: ItemKey, body: Body) {
    && k in s.records && s.records[k].current
    && body == ItemPut(s.records[k].item.consent, s.records[k].item)
  }

  ghost predicate RestatesSome(s: Stream, body: Body) {
    || (exists k :: RestatesGrant(s, k, body))
    || (exists i :: RestatesTombstone(s, i, body))
    || (exists k :: RestatesLive(s, k, body))
  }

  /**
   Every control row restates a grant revision or a tombstone, grants first, and each of those has its
   row.
   */
  ghost predicate ControlRestates(s: Stream, control: LaneLog) {
    && (forall p :: p in control.rows ==>
          RestatesSome(s, control.rows[p].op.body) && !control.rows[p].op.body.ItemPut?)
    && (forall k :: k in s.consent ==>
          exists p :: p in control.rows && RestatesGrant(s, k, control.rows[p].op.body))
    && (forall i :: i in s.tombstones ==>
          exists p :: p in control.rows && RestatesTombstone(s, i, control.rows[p].op.body))
    && (forall p, q :: p in control.rows && q in control.rows && p < q ==>
          control.rows[q].op.body.ItemDelete? || !control.rows[p].op.body.ItemDelete?)
  }

  /** Every data row puts a live record, and each of those has its row. */
  ghost predicate DataRestates(s: Stream, data: LaneLog) {
    && (forall p :: p in data.rows ==>
          RestatesSome(s, data.rows[p].op.body) && data.rows[p].op.body.ItemPut?)
    && (forall k :: k in s.records && s.records[k].current ==>
          exists p :: p in data.rows && RestatesLive(s, k, data.rows[p].op.body))
  }

  ghost predicate RowsDiffer(log: LaneLog) {
    forall p, q :: p in log.rows && q in log.rows && p < q ==> log.rows[p].op.body != log.rows[q].op.body
  }

  lemma BodyAtRow(log: LaneLog, bodies: seq<Body>, p: int)
    requires Dense(log) && Bodies(log) == bodies
    ensures p in log.rows <==> 0 <= p < |bodies|
    ensures p in log.rows ==> log.rows[p].op.body == bodies[p]
  {
    assert |Bodies(log)| == log.next;
    assert p in log.rows ==> Bodies(log)[p] == log.rows[p].op.body;
  }

  lemma RestatementStates(s: Stream, i: Id)
    requires Joins(s, i)
    ensures RestatesTombstone(s, i, Restatement(s, i)) && RestatesSome(s, Restatement(s, i))
  {
    assert RestatesTombstone(s, i, Restatement(s, i));
  }

  lemma GrantStates(s: Stream, k: GrantRef)
    requires k in s.consent
    ensures var body := ConsentBody(s.consent[k]);
            RestatesGrant(s, k, body) && RestatesSome(s, body) && !body.ItemPut? && !body.ItemDelete?
  {
    assert RestatesGrant(s, k, ConsentBody(s.consent[k]));
  }

  ghost predicate AllDiffer(bodies: seq<Body>) {
    forall n, m :: 0 <= n < m < |bodies| ==> bodies[n] != bodies[m]
  }

  /** Bodies that restate every stored grant revision once. */
  ghost predicate StateGrants(s: Stream, bodies: seq<Body>) {
    && (forall n :: 0 <= n < |bodies| ==>
          RestatesSome(s, bodies[n]) && !bodies[n].ItemPut? && !bodies[n].ItemDelete?)
    && (forall k :: k in s.consent ==> exists n :: 0 <= n < |bodies| && RestatesGrant(s, k, bodies[n]))
    && AllDiffer(bodies)
  }

  ghost predicate StateTombstones(s: Stream, bodies: seq<Body>) {
    && (forall n :: 0 <= n < |bodies| ==> RestatesSome(s, bodies[n]) && bodies[n].ItemDelete?)
    && (forall i :: i in s.tombstones ==>
          exists n :: 0 <= n < |bodies| && RestatesTombstone(s, i, bodies[n]))
    && AllDiffer(bodies)
  }

  ghost predicate StateLive(s: Stream, bodies: seq<Body>) {
    && (forall n :: 0 <= n < |bodies| ==> RestatesSome(s, bodies[n]) && bodies[n].ItemPut?)
    && (forall k :: k in s.records && s.records[k].current ==>
          exists n :: 0 <= n < |bodies| && RestatesLive(s, k, bodies[n]))
    && AllDiffer(bodies)
  }

  lemma ConsentStates(s: Stream, ids: seq<Id>, consents: seq<Body>, n: int)
    requires Describes(s, ids, consents) && 0 <= n < |consents|
    ensures RestatesSome(s, consents[n]) && !consents[n].ItemPut? && !consents[n].ItemDelete?
  {
    hide ConsentBody, Before, RestatesSome;
    assert StatesConsent(s, ids, consents[n]);
    GrantStates(s, Cites(consents[n]));
  }

  lemma GrantIsStated(s: Stream, k: GrantRef, consents: seq<Body>) returns (n: int)
    requires Describes(s, Ascending(GrantIds(s)), consents) && k in s.consent
    ensures 0 <= n < |consents| && RestatesGrant(s, k, consents[n])
  {
    hide ConsentBody, Before, StatesConsent;
    assert k.grantId in GrantIds(s);
    n :| 0 <= n < |consents| && consents[n] == ConsentBody(s.consent[k]);
    GrantStates(s, k);
  }

  lemma ConsentsDiffer(s: Stream, ids: seq<Id>, consents: seq<Body>)
    requires Describes(s, ids, consents)
    ensures AllDiffer(consents)
  {
    hide ConsentBody, Before, StatesConsent, Cites;
    forall n, m | 0 <= n < m < |consents| ensures consents[n] != consents[m] {
      assert Before(Cites(consents[n]), Cites(consents[m]));
      NotBeforeItself(Cites(consents[n]));
    }
  }

  lemma EachIsStated(s: Stream, consents: seq<Body>)
    requires Describes(s, Ascending(GrantIds(s)), consents)
    ensures forall k :: k in s.consent ==> exists n :: 0 <= n < |consents| && RestatesGrant(s, k, consents[n])
  {
    hide RestatesGrant, Ascending, Describes;
    forall k | k in s.consent
      ensures exists n :: 0 <= n < |consents| && RestatesGrant(s, k, consents[n])
    {
      var n := GrantIsStated(s, k, consents);
    }
  }

  lemma ConsentsState(s: Stream, consents: seq<Body>)
    requires Describes(s, Ascending(GrantIds(s)), consents)
    ensures StateGrants(s, consents)
  {
    var ids := Ascending(GrantIds(s));
    EachIsStated(s, consents);
    ConsentsDiffer(s, ids, consents);
    hide RestatesGrant, RestatesSome, Ascending, AllDiffer, Describes;
    forall n | 0 <= n < |consents|
      ensures RestatesSome(s, consents[n]) && !consents[n].ItemPut? && !consents[n].ItemDelete?
    {
      ConsentStates(s, ids, consents, n);
    }
  }

  lemma NotBeforeItself(k: GrantRef)
    ensures !Before(k, k)
  {
  }

  lemma DeletionsDiffer(s: Stream, deletions: seq<Body>)
    requires DescribesDead(s, deletions)
    ensures AllDiffer(deletions)
  {
    forall n, m | 0 <= n < m < |deletions| ensures deletions[n] != deletions[m] {
      assert deletions[n].itemId < deletions[m].itemId;
    }
  }

  lemma DeletionsState(s: Stream, deletions: seq<Body>)
    requires DescribesDead(s, deletions)
    ensures StateTombstones(s, deletions)
  {
    DeletionsDiffer(s, deletions);
    hide RestatesTombstone, RestatesSome, Restatement, Joins, AllDiffer;
    forall n | 0 <= n < |deletions| ensures RestatesSome(s, deletions[n]) && deletions[n].ItemDelete? {
      RestatementStates(s, deletions[n].itemId);
    }
    forall i | i in s.tombstones
      ensures exists n :: 0 <= n < |deletions| && RestatesTombstone(s, i, deletions[n])
    {
      var n :| 0 <= n < |deletions| && deletions[n] == Restatement(s, i);
      RestatementStates(s, i);
    }
  }

  lemma ControlIsRestated(s: Stream, control: LaneLog, consents: seq<Body>, deletions: seq<Body>)
    requires Dense(control) && Bodies(control) == consents + deletions
    requires StateGrants(s, consents) && StateTombstones(s, deletions)
    ensures ControlRestates(s, control) && RowsDiffer(control)
  {
    hide Dense, Bodies, RestatesGrant, RestatesTombstone, RestatesSome;
    var bodies := consents + deletions;
    forall p ensures p in control.rows <==> 0 <= p < |bodies|
             ensures p in control.rows ==> control.rows[p].op.body == bodies[p]
    {
      BodyAtRow(control, bodies, p);
    }
    forall k | k in s.consent
      ensures exists p :: p in control.rows && RestatesGrant(s, k, control.rows[p].op.body)
    {
      var p :| 0 <= p < |consents| && RestatesGrant(s, k, consents[p]);
      assert bodies[p] == consents[p];
    }
    forall i | i in s.tombstones
      ensures exists p :: p in control.rows && RestatesTombstone(s, i, control.rows[p].op.body)
    {
      var n :| 0 <= n < |deletions| && RestatesTombstone(s, i, deletions[n]);
      assert bodies[|consents| + n] == deletions[n];
    }
    forall p | p in control.rows
      ensures RestatesSome(s, control.rows[p].op.body) && !control.rows[p].op.body.ItemPut?
      ensures control.rows[p].op.body.ItemDelete? <==> |consents| <= p
    {
      assert bodies[p] == if p < |consents| then consents[p] else deletions[p - |consents|];
    }
    TogetherDiffer(consents, deletions);
    forall p, q | p in control.rows && q in control.rows && p < q
      ensures control.rows[p].op.body != control.rows[q].op.body
    {
      assert bodies[p] != bodies[q];
    }
  }

  lemma TogetherDiffer(consents: seq<Body>, deletions: seq<Body>)
    requires AllDiffer(consents) && AllDiffer(deletions)
    requires forall n :: 0 <= n < |consents| ==> !consents[n].ItemDelete?
    requires forall n :: 0 <= n < |deletions| ==> deletions[n].ItemDelete?
    ensures AllDiffer(consents + deletions)
  {
  }

  lemma PutsState(s: Stream, puts: seq<Body>)
    requires DescribesLive(s, puts)
    ensures StateLive(s, puts)
  {
    hide RestatesSome;
    forall n | 0 <= n < |puts| ensures RestatesSome(s, puts[n]) && puts[n].ItemPut? {
      PutStates(s, puts[n].item.Key());
    }
    forall k | k in s.records && s.records[k].current
      ensures exists n :: 0 <= n < |puts| && RestatesLive(s, k, puts[n])
    {
      var n :| 0 <= n < |puts| && puts[n] == PutBody(s.records[k].item);
      PutStates(s, k);
    }
  }

  lemma PutStates(s: Stream, k: ItemKey)
    requires k in s.records && s.records[k].current
    ensures RestatesLive(s, k, PutBody(s.records[k].item)) && RestatesSome(s, PutBody(s.records[k].item))
  {
    assert RestatesLive(s, k, PutBody(s.records[k].item));
  }

  lemma DataIsRestated(s: Stream, data: LaneLog, bodies: seq<Body>)
    requires Dense(data) && Bodies(data) == bodies && StateLive(s, bodies)
    ensures DataRestates(s, data) && RowsDiffer(data)
  {
    hide Dense, Bodies, RestatesLive, RestatesSome;
    forall p ensures p in data.rows <==> 0 <= p < |bodies|
             ensures p in data.rows ==> data.rows[p].op.body == bodies[p]
    {
      BodyAtRow(data, bodies, p);
    }
    forall k | k in s.records && s.records[k].current
      ensures exists p :: p in data.rows && RestatesLive(s, k, data.rows[p].op.body)
    {
      var p :| 0 <= p < |bodies| && RestatesLive(s, k, bodies[p]);
      assert p in data.rows;
    }
    forall p, q | p in data.rows && q in data.rows && p < q
      ensures data.rows[p].op.body != data.rows[q].op.body
    {
      assert bodies[p] != bodies[q];
    }
  }

  /**
   What a restart leaves: the next generation of the same tables, with nothing acknowledged; in control
   one row for each stored grant revision and then one for each tombstone, in data one for each live
   item, and no other row.
   */
  lemma RestartRows(s: Stream)
    requires Reachable(s)
    ensures BeginGeneration(s).Success?
    ensures var s' := BeginGeneration(s).value;
            && s'.generation == s.generation + 1 && NamesKept(s, s')
            && s'.consent == s.consent && SameItems(s, s')
            && s'.control.acknowledged == -1 && s'.data.acknowledged == -1
            && ControlRestates(s, s'.control) && RowsDiffer(s'.control)
            && DataRestates(s, s'.data) && RowsDiffer(s'.data)
  {
    hide Reachable, BeginGeneration, ControlRestates, DataRestates, RowsDiffer, Describes, DescribesDead,
      DescribesLive, Bodies, StateGrants, StateTombstones, StateLive;
    var consents, deletions := RestartSucceeds(s);
    var s' := BeginGeneration(s).value;
    ConsentsState(s, consents);
    DeletionsState(s, deletions);
    ControlIsRestated(s, s'.control, consents, deletions);
    PutsState(s, Bodies(s'.data));
    DataIsRestated(s, s'.data, Bodies(s'.data));
  }
}
