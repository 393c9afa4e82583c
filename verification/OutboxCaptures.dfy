/**
 What a capture and a revision store: exactly which are accepted, said of the input and the newest
 revision of the grant alone, and what the stored decision takes from each.
 */
module OutboxCaptures {
  import opened Wrappers
  import opened SyncWire
  import opened OutboxModel
  import opened OutboxInvariant
  import opened OutboxRuns
  import opened OutboxGuarantees
  import opened OutboxEffects

  /** The grant's terms as they bind what is asked for. */
  ghost predicate Allows(g: Grant, input: CaptureInput) {
    && g.status == Active
    && g.effectiveAt <= input.capturedAt < g.expiresAt
    && input.sensitivity.Rank() <= g.maximumSensitivity.Rank()
    && input.capturedAt < input.retentionExpiresAt <= g.expiresAt
    && input.retentionExpiresAt <= input.capturedAt + g.retentionMaximumDays * DAY_MS
    && input.capturedAt + g.retentionMaximumDays * DAY_MS <= LAST_INSTANT
  }

  /** One to 32 pieces of evidence, one of them the user's own word, and every field within bounds. */
  ghost predicate WellFormed(input: CaptureInput) {
    && Canonical(input.capturedAt) && Canonical(input.retentionExpiresAt)
    && (input.effectiveFrom.Some? ==> Canonical(input.effectiveFrom.value))
    && 1 <= |input.evidence| <= 32
    && (forall i :: 0 <= i < |input.evidence| ==> Canonical(input.evidence[i].capturedAt))
    && (exists i :: 0 <= i < |input.evidence| && input.evidence[i].authority == UserExplicit)
    && (input.text.question.Some? ==> 1 <= |input.text.question.value| <= 2000)
    && 1 <= |input.text.selected| <= 2000
    && 1 <= |input.text.rationale| <= 2000
    && 1 <= |input.text.alternatives| <= 12
    && (forall i :: 0 <= i < |input.text.alternatives| ==>
          && 1 <= |input.text.alternatives[i].name| <= 300
          && 1 <= |input.text.alternatives[i].rationale| <= 2000)
  }

  /** Sensitivity is ordered as its names say. */
  lemma SensitivityIsOrdered()
    ensures Public.Rank() < Internal.Rank() < Confidential.Rank() < Restricted.Rank()
  {
  }

  /** The fields a stored decision takes from the input. */
  ghost predicate Takes(item: Item, input: CaptureInput) {
    && item.sensitivity == input.sensitivity
    && item.evidence == input.evidence
    && item.text == input.text
    && item.capturedAt == input.capturedAt
    && item.retentionExpiresAt == input.retentionExpiresAt
    && (input.effectiveFrom.Some? ==> item.effectiveFrom == input.effectiveFrom.value)
    && (input.effectiveFrom.None? ==> item.effectiveFrom == input.capturedAt)
    && item.kind == Decision && item.epistemic == Reported && item.assessment == Verified
  }

  /** The fields it takes from the grant revision cited. */
  ghost predicate Under(item: Item, g: Grant) {
    && item.consent == g.Ref()
    && item.scope == g.scope
    && item.retentionPolicyDays == g.retentionMaximumDays
    && item.redactionPolicy == g.redactionPolicy
    && item.minimizationPolicy == g.minimizationPolicy
  }

  /** The item is stored as current and put at the end of the data lane; nothing else changes. */
  ghost predicate Puts(s: Stream, s': Stream, item: Item) {
    && Records(s, s', item)
    && Gains(s.data, s'.data, [ItemPut(item.consent, item)])
    && s'.control == s.control && s'.consent == s.consent && s'.tombstones == s.tombstones
    && SameStream(s, s')
  }

  // ---- Storing ----

  lemma InsertPuts(s: Stream, item: Item)
    requires Dense(s.data) && item.Key() !in s.records && InsertItem(s, item).Success?
    ensures Puts(s, InsertItem(s, item).value, item)
  {
    hide Gains, Enqueue, CurrentItem;
    var s1 := Inserted(s, item);
    InsertedEffect(s, item);
    EnqueueGains(s1, Data, PutBody(item));
  }

  lemma InsertSucceedsIff(s: Stream, item: Item)
    requires 0 < s.generation && LogInv(s, Data)
    requires CurrentItem(s, item.itemId).None? ==> item.revision == 1
    requires CurrentItem(s, item.itemId).Some? ==>
               item.revision == CurrentItem(s, item.itemId).value.revision + 1
    ensures InsertItem(s, item).Success? <==> item.Valid()
  {
    hide LogInv, Enqueue, CurrentItem, Item.Valid;
    LogFrame(s, Inserted(s, item), Data);
    EnqueueSucceeds(Inserted(s, item), Data, PutBody(item));
  }

  /** An eligible item, where kind, scope and policies agree already. */
  lemma EligibleIffAllowed(g: Grant, item: Item, input: CaptureInput)
    requires Takes(item, input) && item.kind in g.allowedKinds && item.scope == g.scope
    requires item.redactionPolicy == g.redactionPolicy
    requires item.minimizationPolicy == g.minimizationPolicy
    requires g.status == Active && g.effectiveAt <= input.capturedAt < g.expiresAt
    requires input.capturedAt < input.retentionExpiresAt
    ensures Ineligible(g, item).None? <==> Allows(g, input)
  {
  }

  lemma ShapedIffWellFormed(item: Item, input: CaptureInput)
    requires Takes(item, input) && 0 < item.revision && 0 < item.consent.revision
    requires forall i :: 0 <= i < |item.links| ==> 0 < item.links[i].target.revision
    ensures item.Valid() <==>
              WellFormed(input) && |item.links| <= 64 && input.capturedAt < input.retentionExpiresAt
    ensures item.Valid() ==> item.Shaped()
  {
  }

  lemma NeverStored(s: Stream, i: Id)
    requires forall k :: k in s.records ==> k.itemId != i
    ensures CurrentItem(s, i).None?
  {
    assert LiveRevisions(s, i) == {};
  }

  lemma AuthorizesIff(s: Stream, ref: GrantRef, at: Instant)
    requires Inv(s)
    ensures AuthorizingGrant(s, ref, at).Success? <==>
              Newest(s, ref) && s.consent[ref].status == Active
              && s.consent[ref].effectiveAt <= at < s.consent[ref].expiresAt
    ensures AuthorizingGrant(s, ref, at).Success? ==>
              AuthorizingGrant(s, ref, at).value == s.consent[ref]
  {
    hide LogInv, LanesInv, AuthorityInv, IdsInv, RecordsInv, LiveConsentInv, CurrentGrant;
    if AuthorizingGrant(s, ref, at).Success? {
      AuthorizingGrantIsCurrent(s, ref, at);
    }
    if Newest(s, ref) {
      NewestLookup(s, ref);
    }
  }

  // ---- Capture ----

  lemma InvStored(s: Stream, ref: GrantRef)
    requires Inv(s) && ref in s.consent
    ensures s.consent[ref].Ref() == ref && 0 < ref.revision
    ensures s.consent[ref].allowedKinds == [Decision]
    ensures s.consent[ref].redactionPolicy == "secrets-v1"
    ensures s.consent[ref].minimizationPolicy == "decision-v1"
  {
    hide LogInv, LanesInv, AuthorityInv, IdsInv, RecordsInv, LiveConsentInv;
    GrantAtKey(s, ref);
  }

  lemma FreshIsNew(s: Stream)
    requires Inv(s)
    ensures forall k :: k in s.records ==> k.itemId != FreshItem(s)
  {
    hide LogInv, LanesInv, AuthorityInv, RecordsInv, LiveConsentInv, ConsentInv;
  }

  lemma InvDataLog(s: Stream)
    requires Inv(s)
    ensures 0 < s.generation && LogInv(s, Data) && Dense(s.data)
  {
    hide LogInv, LanesInv, AuthorityInv, RecordsInv, LiveConsentInv, ConsentInv, IdsInv;
    LogIsDense(s, Data);
    assert s.Log(Data) == s.data;
  }

  lemma CaptureInsertsIff(s: Stream, ref: GrantRef, input: CaptureInput)
    requires Inv(s) && AuthorizingGrant(s, ref, input.capturedAt).Success?
    ensures var g := AuthorizingGrant(s, ref, input.capturedAt).value;
            var item := CapturedItem(s, FreshItem(s), g, ref, input);
            && (CaptureDecision(s, ref, input).Success? <==> Allows(g, input) && WellFormed(input))
            && (CaptureDecision(s, ref, input).Success? ==>
                  CaptureDecision(s, ref, input) == InsertItem(s.(minted := s.minted + 1), item))
  {
    hide CoreInv, LiveConsentInv, AuthorizingGrant, Ineligible, InsertItem, Allows, WellFormed,
      Item.Valid, Item.Shaped, LogInv, Dense;
    AuthorizesIff(s, ref, input.capturedAt);
    var g := s.consent[ref];
    InvStored(s, ref);
    var item := CapturedItem(s, FreshItem(s), g, ref, input);
    var s0 := s.(minted := s.minted + 1);
    ShapedIffWellFormed(item, input);
    NotEmptyIfWellFormed(input);
    FreshIsNew(s);
    NeverStored(s0, FreshItem(s));
    InvDataLog(s);
    LogFrame(s, s0, Data);
    InsertSucceedsIff(s0, item);
    AllowedIsKept(g, input);
    if input.capturedAt < input.retentionExpiresAt {
      EligibleIffAllowed(g, item, input);
    }
  }

  lemma NotEmptyIfWellFormed(input: CaptureInput)
    ensures WellFormed(input) ==> input.evidence != []
  {
  }

  lemma AllowedIsKept(g: Grant, input: CaptureInput)
    ensures Allows(g, input) ==> input.capturedAt < input.retentionExpiresAt
  {
  }

  /**
   Exactly which captures are accepted: the revision cited is the newest of its grant, it allows what is
   asked for, sensitivity included, and the input is well formed.
   */
  lemma CapturesIff(s: Stream, ref: GrantRef, input: CaptureInput)
    requires Reachable(s)
    ensures CaptureDecision(s, ref, input).Success? <==>
              Newest(s, ref) && Allows(s.consent[ref], input) && WellFormed(input)
  {
    hide Reachable, Inv, AuthorizingGrant, Ineligible, InsertItem, WellFormed, Item.Shaped;
    ReachableInv(s);
    AuthorizesIff(s, ref, input.capturedAt);
    if AuthorizingGrant(s, ref, input.capturedAt).Success? {
      CaptureInsertsIff(s, ref, input);
    }
  }

  /**
   What a capture stores: a decision under a fresh identifier, with everything the input says, linked to
   nothing, and permitted by the revision cited, which is the newest of its grant. Its put is one new row
   of the data lane, and nothing else changes.
   */
  lemma CapturesAreAuthorised(s: Stream, ref: GrantRef, input: CaptureInput) returns (item: Item)
    requires Reachable(s) && CaptureDecision(s, ref, input).Success?
    ensures Puts(s, CaptureDecision(s, ref, input).value, item)
    ensures Takes(item, input)
    ensures Newest(s, ref) && Under(item, s.consent[ref]) && Authorised(s.consent[ref], item)
    ensures item.revision == 1 && item.links == [] && item.originReplicaId == s.replicaId
    ensures forall k :: k in s.records ==> k.itemId != item.itemId
  {
    hide Reachable, CoreInv, LiveConsentInv, AuthorizingGrant, InsertItem, Allows, WellFormed,
      CaptureDecision, Puts, Dense, LogInv, Authorised;
    ReachableInv(s);
    CaptureIsAuthorising(s, ref, input);
    AuthorizesIff(s, ref, input.capturedAt);
    CaptureInsertsIff(s, ref, input);
    InvStored(s, ref);
    FreshIsNew(s);
    InvDataLog(s);
    item := CapturedItem(s, FreshItem(s), s.consent[ref], ref, input);
    var s0 := s.(minted := s.minted + 1);
    InsertPuts(s0, item);
    PutsFrame(s, s0, InsertItem(s0, item).value, item);
    AllowedIsAuthorised(s.consent[ref], item, input);
  }

  lemma AllowedIsAuthorised(g: Grant, item: Item, input: CaptureInput)
    requires Allows(g, input) && Takes(item, input) && Under(item, g) && g.allowedKinds == [Decision]
    ensures Authorised(g, item)
  {
  }

  lemma CaptureIsAuthorising(s: Stream, ref: GrantRef, input: CaptureInput)
    requires CaptureDecision(s, ref, input).Success?
    ensures AuthorizingGrant(s, ref, input.capturedAt).Success?
  {
    hide AuthorizingGrant, Ineligible, InsertItem;
  }

  lemma PutsFrame(s: Stream, s0: Stream, s': Stream, item: Item)
    requires s0 == s.(minted := s0.minted) && Puts(s0, s', item)
    ensures Puts(s, s', item)
  {
  }

  // ---- Revision ----

  /** What is not live cannot be revised. */
  lemma RevisesNothing(s: Stream, itemId: Id, relation: Relation, input: CaptureInput)
    requires NotLive(s, itemId)
    ensures ReviseDecision(s, itemId, relation, input) == Failure(UnknownItem)
  {
    if LiveRevisions(s, itemId) != {} {
      var k := LiveOf(s, itemId);
      assert false;
    }
  }

  /** A live decision: its grant revision is stored, and its policies and scope are that grant's. */
  lemma LiveItemStands(s: Stream, k: ItemKey)
    requires Inv(s) && k in s.records && s.records[k].current
    ensures var item := s.records[k].item;
            && CurrentItem(s, k.itemId) == Some(item)
            && item.Key() == k && item.kind == Decision && 0 < k.revision
            && item.consent in s.consent && item.scope == s.consent[item.consent].scope
            && item.redactionPolicy == "secrets-v1" && item.minimizationPolicy == "decision-v1"
            && 0 < item.consent.revision && |item.links| <= 64
            && forall i :: 0 <= i < |item.links| ==> 0 < item.links[i].target.revision
  {
    hide LogInv, LanesInv, IdsInv, LiveConsentInv, ItemsInv, PartitionInv, ConsentInv, CurrentItem,
      Item.Valid;
    CurrentItemIsLive(s, k);
    ItemAtKey(s.records, k);
    ValidIsShaped(s.records[k].item);
    ValidIsDecision(s.records[k].item);
    InvStored(s, s.records[k].item.consent);
  }

  lemma ValidIsDecision(item: Item)
    requires item.Valid()
    ensures item.kind == Decision && item.epistemic == Reported && item.assessment == Verified
  {
  }

  ghost function Next(s: Stream, k: ItemKey, relation: Relation, input: CaptureInput): Item
    requires k in s.records && s.records[k].item.consent in s.consent
  {
    RevisedItem(s.records[k].item, s.consent[s.records[k].item.consent], relation, input)
  }

  lemma NextTakes(s: Stream, k: ItemKey, relation: Relation, input: CaptureInput)
    requires Inv(s) && k in s.records && s.records[k].current
    ensures s.records[k].item.consent in s.consent
    ensures var item, g := Next(s, k, relation, input), s.consent[s.records[k].item.consent];
            && Takes(item, input) && Under(item, g)
            && item.Key() == ItemKey(k.itemId, k.revision + 1) && 0 < item.revision
            && item.links == s.records[k].item.links + [Link(relation, k)]
            && item.originReplicaId == s.records[k].item.originReplicaId
            && 0 < item.consent.revision
            && forall i :: 0 <= i < |item.links| ==> 0 < item.links[i].target.revision
  {
    hide CoreInv, LiveConsentInv, CurrentItem;
    LiveItemStands(s, k);
    InvStored(s, s.records[k].item.consent);
    LiveItemIsValid(s, k);
    ValidIsDecision(s.records[k].item);
  }

  lemma LiveItemIsValid(s: Stream, k: ItemKey)
    requires Inv(s) && k in s.records
    ensures s.records[k].item.Valid()
  {
    hide LogInv, LanesInv, IdsInv, LiveConsentInv, PartitionInv, ConsentInv, AuthorityInv, Item.Valid;
    ItemAtKey(s.records, k);
  }

  lemma ReviseInsertsIff(s: Stream, k: ItemKey, relation: Relation, input: CaptureInput)
    requires Inv(s) && k in s.records && s.records[k].current
    requires s.records[k].item.consent in s.consent
    requires AuthorizingGrant(s, s.records[k].item.consent, input.capturedAt).Success?
    ensures var r := ReviseDecision(s, k.itemId, relation, input);
            && (r.Success? <==>
                && Allows(s.consent[s.records[k].item.consent], input) && WellFormed(input)
                && |s.records[k].item.links| < 64)
            && (r.Success? ==> r == InsertItem(s, Next(s, k, relation, input)))
  {
    hide CoreInv, LiveConsentInv, AuthorizingGrant, Ineligible, InsertItem, Allows, WellFormed,
      Item.Valid, Item.Shaped, LogInv, Dense, CurrentItem, RevisedItem;
    var ref := s.records[k].item.consent;
    AuthorizesIff(s, ref, input.capturedAt);
    LiveItemStands(s, k);
    InvStored(s, ref);
    NextTakes(s, k, relation, input);
    var g, item := s.consent[ref], Next(s, k, relation, input);
    assert item == RevisedItem(s.records[k].item, g, relation, input);
    ShapedIffWellFormed(item, input);
    NotEmptyIfWellFormed(input);
    InvDataLog(s);
    InsertSucceedsIff(s, item);
    AllowedIsKept(g, input);
    if input.capturedAt < input.retentionExpiresAt {
      EligibleIffAllowed(g, item, input);
    }
  }

  /**
   Exactly which revisions of a live decision are accepted: the grant revision it was captured under is
   still the newest and allows what is asked for, the input is well formed, and there is room for one
   more link.
   */
  lemma RevisesIff(s: Stream, k: ItemKey, relation: Relation, input: CaptureInput)
    requires Reachable(s) && k in s.records && s.records[k].current
    ensures var ref := s.records[k].item.consent;
            ReviseDecision(s, k.itemId, relation, input).Success? <==>
              && Newest(s, ref) && Allows(s.consent[ref], input) && WellFormed(input)
              && |s.records[k].item.links| < 64
  {
    hide Reachable, CoreInv, LiveConsentInv, AuthorizingGrant, Ineligible, InsertItem, WellFormed,
      Item.Shaped, CurrentItem;
    ReachableInv(s);
    LiveItemStands(s, k);
    AuthorizesIff(s, s.records[k].item.consent, input.capturedAt);
    if AuthorizingGrant(s, s.records[k].item.consent, input.capturedAt).Success? {
      ReviseInsertsIff(s, k, relation, input);
    }
  }

  /**
   What a revision stores: the next revision of the item, with everything the input says, linked to the
   revision it follows, and permitted by the grant revision its item always had, which is still the
   newest. Its put is one new row of the data lane, and nothing else changes.
   */
  lemma RevisionsAreAuthorised(s: Stream, k: ItemKey, relation: Relation, input: CaptureInput)
    returns (item: Item)
    requires Reachable(s) && k in s.records && s.records[k].current
    requires ReviseDecision(s, k.itemId, relation, input).Success?
    ensures Puts(s, ReviseDecision(s, k.itemId, relation, input).value, item)
    ensures var ref := s.records[k].item.consent;
            && Takes(item, input)
            && Newest(s, ref) && Under(item, s.consent[ref]) && Authorised(s.consent[ref], item)
    ensures item.Key() == ItemKey(k.itemId, k.revision + 1)
    ensures item.links == s.records[k].item.links + [Link(relation, k)]
    ensures item.originReplicaId == s.records[k].item.originReplicaId
  {
    hide Reachable, CoreInv, LiveConsentInv, AuthorizingGrant, InsertItem, Allows, WellFormed, Puts,
      Dense, LogInv, CurrentItem, ReviseDecision, Next, Takes, Under, Authorised;
    ReachableInv(s);
    LiveItemStands(s, k);
    ReviseIsAuthorising(s, k, relation, input);
    ReviseInsertsIff(s, k, relation, input);
    NextTakes(s, k, relation, input);
    InvDataLog(s);
    item := Next(s, k, relation, input);
    LiveIsNewest(s, k);
    InsertPuts(s, item);
    AuthorizesIff(s, s.records[k].item.consent, input.capturedAt);
    InvStored(s, s.records[k].item.consent);
    AllowedIsAuthorised(s.consent[s.records[k].item.consent], item, input);
  }

  lemma ReviseIsAuthorising(s: Stream, k: ItemKey, relation: Relation, input: CaptureInput)
    requires ReviseDecision(s, k.itemId, relation, input).Success? && k in s.records
    requires CurrentItem(s, k.itemId) == Some(s.records[k].item)
    ensures AuthorizingGrant(s, s.records[k].item.consent, input.capturedAt).Success?
  {
    hide AuthorizingGrant, Ineligible, InsertItem, CurrentItem;
  }

  lemma LiveIsNewest(s: Stream, k: ItemKey)
    requires Inv(s) && k in s.records && s.records[k].current
    ensures ItemKey(k.itemId, k.revision + 1) !in s.records
  {
    hide LogInv, LanesInv, IdsInv, LiveConsentInv, ConsentInv, AuthorityInv, ItemsInv;
    assert IsNewest(s.records, k);
  }
}
