/**
 A destination that keeps the fences the wire contract asks for, and the proof that it converges.

 A put is refused when an item fence or a scope fence covers it, and otherwise replaces an older
 revision of its item. Deletions raise their fence and remove what it covers. Whatever order the two
 lanes arrive in, and however often operations are delivered again, a receiver that has seen every
 operation of a generation holds exactly what the sender holds.
 */
module Receiver {
  import opened Wrappers
  import opened IntSets
  import opened SyncWire
  import opened OutboxModel
  import opened OutboxInvariant
  import opened OutboxGeneration

  datatype Held = Held(item: Item, position: int)

  datatype State = State(
    live: map<Id, Held>,
    itemFences: map<Id, int>,
    scopeFences: map<Scope, int>)

  const Fresh := State(map[], map[], map[])

  function Raised<T>(fences: map<T, int>, key: T, through: int): map<T, int> {
    if key in fences && through <= fences[key] then fences else fences[key := through]
  }

  predicate Fenced(r: State, item: Item, position: int) {
    || (item.itemId in r.itemFences && item.revision <= r.itemFences[item.itemId])
    || (item.scope in r.scopeFences && position <= r.scopeFences[item.scope])
  }

  function Deliver(r: State, op: Operation): State {
    match op.body
    case ItemPut(_, item) =>
      if Fenced(r, item, op.position) then r
      else if item.itemId in r.live && item.revision <= r.live[item.itemId].item.revision then r
      else r.(live := r.live[item.itemId := Held(item, op.position)])
    case ItemDelete(_, _, itemId, through, _, _) =>
      Swept(r.(itemFences := Raised(r.itemFences, itemId, through)))
    case ScopeDelete(_, scope, through, _, _) =>
      Swept(r.(scopeFences := Raised(r.scopeFences, scope, through)))
    case _ => r
  }

  /** Drops everything a fence covers. */
  function Swept(r: State): State {
    r.(live := map i | i in r.live && !Fenced(r, r.live[i].item, r.live[i].position) :: r.live[i])
  }

  function DeliverAll(t: seq<Operation>): State {
    if t == [] then Fresh else Deliver(DeliverAll(t[..|t| - 1]), t[|t| - 1])
  }

  // ---- What a receiver has seen ----

  ghost predicate CoveredIn(t: seq<Operation>, item: Item, position: int) {
    exists d :: d in t && Covers(d.body, item, position)
  }

  /** Puts of one item agree on its scope, and higher revisions sit at higher positions. */
  ghost predicate Consistent(t: seq<Operation>) {
    forall a, b :: a in t && b in t ==> Ordered(a, b)
  }

  ghost predicate Ordered(a: Operation, b: Operation) {
    a.body.ItemPut? && b.body.ItemPut? && a.body.item.itemId == b.body.item.itemId ==>
      && a.body.item.scope == b.body.item.scope
      && (a.body.item.revision <= b.body.item.revision ==> a.position <= b.position)
  }

  ghost predicate HeldPut(t: seq<Operation>, i: Id, held: Held, op: Operation) {
    op in t && op.body.ItemPut? && op.body.item == held.item && op.position == held.position
    && held.item.itemId == i
  }

  /** Every put seen is covered by something seen, or overtaken by what is live. */
  ghost predicate NothingLost(r: State, t: seq<Operation>) {
    forall op :: op in t && op.body.ItemPut? ==>
      || CoveredIn(t, op.body.item, op.position)
      || (op.body.item.itemId in r.live
          && op.body.item.revision <= r.live[op.body.item.itemId].item.revision)
  }

  /** What is live was put, and nothing seen covers it. */
  ghost predicate LiveJustified(r: State, t: seq<Operation>) {
    forall i :: i in r.live ==>
      && (exists op :: HeldPut(t, i, r.live[i], op))
      && !CoveredIn(t, r.live[i].item, r.live[i].position)
  }

  ghost predicate ItemFencesExact(r: State, t: seq<Operation>) {
    && (forall op :: op in t && op.body.ItemDelete? ==>
          && op.body.itemId in r.itemFences
          && op.body.deleteThroughRevision <= r.itemFences[op.body.itemId])
    && (forall i :: i in r.itemFences ==>
          exists op :: op in t && op.body.ItemDelete? && op.body.itemId == i
                       && op.body.deleteThroughRevision == r.itemFences[i])
  }

  ghost predicate ScopeFencesExact(r: State, t: seq<Operation>) {
    && (forall op :: op in t && op.body.ScopeDelete? ==>
          && op.body.scope in r.scopeFences
          && op.body.deleteThroughDataPosition <= r.scopeFences[op.body.scope])
    && (forall c :: c in r.scopeFences ==>
          exists op :: op in t && op.body.ScopeDelete? && op.body.scope == c
                       && op.body.deleteThroughDataPosition == r.scopeFences[c])
  }

  ghost predicate FencesExact(r: State, t: seq<Operation>) {
    ItemFencesExact(r, t) && ScopeFencesExact(r, t)
  }

  ghost predicate Agrees(r: State, t: seq<Operation>) {
    FencesExact(r, t) && NothingLost(r, t) && LiveJustified(r, t)
  }

  /** A receiver's fences cover exactly what the deletions it has seen cover. */
  lemma FencedIffCovered(r: State, t: seq<Operation>, item: Item, position: int)
    requires FencesExact(r, t)
    ensures Fenced(r, item, position) <==> CoveredIn(t, item, position)
  {
    if item.itemId in r.itemFences && item.revision <= r.itemFences[item.itemId] {
      var op :| op in t && op.body.ItemDelete? && op.body.itemId == item.itemId
                && op.body.deleteThroughRevision == r.itemFences[item.itemId];
      assert Covers(op.body, item, position);
    }
    if item.scope in r.scopeFences && position <= r.scopeFences[item.scope] {
      var op :| op in t && op.body.ScopeDelete? && op.body.scope == item.scope
                && op.body.deleteThroughDataPosition == r.scopeFences[item.scope];
      assert Covers(op.body, item, position);
    }
  }

  lemma ItemFencesStayExact(r: State, t: seq<Operation>, op: Operation)
    requires ItemFencesExact(r, t)
    ensures ItemFencesExact(Deliver(r, op), t + [op])
  {
    var r', t' := Deliver(r, op), t + [op];
    forall i | i in r'.itemFences
      ensures exists d :: d in t' && d.body.ItemDelete? && d.body.itemId == i
                          && d.body.deleteThroughRevision == r'.itemFences[i]
    {
      if i in r.itemFences && r'.itemFences[i] == r.itemFences[i] {
        var d :| d in t && d.body.ItemDelete? && d.body.itemId == i
                 && d.body.deleteThroughRevision == r.itemFences[i];
        assert d in t';
      } else {
        assert op in t' && op.body.ItemDelete?;
      }
    }
  }

  lemma ScopeFencesStayExact(r: State, t: seq<Operation>, op: Operation)
    requires ScopeFencesExact(r, t)
    ensures ScopeFencesExact(Deliver(r, op), t + [op])
  {
    var r', t' := Deliver(r, op), t + [op];
    forall c | c in r'.scopeFences
      ensures exists d :: d in t' && d.body.ScopeDelete? && d.body.scope == c
                          && d.body.deleteThroughDataPosition == r'.scopeFences[c]
    {
      if c in r.scopeFences && r'.scopeFences[c] == r.scopeFences[c] {
        var d :| d in t && d.body.ScopeDelete? && d.body.scope == c
                 && d.body.deleteThroughDataPosition == r.scopeFences[c];
        assert d in t';
      } else {
        assert op in t' && op.body.ScopeDelete?;
      }
    }
  }

  lemma CoveredInAppend(t: seq<Operation>, op: Operation, item: Item, position: int)
    ensures CoveredIn(t + [op], item, position)
            <==> CoveredIn(t, item, position) || Covers(op.body, item, position)
  {
    if CoveredIn(t, item, position) {
      var d :| d in t && Covers(d.body, item, position);
      assert d in t + [op];
    }
    if Covers(op.body, item, position) {
      assert op in t + [op];
    }
  }

  /** What is live in the next state was live or is the put just delivered, and is not fenced. */
  lemma DeliverLive(r: State, op: Operation, i: Id)
    requires i in Deliver(r, op).live
    ensures var held := Deliver(r, op).live[i];
            || (i in r.live && held == r.live[i])
            || (op.body.ItemPut? && i == op.body.item.itemId && held == Held(op.body.item, op.position)
                && !Fenced(r, op.body.item, op.position))
    ensures !op.body.ItemPut? && (op.body.ItemDelete? || op.body.ScopeDelete?) ==>
              !Fenced(Deliver(r, op), Deliver(r, op).live[i].item, Deliver(r, op).live[i].position)
  {
  }

  lemma LiveStaysJustified(r: State, t: seq<Operation>, op: Operation)
    requires FencesExact(r, t) && LiveJustified(r, t)
    requires FencesExact(Deliver(r, op), t + [op])
    ensures LiveJustified(Deliver(r, op), t + [op])
  {
    hide ItemFencesExact, ScopeFencesExact, Fenced;
    var r', t' := Deliver(r, op), t + [op];
    forall i | i in r'.live
      ensures exists put :: HeldPut(t', i, r'.live[i], put)
      ensures !CoveredIn(t', r'.live[i].item, r'.live[i].position)
    {
      DeliverLive(r, op, i);
      var held := r'.live[i];
      hide Deliver;
      FencedIffCovered(r, t, held.item, held.position);
      FencedIffCovered(r', t', held.item, held.position);
      CoveredInAppend(t, op, held.item, held.position);
      if i in r.live && held == r.live[i] {
        var put :| HeldPut(t, i, held, put);
        assert HeldPut(t', i, held, put);
      } else {
        assert HeldPut(t', i, held, op);
      }
    }
  }

  /** A put that a held revision overtakes is covered whenever the held revision is. */
  lemma OvertakenIsCovered(t: seq<Operation>, d: Body, put: Operation, held: Held)
    requires Consistent(t) && put in t && put.body.ItemPut?
    requires exists op :: HeldPut(t, put.body.item.itemId, held, op)
    requires put.body.item.revision <= held.item.revision
    requires Covers(d, held.item, held.position)
    ensures Covers(d, put.body.item, put.position)
  {
    var op :| HeldPut(t, put.body.item.itemId, held, op);
    assert Ordered(put, op);
  }

  /** A held item that a delivery removes is covered by that delivery. */
  lemma RemovedIsCovered(r: State, t: seq<Operation>, op: Operation, i: Id)
    requires FencesExact(r, t) && LiveJustified(r, t) && FencesExact(Deliver(r, op), t + [op])
    requires i in r.live && i !in Deliver(r, op).live
    ensures Covers(op.body, r.live[i].item, r.live[i].position)
  {
    var held := r.live[i];
    assert Fenced(Deliver(r, op), held.item, held.position);
    assert !CoveredIn(t, held.item, held.position);
    hide LiveJustified, Deliver, Fenced, ItemFencesExact, ScopeFencesExact;
    FencedIffCovered(Deliver(r, op), t + [op], held.item, held.position);
    CoveredInAppend(t, op, held.item, held.position);
  }

  lemma LiveOnlyAdvances(r: State, op: Operation, i: Id)
    requires i in r.live && i in Deliver(r, op).live
    ensures r.live[i].item.revision <= Deliver(r, op).live[i].item.revision
  {
  }

  lemma PutIsKeptOrCovered(r: State, t: seq<Operation>, op: Operation)
    requires FencesExact(r, t) && op.body.ItemPut?
    ensures var item, r' := op.body.item, Deliver(r, op);
            || CoveredIn(t + [op], item, op.position)
            || (item.itemId in r'.live && item.revision <= r'.live[item.itemId].item.revision)
  {
    hide ItemFencesExact, ScopeFencesExact;
    FencedIffCovered(r, t, op.body.item, op.position);
    CoveredInAppend(t, op, op.body.item, op.position);
    hide CoveredIn, Fenced;
  }

  lemma NothingGetsLost(r: State, t: seq<Operation>, op: Operation)
    requires Agrees(r, t) && Consistent(t + [op])
    requires FencesExact(Deliver(r, op), t + [op])
    ensures NothingLost(Deliver(r, op), t + [op])
  {
    forall put | put in t + [op] && put.body.ItemPut?
      ensures var item, r' := put.body.item, Deliver(r, op);
              || CoveredIn(t + [op], item, put.position)
              || (item.itemId in r'.live && item.revision <= r'.live[item.itemId].item.revision)
    {
      if put == op {
        PutIsKeptOrCovered(r, t, op);
      } else {
        assert put in t;
        EarlierPutKept(r, t, op, put);
      }
    }
  }

  lemma EarlierPutKept(r: State, t: seq<Operation>, op: Operation, put: Operation)
    requires Agrees(r, t) && Consistent(t + [op]) && put in t && put.body.ItemPut?
    requires FencesExact(Deliver(r, op), t + [op])
    ensures var item, r' := put.body.item, Deliver(r, op);
            || CoveredIn(t + [op], item, put.position)
            || (item.itemId in r'.live && item.revision <= r'.live[item.itemId].item.revision)
  {
    var item, i, r' := put.body.item, put.body.item.itemId, Deliver(r, op);
    CoveredInAppend(t, op, item, put.position);
    if !CoveredIn(t, item, put.position) {
      assert i in r.live && item.revision <= r.live[i].item.revision;
      hide FencesExact, CoveredIn, NothingLost;
      assert Consistent(t) by { ConsistentPrefix(t, op); }
      hide Consistent;
      if i in r'.live {
        LiveOnlyAdvances(r, op, i);
      } else {
        RemovedIsCovered(r, t, op, i);
        OvertakenIsCovered(t, op.body, put, r.live[i]);
      }
    }
  }

  lemma ConsistentPrefix(t: seq<Operation>, op: Operation)
    requires Consistent(t + [op])
    ensures Consistent(t)
  {
    forall a, b | a in t && b in t ensures Ordered(a, b) {
      assert a in t + [op] && b in t + [op];
    }
  }

  /** After any deliveries of consistent operations, in any order and with repeats, all is agreed. */
  lemma {:induction false} DeliverAllAgrees(t: seq<Operation>)
    requires Consistent(t)
    ensures Agrees(DeliverAll(t), t)
  {
    if t != [] {
      var front, op := t[..|t| - 1], t[|t| - 1];
      assert front + [op] == t;
      ConsistentPrefix(front, op);
      DeliverAllAgrees(front);
      var r := DeliverAll(front);
      hide Deliver, Consistent, NothingLost, LiveJustified, ItemFencesExact, ScopeFencesExact;
      ItemFencesStayExact(r, front, op);
      ScopeFencesStayExact(r, front, op);
      LiveStaysJustified(r, front, op);
      NothingGetsLost(r, front, op);
    }
  }

  // ---- What a sender produces ----

  /** An operation stored in either lane of the current generation. */
  ghost predicate Produced(s: Stream, op: Operation) {
    || (op.position in s.control.rows && s.control.rows[op.position].op == op)
    || (op.position in s.data.rows && s.data.rows[op.position].op == op)
  }

  ghost predicate OnlyProduced(s: Stream, t: seq<Operation>) {
    forall op :: op in t ==> Produced(s, op)
  }

  /** Everything produced was delivered at least once, and nothing else. */
  ghost predicate DeliversAll(s: Stream, t: seq<Operation>) {
    forall op :: op in t <==> Produced(s, op)
  }

  lemma ProducedPut(s: Stream, op: Operation)
    requires CoreInv(s) && Produced(s, op) && op.body.ItemPut?
    ensures op.position in s.data.rows && s.data.rows[op.position].op == op
    ensures op.body.item.Key() in s.records && s.records[op.body.item.Key()].item == op.body.item
  {
    assert op.position in s.control.rows && s.control.rows[op.position].op == op ==>
        Placed(s, Control, op.position, op);
    hide LogInv, ItemsInv, PartitionInv;
  }

  lemma ProducedIsConsistent(s: Stream, t: seq<Operation>)
    requires CoreInv(s) && OnlyProduced(s, t)
    ensures Consistent(t)
  {
    hide CoreInv, Ordered, OnlyProduced;
    forall a, b | a in t && b in t ensures Ordered(a, b) {
      ProducedOrdered(s, t, a, b);
    }
  }

  lemma ProducedOrdered(s: Stream, t: seq<Operation>, a: Operation, b: Operation)
    requires CoreInv(s) && OnlyProduced(s, t) && a in t && b in t
    ensures Ordered(a, b)
  {
    if a.body.ItemPut? && b.body.ItemPut? {
      ProducedPut(s, a);
      ProducedPut(s, b);
      hide LogInv, PartitionInv, FencesBounded, LanesAgree, LivePut, PutsStored, Produced;
      if b.position < a.position {
        assert Advances(b.body, a.body);
      }
    }
  }

  /** Every operation of the control lane was delivered, and nothing that was not produced. */
  ghost predicate DeliversControl(s: Stream, t: seq<Operation>) {
    OnlyProduced(s, t) && forall c :: c in s.control.rows ==> s.control.rows[c].op in t
  }

  lemma AllIsControl(s: Stream, t: seq<Operation>)
    requires CoreInv(s) && DeliversAll(s, t)
    ensures DeliversControl(s, t)
  {
    forall c | c in s.control.rows ensures s.control.rows[c].op in t {
      assert Placed(s, Control, c, s.control.rows[c].op);
      assert Produced(s, s.control.rows[c].op);
    }
  }

  lemma CoveredInIffCovered(s: Stream, t: seq<Operation>, item: Item, position: int)
    requires CoreInv(s) && DeliversControl(s, t)
    ensures CoveredIn(t, item, position) <==> Covered(s.control, item, position)
  {
    if CoveredIn(t, item, position) {
      var d :| d in t && Covers(d.body, item, position);
      DeletionIsControl(s, d);
      assert Covers(s.control.rows[d.position].op.body, item, position);
    }
    if Covered(s.control, item, position) {
      var c :| c in s.control.rows && Covers(s.control.rows[c].op.body, item, position);
      assert s.control.rows[c].op in t;
    }
  }

  lemma DeletionIsControl(s: Stream, d: Operation)
    requires CoreInv(s) && Produced(s, d) && (d.body.ItemDelete? || d.body.ScopeDelete?)
    ensures d.position in s.control.rows && s.control.rows[d.position].op == d
    ensures FenceBounded(s, d.body)
  {
    assert d.position in s.data.rows && s.data.rows[d.position].op == d ==>
        Placed(s, Data, d.position, d);
    hide LogInv, RecordsInv;
  }

  /** A live item's newest put is uncovered, so a receiver that saw everything holds it. */
  lemma LiveIsHeld(s: Stream, t: seq<Operation>, k: ItemKey)
    requires CoreInv(s) && DeliversAll(s, t) && Agrees(DeliverAll(t), t)
    requires k in s.records && s.records[k].current
    ensures k.itemId in DeliverAll(t).live
    ensures k.revision <= DeliverAll(t).live[k.itemId].item.revision
  {
    var p := LivePutAt(s, k);
    var op := s.data.rows[p].op;
    assert Produced(s, op);
    AllIsControl(s, t);
    CoveredInIffCovered(s, t, op.body.item, p);
  }

  lemma LivePutAt(s: Stream, k: ItemKey) returns (p: int)
    requires CoreInv(s) && k in s.records && s.records[k].current
    ensures p in s.data.rows && s.data.rows[p].op.position == p
    ensures IsPut(s.data, p, k) && !Covered(s.control, s.data.rows[p].op.body.item, p)
  {
    assert k.itemId !in s.tombstones;
    p :| IsPut(s.data, p, k);
    assert Placed(s, Data, p, s.data.rows[p].op);
  }

  /** What a receiver holds is the sender's live revision of that item. */
  lemma HeldIsLive(s: Stream, t: seq<Operation>, i: Id) returns (k: ItemKey)
    requires CoreInv(s) && DeliversAll(s, t) && Agrees(DeliverAll(t), t)
    requires i in DeliverAll(t).live
    ensures k in s.records && s.records[k].current && k.itemId == i
    ensures DeliverAll(t).live[i].item == s.records[k].item
  {
    var held := DeliverAll(t).live[i];
    var op :| HeldPut(t, i, held, op);
    AllIsControl(s, t);
    CoveredInIffCovered(s, t, held.item, held.position);
    ProducedPut(s, op);
    var n := NewestExists(s.records, held.item.Key());
    hide Agrees, LogInv, AuthorityInv;
    UncoveredIsLive(s, op, n);
    k := n;
    LiveIsHeld(s, t, k);
    assert k == held.item.Key();
  }

  lemma UncoveredIsLive(s: Stream, op: Operation, n: ItemKey)
    requires CoreInv(s) && op.body.ItemPut? && op.position in s.data.rows
    requires s.data.rows[op.position].op == op && !Covered(s.control, op.body.item, op.position)
    requires IsNewest(s.records, n) && n.itemId == op.body.item.itemId
    ensures n in s.records && s.records[n].current
  {
  }

  /**
   Convergence. Once every operation of the current generation has been delivered, in any order and
   any number of times, a receiver that started empty holds exactly the sender's live items, each at
   its newest revision.
   */
  lemma Converges(s: Stream, t: seq<Operation>)
    requires CoreInv(s) && DeliversAll(s, t)
    ensures DeliverAll(t).live.Keys == LiveItems(s)
    ensures forall k :: k in s.records && s.records[k].current ==>
              k.itemId in DeliverAll(t).live &&
              DeliverAll(t).live[k.itemId].item == s.records[k].item
  {
    hide CoreInv, DeliverAll, Agrees;
    assert OnlyProduced(s, t);
    ProducedIsConsistent(s, t);
    DeliverAllAgrees(t);
    var r := DeliverAll(t);
    forall i | i in r.live ensures i in LiveItems(s) {
      var k := HeldIsLive(s, t, i);
    }
    forall k | k in s.records && s.records[k].current
      ensures k.itemId in r.live && r.live[k.itemId].item == s.records[k].item
    {
      LiveIsHeld(s, t, k);
      var l := HeldIsLive(s, t, k.itemId);
      LiveIsUnique(s, k, l);
    }
    assert r.live.Keys == LiveItems(s);
  }

  lemma LiveIsUnique(s: Stream, k: ItemKey, l: ItemKey)
    requires CoreInv(s) && k in s.records && s.records[k].current
    requires l in s.records && s.records[l].current && k.itemId == l.itemId
    ensures k == l
  {
    assert IsNewest(s.records, k) && IsNewest(s.records, l);
    SameNewest(s.records, k, l);
  }

  // ---- The two lanes, each in order ----

  /** A merge of two lanes that keeps the order within each. */
  ghost predicate Interleaves(t: seq<Operation>, control: seq<Operation>, data: seq<Operation>)
    decreases |t|
  {
    if t == [] then control == [] && data == []
    else
      || (control != [] && t[0] == control[0] && Interleaves(t[1..], control[1..], data))
      || (data != [] && t[0] == data[0] && Interleaves(t[1..], control, data[1..]))
  }

  lemma {:induction false} InterleavedMembers(t: seq<Operation>, control: seq<Operation>,
                                              data: seq<Operation>)
    requires Interleaves(t, control, data)
    ensures forall op :: op in t <==> op in control || op in data
    decreases |t|
  {
    if t != [] {
      if control != [] && t[0] == control[0] && Interleaves(t[1..], control[1..], data) {
        InterleavedMembers(t[1..], control[1..], data);
        assert control == [control[0]] + control[1..];
      } else {
        InterleavedMembers(t[1..], control, data[1..]);
        assert data == [data[0]] + data[1..];
      }
      assert t == [t[0]] + t[1..];
    }
  }

  function Operations(log: LaneLog): seq<Operation>
    requires forall p :: 0 <= p < log.next ==> p in log.rows
  {
    if log.next < 0 then [] else seq(log.next, p requires 0 <= p < log.next => log.rows[p].op)
  }

  lemma OperationsAreRows(s: Stream, lane: LaneId, op: Operation)
    requires LogInv(s, lane)
    ensures op in Operations(s.Log(lane)) <==>
            op.position in s.Log(lane).rows && s.Log(lane).rows[op.position].op == op
  {
    var log := s.Log(lane);
    if op in Operations(log) {
      var p :| 0 <= p < log.next && Operations(log)[p] == op;
      assert Placed(s, lane, p, log.rows[p].op);
    }
    if op.position in log.rows && log.rows[op.position].op == op {
      assert Operations(log)[op.position] == op;
    }
  }

  lemma InterleavingDeliversAll(s: Stream, t: seq<Operation>)
    requires LogInv(s, Control) && LogInv(s, Data) && Dense(s.control) && Dense(s.data)
    requires Interleaves(t, Operations(s.control), Operations(s.data))
    ensures DeliversAll(s, t)
  {
    InterleavedMembers(t, Operations(s.control), Operations(s.data));
    hide Interleaves, LogInv, Operations;
    forall op ensures op in t <==> Produced(s, op) {
      OperationsAreRows(s, Control, op);
      OperationsAreRows(s, Data, op);
    }
  }

  /** Every interleaving of the two lanes leaves the receiver with the sender's live items. */
  lemma InterleavingsConverge(s: Stream, t: seq<Operation>)
    requires CoreInv(s)
    requires Dense(s.control) && Dense(s.data)
    requires Interleaves(t, Operations(s.control), Operations(s.data))
    ensures DeliverAll(t).live.Keys == LiveItems(s)
    ensures forall k :: k in s.records && s.records[k].current ==>
              k.itemId in DeliverAll(t).live &&
              DeliverAll(t).live[k.itemId].item == s.records[k].item
  {
    hide LogInv, RecordsInv, LanesInv, ConsentInv, AuthorityInv, IdsInv, Interleaves, Operations,
      DeliverAll, LiveItems;
    InterleavingDeliversAll(s, t);
    Converges(s, t);
  }

  // ---- Puts left out ----

  ghost predicate PutOf(op: Operation, i: Id) {
    op.body.ItemPut? && op.body.item.itemId == i
  }

  /** Of an item, the receiver holds the newest revision it was ever given. */
  ghost predicate HoldsNewestOf(r: State, t: seq<Operation>, i: Id) {
    && i in r.live
    && (exists op :: HeldPut(t, i, r.live[i], op))
    && forall op :: op in t && PutOf(op, i) ==> op.body.item.revision <= r.live[i].item.revision
  }

  /**
   When the control lane was delivered in full and any puts whatever were left out, the receiver holds
   an item exactly if it is live and some put of it was delivered, at the newest revision delivered.
   */
  lemma LeftOutPuts(s: Stream, t: seq<Operation>, i: Id)
    requires CoreInv(s) && DeliversControl(s, t)
    ensures i in DeliverAll(t).live <==> i in LiveItems(s) && exists op :: op in t && PutOf(op, i)
    ensures i in DeliverAll(t).live ==> HoldsNewestOf(DeliverAll(t), t, i)
  {
    ProducedIsConsistent(s, t);
    DeliverAllAgrees(t);
    var r := DeliverAll(t);
    hide DeliverAll, CoreInv, Agrees, Consistent, LiveItems, DeliversControl, HoldsNewestOf;
    if i in r.live {
      HeldIsNewest(s, t, r, i);
    }
    forall op | op in t && PutOf(op, i) && i in LiveItems(s) ensures i in r.live {
      LivePutIsHeld(s, t, r, op, i);
    }
  }

  lemma HeldIsNewest(s: Stream, t: seq<Operation>, r: State, i: Id)
    requires CoreInv(s) && DeliversControl(s, t) && Agrees(r, t) && i in r.live
    ensures i in LiveItems(s) && HoldsNewestOf(r, t, i)
    ensures exists op :: op in t && PutOf(op, i)
  {
    hide CoreInv, LiveItems, DeliversControl, CoveredIn, NothingLost, FencesExact;
    var put := HeldWasPut(r, t, i);
    UncoveredItemIsLive(s, t, put);
    forall op | op in t && PutOf(op, i)
      ensures op.body.item.revision <= r.live[i].item.revision
    {
      LivePutIsHeld(s, t, r, op, i);
    }
  }

  lemma LivePutIsHeld(s: Stream, t: seq<Operation>, r: State, op: Operation, i: Id)
    requires CoreInv(s) && DeliversControl(s, t) && Agrees(r, t) && i in LiveItems(s)
    requires op in t && PutOf(op, i)
    ensures i in r.live && op.body.item.revision <= r.live[i].item.revision
  {
    hide CoreInv, LiveItems, DeliversControl, CoveredIn, LiveJustified, FencesExact;
    LivePutIsUncovered(s, t, op);
    UncoveredPutIsHeld(r, t, op);
  }

  lemma HeldWasPut(r: State, t: seq<Operation>, i: Id) returns (op: Operation)
    requires LiveJustified(r, t) && i in r.live
    ensures HeldPut(t, i, r.live[i], op) && PutOf(op, i)
    ensures !CoveredIn(t, op.body.item, op.position)
  {
    op :| HeldPut(t, i, r.live[i], op);
  }

  lemma UncoveredPutIsHeld(r: State, t: seq<Operation>, op: Operation)
    requires NothingLost(r, t) && op in t && op.body.ItemPut?
    requires !CoveredIn(t, op.body.item, op.position)
    ensures op.body.item.itemId in r.live
    ensures op.body.item.revision <= r.live[op.body.item.itemId].item.revision
  {
  }

  lemma UncoveredItemIsLive(s: Stream, t: seq<Operation>, op: Operation)
    requires CoreInv(s) && DeliversControl(s, t) && op in t && op.body.ItemPut?
    requires !CoveredIn(t, op.body.item, op.position)
    ensures op.body.item.itemId in LiveItems(s)
  {
    CoveredInIffCovered(s, t, op.body.item, op.position);
    ProducedPut(s, op);
    var n := NewestExists(s.records, op.body.item.Key());
    hide LogInv, AuthorityInv, ConsentInv;
    UncoveredIsLive(s, op, n);
  }

  lemma LivePutIsUncovered(s: Stream, t: seq<Operation>, op: Operation)
    requires CoreInv(s) && DeliversControl(s, t) && op in t && op.body.ItemPut?
    requires op.body.item.itemId in LiveItems(s)
    ensures !CoveredIn(t, op.body.item, op.position)
  {
    CoveredInIffCovered(s, t, op.body.item, op.position);
    ProducedPut(s, op);
    hide LogInv, AuthorityInv, ConsentInv, Covered;
  }

  // ---- Partial delivery ----

  /**
   A deletion is final. From the moment an item's deletion has been delivered, no later delivery of
   produced operations makes the item live again.
   */
  lemma DeletionIsFinal(s: Stream, t: seq<Operation>, d: Operation, i: Id)
    requires CoreInv(s) && OnlyProduced(s, t)
    requires d in t && d.body.ItemDelete? && d.body.itemId == i
    ensures i !in DeliverAll(t).live
  {
    ProducedIsConsistent(s, t);
    DeliverAllAgrees(t);
    hide CoreInv, Consistent, Fenced, NothingLost, DeliverAll;
    if i in DeliverAll(t).live {
      var op :| HeldPut(t, i, DeliverAll(t).live[i], op);
      DeletionCoversItem(s, d, op);
    }
  }

  /** An item's deletion covers every put of that item this sender ever produces. */
  lemma DeletionCoversItem(s: Stream, d: Operation, put: Operation)
    requires CoreInv(s) && Produced(s, d) && Produced(s, put)
    requires d.body.ItemDelete? && put.body.ItemPut? && put.body.item.itemId == d.body.itemId
    ensures Covers(d.body, put.body.item, put.position)
  {
    ProducedPut(s, put);
    DeletionIsControl(s, d);
    hide LogInv, LanesInv, Produced, ConsentInv, AuthorityInv;
    var n := ItemKey(d.body.itemId, s.tombstones[d.body.itemId].deleteThroughRevision);
    assert IsNewest(s.records, n);
    NewestIsHighest(s.records, n, put.body.item.Key());
  }

  /** A scope fence is final for what was produced up to it, and silent about what came after. */
  lemma ScopeFenceIsFinal(s: Stream, t: seq<Operation>, d: Operation, i: Id)
    requires CoreInv(s) && OnlyProduced(s, t)
    requires d in t && d.body.ScopeDelete?
    requires i in DeliverAll(t).live && DeliverAll(t).live[i].item.scope == d.body.scope
    ensures d.body.deleteThroughDataPosition < DeliverAll(t).live[i].position
  {
    ProducedIsConsistent(s, t);
    DeliverAllAgrees(t);
    var held := DeliverAll(t).live[i];
    assert held.position <= d.body.deleteThroughDataPosition ==>
        Covers(d.body, held.item, held.position);
  }

  // ---- A new generation ----

  /** The deletions of a restarted generation are its tombstones, one each. */
  lemma RestartDeletions(s: Stream, t: seq<Operation>, i: Id)
    requires CoreInv(s) && BeginGeneration(s).Success? && DeliversAll(BeginGeneration(s).value, t)
    requires i in s.tombstones
    ensures exists op :: op in t && op.body.ItemDelete? && op.body.itemId == i
                         && op.body.deleteThroughRevision == s.tombstones[i].deleteThroughRevision
  {
    hide CoreInv, BeginGeneration, Describes, DescribesLive;
    var consents, deletions := BeginGenerationRestates(s);
    var s' := BeginGeneration(s).value;
    assert Restatement(s, i) in deletions;
    var n :| 0 <= n < |deletions| && deletions[n] == Restatement(s, i);
    hide DescribesDead, Restates;
    var op := RestatedOperation(s', consents, deletions, n);
    assert Produced(s', op);
  }

  lemma RestatedOperation(s': Stream, consents: seq<Body>, deletions: seq<Body>, n: nat)
    returns (op: Operation)
    requires LogInv(s', Control) && Dense(s'.control)
    requires Bodies(s'.control) == consents + deletions && n < |deletions|
    ensures Produced(s', op) && op.body == deletions[n]
  {
    hide LogInv, Dense;
    var c := |consents| + n;
    assert (consents + deletions)[c] == deletions[n];
    op := OperationAt(s', c);
  }

  lemma OperationAt(s: Stream, c: nat) returns (op: Operation)
    requires LogInv(s, Control) && Dense(s.control) && c < |Bodies(s.control)|
    ensures Produced(s, op) && op.body == Bodies(s.control)[c]
  {
    hide Operation.Sealed, Chained, Settled;
    op := s.control.rows[c].op;
    assert Placed(s, Control, c, op);
  }

  lemma RestartHasNoOtherDeletion(s: Stream, op: Operation)
    requires CoreInv(s) && BeginGeneration(s).Success? && Produced(BeginGeneration(s).value, op)
    requires CoreInv(BeginGeneration(s).value)
    ensures !op.body.ScopeDelete?
    ensures op.body.ItemDelete? ==>
              op.body.itemId in s.tombstones && op.body.deleteThroughRevision
                                                == s.tombstones[op.body.itemId].deleteThroughRevision
  {
    hide CoreInv, BeginGeneration, Describes, DescribesLive, DescribesDead, LogInv, FenceBounded;
    var consents, deletions := BeginGenerationRestates(s);
    if op.body.ItemDelete? || op.body.ScopeDelete? {
      DeletionIsControl(BeginGeneration(s).value, op);
      RestatedControl(s, BeginGeneration(s).value, consents, deletions, op.position);
    }
  }

  lemma RestartFences(s: Stream, t: seq<Operation>)
    requires Inv(s) && BeginGeneration(s).Success? && DeliversAll(BeginGeneration(s).value, t)
    requires FencesExact(DeliverAll(t), t)
    ensures DeliverAll(t).itemFences.Keys == s.tombstones.Keys
    ensures forall i :: i in s.tombstones ==>
              && i in DeliverAll(t).itemFences
              && DeliverAll(t).itemFences[i] == s.tombstones[i].deleteThroughRevision
    ensures DeliverAll(t).scopeFences == map[]
  {
    hide CoreInv, BeginGeneration, DeliverAll, LiveConsentInv, Produced;
    BeginGenerationKeepsInv(s);
    var r := DeliverAll(t);
    forall op | op in t
      ensures !op.body.ScopeDelete?
      ensures op.body.ItemDelete? ==>
                op.body.itemId in s.tombstones && op.body.deleteThroughRevision
                                                  == s.tombstones[op.body.itemId].deleteThroughRevision
    {
      RestartHasNoOtherDeletion(s, op);
    }
    forall i | i in s.tombstones ensures i in r.itemFences {
      RestartDeletions(s, t, i);
    }
    assert forall i :: i in r.itemFences ==> exists op :: op in t && op.body.ItemDelete?
                                                           && op.body.itemId == i;
    assert forall c :: c in r.scopeFences ==> exists op :: op in t && op.body.ScopeDelete?;
    assert r.scopeFences == map[];
  }

  /** A fresh receiver of a restarted generation ends with the sender's whole inventory. */
  lemma RestartReachesInventory(s: Stream, t: seq<Operation>)
    requires Inv(s) && BeginGeneration(s).Success? && DeliversAll(BeginGeneration(s).value, t)
    ensures DeliverAll(t).live.Keys == LiveItems(s)
    ensures forall k :: k in s.records && s.records[k].current ==>
              k.itemId in DeliverAll(t).live &&
              DeliverAll(t).live[k.itemId].item == s.records[k].item
    ensures DeliverAll(t).itemFences.Keys == s.tombstones.Keys
    ensures forall i :: i in s.tombstones ==>
              && i in DeliverAll(t).itemFences
              && DeliverAll(t).itemFences[i] == s.tombstones[i].deleteThroughRevision
    ensures DeliverAll(t).scopeFences == map[]
  {
    hide CoreInv, BeginGeneration, DeliverAll, LiveConsentInv, Produced, FencesExact, NothingLost,
      LiveJustified, Describes, DescribesDead, DescribesLive, Bodies, Dense, LiveItems, Consistent;
    BeginGenerationKeepsInv(s);
    var s' := BeginGeneration(s).value;
    var consents, deletions := BeginGenerationRestates(s);
    ProducedIsConsistent(s', t);
    DeliverAllAgrees(t);
    RestartFences(s, t);
    Converges(s', t);
    LiveItemsFrame(s, s');
  }

  lemma LiveItemsFrame(s: Stream, s': Stream)
    requires s'.records == s.records
    ensures LiveItems(s') == LiveItems(s)
  {
  }
}
