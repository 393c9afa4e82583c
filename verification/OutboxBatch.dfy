/**
 Cutting the next batch of a lane: the operations after the cursor, as many as the two limits let
 through, in a form every receiver accepts.
 */
module OutboxBatch {
  import opened Wrappers
  import opened IntSets
  import opened SyncWire
  import opened OutboxModel
  import opened OutboxInvariant

  function OperationLimit(requested: Option<int>): (limit: int)
    ensures 1 <= limit <= SYNC_BATCH_MAX_OPERATIONS
  {
    var n := if requested.Some? then requested.value else SYNC_BATCH_MAX_OPERATIONS;
    if n < 1 then 1 else if SYNC_BATCH_MAX_OPERATIONS < n then SYNC_BATCH_MAX_OPERATIONS else n
  }

  function ByteLimit(requested: Option<int>): (limit: int)
    ensures 1024 <= limit <= SYNC_BATCH_MAX_BYTES
  {
    var n := if requested.Some? then requested.value else SYNC_BATCH_MAX_BYTES;
    if n < 1024 then 1024 else if SYNC_BATCH_MAX_BYTES < n then SYNC_BATCH_MAX_BYTES else n
  }

  function Distance(a: int, b: int): nat {
    if a < b then b - a else a - b
  }

  /** A limit is what was asked for, or the nearest there may be; without a request it is the largest. */
  lemma LimitsAreNearest(operations: int, bytes: int, other: int)
    ensures 1 <= other <= 100 ==>
              Distance(OperationLimit(Some(operations)), operations) <= Distance(other, operations)
    ensures 1024 <= other <= 262_144 ==>
              Distance(ByteLimit(Some(bytes)), bytes) <= Distance(other, bytes)
    ensures OperationLimit(None) == 100 && ByteLimit(None) == 262_144
  {
  }

  /** The positions after a lane's cursor, in order. */
  function Pending(log: LaneLog): seq<int> {
    Ascending(set p | p in log.rows && log.acknowledged < p)
  }

  function BatchHeader(s: Stream, lane: LaneId, operations: seq<Operation>): Batch {
    Batch(s.streamId, s.replicaId, s.generation, lane, s.Log(lane).acknowledged, operations)
  }

  /** What the receiver's contract and digest check demand of a batch, and its largest size. */
  predicate Sendable(b: Batch, size: Batch -> nat) {
    && b.Valid()
    && size(b) <= SYNC_BATCH_MAX_BYTES
    && (forall i :: 0 <= i < |b.operations| ==> b.operations[i].Sealed())
  }

  /** The first `n` operations after the cursor. */
  function After(log: LaneLog, n: nat): seq<Operation>
    requires forall p :: log.acknowledged < p <= log.acknowledged + n ==> p in log.rows
  {
    seq(n, i requires 0 <= i < n => log.rows[log.acknowledged + 1 + i].op)
  }

  function Available(log: LaneLog): int {
    log.next - 1 - log.acknowledged
  }

  ghost predicate Fits(s: Stream, lane: LaneId, n: nat, bytes: int, size: Batch -> nat)
    requires forall p ::
      s.Log(lane).acknowledged < p <= s.Log(lane).acknowledged + n ==> p in s.Log(lane).rows
  {
    size(BatchHeader(s, lane, After(s.Log(lane), n))) <= bytes
  }

  /** A batch of `n` operations is cut where the limits demand it, and not before. */
  ghost predicate CutAt(s: Stream, lane: LaneId, operations: int, bytes: int, size: Batch -> nat,
                        n: nat)
    requires Dense(s.Log(lane)) && -1 <= s.Log(lane).acknowledged
  {
    && n <= operations && n <= Available(s.Log(lane))
    && (forall m: nat :: 1 <= m <= n ==> Fits(s, lane, m, bytes, size))
    && (n < operations && n < Available(s.Log(lane)) ==> !Fits(s, lane, n + 1, bytes, size))
  }

  lemma {:induction false} AscendingInterval(q: seq<int>, lo: int, hi: int)
    requires forall i, j :: 0 <= i < j < |q| ==> q[i] < q[j]
    requires forall x :: x in q <==> lo <= x < hi
    requires lo <= hi
    ensures |q| == hi - lo && forall i :: 0 <= i < |q| ==> q[i] == lo + i
  {
    if lo < hi {
      assert lo in q;
      assert q[0] in q;
      var rest := q[1..];
      forall x ensures x in rest <==> lo + 1 <= x < hi {
        if x in rest {
          var j :| 0 <= j < |rest| && rest[j] == x;
          assert x == q[j + 1] && q[j + 1] in q;
        }
        if lo + 1 <= x < hi {
          assert x in q;
          var j :| 0 <= j < |q| && q[j] == x;
          assert rest[j - 1] == x;
        }
      }
      AscendingInterval(rest, lo + 1, hi);
      forall i | 0 <= i < |q| ensures q[i] == lo + i {
        if i > 0 { assert q[i] == rest[i - 1]; }
      }
    } else {
      HeadIsMember(q);
    }
  }

  lemma HeadIsMember(q: seq<int>)
    ensures q != [] ==> exists x :: x in q
  {
    if q != [] {
      var head := q[0];
      assert head in q;
    }
  }

  /** What waits after a cursor is one contiguous run up to the end of the lane. */
  lemma PendingIsContiguous(log: LaneLog)
    requires Dense(log) && -1 <= log.acknowledged < log.next
    ensures |Pending(log)| == Available(log)
    ensures forall i :: 0 <= i < |Pending(log)| ==>
              Pending(log)[i] == log.acknowledged + 1 + i && Pending(log)[i] in log.rows
  {
    AscendingInterval(Pending(log), log.acknowledged + 1, log.next);
  }

  /** Any non-empty run after the cursor passes every batch rule and every digest check. */
  lemma RunIsValid(s: Stream, lane: LaneId, n: nat)
    requires 0 < s.generation && LogInv(s, lane)
    requires 1 <= n <= SYNC_BATCH_MAX_OPERATIONS && n <= Available(s.Log(lane))
    ensures BatchHeader(s, lane, After(s.Log(lane), n)).Valid()
    ensures forall i :: 0 <= i < n ==> After(s.Log(lane), n)[i].Sealed()
  {
    hide Operation.Sealed, Operation.Valid;
    var log := s.Log(lane);
    var ops := After(log, n);
    forall i | 0 <= i < n
      ensures ops[i].Sealed() && ops[i].Valid() && BatchHeader(s, lane, ops).Belongs(ops[i])
      ensures ops[i].position == log.acknowledged + i + 1
    {
      assert Placed(s, lane, log.acknowledged + 1 + i, ops[i]);
      SealedIsValid(ops[i]);
    }
    forall i | 0 < i < n ensures ops[i].previous == Some(ops[i - 1].operationId) {
      var p := log.acknowledged + 1 + i;
      assert log.rows[p].op.previous == Some(log.rows[p - 1].op.operationId);
    }
  }

  lemma SealedIsValid(op: Operation)
    requires op.Sealed()
    ensures op.Valid()
  {
  }

  predicate Extends(a: Batch, b: Batch) {
    a.(operations := b.operations) == b && a.operations <= b.operations
  }

  /** When longer batches are never smaller, the cut is the longest batch the limits allow. */
  lemma CutIsLongest(s: Stream, lane: LaneId, operations: int, bytes: int, size: Batch -> nat,
                     n: nat, m: nat)
    requires Dense(s.Log(lane)) && -1 <= s.Log(lane).acknowledged
    requires forall a: Batch, b: Batch :: Extends(a, b) ==> size(a) <= size(b)
    requires CutAt(s, lane, operations, bytes, size, n)
    requires m <= operations && m <= Available(s.Log(lane)) && Fits(s, lane, m, bytes, size)
    ensures m <= n
  {
    if n < m {
      var a, b := After(s.Log(lane), n + 1), After(s.Log(lane), m);
      assert a <= b;
      var x, y := BatchHeader(s, lane, a), BatchHeader(s, lane, b);
      assert Extends(x, y);
    }
  }

  /**
   What cutting a batch reports: nothing exactly when nothing waits, an error exactly when the first
   operation alone is over the byte limit, and otherwise a batch that is cut where the limits demand
   it and that the receiver's contract accepts.
   */
  ghost predicate Cut(s: Stream, lane: LaneId, operations: int, bytes: int, size: Batch -> nat,
                      r: Result<Option<Batch>, Error>)
    requires Dense(s.Log(lane)) && -1 <= s.Log(lane).acknowledged < s.Log(lane).next
  {
    if Available(s.Log(lane)) == 0 then r == Success(None)
    else if !Fits(s, lane, 1, bytes, size) then r == Failure(OperationExceedsByteLimit)
    else
      && r.Success? && r.value.Some?
      && Sendable(r.value.value, size) && size(r.value.value) <= bytes
      && (exists n: nat :: 1 <= n && CutAt(s, lane, operations, bytes, size, n)
            && r.value.value == BatchHeader(s, lane, After(s.Log(lane), n)))
  }

  method CutBatch(s: Stream, lane: LaneId, operations: Option<int>, bytes: Option<int>,
                  size: Batch -> nat) returns (r: Result<Option<Batch>, Error>)
    requires Inv(s)
    ensures Dense(s.Log(lane)) && -1 <= s.Log(lane).acknowledged < s.Log(lane).next
    ensures Cut(s, lane, OperationLimit(operations), ByteLimit(bytes), size, r)
  {
    hide Inv, LogInv, Batch.Valid, Sendable, CutAt, OperationLimit, ByteLimit, Ascending;
    LaneOfInv(s, lane);
    var log := s.Log(lane);
    PendingIsContiguous(log);
    var byteLimit := ByteLimit(bytes);
    var rows := Pending(log);
    if OperationLimit(operations) < |rows| {
      rows := rows[..OperationLimit(operations)];
    }
    if rows == [] {
      return Success(None);
    }
    hide Pending, Dense;
    var ops: seq<Operation> := [];
    var n: nat := 0;
    while n < |rows|
      invariant n <= |rows|
      invariant ops == After(log, n)
      invariant forall m: nat :: 1 <= m <= n ==> Fits(s, lane, m, byteLimit, size)
    {
      var candidate := BatchHeader(s, lane, ops + [log.rows[rows[n]].op]);
      assert candidate.operations == After(log, n + 1);
      if byteLimit < size(candidate) {
        if n == 0 {
          return Failure(OperationExceedsByteLimit);
        }
        break;
      }
      ops := ops + [log.rows[rows[n]].op];
      n := n + 1;
    }
    CutHere(s, lane, OperationLimit(operations), byteLimit, size, n);
    RunIsSendable(s, lane, n, byteLimit, size);
    var b := BatchHeader(s, lane, ops);
    if !Sendable(b, size) {
      return Failure(UnsendableBatch);
    }
    r := Success(Some(b));
  }

  lemma CutHere(s: Stream, lane: LaneId, operations: int, bytes: int, size: Batch -> nat, n: nat)
    requires Dense(s.Log(lane)) && -1 <= s.Log(lane).acknowledged
    requires n <= operations && n <= Available(s.Log(lane))
    requires forall m: nat :: 1 <= m <= n ==> Fits(s, lane, m, bytes, size)
    requires n < operations && n < Available(s.Log(lane)) ==> !Fits(s, lane, n + 1, bytes, size)
    ensures CutAt(s, lane, operations, bytes, size, n)
  {
  }

  lemma RunIsSendable(s: Stream, lane: LaneId, n: nat, bytes: int, size: Batch -> nat)
    requires 0 < s.generation && LogInv(s, lane) && Dense(s.Log(lane))
    requires 1 <= n <= SYNC_BATCH_MAX_OPERATIONS && n <= Available(s.Log(lane))
    requires Fits(s, lane, n, bytes, size) && bytes <= SYNC_BATCH_MAX_BYTES
    ensures Sendable(BatchHeader(s, lane, After(s.Log(lane), n)), size)
  {
    hide Operation.Sealed, Batch.Valid, LogInv;
    RunIsValid(s, lane, n);
  }

  lemma LaneOfInv(s: Stream, lane: LaneId)
    requires Inv(s)
    ensures 0 < s.generation && LogInv(s, lane)
    ensures Dense(s.Log(lane)) && -1 <= s.Log(lane).acknowledged < s.Log(lane).next
  {
    InvLogs(s);
  }
}
