/**
 Safety of the relay's quota protocol: who may hold the lock, what a reclaimer removes, how large
 the backlog gets, and where every captured payload is.
 */
module RelaySafety {
  import opened Wrappers
  import opened IntSets
  import opened RelayQuota

  /** At most one live sender is between creating the lock file and removing it. */
  ghost predicate Exclusive(s: State) {
    forall p, q :: Holds(s, p) && Holds(s, q) ==> p == q
  }

  predicate Holds(s: State, p: Pid) {
    s.Live(p) && s.senders[p].pc.Holding()
  }

  // ---- Mutual exclusion ----

  /** A live sender's part of the lock protocol. */
  ghost predicate LockSafe(s: State, p: Pid)
    requires s.Live(p)
  {
    var pc := s.senders[p].pc;
    && (pc.Holding() ==> s.lock == Some(LockFile(p, !pc.Created?)))
    && (pc.Reaping() ==> s.guard == Some(p))
    && (pc.Probe? || pc.Reread? || pc.Reclaim? ==> pc.owner in s.used)
    && (pc.Reread? || pc.Reclaim? ==> !s.Live(pc.owner))
    && (pc.Reclaim? ==> s.lock == Some(LockFile(pc.owner, true)))
  }

  ghost predicate PidsUsed(s: State) {
    && (forall p :: p in s.senders ==> p in s.used)
    && (s.lock.Some? ==> s.lock.value.creator in s.used)
    && (s.guard.Some? ==> s.guard.value in s.used)
  }

  ghost predicate LockInv(s: State) {
    PidsUsed(s) && forall p :: s.Live(p) ==> LockSafe(s, p)
  }

  lemma LockInvIsExclusive(s: State)
    requires LockInv(s)
    ensures Exclusive(s)
  {
    forall p, q | Holds(s, p) && Holds(s, q) ensures p == q {
      assert LockSafe(s, p) && LockSafe(s, q);
    }
  }

  lemma StepKeepsPids(limits: Limits, s: State, p: Pid)
    requires PidsUsed(s) && Steps(s, p)
    ensures PidsUsed(SenderStep(limits, s, p)) && SenderStep(limits, s, p).used == s.used
  {
    hide Tested, Decided, Blocked;
  }

  lemma ActionKeepsPids(policy: Policy, limits: Limits, s: State, a: Action)
    requires PidsUsed(s) && Enabled(policy, s, a)
    ensures PidsUsed(Apply(policy, limits, s, a))
  {
    hide SenderStep, Completed;
    if a.Step? {
      StepKeepsPids(limits, s, a.pid);
    }
    if a.Ends? {
      EndKeepsPids(s.(running := s.running - {a.pid}), a.pid, s.running[a.pid], a.works);
    }
  }

  lemma EndKeepsPids(s: State, p: Pid, command: Pc, works: bool)
    requires PidsUsed(s) && p in s.senders
    ensures PidsUsed(Completed(s, p, command, works))
  {
    hide Afterwards;
  }

  // ---- Commands at work ----

  /**
   A command at work was started by a sender that still waits for it, or, where commands outlive
   their senders, by one that has been killed.
   */
  ghost predicate RunningInv(policy: Policy, s: State) {
    forall p :: p in s.running ==>
      && p in s.senders && s.running[p].Forks()
      && (s.Live(p) ==> s.running[p] == s.senders[p].pc)
      && (s.Live(p) || policy.commandsOutlive)
  }

  lemma StepFrame(limits: Limits, s: State, p: Pid)
    requires Steps(s, p)
    ensures var s' := SenderStep(limits, s, p);
            && s' == s.(lock := s'.lock, senders := s'.senders)
            && s'.senders.Keys == s.senders.Keys
            && (s'.lock == s.lock || s.lock.None?)
            && (forall q :: q in s.senders && q != p ==> s'.senders[q] == s.senders[q])
  {
    hide Tested, Decided, Blocked, TestIsStable;
  }

  lemma ActionKeepsRunning(policy: Policy, limits: Limits, s: State, a: Action)
    requires PidsUsed(s) && RunningInv(policy, s) && Enabled(policy, s, a)
    ensures RunningInv(policy, Apply(policy, limits, s, a))
  {
    hide SenderStep, Effect, Afterwards, PidsUsed;
    PidsKnown(s);
    if a.Step? {
      StepFrame(limits, s, a.pid);
    }
    if a.Ends? {
      EffectFrame(s.(running := s.running - {a.pid}), a.pid, s.running[a.pid]);
    }
  }

  lemma PidsKnown(s: State)
    requires PidsUsed(s)
    ensures forall p :: p in s.senders ==> p in s.used
  {
  }

  /** No command touches a sender, another command or a marker. */
  lemma EffectFrame(s: State, p: Pid, command: Pc)
    requires p in s.senders
    ensures var s' := Effect(s, p, command);
            && s'.senders == s.senders && s'.running == s.running && s'.used == s.used
            && s'.markers == s.markers && s'.ledger == s.ledger && s'.captured == s.captured
            && s'.claimed == s.claimed && s'.orphans == s.orphans && s'.drained == s.drained
  {
  }

  // ---- The lock ----

  /** The sender that moves stays safe. */
  lemma MoverStaysSafe(limits: Limits, s: State, p: Pid)
    requires LockInv(s) && Steps(s, p)
    requires SenderStep(limits, s, p).Live(p)
    ensures LockSafe(SenderStep(limits, s, p), p)
  {
    hide Tested;
    assert LockSafe(s, p);
  }

  /** A sender that does not move stays safe while another takes a step. */
  lemma OtherStaysSafe(limits: Limits, s: State, p: Pid, q: Pid)
    requires LockInv(s) && Steps(s, p)
    requires s.Live(q) && q != p
    ensures SenderStep(limits, s, p).Live(q) && LockSafe(SenderStep(limits, s, p), q)
  {
    StepFrame(limits, s, p);
    hide SenderStep;
    assert LockSafe(s, q);
  }

  lemma StepKeepsLock(limits: Limits, s: State, p: Pid)
    requires LockInv(s) && Steps(s, p)
    ensures forall q :: SenderStep(limits, s, p).Live(q) ==> LockSafe(SenderStep(limits, s, p), q)
  {
    StepFrame(limits, s, p);
    hide SenderStep, LockSafe;
    var s' := SenderStep(limits, s, p);
    forall q | s'.Live(q) ensures LockSafe(s', q) {
      if q == p {
        MoverStaysSafe(limits, s, p);
      } else {
        OtherStaysSafe(limits, s, p, q);
      }
    }
  }

  /** The end of a command its sender waited for leaves that sender safe. */
  lemma WaiterStaysSafe(s: State, p: Pid, works: bool)
    requires LockInv(s) && s.Live(p) && s.senders[p].pc.Forks()
    ensures var s' := Completed(s, p, s.senders[p].pc, works);
            s'.Live(p) ==> LockSafe(s', p)
  {
    assert LockSafe(s, p);
  }

  /** Nor does it disturb another sender. */
  lemma BystanderStaysSafe(s: State, p: Pid, q: Pid, works: bool)
    requires LockInv(s) && s.Live(p) && s.senders[p].pc.Forks() && s.Live(q) && q != p
    ensures var s' := Completed(s, p, s.senders[p].pc, works);
            s'.Live(q) && LockSafe(s', q)
  {
    hide Afterwards;
    assert LockSafe(s, p) && LockSafe(s, q);
  }

  lemma EndKeepsLock(s: State, p: Pid, works: bool)
    requires LockInv(s) && s.Live(p) && s.senders[p].pc.Forks()
    ensures var s' := Completed(s, p, s.senders[p].pc, works);
            forall q :: s'.Live(q) ==> LockSafe(s', q)
  {
    var s' := Completed(s, p, s.senders[p].pc, works);
    EffectFrame(s, p, s.senders[p].pc);
    hide Effect, Afterwards, LockSafe;
    forall q | s'.Live(q) ensures LockSafe(s', q) {
      if q == p {
        WaiterStaysSafe(s, p, works);
      } else {
        BystanderStaysSafe(s, p, q, works);
      }
    }
  }

  lemma OtherActionStaysSafe(policy: Policy, limits: Limits, s: State, a: Action, q: Pid)
    requires LockInv(s) && Enabled(policy, s, a) && !policy.liveGuardsExpire
    requires !a.Step? && !a.Ends?
    requires Apply(policy, limits, s, a).Live(q)
    ensures LockSafe(Apply(policy, limits, s, a), q)
  {
    assert s.Live(q) ==> LockSafe(s, q);
  }

  /**
   When guards expire only once their maker is gone and commands do not outlive their senders, every
   action keeps the lock protocol.
   */
  lemma ActionKeepsLock(policy: Policy, limits: Limits, s: State, a: Action)
    requires !policy.liveGuardsExpire && !policy.commandsOutlive
    requires RunningInv(policy, s) && LockInv(s) && Enabled(policy, s, a)
    ensures LockInv(Apply(policy, limits, s, a))
  {
    ActionKeepsPids(policy, limits, s, a);
    var s' := Apply(policy, limits, s, a);
    if a.Step? {
      hide SenderStep, LockSafe, PidsUsed;
      StepKeepsLock(limits, s, a.pid);
    } else if a.Ends? {
      hide Completed, PidsUsed;
      var s0 := s.(running := s.running - {a.pid});
      assert LockInv(s0) by { SameLockInv(s, s0); }
      hide LockSafe;
      EndKeepsLock(s0, a.pid, a.works);
    } else {
      hide Apply, LockSafe, PidsUsed;
      forall q | s'.Live(q) ensures LockSafe(s', q) {
        OtherActionStaysSafe(policy, limits, s, a, q);
      }
    }
  }

  lemma SameLockInv(s: State, s': State)
    requires LockInv(s) && s' == s.(running := s'.running)
    ensures LockInv(s')
  {
    forall p | s'.Live(p) ensures LockSafe(s', p) {
      assert LockSafe(s, p);
    }
  }

  lemma HolderOwnsLock(s: State)
    requires LockInv(s)
    ensures forall q :: Holds(s, q) ==> s.lock.Some? && s.lock.value.creator == q
  {
    forall q | Holds(s, q) ensures s.lock.Some? && s.lock.value.creator == q {
      assert LockSafe(s, q);
    }
  }

  lemma ReclaimIsOfDeadLock(s: State, p: Pid)
    requires LockInv(s) && s.Live(p) && s.senders[p].pc.Reclaim?
    ensures s.lock.Some? && s.lock.value.creator == s.senders[p].pc.owner
    ensures !s.Live(s.lock.value.creator)
    ensures forall q :: !Holds(s, q)
  {
    assert LockSafe(s, p);
    HolderOwnsLock(s);
  }

  // ---- Counting ----

  /** What a sender's count so far covers of the backlog as it is now. */
  ghost predicate Counts(limits: Limits, s: State, sender: Sender) {
    match sender.pc
    case ReadyGlobbing(before) => s.ready <= before
    case TestReady(listed) => s.ready <= listed
    case GlobClaimed(counted) => s.ready <= counted
    case ClaimedGlobbing(counted, before) => s.ready <= counted && s.claimed <= counted + before
    case TestClaimed(counted, listed) => s.Backlog() <= counted + listed
    case Decide(count) => |s.Backlog()| <= count
    case Publish => |s.Backlog()| < limits.Ceiling(sender.pressure)
    case _ => true
  }

  ghost predicate CountInv(limits: Limits, s: State) {
    && |s.Backlog()| <= limits.absolute
    && forall p :: s.Live(p) ==> Counts(limits, s, s.senders[p])
  }

  lemma UnionSize<T>(a: set<T>, b: set<T>)
    ensures |a + b| <= |a| + |b|
  {
    SubsetSize(b - a, b);
    assert a + b == a + (b - a);
  }

  /** The moving sender's own count still covers the backlog. */
  lemma MoverStillCounts(policy: Policy, limits: Limits, s: State, p: Pid)
    requires limits.Ordered() && !policy.firstListedVanishes && Enabled(policy, s, Step(p))
    requires Counts(limits, s, s.senders[p])
    ensures p in SenderStep(limits, s, p).senders
    ensures Counts(limits, SenderStep(limits, s, p), SenderStep(limits, s, p).senders[p])
  {
    var s', pc := SenderStep(limits, s, p), s.senders[p].pc;
    StepFrame(limits, s, p);
    if pc.TestClaimed? {
      TestedCounts(s, pc.counted, pc.listed);
      assert s'.senders[p].pc == Decide(|pc.counted| + |Tested(pc.listed, s.claimed)|);
      hide SenderStep, Tested;
    } else if pc.Decide? {
      DecidedCounts(limits, s.senders[p].pressure, pc.count);
      assert s'.senders[p].pc == Decided(limits, s.senders[p].pressure, pc.count);
      hide SenderStep, Decided, Limits.Ordered;
    } else {
      hide Counts;
      GlobbingCounts(policy, limits, s, p);
    }
  }

  lemma GlobbingCounts(policy: Policy, limits: Limits, s: State, p: Pid)
    requires !policy.firstListedVanishes && Enabled(policy, s, Step(p))
    requires !s.senders[p].pc.TestClaimed? && !s.senders[p].pc.Decide?
    requires Counts(limits, s, s.senders[p])
    ensures p in SenderStep(limits, s, p).senders
    ensures Counts(limits, SenderStep(limits, s, p), SenderStep(limits, s, p).senders[p])
  {
    hide Decided, Blocked, Limits.Ordered;
  }

  lemma DecidedCounts(limits: Limits, pressure: Pressure, count: nat)
    requires limits.Ordered()
    ensures Decided(limits, pressure, count).Publish? || Decided(limits, pressure, count).Mark?
    ensures Decided(limits, pressure, count).Publish? ==> count < limits.Ceiling(pressure)
  {
  }

  /** When the first file listed is still there, what is counted covers what was listed. */
  lemma TestedCounts(s: State, counted: set<File>, listed: set<File>)
    requires s.Backlog() <= counted + listed
    requires listed == {} || FirstExists(listed, s.claimed)
    ensures |s.Backlog()| <= |counted| + |Tested(listed, s.claimed)|
  {
    assert Tested(listed, s.claimed) == listed;
    SubsetSize(s.Backlog(), counted + listed);
    UnionSize(counted, listed);
  }

  /** A backlog that loses files, or has some claimed, is still covered by every count. */
  lemma DrainKeepsCount(limits: Limits, s: State, s': State, sender: Sender)
    requires Counts(limits, s, sender)
    requires s'.ready <= s.ready && s'.Backlog() <= s.Backlog()
    ensures Counts(limits, s', sender)
  {
    SubsetSize(s'.Backlog(), s.Backlog());
    assert s'.claimed <= s'.Backlog();
  }

  /** Publishing adds one file to a backlog below the ceiling of the event's class. */
  lemma PublishStaysBelow(limits: Limits, s: State, p: Pid, sender: Sender)
    requires limits.Ordered()
    requires p in s.senders && s.senders[p] == sender && sender.pc.Publish?
    requires Counts(limits, s, sender)
    ensures |Effect(s, p, Publish).Backlog()| <= limits.Ceiling(sender.pressure) <= limits.absolute
  {
    var f := sender.file;
    UnionSize(s.Backlog(), {f});
    if f in s.plain {
      assert Effect(s, p, Publish).Backlog() == s.Backlog() + {f};
    } else {
      assert Effect(s, p, Publish).Backlog() == s.Backlog();
    }
  }

  lemma StepKeepsCount(policy: Policy, limits: Limits, s: State, p: Pid)
    requires limits.Ordered() && !policy.firstListedVanishes && Enabled(policy, s, Step(p))
    requires CountInv(limits, s)
    ensures CountInv(limits, SenderStep(limits, s, p))
  {
    var s' := SenderStep(limits, s, p);
    StepFrame(limits, s, p);
    MoverStillCounts(policy, limits, s, p);
    hide SenderStep, Counts;
    forall q | s'.Live(q) ensures Counts(limits, s', s'.senders[q]) {
      if q != p {
        DrainKeepsCount(limits, s, s', s.senders[q]);
      }
    }
  }

  /** The end of a command keeps the bound, and every count of a sender that holds the lock. */
  lemma EndKeepsCount(limits: Limits, s: State, p: Pid, works: bool)
    requires limits.Ordered() && s.Live(p) && s.senders[p].pc.Forks()
    requires LockInv(s) && CountInv(limits, s)
    ensures CountInv(limits, Completed(s, p, s.senders[p].pc, works))
  {
    var s' := Completed(s, p, s.senders[p].pc, works);
    LockInvIsExclusive(s);
    hide LockInv, LockSafe, PidsUsed;
    if s.senders[p].pc.Publish? {
      PublishStaysBelow(limits, s, p, s.senders[p]);
      EffectFrame(s, p, Publish);
      forall q | s'.Live(q) ensures Counts(limits, s', s'.senders[q]) {
        if q != p {
          NotHoldingCountsNothing(s, p, q);
        }
      }
    } else {
      EffectKeepsBacklog(s, p, s.senders[p].pc);
      EffectFrame(s, p, s.senders[p].pc);
      hide Effect, Exclusive;
      forall q | s'.Live(q) ensures Counts(limits, s', s'.senders[q]) {
        if q != p {
          DrainKeepsCount(limits, s, s', s.senders[q]);
        }
      }
    }
  }

  lemma NotHoldingCountsNothing(s: State, p: Pid, q: Pid)
    requires Exclusive(s) && Holds(s, p) && s.Live(q) && q != p
    ensures !s.senders[q].pc.Trapped()
  {
    assert Holds(s, q) ==> p == q;
  }

  lemma EffectKeepsBacklog(s: State, p: Pid, command: Pc)
    requires p in s.senders && !command.Publish?
    ensures Effect(s, p, command).ready == s.ready && Effect(s, p, command).claimed == s.claimed
  {
  }

  lemma ActionKeepsCount(policy: Policy, limits: Limits, s: State, a: Action)
    requires limits.Ordered() && Enabled(policy, s, a)
    requires !policy.firstListedVanishes && !policy.commandsOutlive
    requires RunningInv(policy, s) && LockInv(s) && CountInv(limits, s)
    ensures CountInv(limits, Apply(policy, limits, s, a))
  {
    var s' := Apply(policy, limits, s, a);
    if a.Step? {
      hide SenderStep, LockInv, CountInv;
      StepKeepsCount(policy, limits, s, a.pid);
    } else if a.Ends? {
      var s0 := s.(running := s.running - {a.pid});
      SameLockInv(s, s0);
      hide Completed, LockInv, Counts;
      forall q | s0.Live(q) ensures Counts(limits, s0, s0.senders[q]) {
        SameCounts(limits, s, s0, s.senders[q]);
      }
      EndKeepsCount(limits, s0, a.pid, a.works);
    } else {
      hide LockInv, CountInv, Apply;
      OtherActionKeepsCount(policy, limits, s, a);
    }
  }

  predicate OfDaemon(a: Action) {
    a.Claim? || a.Drain? || a.ClaimOrphan? || a.DrainOrphan? || a.Archive? || a.ExpireGuard?
  }

  lemma OtherActionKeepsCount(policy: Policy, limits: Limits, s: State, a: Action)
    requires Enabled(policy, s, a) && !a.Step? && !a.Ends? && CountInv(limits, s)
    ensures CountInv(limits, Apply(policy, limits, s, a))
  {
    var s' := Apply(policy, limits, s, a);
    if OfDaemon(a) {
      hide SenderStep, Completed;
      SubsetSize(s'.Backlog(), s.Backlog());
      forall q | s'.Live(q) ensures Counts(limits, s', s'.senders[q]) {
        DrainKeepsCount(limits, s, s', s.senders[q]);
      }
    } else {
      hide Apply, Counts;
      forall q | s'.Live(q) ensures Counts(limits, s', s'.senders[q]) {
        SenderActionKeepsCount(policy, limits, s, a, q);
      }
      SenderActionKeepsBacklog(policy, limits, s, a);
    }
  }

  lemma SenderActionKeepsBacklog(policy: Policy, limits: Limits, s: State, a: Action)
    requires Enabled(policy, s, a) && !OfDaemon(a) && !a.Step? && !a.Ends?
    ensures var s' := Apply(policy, limits, s, a);
            s'.ready == s.ready && s'.claimed == s.claimed && s'.Backlog() == s.Backlog()
  {
    hide SenderStep, Completed, TestIsStable, Listing;
  }

  lemma SenderActionKeepsCount(policy: Policy, limits: Limits, s: State, a: Action, q: Pid)
    requires Enabled(policy, s, a) && !OfDaemon(a) && !a.Step? && !a.Ends? && CountInv(limits, s)
    requires Apply(policy, limits, s, a).Live(q)
    ensures Counts(limits, Apply(policy, limits, s, a), Apply(policy, limits, s, a).senders[q])
  {
    hide SenderStep, Completed, TestIsStable;
    SenderActionKeepsBacklog(policy, limits, s, a);
    assert s.Live(q) ==> Counts(limits, s, s.senders[q]);
  }

  lemma SameCounts(limits: Limits, s: State, s': State, sender: Sender)
    requires Counts(limits, s, sender) && s'.ready == s.ready && s'.claimed == s.claimed
    ensures Counts(limits, s', sender)
  {
  }

  // ---- Payloads ----

  /** A marker that accounts for an event of this class having been removed. */
  predicate Explains(marker: Marker, pressure: Pressure) {
    match marker
    case ShedFirstMarker => pressure == ShedFirst
    case ShedSecondMarker => pressure == ShedSecond
    case RetainMarker => pressure != Lifecycle
    case Breaker => pressure == Lifecycle
  }

  /** On disk as plain, ready or claimed, delivered, or removed. */
  predicate Kept(s: State, f: File) {
    f in s.plain || f in s.ready || f in s.claimed || f in s.orphans || f in s.posted ||
    f in s.drained || f in s.shed
  }

  /** A marker that stands now, or that the daemon moved to its ledger. */
  predicate Accounted(s: State, marker: Marker) {
    marker in s.markers || marker in s.ledger
  }

  /** A removed payload's marker names its class, and stood or stands unless writing it may fail. */
  ghost predicate PayloadSafe(policy: Policy, s: State, f: File)
    requires f in s.captured
  {
    && Kept(s, f)
    && (f in s.shed ==> Removable(policy, s, s.shed[f], s.captured[f]))
  }

  predicate Removable(policy: Policy, s: State, marker: Marker, pressure: Pressure) {
    Explains(marker, pressure) && (policy.markersFail || Accounted(s, marker))
  }

  /** What a place in the script, or a command started there, may rely on. */
  ghost predicate Relies(policy: Policy, s: State, sender: Sender, pc: Pc) {
    && (pc.RemovePosted? ==> sender.file in s.posted)
    && (pc.Mark? ==> Explains(pc.marker, sender.pressure))
    && (pc.Remove? ==> Removable(policy, s, pc.marker, sender.pressure))
  }

  ghost predicate SenderKeeps(policy: Policy, s: State, p: Pid)
    requires p in s.senders
  {
    var sender := s.senders[p];
    && sender.file in s.captured && s.captured[sender.file] == sender.pressure
    && Relies(policy, s, sender, sender.pc)
    && (p in s.running ==> Relies(policy, s, sender, s.running[p]))
  }

  ghost predicate PayloadInv(policy: Policy, s: State) {
    && (forall f :: f in s.captured ==> PayloadSafe(policy, s, f))
    && (forall p :: p in s.senders ==> SenderKeeps(policy, s, p))
    && s.shed.Keys <= s.captured.Keys
  }

  lemma StepKeepsSender(policy: Policy, limits: Limits, s: State, p: Pid, q: Pid)
    requires PayloadInv(policy, s) && Steps(s, p) && q in s.senders
    ensures q in SenderStep(limits, s, p).senders
    ensures SenderKeeps(policy, SenderStep(limits, s, p), q)
  {
    hide Tested, Blocked, PayloadSafe;
    assert SenderKeeps(policy, s, q);
  }

  lemma StepKeepsPayload(policy: Policy, limits: Limits, s: State, p: Pid, f: File)
    requires PayloadInv(policy, s) && Steps(s, p) && f in s.captured
    ensures f in SenderStep(limits, s, p).captured && PayloadSafe(policy, SenderStep(limits, s, p), f)
  {
    hide Tested, Decided, Blocked;
    assert PayloadSafe(policy, s, f);
  }

  /** A command at work keeps every payload accounted for, its sender gone or not. */
  lemma EffectKeepsPayload(policy: Policy, s: State, p: Pid, command: Pc, f: File)
    requires PayloadInv(policy, s) && p in s.senders && f in s.captured
    requires Relies(policy, s, s.senders[p], command)
    ensures f in Effect(s, p, command).captured && PayloadSafe(policy, Effect(s, p, command), f)
  {
    assert PayloadSafe(policy, s, f) && SenderKeeps(policy, s, p);
  }

  lemma EffectKeepsSender(policy: Policy, s: State, p: Pid, command: Pc, q: Pid)
    requires PayloadInv(policy, s) && p in s.senders && q in s.senders
    ensures q in Effect(s, p, command).senders && SenderKeeps(policy, Effect(s, p, command), q)
    ensures Effect(s, p, command).shed.Keys <= s.shed.Keys + {s.senders[p].file}
  {
    hide PayloadSafe;
    assert SenderKeeps(policy, s, q);
  }

  /** Where a waiting sender goes on, it relies on what the command did. */
  lemma WaiterRelies(policy: Policy, s: State, p: Pid, command: Pc, works: bool)
    requires PayloadInv(policy, s) && p in s.senders
    ensures Relies(policy, if works then Effect(s, p, command) else s, s.senders[p],
                   Afterwards(s, p, command, works))
  {
    hide PayloadSafe;
    assert SenderKeeps(policy, s, p);
  }

  lemma CompletedKeepsPayloads(policy: Policy, s: State, p: Pid, command: Pc, works: bool)
    requires PayloadInv(policy, s) && p in s.senders && Relies(policy, s, s.senders[p], command)
    ensures PayloadInv(policy, Completed(s, p, command, works))
  {
    var s1 := if works then Effect(s, p, command) else s;
    EffectFrame(s, p, command);
    WaiterRelies(policy, s, p, command, works);
    assert s.senders[p].file in s.captured by { assert SenderKeeps(policy, s, p); }
    assert PayloadInv(policy, s1) by {
      hide Effect, PayloadSafe, SenderKeeps;
      EffectKeepsSender(policy, s, p, command, p);
      forall f | f in s1.captured ensures PayloadSafe(policy, s1, f) {
        EffectKeepsPayload(policy, s, p, command, f);
      }
      forall q | q in s1.senders ensures SenderKeeps(policy, s1, q) {
        EffectKeepsSender(policy, s, p, command, q);
      }
    }
    hide Effect, Afterwards, PayloadInv;
    if s.Live(p) {
      AtKeepsPayloads(policy, s1, p, Afterwards(s, p, command, works));
    }
  }

  lemma AtKeepsPayloads(policy: Policy, s: State, p: Pid, pc: Pc)
    requires PayloadInv(policy, s) && p in s.senders && Relies(policy, s, s.senders[p], pc)
    ensures PayloadInv(policy, s.At(p, pc))
  {
    var s' := s.At(p, pc);
    forall f | f in s'.captured ensures PayloadSafe(policy, s', f) {
      assert PayloadSafe(policy, s, f);
    }
    hide PayloadSafe;
    forall q | q in s'.senders ensures SenderKeeps(policy, s', q) {
      assert SenderKeeps(policy, s, q);
    }
  }

  lemma StopsRunning(policy: Policy, s: State, p: Pid)
    requires PayloadInv(policy, s)
    ensures PayloadInv(policy, s.(running := s.running - {p}))
  {
    var s' := s.(running := s.running - {p});
    forall f | f in s'.captured ensures PayloadSafe(policy, s', f) {
      assert PayloadSafe(policy, s, f);
    }
    hide PayloadSafe;
    forall q | q in s'.senders ensures SenderKeeps(policy, s', q) {
      assert SenderKeeps(policy, s, q);
    }
  }

  lemma OtherActionKeepsPayload(policy: Policy, limits: Limits, s: State, a: Action, f: File)
    requires PayloadInv(policy, s) && Enabled(policy, s, a) && !a.Step? && !a.Ends?
    requires f in Apply(policy, limits, s, a).captured
    ensures PayloadSafe(policy, Apply(policy, limits, s, a), f)
  {
    assert f in s.captured ==> PayloadSafe(policy, s, f);
  }

  lemma OtherActionKeepsSender(policy: Policy, limits: Limits, s: State, a: Action, q: Pid)
    requires PidsUsed(s) && RunningInv(policy, s)
    requires PayloadInv(policy, s) && Enabled(policy, s, a) && !a.Step? && !a.Ends?
    requires q in Apply(policy, limits, s, a).senders
    ensures SenderKeeps(policy, Apply(policy, limits, s, a), q)
  {
    hide PayloadSafe, SenderStep, Completed, TestIsStable, Listing, Removable, Explains;
    if q in s.senders {
      assert SenderKeeps(policy, s, q);
      if a.Marks? && a.pid == q {
        assert q !in s.running;
        MarkerWritten(policy, limits, s, q, a.written);
        MarkersStayAccounted(policy, s, Apply(policy, limits, s, a));
      } else if a.Fork? && a.pid == q {
        MarkersStayAccounted(policy, s, Apply(policy, limits, s, a));
      } else {
        OtherActionFrame(policy, limits, s, a, q);
        MarkersStayAccounted(policy, s, Apply(policy, limits, s, a));
        hide Apply;
      }
    } else {
      assert a.Start? && q !in s.running;
    }
  }

  lemma MarkerWritten(policy: Policy, limits: Limits, s: State, p: Pid, written: bool)
    requires Enabled(policy, s, Marks(p, written))
    requires Explains(s.senders[p].pc.marker, s.senders[p].pressure)
    ensures Removable(policy, Apply(policy, limits, s, Marks(p, written)),
                      s.senders[p].pc.marker, s.senders[p].pressure)
  {
  }

  lemma MarkersStayAccounted(policy: Policy, s: State, s': State)
    requires s.markers + s.ledger <= s'.markers + s'.ledger
    ensures forall m, pressure :: Removable(policy, s, m, pressure) ==> Removable(policy, s', m, pressure)
  {
  }

  lemma OtherActionFrame(policy: Policy, limits: Limits, s: State, a: Action, q: Pid)
    requires Enabled(policy, s, a) && !a.Step? && !a.Ends?
    requires PidsUsed(s) && q in s.senders && !(a.Marks? && a.pid == q) && !(a.Fork? && a.pid == q)
    ensures Undisturbed(s, Apply(policy, limits, s, a), q)
  {
    if OfDaemon(a) {
      DaemonActionFrame(policy, limits, s, a, q);
    } else {
      assert a.Start? ==> q != a.pid;
      hide Undisturbed, Apply, PidsUsed;
      SenderActionFrame(policy, limits, s, a, q);
    }
  }

  lemma DaemonActionFrame(policy: Policy, limits: Limits, s: State, a: Action, q: Pid)
    requires Enabled(policy, s, a) && OfDaemon(a) && q in s.senders
    ensures Undisturbed(s, Apply(policy, limits, s, a), q)
  {
    hide SenderStep, Completed;
  }

  lemma SenderActionFrame(policy: Policy, limits: Limits, s: State, a: Action, q: Pid)
    requires Enabled(policy, s, a) && !OfDaemon(a) && !a.Step? && !a.Ends?
    requires q in s.senders && !((a.Start? || a.Marks? || a.Fork?) && a.pid == q)
    ensures Undisturbed(s, Apply(policy, limits, s, a), q)
  {
    hide SenderStep, Completed, TestIsStable, Listing;
  }

  /** A sender is left where it is, or at a place that relies on nothing. */
  ghost predicate Undisturbed(s: State, s': State, q: Pid)
    requires q in s.senders
  {
    && q in s'.senders && s'.posted == s.posted
    && s'.senders[q].file == s.senders[q].file && s'.senders[q].pressure == s.senders[q].pressure
    && (s'.senders[q].pc == s.senders[q].pc || RestsOnNothing(s'.senders[q].pc))
    && (q in s'.running ==> q in s.running && s'.running[q] == s.running[q])
    && (forall f :: f in s.captured ==> f in s'.captured && s'.captured[f] == s.captured[f])
    && s.markers + s.ledger <= s'.markers + s'.ledger
  }

  predicate RestsOnNothing(pc: Pc) {
    !pc.RemovePosted? && !pc.Mark? && !pc.Remove?
  }

  lemma ActionKeepsPayloads(policy: Policy, limits: Limits, s: State, a: Action)
    requires PidsUsed(s) && RunningInv(policy, s)
    requires PayloadInv(policy, s) && Enabled(policy, s, a)
    ensures PayloadInv(policy, Apply(policy, limits, s, a))
  {
    var s' := Apply(policy, limits, s, a);
    if a.Ends? {
      StopsRunning(policy, s, a.pid);
      assert Relies(policy, s, s.senders[a.pid], s.running[a.pid]) by {
        assert SenderKeeps(policy, s, a.pid);
      }
      hide PayloadInv, Completed;
      CompletedKeepsPayloads(policy, s.(running := s.running - {a.pid}), a.pid, s.running[a.pid],
                             a.works);
    } else if a.Step? {
      StepFrame(limits, s, a.pid);
      hide SenderStep, PayloadSafe, SenderKeeps;
      forall f | f in s'.captured ensures PayloadSafe(policy, s', f) {
        StepKeepsPayload(policy, limits, s, a.pid, f);
      }
      forall q | q in s'.senders ensures SenderKeeps(policy, s', q) {
        StepKeepsSender(policy, limits, s, a.pid, q);
      }
    } else {
      hide Apply, PayloadSafe, SenderKeeps, PidsUsed;
      forall f | f in s'.captured ensures PayloadSafe(policy, s', f) {
        OtherActionKeepsPayload(policy, limits, s, a, f);
      }
      forall q | q in s'.senders ensures SenderKeeps(policy, s', q) {
        OtherActionKeepsSender(policy, limits, s, a, q);
      }
      ShedStaysCaptured(policy, limits, s, a);
    }
  }

  lemma ShedStaysCaptured(policy: Policy, limits: Limits, s: State, a: Action)
    requires s.shed.Keys <= s.captured.Keys && Enabled(policy, s, a) && !a.Step? && !a.Ends?
    ensures Apply(policy, limits, s, a).shed.Keys <= Apply(policy, limits, s, a).captured.Keys
  {
  }

  // ---- Every run ----

  ghost predicate Inv(policy: Policy, limits: Limits, s: State) {
    && PidsUsed(s) && RunningInv(policy, s) && PayloadInv(policy, s)
    && (!policy.liveGuardsExpire && !policy.commandsOutlive ==>
          LockInv(s) && (!policy.firstListedVanishes ==> CountInv(limits, s)))
  }

  lemma NextKeepsInv(policy: Policy, limits: Limits, s: State, s': State)
    requires limits.Ordered() && Inv(policy, limits, s) && Next(policy, limits, s, s')
    ensures Inv(policy, limits, s')
  {
    hide PayloadInv, LockInv, CountInv, PidsUsed, RunningInv, Apply, Enabled;
    var a :| Enabled(policy, s, a) && s' == Apply(policy, limits, s, a);
    ActionKeepsPids(policy, limits, s, a);
    ActionKeepsRunning(policy, limits, s, a);
    ActionKeepsPayloads(policy, limits, s, a);
    if !policy.liveGuardsExpire && !policy.commandsOutlive {
      ActionKeepsLock(policy, limits, s, a);
      if !policy.firstListedVanishes {
        ActionKeepsCount(policy, limits, s, a);
      }
    }
  }

  lemma InitialInv(policy: Policy, limits: Limits, s: State)
    requires Initial(limits, s)
    ensures Inv(policy, limits, s)
  {
  }

  lemma {:induction false} RunKeepsInv(policy: Policy, limits: Limits, run: seq<State>)
    requires limits.Ordered() && Run(policy, limits, run)
    ensures Inv(policy, limits, run[|run| - 1])
  {
    hide Inv, Next, Initial;
    if |run| == 1 {
      InitialInv(policy, limits, run[0]);
    } else {
      var front := run[..|run| - 1];
      forall n | 0 < n < |front| ensures Next(policy, limits, front[n - 1], front[n]) {
        assert Next(policy, limits, run[n - 1], run[n]);
      }
      RunKeepsInv(policy, limits, front);
      NextKeepsInv(policy, limits, run[|run| - 2], run[|run| - 1]);
    }
  }

  lemma ReachableInv(policy: Policy, limits: Limits, s: State)
    requires limits.Ordered() && Reachable(policy, limits, s)
    ensures Inv(policy, limits, s)
  {
    hide Inv, Next, Initial;
    var run :| Run(policy, limits, run) && run[|run| - 1] == s;
    RunKeepsInv(policy, limits, run);
  }

  /**
   In every reachable state, whatever crashed and however the daemon behaves, a captured payload is
   still on disk, was delivered, or was removed. A removed one was given a marker of its own pressure
   class, which still stands or is in the daemon's ledger unless writing markers may fail.
   */
  lemma NothingDroppedSilently(policy: Policy, limits: Limits, s: State, f: File)
    requires limits.Ordered() && Reachable(policy, limits, s) && f in s.captured
    ensures Kept(s, f)
    ensures f in s.shed ==> Explains(s.shed[f], s.captured[f])
    ensures f in s.shed && !policy.markersFail ==> Accounted(s, s.shed[f])
  {
    hide Reachable;
    ReachableInv(policy, limits, s);
    assert PayloadSafe(policy, s, f);
  }

  lemma ExclusiveUnlessOvertaken(policy: Policy, limits: Limits, s: State)
    requires limits.Ordered() && Reachable(policy, limits, s)
    requires !policy.liveGuardsExpire && !policy.commandsOutlive
    ensures Exclusive(s)
  {
    hide Reachable, PayloadInv, LockInv, CountInv;
    ReachableInv(policy, limits, s);
    LockInvIsExclusive(s);
  }

  /** What a reclaimer unlinks is the lock of a dead owner, never a replacement. */
  lemma ReclaimRemovesDeadLock(policy: Policy, limits: Limits, s: State, p: Pid)
    requires limits.Ordered() && Reachable(policy, limits, s)
    requires !policy.liveGuardsExpire && !policy.commandsOutlive
    requires p in s.running && s.running[p].Reclaim?
    ensures s.Live(p)
    ensures s.lock.Some? && s.lock.value.creator == s.running[p].owner
    ensures !s.Live(s.lock.value.creator)
    ensures forall q :: !Holds(s, q)
  {
    hide Reachable;
    ReachableInv(policy, limits, s);
    ReclaimIsOfDeadLock(s, p);
  }

  lemma BoundedUnlessMiscounted(policy: Policy, limits: Limits, s: State)
    requires limits.Ordered() && Reachable(policy, limits, s)
    requires !policy.liveGuardsExpire && !policy.commandsOutlive && !policy.firstListedVanishes
    ensures |s.Backlog()| <= limits.absolute
  {
    hide Reachable, PayloadInv, LockInv;
    ReachableInv(policy, limits, s);
  }

  /**
   An event is published only while the backlog, itself included, is within the ceiling of its
   class, so ordinary events never use the capacity reserved for lifecycle events.
   */
  lemma PublishedWithinCeiling(policy: Policy, limits: Limits, s: State, p: Pid)
    requires limits.Ordered() && Reachable(policy, limits, s)
    requires !policy.liveGuardsExpire && !policy.commandsOutlive && !policy.firstListedVanishes
    requires p in s.running && s.running[p].Publish? && p in s.senders
    ensures |Apply(policy, limits, s, Ends(p, true)).Backlog()|
            <= limits.Ceiling(s.senders[p].pressure)
  {
    hide Reachable, PayloadInv, LockInv;
    ReachableInv(policy, limits, s);
    var s0 := s.(running := s.running - {p});
    SameCounts(limits, s, s0, s.senders[p]);
    PublishStaysBelow(limits, s0, p, s0.senders[p]);
  }
}
