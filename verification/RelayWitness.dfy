/**
 Exactly when the relay's guarantees hold: for any limits, runs in which two senders hold the lock, a
 live lock is about to be unlinked, the backlog outgrows its limit or a payload goes without a marker,
 and the equivalences they complete.
 */
module RelayWitness {
  import opened Wrappers
  import opened IntSets
  import opened RelayQuota
  import opened RelaySafety

  lemma Move(policy: Policy, limits: Limits, s: State, a: Action, s': State)
    requires Reachable(policy, limits, s) && Enabled(policy, s, a)
    requires s' == Apply(policy, limits, s, a)
    ensures Reachable(policy, limits, s')
  {
    hide Apply, Enabled, Initial;
    var run :| Run(policy, limits, run) && run[|run| - 1] == s;
    var longer := run + [s'];
    forall n | 0 < n < |longer| ensures Next(policy, limits, longer[n - 1], longer[n]) {
      if n < |run| {
        assert Next(policy, limits, run[n - 1], run[n]);
      }
    }
    assert Run(policy, limits, longer);
  }

  lemma Begin(policy: Policy, limits: Limits, s: State)
    requires Initial(limits, s)
    ensures Reachable(policy, limits, s)
  {
    hide Initial;
    assert Run(policy, limits, [s]);
  }

  /** The sender's own next step. */
  lemma Goes(policy: Policy, limits: Limits, s: State, p: Pid, s': State)
    requires Reachable(policy, limits, s) && Steps(s, p) && TestIsStable(s, s.senders[p].pc)
    requires s' == SenderStep(limits, s, p)
    ensures Reachable(policy, limits, s')
  {
    hide Reachable, SenderStep, TestIsStable;
    Move(policy, limits, s, Step(p), s');
  }

  // ---- Stretches of the script ----

  function Forked(s: State, p: Pid): State
    requires p in s.senders
  {
    s.(running := s.running[p := s.senders[p].pc])
  }

  lemma Forks(policy: Policy, limits: Limits, s: State, p: Pid)
    requires Reachable(policy, limits, s)
    requires s.Live(p) && s.senders[p].pc.Forks() && p !in s.running
    ensures Reachable(policy, limits, Forked(s, p))
  {
    hide Reachable;
    Move(policy, limits, s, Fork(p), Forked(s, p));
  }

  /** A sender starts a command, and the command ends. */
  lemma Executes(policy: Policy, limits: Limits, s: State, p: Pid, works: bool, s': State)
    requires Reachable(policy, limits, s)
    requires s.Live(p) && s.senders[p].pc.Forks() && p !in s.running
    requires s' == Completed(s, p, s.senders[p].pc, works)
    ensures Reachable(policy, limits, s')
  {
    hide Reachable, Completed;
    Forks(policy, limits, s, p);
    assert Forked(s, p).running - {p} == s.running;
    assert Forked(s, p).(running := s.running) == s;
    Move(policy, limits, Forked(s, p), Ends(p, works), s');
  }

  /** A sender starts a command and is killed, and the command goes on. */
  lemma Outlives(policy: Policy, limits: Limits, s: State, p: Pid)
    requires policy.commandsOutlive && Reachable(policy, limits, s)
    requires s.Live(p) && s.senders[p].pc.Forks() && p !in s.running
    ensures Reachable(policy, limits, Forked(s, p).At(p, Gone))
  {
    hide Reachable;
    Forks(policy, limits, s, p);
    Move(policy, limits, Forked(s, p), Crash(p), Forked(s, p).At(p, Gone));
  }

  /** A lifecycle event's sender that could not deliver, about to contend for the lock. */
  function Contending(s: State, p: Pid, f: File): State {
    s.(senders := s.senders[p := Sender(f, Lifecycle, 0, Contend)], used := s.used + {p},
       plain := s.plain + {f}, captured := s.captured[f := Lifecycle])
  }

  lemma Contends(policy: Policy, limits: Limits, s: State, p: Pid, f: File)
    requires Reachable(policy, limits, s)
    requires p !in s.used && p !in s.running && f !in s.captured && s.markers == {}
    ensures Reachable(policy, limits, Contending(s, p, f))
  {
    hide Reachable, Completed;
    var s0 := Apply(policy, limits, s, Start(p, f, Lifecycle));
    Move(policy, limits, s, Start(p, f, Lifecycle), s0);
    assert s0.At(p, Contend) == Contending(s, p, f);
    hide Apply, Enabled;
    TestsMarkers(policy, limits, s0, p);
    Undelivered(policy, limits, s0.At(p, Post), p);
    assert s0.At(p, Post).At(p, Contend) == s0.At(p, Contend);
  }

  lemma TestsMarkers(policy: Policy, limits: Limits, s: State, p: Pid)
    requires Reachable(policy, limits, s) && s.Live(p) && s.senders[p].pc == TestBreaker
    requires s.markers == {}
    ensures Reachable(policy, limits, s.At(p, Post))
  {
    hide Reachable, Apply, Enabled;
    Goes(policy, limits, s, p, s.At(p, TestClass));
    Goes(policy, limits, s.At(p, TestClass), p, s.At(p, Post));
  }

  lemma Undelivered(policy: Policy, limits: Limits, s: State, p: Pid)
    requires Reachable(policy, limits, s) && s.Live(p) && s.senders[p].pc == Post
    requires p !in s.running
    ensures Reachable(policy, limits, s.At(p, Contend))
  {
    hide Reachable;
    Executes(policy, limits, s, p, false, s.At(p, Contend));
  }

  /** The same sender, when it found the lock taken. */
  function Arrived(s: State, p: Pid, f: File): State {
    Contending(s, p, f)
      .(senders := Contending(s, p, f).senders[p := Sender(f, Lifecycle, 1, Guard)])
  }

  lemma Arrives(policy: Policy, limits: Limits, s: State, p: Pid, f: File)
    requires Reachable(policy, limits, s) && s.lock.Some?
    requires p !in s.used && p !in s.running && f !in s.captured && s.markers == {}
    ensures Reachable(policy, limits, Arrived(s, p, f))
  {
    hide Reachable;
    Contends(policy, limits, s, p, f);
    Goes(policy, limits, Contending(s, p, f), p, Arrived(s, p, f));
  }

  /** A sender that made the guard, found the owner dead, and is about to unlink the lock. */
  lemma Reaps(policy: Policy, limits: Limits, s: State, p: Pid, owner: Pid)
    requires Reachable(policy, limits, s) && s.Live(p) && s.senders[p].pc == Guard
    requires p !in s.running
    requires s.guard.None? && s.Owner() == Some(owner) && !s.Live(owner)
    ensures Reachable(policy, limits, s.(guard := Some(p)).At(p, Reclaim(owner)))
  {
    hide Reachable, Apply, Enabled, SenderStep;
    var s' := s.(guard := Some(p));
    Executes(policy, limits, s, p, true, s'.At(p, ReadOwner));
    hide Completed;
    FindsDead(policy, limits, s', p, owner);
  }

  lemma FindsDead(policy: Policy, limits: Limits, s: State, p: Pid, owner: Pid)
    requires s.Live(p) && Reachable(policy, limits, s.At(p, ReadOwner))
    requires s.Owner() == Some(owner) && !s.Live(owner)
    ensures Reachable(policy, limits, s.At(p, Reclaim(owner)))
  {
    hide Reachable, Apply, Enabled;
    Goes(policy, limits, s.At(p, ReadOwner), p, s.At(p, Probe(owner)));
    Goes(policy, limits, s.At(p, Probe(owner)), p, s.At(p, Reread(owner)));
    Goes(policy, limits, s.At(p, Reread(owner)), p, s.At(p, Reclaim(owner)));
  }

  /** A reclaimer that unlinks whatever lock there is, drops the guard, and creates the lock. */
  lemma Retakes(policy: Policy, limits: Limits, s: State, p: Pid)
    requires Reachable(policy, limits, s) && s.Live(p) && s.senders[p].pc.Reclaim?
    requires s.senders[p].attempts < MAX_ATTEMPTS && p !in s.running
    ensures Reachable(policy, limits,
              s.(lock := Some(LockFile(p, false)), guard := None).At(p, Created))
  {
    hide Reachable, Apply, Enabled, SenderStep;
    var s1 := s.(lock := None);
    Executes(policy, limits, s, p, true, s1.At(p, Unguard));
    var s2 := s1.(guard := None);
    Executes(policy, limits, s1.At(p, Unguard), p, true, s2.At(p, Wait));
    hide Completed;
    Creates(policy, limits, s2, p);
  }

  lemma Creates(policy: Policy, limits: Limits, s: State, p: Pid)
    requires s.Live(p) && Reachable(policy, limits, s.At(p, Wait))
    requires s.lock.None? && s.senders[p].attempts < MAX_ATTEMPTS
    ensures Reachable(policy, limits, s.(lock := Some(LockFile(p, false))).At(p, Created))
  {
    hide Reachable, Apply, Enabled;
    Goes(policy, limits, s.At(p, Wait), p, s.At(p, Contend));
    Goes(policy, limits, s.At(p, Contend), p, s.(lock := Some(LockFile(p, false))).At(p, Created));
  }

  /** A sender that writes its identifier into the lock file it created. */
  lemma Signs(policy: Policy, limits: Limits, s: State, p: Pid)
    requires s.Live(p)
    requires Reachable(policy, limits, s.(lock := Some(LockFile(p, false))).At(p, Created))
    ensures Reachable(policy, limits, s.(lock := Some(LockFile(p, true))).At(p, GlobReady))
  {
    hide Reachable;
    Move(policy, limits, s.(lock := Some(LockFile(p, false))).At(p, Created), Writes(p, true),
         s.(lock := Some(LockFile(p, true))).At(p, GlobReady));
  }

  /** A sender that takes over a dead owner's lock and writes its own identifier into it. */
  lemma TakesOver(policy: Policy, limits: Limits, s: State, p: Pid, owner: Pid)
    requires Reachable(policy, limits, s) && s.Live(p) && s.senders[p].pc == Guard
    requires p !in s.running && s.senders[p].attempts < MAX_ATTEMPTS
    requires s.guard.None? && s.Owner() == Some(owner) && !s.Live(owner)
    ensures Reachable(policy, limits, s.(lock := Some(LockFile(p, true))).At(p, GlobReady))
  {
    hide Reachable, Apply, Enabled, SenderStep, Completed;
    Reaps(policy, limits, s, p, owner);
    var s1 := s.(guard := Some(p)).At(p, Reclaim(owner));
    Retakes(policy, limits, s1, p);
    assert s.(lock := Some(LockFile(p, false))).At(p, Created)
           == s1.(lock := Some(LockFile(p, false)), guard := None).At(p, Created);
    Signs(policy, limits, s, p);
  }

  lemma Expires(policy: Policy, limits: Limits, s: State)
    requires Reachable(policy, limits, s) && s.guard.Some?
    requires policy.liveGuardsExpire || !s.Live(s.guard.value)
    ensures Reachable(policy, limits, s.(guard := None))
  {
    hide Reachable;
    Move(policy, limits, s, ExpireGuard, s.(guard := None));
  }

  // ---- Counting ----

  lemma ListsReady(policy: Policy, limits: Limits, s: State, p: Pid)
    requires s.Live(p) && Reachable(policy, limits, s.At(p, GlobReady))
    ensures Reachable(policy, limits, s.At(p, TestReady(s.ready)))
  {
    hide Reachable;
    Goes(policy, limits, s.At(p, GlobReady), p, s.At(p, ReadyGlobbing(s.ready)));
    Move(policy, limits, s.At(p, ReadyGlobbing(s.ready)), Lists(p, s.ready),
         s.At(p, TestReady(s.ready)));
  }

  lemma ListsClaimed(policy: Policy, limits: Limits, s: State, p: Pid, counted: set<File>)
    requires s.Live(p) && Reachable(policy, limits, s.At(p, ClaimedGlobbing(counted, s.claimed)))
    ensures Reachable(policy, limits, s.At(p, TestClaimed(counted, s.claimed)))
  {
    hide Reachable;
    Move(policy, limits, s.At(p, ClaimedGlobbing(counted, s.claimed)), Lists(p, s.claimed),
         s.At(p, TestClaimed(counted, s.claimed)));
  }

  /** With the ready count taken, an undisturbed count of the claimed files. */
  lemma CountsClaimed(policy: Policy, limits: Limits, s: State, p: Pid, counted: set<File>)
    requires s.Live(p) && Reachable(policy, limits, s.At(p, GlobClaimed(counted)))
    ensures Reachable(policy, limits, s.At(p, Decide(|counted| + |s.claimed|)))
  {
    hide Reachable, Apply, Enabled, Tested, FirstExists;
    Goes(policy, limits, s.At(p, GlobClaimed(counted)), p,
         s.At(p, ClaimedGlobbing(counted, s.claimed)));
    ListsClaimed(policy, limits, s, p, counted);
    FirstIsThere(s.claimed);
    Goes(policy, limits, s.At(p, TestClaimed(counted, s.claimed)), p,
         s.At(p, Decide(|counted| + |s.claimed|)));
  }

  lemma FirstIsThere(files: set<File>)
    ensures files == {} || FirstExists(files, files)
    ensures Tested(files, files) == files
  {
  }

  /** A count of a backlog that nothing disturbs and of which nothing is claimed. */
  lemma CountsReady(policy: Policy, limits: Limits, s: State, p: Pid)
    requires Reachable(policy, limits, s) && s.Live(p) && s.senders[p].pc == GlobReady
    requires s.claimed == {}
    ensures Reachable(policy, limits, s.At(p, Decide(|s.ready|)))
  {
    hide Reachable, Apply, Enabled;
    assert s.At(p, GlobReady) == s;
    ListsReady(policy, limits, s, p);
    FirstIsThere(s.ready);
    hide Tested, FirstExists;
    Goes(policy, limits, s.At(p, TestReady(s.ready)), p, s.At(p, GlobClaimed(s.ready)));
    CountsClaimed(policy, limits, s, p, s.ready);
  }

  lemma Publishes(policy: Policy, limits: Limits, s: State, p: Pid, count: nat)
    requires limits.Ordered() && s.Live(p) && s.senders[p].pressure == Lifecycle
    requires Reachable(policy, limits, s.At(p, Decide(count)))
    ensures Reachable(policy, limits,
              s.At(p, if count < limits.absolute then Publish else Mark(Breaker)))
  {
    hide Reachable, Apply, Enabled;
    Goes(policy, limits, s.At(p, Decide(count)), p,
         s.At(p, if count < limits.absolute then Publish else Mark(Breaker)));
  }

  // ---- Where runs begin ----

  /** A queue of `n` payloads, in the order the globs list them. */
  function Queue(n: nat): (files: set<File>)
    ensures |files| == n && forall f :: f in files <==> 100 < f <= 100 + n
  {
    Interval(100, 100 + n)
  }

  /** Nobody running yet, and some payloads queued; a dead owner's lock may be left over. */
  function Idle(lock: Option<LockFile>, ready: set<File>): State {
    State(map[], map[], {0}, lock, None,
          {}, ready, {}, {}, {}, {}, map[], {}, {}, map[])
  }

  lemma IdleIsReachable(policy: Policy, limits: Limits, lock: Option<LockFile>, ready: set<File>)
    requires |ready| <= limits.absolute && (lock.Some? ==> lock.value.creator == 0)
    ensures Reachable(policy, limits, Idle(lock, ready))
  {
    hide Reachable;
    assert Idle(lock, ready).Backlog() == ready;
    Begin(policy, limits, Idle(lock, ready));
  }

  /** The only sender holds the lock. */
  function Holder(pc: Pc, ready: set<File>, claimed: set<File>): State {
    State(map[1 := Sender(11, Lifecycle, 0, pc)], map[], {0, 1}, Some(LockFile(1, true)), None,
          {11}, ready, claimed, {}, {}, {}, map[], {}, {}, map[11 := Lifecycle])
  }

  lemma TakesFree(policy: Policy, limits: Limits, ready: set<File>)
    requires |ready| <= limits.absolute
    ensures Reachable(policy, limits, Holder(GlobReady, ready, {}))
  {
    hide Reachable, Apply, Enabled;
    var s := Idle(None, ready);
    IdleIsReachable(policy, limits, None, ready);
    Contends(policy, limits, s, 1, 11);
    var s0 := Contending(s, 1, 11);
    Goes(policy, limits, s0, 1, s0.(lock := Some(LockFile(1, false))).At(1, Created));
    Signs(policy, limits, s0, 1);
    assert Holder(GlobReady, ready, {}) == s0.(lock := Some(LockFile(1, true))).At(1, GlobReady);
  }

  // ---- A stalled reclaimer ----

  /** The first sender stalls before its `rm`; its guard expires and the second takes the lock. */
  function Stalled(ready: set<File>): State {
    var s := Idle(Some(LockFile(0, true)), ready);
    Arrived(Arrived(s, 1, 11).At(1, Reclaim(0)), 2, 12)
      .(lock := Some(LockFile(2, true))).At(2, GlobReady)
  }

  lemma GuardExpires(policy: Policy, limits: Limits, ready: set<File>)
    requires policy.liveGuardsExpire && |ready| <= limits.absolute
    ensures Reachable(policy, limits, Stalled(ready))
  {
    hide Reachable, Apply, Enabled, SenderStep, Completed;
    var s0 := Idle(Some(LockFile(0, true)), ready);
    IdleIsReachable(policy, limits, s0.lock, ready);
    Arrives(policy, limits, s0, 1, 11);
    var s1 := Arrived(s0, 1, 11);
    Reaps(policy, limits, s1, 1, 0);
    var s2 := s1.(guard := Some(1)).At(1, Reclaim(0));
    var s3 := s1.At(1, Reclaim(0));
    Expires(policy, limits, s2);
    assert s3 == s2.(guard := None);
    Arrives(policy, limits, s3, 2, 12);
    TakesOver(policy, limits, Arrived(s3, 2, 12), 2, 0);
  }

  /** Both senders hold the lock: the second took it over, then the first unlinked that lock. */
  function Overlapping(ready: set<File>): State {
    Stalled(ready).(lock := Some(LockFile(1, false))).At(1, Created)
  }

  lemma BothHold(policy: Policy, limits: Limits, ready: set<File>)
    requires policy.liveGuardsExpire && |ready| <= limits.absolute
    ensures Reachable(policy, limits, Overlapping(ready)) && !Exclusive(Overlapping(ready))
  {
    hide Reachable;
    GuardExpires(policy, limits, ready);
    var s := Stalled(ready);
    Retakes(policy, limits, s, 1);
    assert Overlapping(ready) == s.(lock := Some(LockFile(1, false)), guard := None).At(1, Created);
    assert Holds(Overlapping(ready), 1) && Holds(Overlapping(ready), 2);
  }

  // ---- A command that outlives its sender ----

  /** The first sender was killed while it removed its own lock, and that `rm` is still at work. */
  function Unlinking(): State {
    var s := Holder(Unlock, {}, {});
    Forked(s, 1).At(1, Gone)
  }

  lemma KilledWhileUnlocking(policy: Policy, limits: Limits)
    requires policy.commandsOutlive
    ensures Reachable(policy, limits, Unlinking())
  {
    hide Reachable;
    TakesFree(policy, limits, {});
    Move(policy, limits, Holder(GlobReady, {}, {}), Interrupt(1), Holder(Release, {}, {}));
    Goes(policy, limits, Holder(Release, {}, {}), 1, Holder(Unlock, {}, {}));
    Outlives(policy, limits, Holder(Unlock, {}, {}), 1);
  }

  /** The second sender reclaims the dead one's lock, and loses its own to the `rm`. */
  function Unlinked(): State {
    Arrived(Unlinking(), 2, 12).(lock := None, running := map[]).At(2, GlobReady)
  }

  lemma LosesLock(policy: Policy, limits: Limits)
    requires policy.commandsOutlive
    ensures Reachable(policy, limits, Unlinked())
  {
    hide Reachable;
    KilledWhileUnlocking(policy, limits);
    var s0 := Arrived(Unlinking(), 2, 12);
    Arrives(policy, limits, Unlinking(), 2, 12);
    TakesOver(policy, limits, s0, 2, 1);
    var s1 := s0.(lock := Some(LockFile(2, true))).At(2, GlobReady);
    assert s1.running - {1} == map[];
    Move(policy, limits, s1, Ends(1, true), Unlinked());
  }

  /** A third sender finds no lock and creates its own. */
  lemma OrphanUnlinks(policy: Policy, limits: Limits) returns (s: State)
    requires policy.commandsOutlive
    ensures Reachable(policy, limits, s) && !Exclusive(s)
  {
    hide Reachable, Apply, Enabled;
    LosesLock(policy, limits);
    Contends(policy, limits, Unlinked(), 3, 13);
    var s0 := Contending(Unlinked(), 3, 13);
    s := s0.(lock := Some(LockFile(3, false))).At(3, Created);
    Goes(policy, limits, s0, 3, s);
    assert Holds(s, 2) && Holds(s, 3);
  }

  /** A reclaimer killed in its `rm` leaves a guard that may expire, and a `rm` that does not. */
  lemma OrphanReclaims(policy: Policy, limits: Limits) returns (s: State)
    requires policy.commandsOutlive
    ensures Reachable(policy, limits, s) && !ReclaimsDead(s)
  {
    hide Reachable, Apply, Enabled, SenderStep, Completed;
    var s0 := Idle(Some(LockFile(0, true)), {});
    IdleIsReachable(policy, limits, s0.lock, {});
    Arrives(policy, limits, s0, 1, 11);
    Reaps(policy, limits, Arrived(s0, 1, 11), 1, 0);
    var s1 := Arrived(s0, 1, 11).(guard := Some(1)).At(1, Reclaim(0));
    Outlives(policy, limits, s1, 1);
    var s2 := Forked(s1, 1).At(1, Gone);
    var s3 := s2.(guard := None);
    Expires(policy, limits, s2);
    Arrives(policy, limits, s3, 2, 12);
    TakesOver(policy, limits, Arrived(s3, 2, 12), 2, 0);
    s := Arrived(s3, 2, 12).(lock := Some(LockFile(2, true))).At(2, GlobReady);
    assert s.running[1] == Reclaim(0) && s.Live(2);
  }

  lemma StalledReclaims(policy: Policy, limits: Limits) returns (s: State)
    requires policy.liveGuardsExpire
    ensures Reachable(policy, limits, s) && !ReclaimsDead(s)
  {
    hide Reachable;
    GuardExpires(policy, limits, {});
    Forks(policy, limits, Stalled({}), 1);
    s := Forked(Stalled({}), 1);
    assert s.running[1] == Reclaim(0) && s.Live(2);
  }

  // ---- An overfull backlog ----

  /** A `mv` is at work that takes the backlog over its limit. */
  ghost predicate AboutToOverfill(limits: Limits, s: State, p: Pid) {
    && p in s.running && s.running[p] == Publish && p in s.senders
    && s.senders[p].file in s.plain && s.senders[p].pressure == Lifecycle
    && |s.Backlog() + {s.senders[p].file}| > limits.absolute
  }

  lemma OneMore(ready: set<File>, f: File)
    requires f !in ready
    ensures |ready + {f}| == |ready| + 1
  {
  }

  /** A sender that counts a backlog with one place left goes on to publish. */
  lemma FindsRoom(policy: Policy, limits: Limits, s: State, p: Pid)
    requires limits.Ordered() && Reachable(policy, limits, s)
    requires s.Live(p) && s.senders[p].pc == GlobReady && s.senders[p].pressure == Lifecycle
    requires s.claimed == {} && |s.ready| == limits.absolute - 1
    ensures Reachable(policy, limits, s.At(p, Publish))
  {
    hide Reachable, Apply, Enabled;
    CountsReady(policy, limits, s, p);
    Publishes(policy, limits, s, p, |s.ready|);
  }

  /** Two holders are about to count the same queue. */
  lemma BothReady(policy: Policy, limits: Limits, ready: set<File>) returns (s: State)
    requires policy.liveGuardsExpire && |ready| <= limits.absolute
    ensures Reachable(policy, limits, s) && s.running == map[]
    ensures s.senders == map[1 := Sender(11, Lifecycle, 1, GlobReady),
                             2 := Sender(12, Lifecycle, 1, GlobReady)]
    ensures s.plain == {11, 12} && s.ready == ready && s.claimed == {}
  {
    hide Reachable, Completed, Apply, Enabled, SenderStep;
    BothHold(policy, limits, ready);
    assert Overlapping(ready)
           == Stalled(ready).(lock := Some(LockFile(1, false))).At(1, Created);
    Signs(policy, limits, Stalled(ready), 1);
    s := Stalled(ready).(lock := Some(LockFile(1, true))).At(1, GlobReady);
  }

  /** Both publish into the one place left. */
  lemma OverlapOverfills(policy: Policy, limits: Limits) returns (s: State)
    requires limits.Ordered() && policy.liveGuardsExpire
    ensures Reachable(policy, limits, s) && AboutToOverfill(limits, s, 2)
  {
    hide Reachable, Completed, Apply, Enabled, SenderStep, AboutToOverfill;
    var s0 := BothReady(policy, limits, Queue(limits.absolute - 1));
    FindsRoom(policy, limits, s0, 1);
    FindsRoom(policy, limits, s0.At(1, Publish), 2);
    s := BothPublish(policy, limits, s0.At(1, Publish).At(2, Publish));
  }

  lemma BothPublish(policy: Policy, limits: Limits, s: State) returns (s': State)
    requires Reachable(policy, limits, s) && s.running == map[] && s.claimed == {}
    requires 1 in s.senders && s.senders[1].pc == Publish && s.senders[1].file == 11
    requires 2 in s.senders && s.senders[2].pc == Publish && s.senders[2].file == 12
    requires s.senders[2].pressure == Lifecycle
    requires {11, 12} <= s.plain && 11 !in s.ready && 12 !in s.ready
    requires |s.ready| == limits.absolute - 1
    ensures Reachable(policy, limits, s') && AboutToOverfill(limits, s', 2)
  {
    hide Reachable, Apply, Enabled, Completed;
    PublishesOne(policy, limits, s, 1);
    var s1 := s.(plain := s.plain - {11}, ready := s.ready + {11}).At(1, Release);
    Forks(policy, limits, s1, 2);
    s' := Forked(s1, 2);
    OneMore(s.ready, 11);
    OneMore(s.ready + {11}, 12);
    assert s'.Backlog() == s.ready + {11};
  }

  lemma PublishesOne(policy: Policy, limits: Limits, s: State, p: Pid)
    requires Reachable(policy, limits, s) && s.Live(p) && s.senders[p].pc == Publish
    requires p !in s.running && s.senders[p].file in s.plain
    ensures var f := s.senders[p].file;
            Reachable(policy, limits,
              s.(plain := s.plain - {f}, ready := s.ready + {f}).At(p, Release))
  {
    hide Reachable;
    var f := s.senders[p].file;
    Executes(policy, limits, s, p, true,
             s.(plain := s.plain - {f}, ready := s.ready + {f}).At(p, Release));
  }

  /** The daemon claims the first file listed before it is tested: the ready count becomes zero. */
  lemma VanishingOverfills(policy: Policy, limits: Limits) returns (s: State)
    requires limits.Ordered() && policy.firstListedVanishes
    ensures Reachable(policy, limits, s) && AboutToOverfill(limits, s, 1)
  {
    hide Reachable;
    var full := Queue(limits.absolute);
    var rest := full - {101};
    TakesFree(policy, limits, full);
    var s0 := Holder(GlobReady, full, {});
    assert s0.At(1, GlobReady) == s0;
    ListsReady(policy, limits, s0, 1);
    assert s0.At(1, TestReady(full)) == Holder(TestReady(full), full, {});
    Move(policy, limits, Holder(TestReady(full), full, {}), Claim(101),
         Holder(TestReady(full), rest, {101}));
    FirstIsGone(policy, limits, full, rest);
    var s1 := Holder(GlobClaimed({}), rest, {101});
    assert s1.At(1, GlobClaimed({})) == s1;
    CountsClaimed(policy, limits, s1, 1, {});
    Publishes(policy, limits, s1, 1, 1);
    assert s1.At(1, Publish) == Holder(Publish, rest, {101});
    Forks(policy, limits, Holder(Publish, rest, {101}), 1);
    s := Forked(Holder(Publish, rest, {101}), 1);
    assert s.Backlog() == full;
    OneMore(full, 11);
  }

  lemma FirstIsGone(policy: Policy, limits: Limits, full: set<File>, rest: set<File>)
    requires policy.firstListedVanishes
    requires 101 in full && (forall f :: f in full ==> 101 <= f) && rest == full - {101}
    requires Reachable(policy, limits, Holder(TestReady(full), rest, {101}))
    ensures Reachable(policy, limits, Holder(GlobClaimed({}), rest, {101}))
  {
    hide Reachable;
    assert First(full) == 101;
    assert Tested(full, rest) == {};
    Move(policy, limits, Holder(TestReady(full), rest, {101}), Step(1),
         Holder(GlobClaimed({}), rest, {101}));
  }

  /** A sender is killed in its `mv`, with one place left. */
  function Publishing(ready: set<File>): State {
    Holder(Gone, ready, {}).(running := map[1 := Publish])
  }

  lemma KilledWhilePublishing(policy: Policy, limits: Limits)
    requires limits.Ordered() && policy.commandsOutlive
    ensures Reachable(policy, limits, Publishing(Queue(limits.absolute - 1)))
  {
    hide Reachable, Completed, Apply, Enabled, SenderStep;
    var ready := Queue(limits.absolute - 1);
    TakesFree(policy, limits, ready);
    var s0 := Holder(GlobReady, ready, {});
    FindsRoom(policy, limits, s0, 1);
    Outlives(policy, limits, s0.At(1, Publish), 1);
    assert Publishing(ready) == Forked(s0.At(1, Publish), 1).At(1, Gone);
  }

  /** The next sender takes over the lock. */
  lemma NextTakesOver(policy: Policy, limits: Limits, ready: set<File>) returns (s: State)
    requires Reachable(policy, limits, Publishing(ready))
    ensures Reachable(policy, limits, s) && s.running == map[1 := Publish] && s.claimed == {}
    ensures s.senders == map[1 := Sender(11, Lifecycle, 0, Gone),
                             2 := Sender(12, Lifecycle, 1, GlobReady)]
    ensures s.plain == {11, 12} && s.ready == ready
  {
    hide Reachable, Completed, Apply, Enabled, SenderStep;
    Arrives(policy, limits, Publishing(ready), 2, 12);
    var s0 := Arrived(Publishing(ready), 2, 12);
    TakesOver(policy, limits, s0, 2, 1);
    s := s0.(lock := Some(LockFile(2, true))).At(2, GlobReady);
  }

  /** The second sender fills the last place, and then the first one's `mv` ends. */
  lemma OrphanOverfills(policy: Policy, limits: Limits) returns (s: State)
    requires limits.Ordered() && policy.commandsOutlive
    ensures Reachable(policy, limits, s) && AboutToOverfill(limits, s, 1)
  {
    hide Reachable, Completed, Apply, Enabled;
    KilledWhilePublishing(policy, limits);
    var s0 := NextTakesOver(policy, limits, Queue(limits.absolute - 1));
    FindsRoom(policy, limits, s0, 2);
    PublishesOne(policy, limits, s0.At(2, Publish), 2);
    s := s0.At(2, Publish).(plain := s0.plain - {12}, ready := s0.ready + {12}).At(2, Release);
    OneMore(s0.ready, 12);
    OneMore(s0.ready + {12}, 11);
    assert s.Backlog() == s0.ready + {12};
  }

  // ---- A marker that could not be written ----

  /** A full queue, a breaker that cannot be written, and the payload is removed all the same. */
  lemma DropsSilently(policy: Policy, limits: Limits) returns (s: State)
    requires limits.Ordered() && policy.markersFail
    ensures Reachable(policy, limits, s) && !Loud(s)
  {
    hide Reachable;
    var full := Queue(limits.absolute);
    TakesFree(policy, limits, full);
    var s0 := Holder(GlobReady, full, {});
    CountsReady(policy, limits, s0, 1);
    Publishes(policy, limits, s0, 1, |full|);
    var s1 := s0.At(1, Remove(Breaker));
    Move(policy, limits, s0.At(1, Mark(Breaker)), Marks(1, false), s1);
    s := s1.(plain := s1.plain - {11}, shed := map[11 := Breaker]).At(1, Release);
    Executes(policy, limits, s1, 1, true, s);
    assert 11 in s.captured && 11 in s.shed;
  }

  // ---- Exactly when ----

  ghost predicate AlwaysExclusive(policy: Policy, limits: Limits) {
    forall s: State :: Reachable(policy, limits, s) ==> Exclusive(s)
  }

  /** No `rm` of a reclaimer is at work on a live sender's lock. */
  ghost predicate ReclaimsDead(s: State) {
    forall p :: p in s.running && s.running[p].Reclaim? && s.lock.Some? ==>
      !s.Live(s.lock.value.creator)
  }

  ghost predicate AlwaysReclaimsDead(policy: Policy, limits: Limits) {
    forall s: State :: Reachable(policy, limits, s) ==> ReclaimsDead(s)
  }

  ghost predicate AlwaysBounded(policy: Policy, limits: Limits) {
    forall s: State :: Reachable(policy, limits, s) ==> |s.Backlog()| <= limits.absolute
  }

  /** Every publication at work leaves the backlog within the ceiling of the event's own class. */
  ghost predicate PublishesWithin(policy: Policy, limits: Limits, s: State) {
    forall p :: p in s.running && s.running[p].Publish? && p in s.senders
                && s.senders[p].file in s.plain ==>
      |Apply(policy, limits, s, Ends(p, true)).Backlog()| <= limits.Ceiling(s.senders[p].pressure)
  }

  ghost predicate AlwaysPublishesWithin(policy: Policy, limits: Limits) {
    forall s: State :: Reachable(policy, limits, s) ==> PublishesWithin(policy, limits, s)
  }

  /** Every captured payload is accounted for: kept, or removed under a marker of its class. */
  ghost predicate Loud(s: State) {
    forall f :: f in s.captured ==>
      Kept(s, f) && (f in s.shed ==> Accounted(s, s.shed[f]) && Explains(s.shed[f], s.captured[f]))
  }

  ghost predicate AlwaysLoud(policy: Policy, limits: Limits) {
    forall s: State :: Reachable(policy, limits, s) ==> Loud(s)
  }

  /** A guard may expire under its live maker, or a command outlive its sender. */
  predicate Undercut(policy: Policy) {
    policy.liveGuardsExpire || policy.commandsOutlive
  }

  /**
   Whatever the limits, at most one live sender holds the lock in every reachable state exactly when
   the reaping guard expires only once its maker is gone and no command outlives its sender.
   */
  lemma MutualExclusionIff(policy: Policy, limits: Limits)
    requires limits.Ordered()
    ensures AlwaysExclusive(policy, limits) <==> !Undercut(policy)
  {
    hide Reachable, Exclusive;
    if policy.liveGuardsExpire {
      BothHold(policy, limits, {});
    } else if policy.commandsOutlive {
      var s := OrphanUnlinks(policy, limits);
    } else {
      forall s: State | Reachable(policy, limits, s) ensures Exclusive(s) {
        ExclusiveUnlessOvertaken(policy, limits, s);
      }
    }
  }

  /** A reclaimer never unlinks a live sender's lock exactly under the same condition. */
  lemma ReclaimIff(policy: Policy, limits: Limits)
    requires limits.Ordered()
    ensures AlwaysReclaimsDead(policy, limits) <==> !Undercut(policy)
  {
    hide Reachable, ReclaimsDead;
    if policy.liveGuardsExpire {
      var s := StalledReclaims(policy, limits);
    } else if policy.commandsOutlive {
      var s := OrphanReclaims(policy, limits);
    } else {
      forall s: State | Reachable(policy, limits, s) ensures ReclaimsDead(s) {
        forall p | p in s.running && s.running[p].Reclaim? && s.lock.Some?
          ensures !s.Live(s.lock.value.creator)
        {
          ReclaimRemovesDeadLock(policy, limits, s, p);
        }
        assert ReclaimsDead(s) by { NoneLive(s); }
      }
    }
  }

  lemma NoneLive(s: State)
    requires forall p :: p in s.running && s.running[p].Reclaim? && s.lock.Some? ==>
               !s.Live(s.lock.value.creator)
    ensures ReclaimsDead(s)
  {
  }

  lemma Overfills(policy: Policy, limits: Limits, s: State, p: Pid)
    requires AboutToOverfill(limits, s, p) && Reachable(policy, limits, s)
    ensures !AlwaysBounded(policy, limits) && !AlwaysPublishesWithin(policy, limits)
  {
    hide Reachable;
    var s' := Apply(policy, limits, s, Ends(p, true));
    assert s'.Backlog() == s.Backlog() + {s.senders[p].file};
    Move(policy, limits, s, Ends(p, true), s');
    hide Apply;
    assert !PublishesWithin(policy, limits, s);
  }

  /**
   Whatever the limits, the backlog stays within the absolute limit, and each publication within its
   class's ceiling, exactly when in addition the first file a glob lists is still there when the
   sender tests it.
   */
  lemma CapacityIff(policy: Policy, limits: Limits)
    requires limits.Ordered()
    ensures AlwaysBounded(policy, limits) <==> !Undercut(policy) && !policy.firstListedVanishes
    ensures AlwaysPublishesWithin(policy, limits)
            <==> !Undercut(policy) && !policy.firstListedVanishes
  {
    hide Reachable, Apply, AboutToOverfill, AlwaysBounded, AlwaysPublishesWithin;
    if policy.liveGuardsExpire {
      var s := OverlapOverfills(policy, limits);
      Overfills(policy, limits, s, 2);
    } else if policy.commandsOutlive {
      var s := OrphanOverfills(policy, limits);
      Overfills(policy, limits, s, 1);
    } else if policy.firstListedVanishes {
      var s := VanishingOverfills(policy, limits);
      Overfills(policy, limits, s, 1);
    } else {
      CapacityHolds(policy, limits);
    }
  }

  lemma CapacityHolds(policy: Policy, limits: Limits)
    requires limits.Ordered() && !Undercut(policy) && !policy.firstListedVanishes
    ensures AlwaysBounded(policy, limits) && AlwaysPublishesWithin(policy, limits)
  {
    hide Reachable, Apply;
    forall s: State | Reachable(policy, limits, s)
      ensures |s.Backlog()| <= limits.absolute && PublishesWithin(policy, limits, s)
    {
      BoundedUnlessMiscounted(policy, limits, s);
      forall p | p in s.running && s.running[p].Publish? && p in s.senders
                 && s.senders[p].file in s.plain
        ensures |Apply(policy, limits, s, Ends(p, true)).Backlog()|
                <= limits.Ceiling(s.senders[p].pressure)
      {
        PublishedWithinCeiling(policy, limits, s, p);
      }
    }
  }

  /**
   Whatever the limits and whatever else happens, no payload is dropped silently exactly when writing
   a pressure marker never fails.
   */
  lemma NoSilentDropIff(policy: Policy, limits: Limits)
    requires limits.Ordered()
    ensures AlwaysLoud(policy, limits) <==> !policy.markersFail
  {
    hide Reachable, Kept, Accounted, Explains;
    if policy.markersFail {
      var s := DropsSilently(policy, limits);
    } else {
      forall s: State | Reachable(policy, limits, s) ensures Loud(s) {
        forall f | f in s.captured
          ensures Kept(s, f)
          ensures f in s.shed ==>
                    Accounted(s, s.shed[f]) && Explains(s.shed[f], s.captured[f])
        {
          NothingDroppedSilently(policy, limits, s, f);
        }
      }
    }
  }
}
