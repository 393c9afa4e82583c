/**
 Why a payload ends where it does: what must have happened in a run for a sender to remove its payload,
 to queue it, or to leave it behind.
 */
module RelayReasons {
  import opened Wrappers
  import opened RelayQuota

  // ---- Runs with their actions ----

  ghost predicate Trace(policy: Policy, limits: Limits, states: seq<State>, actions: seq<Action>) {
    && |states| == |actions| + 1 && Initial(limits, states[0])
    && forall n :: 0 <= n < |actions| ==>
         Enabled(policy, states[n], actions[n])
         && states[n + 1] == Apply(policy, limits, states[n], actions[n])
  }

  /** Every run is the run of some actions. */
  lemma {:induction false} RunHasActions(policy: Policy, limits: Limits, run: seq<State>)
    returns (actions: seq<Action>)
    requires Run(policy, limits, run)
    ensures Trace(policy, limits, run, actions)
  {
    hide Enabled, Apply;
    if |run| == 1 {
      actions := [];
    } else {
      var front := run[..|run| - 1];
      assert Next(policy, limits, run[|run| - 2], run[|run| - 1]);
      var before := RunHasActions(policy, limits, front);
      var a :| Enabled(policy, run[|run| - 2], a)
               && run[|run| - 1] == Apply(policy, limits, run[|run| - 2], a);
      actions := before + [a];
    }
  }

  // ---- The decision ----

  /** The marker of a class that was over its limit. */
  function ClassMarker(pressure: Pressure): Marker {
    match pressure
    case ShedFirst => ShedFirstMarker
    case ShedSecond => ShedSecondMarker
    case Retain => RetainMarker
    case Lifecycle => Breaker
  }

  /** A count below the limit of its class is queued, any other shed under the marker of its class. */
  lemma DecidedIff(limits: Limits, pressure: Pressure, count: nat)
    requires limits.Ordered()
    ensures Decided(limits, pressure, count) ==
            if count < limits.Ceiling(pressure) then Publish else Mark(ClassMarker(pressure))
    ensures Decided(limits, ShedFirst, count).Publish? <==> count < limits.shedFirst
    ensures Decided(limits, ShedSecond, count).Publish? <==> count < limits.shedSecond
    ensures Decided(limits, Retain, count).Publish? <==> count < limits.pending
    ensures Decided(limits, Lifecycle, count).Publish? <==> count < limits.absolute
  {
  }

  // ---- Events that explain an outcome ----

  /** The files that were published at some time, by this run or before it. */
  function Published(s: State): set<File> {
    s.ready + s.claimed + s.drained
  }

  /** A count of published files, each counted at most twice: as ready, and as being drained. */
  ghost predicate CountsFiles(s: State, count: nat) {
    exists listed: set<File>, claimed: set<File> ::
      listed <= Published(s) && claimed <= Published(s) && count == |listed| + |claimed|
  }

  /** A sender of the file decides on a count. */
  ghost predicate Decides(s: State, a: Action, f: File) {
    && a.Step? && a.pid in s.senders && s.senders[a.pid].file == f && s.senders[a.pid].pc.Decide?
    && CountsFiles(s, s.senders[a.pid].pc.count)
  }

  /** The count had reached the limit of the payload's class. */
  ghost predicate Full(limits: Limits, s: State, a: Action, f: File) {
    Decides(s, a, f) && limits.Ceiling(s.senders[a.pid].pressure) <= s.senders[a.pid].pc.count
  }

  ghost predicate Fits(limits: Limits, s: State, a: Action, f: File) {
    Decides(s, a, f) && s.senders[a.pid].pc.count < limits.Ceiling(s.senders[a.pid].pressure)
  }

  /** A sender of the file finds no breaker. */
  ghost predicate Enters(s: State, a: Action, f: File) {
    && a.Step? && a.pid in s.senders && s.senders[a.pid].file == f
    && s.senders[a.pid].pc.TestBreaker? && Breaker !in s.markers
  }

  /** A sender of the file finds no marker of its class; lifecycle events have none to look for. */
  ghost predicate Passes(s: State, a: Action, f: File) {
    && a.Step? && a.pid in s.senders && s.senders[a.pid].file == f
    && s.senders[a.pid].pc.TestClass?
    && (s.senders[a.pid].pressure == Lifecycle || ClassMarker(s.senders[a.pid].pressure) !in s.markers)
  }

  /** A `mv` of the file fails, or finds it gone. */
  ghost predicate MoveFails(s: State, a: Action, f: File) {
    && a.Ends? && a.pid in s.senders && s.senders[a.pid].file == f
    && a.pid in s.running && s.running[a.pid].Publish? && (!a.works || f !in s.plain)
  }

  /** A `curl` of the file fails, or the `rm` after one that worked. */
  ghost predicate PostFails(s: State, a: Action, f: File) {
    && a.Ends? && !a.works && a.pid in s.senders && s.senders[a.pid].file == f
    && a.pid in s.running && (s.running[a.pid].Post? || s.running[a.pid].RemovePosted?)
  }

  /** A sender finds the lock taken, or cannot write its name into the lock file it created. */
  ghost predicate Misses(s: State, a: Action, p: Pid) {
    || (a == Step(p) && p in s.senders && s.senders[p].pc.Contend? && s.lock.Some?)
    || a == Writes(p, false)
  }

  ghost function Attempts(states: seq<State>, actions: seq<Action>, m: nat, p: Pid): nat
    requires m <= |actions| < |states|
  {
    if m == 0 then 0
    else Attempts(states, actions, m - 1, p) + if Misses(states[m - 1], actions[m - 1], p) then 1 else 0
  }

  /** A sender stops short: killed, stopped by a signal or a marker, out of attempts, or its `rm` failed. */
  ghost predicate GivesUp(s: State, a: Action, p: Pid, attempts: nat) {
    || a == Crash(p) || a == Interrupt(p)
    || (a == Step(p) && p in s.senders && s.senders[p].pc.TestBreaker? && Breaker in s.markers)
    || (a == Step(p) && p in s.senders && s.senders[p].pc.TestClass?
        && s.senders[p].pressure != Lifecycle && ClassMarker(s.senders[p].pressure) in s.markers)
    || (a == Step(p) && p in s.senders && s.senders[p].pc.Wait? && MAX_ATTEMPTS <= attempts)
    || (a == Ends(p, false) && p in s.running && s.running[p].Remove?)
  }

  // ---- What holds along a run ----

  /** What has happened so far, by file and by sender. */
  datatype Past = Past(
    entered: iset<File>,
    passed: iset<File>,
    full: iset<File>,
    fits: iset<File>,
    unposted: iset<File>,
    stopped: iset<Pid>)

  ghost predicate Grows(past: Past, past': Past) {
    && past.entered <= past'.entered && past.passed <= past'.passed
    && past.full <= past'.full && past.fits <= past'.fits
    && past.unposted <= past'.unposted && past.stopped <= past'.stopped
  }

  /** Past the attempt to post. */
  predicate Queueing(pc: Pc) {
    !(pc.TestBreaker? || pc.TestClass? || pc.Post? || pc.RemovePosted? || pc.Gone?)
  }

  ghost predicate Listed(s: State, pc: Pc) {
    match pc
    case ReadyGlobbing(before) => before <= Published(s)
    case TestReady(listed) => listed <= Published(s)
    case GlobClaimed(counted) => counted <= Published(s)
    case ClaimedGlobbing(counted, before) => counted <= Published(s) && before <= Published(s)
    case TestClaimed(counted, listed) => counted <= Published(s) && listed <= Published(s)
    case Decide(count) => CountsFiles(s, count)
    case _ => true
  }

  /** What a place in the script tells of the past of its sender. */
  ghost predicate Tells(past: Past, s: State, p: Pid, pc: Pc)
    requires p in s.senders
  {
    var f := s.senders[p].file;
    && (!pc.TestBreaker? && !pc.Gone? ==> f in past.entered)
    && (!pc.TestBreaker? && !pc.TestClass? && !pc.Gone? ==> f in past.passed)
    && (pc.Mark? || pc.Remove? ==> f in past.full)
    && (pc.Publish? ==> f in past.fits)
    && (Queueing(pc) ==> f in past.unposted)
    && (pc.Release? || pc.Unlock? || pc.Gone? ==> f in s.plain ==> p in past.stopped)
    && Listed(s, pc)
  }

  ghost predicate Known(s: State) {
    && (forall p :: p in s.senders ==> p in s.used && s.senders[p].file in s.captured)
    && (forall p :: p in s.running ==> p in s.senders && s.running[p].Forks())
  }

  ghost predicate Explained(past: Past, before: set<File>, s: State) {
    && Known(s)
    && (forall p :: p in s.senders ==> Tells(past, s, p, s.senders[p].pc))
    && (forall p :: p in s.running && p in s.senders ==> Tells(past, s, p, s.running[p]))
    && FilesExplained(past, before, s)
  }

  /** Where a payload ends tells of its past too, unless a file of that name was there before. */
  ghost predicate FilesExplained(past: Past, before: set<File>, s: State) {
    && (forall f :: f in s.posted && f !in before ==> f in past.entered && f in past.passed)
    && (forall f :: f in s.shed ==> f in past.entered && f in past.passed && f in past.full)
    && (forall f :: f in s.Backlog() && f !in before ==>
          f in past.entered && f in past.passed && f in past.fits && f in past.unposted)
  }

  /** The past after one more action. */
  ghost predicate Records(limits: Limits, past: Past, past': Past, s: State, a: Action) {
    && Grows(past, past')
    && (forall f :: Enters(s, a, f) ==> f in past'.entered)
    && (forall f :: Passes(s, a, f) ==> f in past'.passed)
    && (forall f :: Full(limits, s, a, f) || MoveFails(s, a, f) ==> f in past'.full)
    && (forall f :: Fits(limits, s, a, f) ==> f in past'.fits)
    && (forall f :: PostFails(s, a, f) ==> f in past'.unposted)
    && (forall p :: p in s.senders && GivesUp(s, a, p, s.senders[p].attempts) ==> p in past'.stopped)
  }

  /** A place keeps telling the same while published files grow and no file it may name comes back. */
  lemma TellsStill(past: Past, past': Past, s: State, s': State, p: Pid, pc: Pc)
    requires Grows(past, past') && p in s.senders && p in s'.senders
    requires s'.senders[p].file == s.senders[p].file && Tells(past, s, p, pc)
    requires Published(s) <= Published(s')
    requires s.senders[p].file in s'.plain ==> s.senders[p].file in s.plain
    ensures Tells(past', s', p, pc)
  {
    if pc.Decide? {
      CountsStill(s, s', pc.count);
    }
    hide Published, CountsFiles;
  }

  lemma CountsStill(s: State, s': State, count: nat)
    requires CountsFiles(s, count) && Published(s) <= Published(s')
    ensures CountsFiles(s', count)
  {
    hide Published;
    var listed: set<File>, claimed: set<File> :|
      listed <= Published(s) && claimed <= Published(s) && count == |listed| + |claimed|;
    assert listed <= Published(s') && claimed <= Published(s');
  }

  /** What one action leaves of the files and of every sender: none is renamed, none comes back. */
  ghost predicate Onward(s: State, s': State) {
    && s.senders.Keys <= s'.senders.Keys
    && (forall p :: p in s.senders ==> s'.senders[p].file == s.senders[p].file
                                       && s'.senders[p].pressure == s.senders[p].pressure)
    && Published(s) <= Published(s')
    && (forall f :: f in s.captured ==> f in s'.captured)
    && (forall f :: f in s.captured && f in s'.plain ==> f in s.plain)
  }

  lemma StepChanges(limits: Limits, s: State, p: Pid)
    requires Steps(s, p)
    ensures var s' := SenderStep(limits, s, p);
            && p in s'.senders
            && s' == s.(lock := s'.lock, senders := s.senders[p := s'.senders[p]])
            && s'.senders[p].file == s.senders[p].file
            && s'.senders[p].pressure == s.senders[p].pressure
  {
    hide Tested, Decided, Blocked, TestIsStable;
  }

  lemma StepIsOnward(limits: Limits, s: State, p: Pid)
    requires Steps(s, p)
    ensures Onward(s, SenderStep(limits, s, p))
    ensures Known(s) ==> Known(SenderStep(limits, s, p))
  {
    StepChanges(limits, s, p);
    hide SenderStep, Steps;
  }

  lemma EffectChanges(s: State, p: Pid, command: Pc)
    requires p in s.senders
    ensures var s' := Effect(s, p, command);
            && s'.senders == s.senders && s'.running == s.running && s'.used == s.used
            && s'.captured == s.captured && s'.plain <= s.plain && Published(s) <= Published(s')
  {
  }

  lemma EndChanges(s: State, p: Pid, works: bool)
    requires p in s.running && p in s.senders
    ensures var s' := Completed(s.(running := s.running - {p}), p, s.running[p], works);
            && s'.running == s.running - {p} && s'.captured == s.captured && s'.used == s.used
            && s'.plain <= s.plain && Published(s) <= Published(s')
            && p in s'.senders && s'.senders == s.senders[p := s'.senders[p]]
            && s'.senders[p].file == s.senders[p].file
            && s'.senders[p].pressure == s.senders[p].pressure
  {
    hide Afterwards, Effect;
    EffectChanges(s.(running := s.running - {p}), p, s.running[p]);
  }

  lemma EndIsOnward(s: State, p: Pid, works: bool)
    requires p in s.running && p in s.senders
    ensures var s' := Completed(s.(running := s.running - {p}), p, s.running[p], works);
            Onward(s, s') && (Known(s) ==> Known(s'))
  {
    EndChanges(s, p, works);
    hide Completed, Published;
  }

  /** What the other actions, which run no step of the script and end no command, leave as it was. */
  lemma OtherChanges(policy: Policy, limits: Limits, s: State, a: Action)
    requires Enabled(policy, s, a) && !a.Step? && !a.Ends?
    ensures var s' := Apply(policy, limits, s, a);
            && Published(s) <= Published(s') && s.captured.Keys <= s'.captured.Keys
            && (forall f :: f in s.captured && f in s'.plain ==> f in s.plain)
            && s'.shed == s.shed && s'.posted == s.posted && s'.Backlog() <= s.Backlog()
  {
    hide SenderStep, Completed, State.Live;
  }

  lemma OtherKeepsSender(policy: Policy, limits: Limits, s: State, a: Action, p: Pid)
    requires p in s.senders && p in s.used && Enabled(policy, s, a) && !a.Step? && !a.Ends?
    ensures var s' := Apply(policy, limits, s, a);
            && p in s'.senders && s'.senders[p].file == s.senders[p].file
            && s'.senders[p].pressure == s.senders[p].pressure
  {
    hide SenderStep, Completed, State.Live;
  }

  lemma SendersAreUsed(s: State)
    requires Known(s)
    ensures forall p :: p in s.senders ==> p in s.used && s.senders[p].file in s.captured
  {
  }

  lemma OtherKeepsKnown(policy: Policy, limits: Limits, s: State, a: Action)
    requires Known(s) && Enabled(policy, s, a) && !a.Step? && !a.Ends?
    ensures Known(Apply(policy, limits, s, a))
  {
    hide SenderStep, Completed;
  }

  lemma ActionIsOnward(policy: Policy, limits: Limits, s: State, a: Action)
    requires Known(s) && Enabled(policy, s, a)
    ensures Onward(s, Apply(policy, limits, s, a)) && Known(Apply(policy, limits, s, a))
  {
    hide SenderStep, Completed, Published, Known;
    var s' := Apply(policy, limits, s, a);
    if a.Step? {
      hide Onward;
      StepIsOnward(limits, s, a.pid);
    } else if a.Ends? {
      hide Onward;
      EndIsOnward(s, a.pid, a.works);
    } else {
      OtherChanges(policy, limits, s, a);
      assert forall p :: p in s.senders ==> p in s.used by { SendersAreUsed(s); }
      forall p | p in s.senders ensures p in s'.senders && s'.senders[p].file == s.senders[p].file
                                       && s'.senders[p].pressure == s.senders[p].pressure
      {
        OtherKeepsSender(policy, limits, s, a, p);
      }
      OtherKeepsKnown(policy, limits, s, a);
      hide Apply, Enabled;
    }
  }

  // ---- The sender that moves ----

  lemma MoverTells(limits: Limits, past: Past, past': Past, s: State, p: Pid)
    requires Known(s) && Steps(s, p) && Tells(past, s, p, s.senders[p].pc)
    requires Records(limits, past, past', s, Step(p))
    requires limits.Ordered()
    ensures var s' := SenderStep(limits, s, p); Tells(past', s', p, s'.senders[p].pc)
  {
    var s' := SenderStep(limits, s, p);
    StepIsOnward(limits, s, p);
    var pc := s.senders[p].pc;
    if pc.Decide? {
      DecisionTells(limits, past, past', s, p);
    } else if pc.TestClaimed? {
      TestedCounts(s, pc.counted, pc.listed);
    } else if pc.TestBreaker? || pc.TestClass? || pc.Wait? || pc.Release? {
      StopTells(limits, past, past', s, p);
    } else {
      ScanTells(limits, past, past', s, p);
    }
  }

  lemma ScanTells(limits: Limits, past: Past, past': Past, s: State, p: Pid)
    requires Steps(s, p) && Tells(past, s, p, s.senders[p].pc) && Grows(past, past')
    requires var pc := s.senders[p].pc;
             pc.Contend? || pc.ReadOwner? || pc.Probe? || pc.Reread? || pc.GlobReady? || pc.TestReady?
             || pc.GlobClaimed?
    ensures var s' := SenderStep(limits, s, p); Tells(past', s', p, s'.senders[p].pc)
  {
    hide FirstExists, Blocked, Decided, CountsFiles;
  }

  lemma StopTells(limits: Limits, past: Past, past': Past, s: State, p: Pid)
    requires Known(s) && Steps(s, p) && Tells(past, s, p, s.senders[p].pc)
    requires Records(limits, past, past', s, Step(p))
    requires var pc := s.senders[p].pc; pc.TestBreaker? || pc.TestClass? || pc.Wait? || pc.Release?
    ensures var s' := SenderStep(limits, s, p); Tells(past', s', p, s'.senders[p].pc)
  {
    hide Tested, Decided, CountsFiles, Full, MoveFails, Fits, PostFails, Published;
    assert GivesUp(s, Step(p), p, s.senders[p].attempts) ==> p in past'.stopped;
    assert Enters(s, Step(p), s.senders[p].file) ==> s.senders[p].file in past'.entered;
    assert Passes(s, Step(p), s.senders[p].file) ==> s.senders[p].file in past'.passed;
  }

  lemma DecisionTells(limits: Limits, past: Past, past': Past, s: State, p: Pid)
    requires Steps(s, p) && Tells(past, s, p, s.senders[p].pc) && s.senders[p].pc.Decide?
    requires Records(limits, past, past', s, Step(p)) && limits.Ordered()
    ensures var s' := SenderStep(limits, s, p); Tells(past', s', p, s'.senders[p].pc)
  {
    var f, count := s.senders[p].file, s.senders[p].pc.count;
    DecidedIff(limits, s.senders[p].pressure, count);
    assert Decides(s, Step(p), f);
    hide Decided, Blocked, Tested, CountsFiles, MoveFails, PostFails, GivesUp;
    assert Full(limits, s, Step(p), f) || Fits(limits, s, Step(p), f);
  }

  lemma TestedCounts(s: State, counted: set<File>, listed: set<File>)
    requires counted <= Published(s) && listed <= Published(s)
    ensures CountsFiles(s, |counted| + |Tested(listed, s.claimed)|)
  {
    var tested := Tested(listed, s.claimed);
    assert tested <= Published(s);
  }

  // ---- The sender whose command ends ----

  lemma EndTells(limits: Limits, past: Past, past': Past, s: State, p: Pid, works: bool)
    requires p in s.running && p in s.senders && s.Live(p) && s.running[p].Forks()
    requires Tells(past, s, p, s.running[p])
    requires Records(limits, past, past', s, Ends(p, works))
    ensures var s' := Completed(s.(running := s.running - {p}), p, s.running[p], works);
            p in s'.senders && Tells(past', s', p, s'.senders[p].pc)
  {
    var f := s.senders[p].file;
    assert MoveFails(s, Ends(p, works), f) ==> f in past'.full;
    assert PostFails(s, Ends(p, works), f) ==> f in past'.unposted;
    assert GivesUp(s, Ends(p, works), p, s.senders[p].attempts) ==> p in past'.stopped;
    hide Records, Full, Fits, Published, CountsFiles;
  }

  lemma EndFiles(past: Past, before: set<File>, s: State, p: Pid, works: bool)
    requires Known(s) && p in s.running && p in s.senders && Tells(past, s, p, s.running[p])
    requires FilesExplained(past, before, s)
    ensures var s' := Completed(s.(running := s.running - {p}), p, s.running[p], works);
            FilesExplained(past, before, s')
  {
    hide Afterwards, CountsFiles, Published, Known;
  }

  // ---- The sender another action is about ----

  predicate Moves(a: Action, p: Pid) {
    && (a.Start? || a.Fork? || a.Writes? || a.Lists? || a.Marks? || a.Crash? || a.Interrupt?)
    && a.pid == p
  }

  lemma OtherMoverTells(policy: Policy, limits: Limits, past: Past, past': Past, s: State, a: Action,
                        p: Pid)
    requires Known(s) && Enabled(policy, s, a) && Moves(a, p) && p in s.senders
    requires Tells(past, s, p, s.senders[p].pc) && Records(limits, past, past', s, a)
    ensures var s' := Apply(policy, limits, s, a);
            p in s'.senders && Tells(past', s', p, s'.senders[p].pc)
  {
    assert GivesUp(s, a, p, s.senders[p].attempts) ==> p in past'.stopped;
    hide SenderStep, Completed, CountsFiles, Full, Fits, MoveFails, PostFails;
  }

  lemma StandersStay(policy: Policy, limits: Limits, s: State, a: Action, p: Pid)
    requires Known(s) && Enabled(policy, s, a) && !a.Step? && !a.Ends? && !Moves(a, p) && p in s.senders
    ensures var s' := Apply(policy, limits, s, a);
            p in s'.senders && s'.senders[p] == s.senders[p]
  {
    hide SenderStep, Completed;
  }

  lemma StartTells(policy: Policy, limits: Limits, past: Past, s: State, a: Action, p: Pid)
    requires Enabled(policy, s, a) && p !in s.senders && p in Apply(policy, limits, s, a).senders
    requires !a.Step? && !a.Ends?
    ensures Tells(past, Apply(policy, limits, s, a), p, Apply(policy, limits, s, a).senders[p].pc)
  {
    hide SenderStep, Completed;
  }

  /** What runs afterwards was running before, or was started by the sender at that place. */
  lemma RunningStays(policy: Policy, limits: Limits, s: State, a: Action, p: Pid)
    requires Enabled(policy, s, a) && !a.Step? && !a.Ends? && p in Apply(policy, limits, s, a).running
    ensures var command := Apply(policy, limits, s, a).running[p];
            || (p in s.running && command == s.running[p])
            || (p in s.senders && command == s.senders[p].pc)
  {
    hide SenderStep, Completed;
  }

  // ---- One action ----

  lemma StepExplains(limits: Limits, past: Past, past': Past, before: set<File>, s: State, p: Pid)
    requires limits.Ordered() && Explained(past, before, s) && Steps(s, p)
    requires Records(limits, past, past', s, Step(p))
    ensures Explained(past', before, SenderStep(limits, s, p))
  {
    hide Tells, SenderStep, Full, Fits, MoveFails, PostFails, GivesUp, Known, Published, Enters, Passes;
    var s' := SenderStep(limits, s, p);
    StepIsOnward(limits, s, p);
    StepChanges(limits, s, p);
    SendersAreUsed(s);
    forall q | q in s'.senders ensures Tells(past', s', q, s'.senders[q].pc) {
      if q == p {
        MoverTells(limits, past, past', s, p);
      } else {
        TellsStill(past, past', s, s', q, s.senders[q].pc);
      }
    }
    forall q | q in s'.running && q in s'.senders ensures Tells(past', s', q, s'.running[q]) {
      TellsStill(past, past', s, s', q, s.running[q]);
    }
  }

  lemma EndExplains(limits: Limits, past: Past, past': Past, before: set<File>, s: State, p: Pid,
                    works: bool)
    requires Explained(past, before, s) && p in s.running && p in s.senders
    requires Records(limits, past, past', s, Ends(p, works))
    ensures Explained(past', before, Completed(s.(running := s.running - {p}), p, s.running[p], works))
  {
    hide Tells, Completed, Full, Fits, MoveFails, PostFails, GivesUp, Published, Enters, Passes,
      FilesExplained;
    var s' := Completed(s.(running := s.running - {p}), p, s.running[p], works);
    EndIsOnward(s, p, works);
    EndChanges(s, p, works);
    EndFiles(past, before, s, p, works);
    FilesStay(past, past', before, s');
    if !s.Live(p) {
      DeadStay(s, p, works);
    }
    SendersAreUsed(s);
    forall q | q in s'.senders ensures Tells(past', s', q, s'.senders[q].pc) {
      if q == p && s.Live(p) {
        EndTells(limits, past, past', s, p, works);
      } else {
        TellsStill(past, past', s, s', q, s.senders[q].pc);
      }
    }
    forall q | q in s'.running && q in s'.senders ensures Tells(past', s', q, s'.running[q]) {
      TellsStill(past, past', s, s', q, s.running[q]);
    }
  }

  lemma FilesStay(past: Past, past': Past, before: set<File>, s: State)
    requires FilesExplained(past, before, s) && Grows(past, past')
    ensures FilesExplained(past', before, s)
  {
  }

  lemma DeadStay(s: State, p: Pid, works: bool)
    requires p in s.running && p in s.senders && !s.Live(p)
    ensures Completed(s.(running := s.running - {p}), p, s.running[p], works).senders == s.senders
  {
  }

  lemma OtherExplains(policy: Policy, limits: Limits, past: Past, past': Past, before: set<File>,
                      s: State, a: Action)
    requires Explained(past, before, s) && Enabled(policy, s, a) && !a.Step? && !a.Ends?
    requires Records(limits, past, past', s, a)
    ensures Explained(past', before, Apply(policy, limits, s, a))
  {
    hide Tells, Apply, Enabled, Full, Fits, MoveFails, PostFails, GivesUp, Known, Published, Moves,
      Enters, Passes;
    var s' := Apply(policy, limits, s, a);
    ActionIsOnward(policy, limits, s, a);
    OtherChanges(policy, limits, s, a);
    SendersAreUsed(s);
    forall q | q in s'.senders ensures Tells(past', s', q, s'.senders[q].pc) {
      if q !in s.senders {
        StartTells(policy, limits, past', s, a, q);
      } else if Moves(a, q) {
        OtherMoverTells(policy, limits, past, past', s, a, q);
      } else {
        StandersStay(policy, limits, s, a, q);
        TellsStill(past, past', s, s', q, s.senders[q].pc);
      }
    }
    forall q | q in s'.running && q in s'.senders ensures Tells(past', s', q, s'.running[q]) {
      RunningStays(policy, limits, s, a, q);
      RunningAreSenders(s);
      TellsStill(past, past', s, s', q, s'.running[q]);
    }
  }

  lemma RunningAreSenders(s: State)
    requires Known(s)
    ensures forall p :: p in s.running ==> p in s.senders
  {
  }

  lemma ActionExplains(policy: Policy, limits: Limits, past: Past, past': Past, before: set<File>,
                       s: State, a: Action)
    requires limits.Ordered() && Explained(past, before, s) && Enabled(policy, s, a)
    requires Records(limits, past, past', s, a)
    ensures Explained(past', before, Apply(policy, limits, s, a))
  {
    hide Explained, Records, SenderStep, Completed;
    if a.Step? {
      StepExplains(limits, past, past', before, s, a.pid);
    } else if a.Ends? {
      EndExplains(limits, past, past', before, s, a.pid, a.works);
    } else {
      OtherExplains(policy, limits, past, past', before, s, a);
    }
  }

  // ---- Attempts ----

  ghost predicate CountsAttempts(states: seq<State>, actions: seq<Action>, m: nat)
    requires m <= |actions| < |states|
  {
    forall p :: Attempts(states, actions, m, p)
                == if p in states[m].senders then states[m].senders[p].attempts else 0
  }

  /** The attempts of each sender go up by one exactly when it misses. */
  ghost predicate CountsMiss(s: State, s': State, a: Action, p: Pid) {
    var miss := if Misses(s, a, p) then 1 else 0;
    && (p in s.senders ==> p in s'.senders
                           && s'.senders[p].attempts == s.senders[p].attempts + miss)
    && (p !in s.senders ==> miss == 0 && (p in s'.senders ==> s'.senders[p].attempts == 0))
  }

  lemma StepCountsMiss(limits: Limits, s: State, q: Pid, p: Pid)
    requires Steps(s, q)
    ensures CountsMiss(s, SenderStep(limits, s, q), Step(q), p)
  {
    hide Tested, Decided, Blocked, TestIsStable;
  }

  lemma EndCountsMiss(s: State, q: Pid, works: bool, p: Pid)
    requires q in s.running && q in s.senders
    ensures CountsMiss(s, Completed(s.(running := s.running - {q}), q, s.running[q], works),
                       Ends(q, works), p)
  {
    hide Afterwards, Effect;
    EffectChanges(s.(running := s.running - {q}), q, s.running[q]);
  }

  lemma OtherCountsMiss(policy: Policy, limits: Limits, s: State, a: Action, p: Pid)
    requires Known(s) && Enabled(policy, s, a) && !a.Step? && !a.Ends?
    ensures CountsMiss(s, Apply(policy, limits, s, a), a, p)
  {
    hide SenderStep, Completed;
  }

  lemma MissCounts(policy: Policy, limits: Limits, s: State, a: Action, p: Pid)
    requires Known(s) && Enabled(policy, s, a)
    ensures CountsMiss(s, Apply(policy, limits, s, a), a, p)
  {
    hide CountsMiss, SenderStep, Completed, Known;
    if a.Step? {
      StepCountsMiss(limits, s, a.pid, p);
    } else if a.Ends? {
      EndCountsMiss(s, a.pid, a.works, p);
    } else {
      OtherCountsMiss(policy, limits, s, a, p);
    }
  }

  // ---- Whole runs ----

  ghost predicate DidEnter(states: seq<State>, actions: seq<Action>, m: nat, f: File)
    requires m <= |actions| < |states|
  {
    exists n :: 0 <= n < m && Enters(states[n], actions[n], f)
  }

  ghost predicate DidPass(states: seq<State>, actions: seq<Action>, m: nat, f: File)
    requires m <= |actions| < |states|
  {
    exists n :: 0 <= n < m && Passes(states[n], actions[n], f)
  }

  ghost predicate WasFull(limits: Limits, states: seq<State>, actions: seq<Action>, m: nat, f: File)
    requires m <= |actions| < |states|
  {
    exists n :: 0 <= n < m && (Full(limits, states[n], actions[n], f)
                               || MoveFails(states[n], actions[n], f))
  }

  ghost predicate DidFit(limits: Limits, states: seq<State>, actions: seq<Action>, m: nat, f: File)
    requires m <= |actions| < |states|
  {
    exists n :: 0 <= n < m && Fits(limits, states[n], actions[n], f)
  }

  ghost predicate WasUnposted(states: seq<State>, actions: seq<Action>, m: nat, f: File)
    requires m <= |actions| < |states|
  {
    exists n :: 0 <= n < m && PostFails(states[n], actions[n], f)
  }

  ghost predicate DidStop(states: seq<State>, actions: seq<Action>, m: nat, p: Pid)
    requires m <= |actions| < |states|
  {
    exists n :: 0 <= n < m && GivesUp(states[n], actions[n], p, Attempts(states, actions, n, p))
  }

  /** The files queued or posted before a run. */
  function Earlier(s: State): set<File> {
    s.Backlog() + s.posted
  }

  ghost function PastOf(limits: Limits, states: seq<State>, actions: seq<Action>, m: nat): Past
    requires m <= |actions| < |states|
  {
    Past(iset f | DidEnter(states, actions, m, f),
         iset f | DidPass(states, actions, m, f),
         iset f | WasFull(limits, states, actions, m, f),
         iset f | DidFit(limits, states, actions, m, f),
         iset f | WasUnposted(states, actions, m, f),
         iset p | DidStop(states, actions, m, p))
  }

  lemma PastGrows(limits: Limits, states: seq<State>, actions: seq<Action>, m: nat)
    requires m < |actions| < |states| && CountsAttempts(states, actions, m)
    ensures Records(limits, PastOf(limits, states, actions, m), PastOf(limits, states, actions, m + 1),
                    states[m], actions[m])
  {
    hide Full, Fits, MoveFails, PostFails, GivesUp, Enters, Passes;
  }

  lemma {:induction false} TraceIsExplained(policy: Policy, limits: Limits, states: seq<State>,
                                            actions: seq<Action>, m: nat)
    requires Trace(policy, limits, states, actions) && limits.Ordered() && m <= |actions|
    ensures Explained(PastOf(limits, states, actions, m), Earlier(states[0]), states[m])
    ensures CountsAttempts(states, actions, m)
  {
    hide Enabled, Apply, Records, PastOf, Tells, Misses;
    if m > 0 {
      TraceIsExplained(policy, limits, states, actions, m - 1);
      PastGrows(limits, states, actions, m - 1);
      ActionExplains(policy, limits, PastOf(limits, states, actions, m - 1),
                     PastOf(limits, states, actions, m), Earlier(states[0]), states[m - 1],
                     actions[m - 1]);
      forall p ensures Attempts(states, actions, m, p)
                       == if p in states[m].senders then states[m].senders[p].attempts else 0 {
        MissCounts(policy, limits, states[m - 1], actions[m - 1], p);
      }
    }
  }

  /**
   A payload is removed only if the count its sender took had reached the limit of its class, where only
   published files are counted, or if its `mv` failed.
   */
  lemma RemovedOnlyIf(policy: Policy, limits: Limits, states: seq<State>, actions: seq<Action>, f: File)
    requires Trace(policy, limits, states, actions) && limits.Ordered()
    requires f in states[|actions|].shed
    ensures WasFull(limits, states, actions, |actions|, f)
  {
    hide Trace, Full, MoveFails, Known, Tells, Fits, PostFails, GivesUp;
    TraceIsExplained(policy, limits, states, actions, |actions|);
  }

  /**
   A payload is queued only after its `curl` failed, or the `rm` of it that follows, and only if the count
   its sender took was below the limit of its class.
   */
  lemma QueuedOnlyIf(policy: Policy, limits: Limits, states: seq<State>, actions: seq<Action>, f: File)
    requires Trace(policy, limits, states, actions) && limits.Ordered()
    requires f in states[|actions|].Backlog() && f !in Earlier(states[0])
    ensures DidFit(limits, states, actions, |actions|, f)
    ensures WasUnposted(states, actions, |actions|, f)
  {
    hide Trace, Full, MoveFails, Known, Tells, Fits, PostFails, GivesUp;
    TraceIsExplained(policy, limits, states, actions, |actions|);
  }

  /**
   A sender is gone and its payload still where it was captured only if it was killed or stopped by a
   signal, found the breaker or the marker of its class, missed the lock as often as it may, or its `rm`
   failed.
   */
  lemma LeftOnlyIf(policy: Policy, limits: Limits, states: seq<State>, actions: seq<Action>, p: Pid)
    requires Trace(policy, limits, states, actions) && limits.Ordered()
    requires p in states[|actions|].senders && states[|actions|].senders[p].pc.Gone?
    requires states[|actions|].senders[p].file in states[|actions|].plain
    ensures DidStop(states, actions, |actions|, p)
  {
    hide Enabled, Apply, Initial, Full, MoveFails, Known, Fits, PostFails, GivesUp;
    TraceIsExplained(policy, limits, states, actions, |actions|);
    var past, last := PastOf(limits, states, actions, |actions|), states[|actions|];
    assert Tells(past, last, p, last.senders[p].pc);
  }

  /** A payload is posted, queued or removed only if its sender found neither breaker nor class marker. */
  lemma AdmittedOnlyIf(policy: Policy, limits: Limits, states: seq<State>, actions: seq<Action>, f: File)
    requires Trace(policy, limits, states, actions) && limits.Ordered()
    requires f !in Earlier(states[0])
    requires var last := states[|actions|]; f in last.posted || f in last.Backlog() || f in last.shed
    ensures DidEnter(states, actions, |actions|, f)
    ensures DidPass(states, actions, |actions|, f)
  {
    hide Trace, Full, MoveFails, Known, Tells, Fits, PostFails, GivesUp, Enters, Passes;
    TraceIsExplained(policy, limits, states, actions, |actions|);
  }
}
