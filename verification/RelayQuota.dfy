/**
 The quota protocol of the hook relay: detached senders contend for an exclusive-create lock file,
 reclaim a dead owner's lock under a `mkdir` guard, count the backlog with two globs while the
 daemon drains, and publish, shed or retain their payload.

 The protocol is a transition system. One action is one file-system call or one test of the script,
 so any interleaving of senders, crashes and drain steps is a sequence of actions. What the shell
 does itself (redirections, globs, tests, `read`, `kill -0`) is done by the sender; `curl`, `mkdir`,
 `rmdir`, `rm` and `mv` are processes of their own, which a sender starts and waits for, and which
 may still be at work when the sender has been killed. A payload is named by a number, and a process
 identifier is never reused.
 */
module RelayQuota {
  import opened Wrappers
  import opened IntSets

  type Pid = int
  type File = int

  datatype Pressure = ShedFirst | ShedSecond | Retain | Lifecycle

  datatype Marker = ShedFirstMarker | ShedSecondMarker | RetainMarker | Breaker

  /** Backlog limits; the script is written with these in increasing order. */
  datatype Limits = Limits(shedFirst: nat, shedSecond: nat, pending: nat, absolute: nat) {
    predicate Ordered() {
      shedFirst < shedSecond < pending < absolute
    }

    /** The backlog at which an event of a class is no longer queued. */
    function Ceiling(pressure: Pressure): nat {
      match pressure
      case ShedFirst => shedFirst
      case ShedSecond => shedSecond
      case Retain => pending
      case Lifecycle => absolute
    }
  }

  const MAX_ATTEMPTS := 5000

  /** Where a sender is in the script. `counted` is the set its running count was taken from. */
  datatype Pc =
    | TestBreaker | TestClass | Post | RemovePosted
    | Contend | Guard | Wait
    | ReadOwner | Probe(owner: Pid) | Reread(owner: Pid) | Reclaim(owner: Pid) | Unguard
    | Created
    | GlobReady | ReadyGlobbing(before: set<File>) | TestReady(listed: set<File>)
    | GlobClaimed(counted: set<File>)
    | ClaimedGlobbing(counted: set<File>, before: set<File>)
    | TestClaimed(counted: set<File>, listed: set<File>)
    | Decide(count: nat)
    | Publish | Mark(marker: Marker) | Remove(marker: Marker)
    | Release | Unlock
    | Gone
  {
    /** Between creating the lock file and removing it. */
    predicate Holding() {
      Created? || Trapped() || Release? || Unlock?
    }

    /** Where a signal is turned into a normal exit, which releases the lock. */
    predicate Trapped() {
      GlobReady? || ReadyGlobbing? || TestReady? || GlobClaimed? || ClaimedGlobbing? ||
      TestClaimed? || Decide? || Publish? || Mark? || Remove?
    }

    /** Between making the reaping guard and removing it. */
    predicate Reaping() {
      ReadOwner? || Probe? || Reread? || Reclaim? || Unguard?
    }

    /** Where the script starts an external command and waits for it. */
    predicate Forks() {
      Post? || RemovePosted? || Guard? || Reclaim? || Unguard? || Publish? || Remove? || Unlock?
    }

    /** Where the sender's own next step has an outcome only the file system decides. */
    predicate Chooses() {
      Created? || ReadyGlobbing? || ClaimedGlobbing? || Mark?
    }
  }

  datatype Sender = Sender(file: File, pressure: Pressure, attempts: nat, pc: Pc)

  /** A lock file holds its creator's identifier once that was written, and nothing before. */
  datatype LockFile = LockFile(creator: Pid, written: bool)

  /**
   `running` holds the external command each sender last started, while that command is at work: it
   is named by the place in the script that started it.
   */
  datatype State = State(
    senders: map<Pid, Sender>,
    running: map<Pid, Pc>,
    used: set<Pid>,
    lock: Option<LockFile>,
    guard: Option<Pid>,
    plain: set<File>,
    ready: set<File>,
    claimed: set<File>,
    orphans: set<File>,
    posted: set<File>,
    drained: set<File>,
    shed: map<File, Marker>,
    markers: set<Marker>,
    ledger: set<Marker>,
    captured: map<File, Pressure>)
  {
    predicate Live(p: Pid) {
      p in senders && !senders[p].pc.Gone?
    }

    function Backlog(): set<File> {
      ready + claimed
    }

    function At(p: Pid, pc: Pc): State
      requires p in senders
    {
      this.(senders := senders[p := senders[p].(pc := pc)])
    }

    /** The owner a reader of the lock file sees. */
    function Owner(): Option<Pid> {
      if lock.Some? && lock.value.written then Some(lock.value.creator) else None
    }
  }

  /**
   What the surroundings may do. The daemon removes a reaping guard by its age alone, so it may
   remove one whose maker is only stalled. It drains in the order the globs list, so the first file
   a sender listed may be gone when the sender tests that it exists. Killing a sender does not kill
   the command it is waiting for, so that command may outlive it. And the script goes on when a
   pressure marker could not be written.
   */
  datatype Policy = Policy(
    liveGuardsExpire: bool,
    firstListedVanishes: bool,
    commandsOutlive: bool,
    markersFail: bool)

  datatype Action =
    | Start(pid: Pid, file: File, pressure: Pressure)
    | Step(pid: Pid)
    | Fork(pid: Pid)
    | Ends(pid: Pid, works: bool)
    | Writes(pid: Pid, written: bool)
    | Lists(pid: Pid, names: set<File>)
    | Marks(pid: Pid, written: bool)
    | Crash(pid: Pid)
    | Interrupt(pid: Pid)
    | Claim(file: File)
    | Drain(file: File)
    | ClaimOrphan(file: File)
    | DrainOrphan(file: File)
    | Archive(marker: Marker)
    | ExpireGuard

  // ---- One step of a sender ----

  predicate Blocked(s: State, pressure: Pressure) {
    match pressure
    case ShedFirst => ShedFirstMarker in s.markers
    case ShedSecond => ShedSecondMarker in s.markers
    case Retain => RetainMarker in s.markers
    case Lifecycle => false
  }

  function FullMarker(pressure: Pressure): Marker {
    if pressure == Lifecycle then Breaker else RetainMarker
  }

  /** `[ -e "$1" ] || shift $#`: a listing counts only if the first name in it still exists. */
  function Tested(listed: set<File>, existing: set<File>): (counted: set<File>) {
    if FirstExists(listed, existing) then listed else {}
  }

  predicate FirstExists(listed: set<File>, existing: set<File>) {
    listed != {} && First(listed) in existing
  }

  /** The first name of a sorted listing. */
  function First(listed: set<File>): (f: File)
    requires listed != {}
    ensures f in listed && forall g :: g in listed ==> f <= g
  {
    MinExists(listed);
    var m :| m in listed && forall x :: x in listed ==> m <= x;
    m
  }

  function Decided(limits: Limits, pressure: Pressure, count: nat): Pc {
    if pressure == ShedFirst && limits.shedFirst <= count then Mark(ShedFirstMarker)
    else if pressure == ShedSecond && limits.shedSecond <= count then Mark(ShedSecondMarker)
    else if count < limits.pending || (pressure == Lifecycle && count < limits.absolute) then Publish
    else Mark(FullMarker(pressure))
  }

  /** Steps the shell takes itself. */
  predicate Steps(s: State, p: Pid) {
    s.Live(p) && !s.senders[p].pc.Chooses() && !s.senders[p].pc.Forks()
  }

  function SenderStep(limits: Limits, s: State, p: Pid): State
    requires Steps(s, p)
  {
    var sender := s.senders[p];
    match sender.pc
    case TestBreaker => s.At(p, if Breaker in s.markers then Gone else TestClass)
    case TestClass => s.At(p, if Blocked(s, sender.pressure) then Gone else Post)
    case Contend =>
      if s.lock.None? then
        s.(lock := Some(LockFile(p, false))).At(p, Created)
      else
        s.(senders := s.senders[p := sender.(attempts := sender.attempts + 1, pc := Guard)])
    case Wait => s.At(p, if sender.attempts < MAX_ATTEMPTS then Contend else Gone)
    case ReadOwner => s.At(p, if s.Owner().Some? then Probe(s.Owner().value) else Unguard)
    case Probe(owner) => s.At(p, if s.Live(owner) then Unguard else Reread(owner))
    case Reread(owner) => s.At(p, if s.Owner() == Some(owner) then Reclaim(owner) else Unguard)
    case GlobReady => s.At(p, ReadyGlobbing(s.ready))
    case TestReady(listed) => s.At(p, GlobClaimed(Tested(listed, s.ready)))
    case GlobClaimed(counted) => s.At(p, ClaimedGlobbing(counted, s.claimed))
    case TestClaimed(counted, listed) =>
      s.At(p, Decide(|counted| + |Tested(listed, s.claimed)|))
    case Decide(count) => s.At(p, Decided(limits, sender.pressure, count))
    case Release => s.At(p, if s.Owner() == Some(p) then Unlock else Gone)
  }

  // ---- Commands ----

  /** What a command that succeeds does to the files, whether or not its sender is still there. */
  function Effect(s: State, p: Pid, command: Pc): State
    requires p in s.senders
  {
    var f := s.senders[p].file;
    match command
    case Post => s.(posted := s.posted + {f})
    case RemovePosted => s.(plain := s.plain - {f})
    case Guard => if s.guard.None? then s.(guard := Some(p)) else s
    case Reclaim(_) => s.(lock := None)
    case Unguard => s.(guard := None)
    case Publish =>
      if f in s.plain then s.(plain := s.plain - {f}, ready := s.ready + {f}) else s
    case Remove(marker) =>
      if f in s.plain then s.(plain := s.plain - {f}, shed := s.shed[f := marker]) else s
    case Unlock => s.(lock := None)
    case _ => s
  }

  /** Where the sender goes on when the command it waited for has ended. */
  function Afterwards(s: State, p: Pid, command: Pc, works: bool): Pc
    requires p in s.senders
  {
    match command
    case Post => if works then RemovePosted else Contend
    case RemovePosted => if works then Gone else Contend
    case Guard => if works && s.guard.None? then ReadOwner else Wait
    case Reclaim(_) => Unguard
    case Unguard => Wait
    case Publish =>
      if works && s.senders[p].file in s.plain then Release
      else Mark(FullMarker(s.senders[p].pressure))
    case Remove(_) => Release
    case _ => Gone
  }

  function Completed(s: State, p: Pid, command: Pc, works: bool): State
    requires p in s.senders
  {
    var s1 := if works then Effect(s, p, command) else s;
    if s.Live(p) then s1.At(p, Afterwards(s, p, command, works)) else s1
  }

  // ---- Actions ----

  predicate Enabled(policy: Policy, s: State, a: Action) {
    match a
    case Start(p, f, _) => p !in s.used && f !in s.captured
    case Step(p) =>
      Steps(s, p) && (policy.firstListedVanishes || TestIsStable(s, s.senders[p].pc))
    case Fork(p) => s.Live(p) && s.senders[p].pc.Forks() && p !in s.running
    case Ends(p, _) => p in s.running && p in s.senders
    case Writes(p, _) => s.Live(p) && s.senders[p].pc.Created?
    case Lists(p, names) =>
      && s.Live(p)
      && match s.senders[p].pc {
           case ReadyGlobbing(before) => Listing(s, names, before, s.ready)
           case ClaimedGlobbing(_, before) => Listing(s, names, before, s.claimed)
           case _ => false
         }
    case Marks(p, written) => s.Live(p) && s.senders[p].pc.Mark? && (written || policy.markersFail)
    case Crash(p) => s.Live(p)
    case Interrupt(p) => s.Live(p) && s.senders[p].pc.Trapped() && p !in s.running
    case Claim(f) => f in s.ready
    case Drain(f) => f in s.claimed
    case ClaimOrphan(f) => f in s.plain
    case DrainOrphan(f) => f in s.orphans
    case Archive(m) => m in s.markers
    case ExpireGuard => s.guard.Some? && (policy.liveGuardsExpire || !s.Live(s.guard.value))
  }

  /**
   What a glob may report: every file that was there from its start to its end, and no name that
   never was there.
   */
  predicate Listing(s: State, names: set<File>, before: set<File>, after: set<File>) {
    before * after <= names <= before + s.ready + s.claimed + s.drained
  }

  /** The file a listing starts with is still there when the sender tests it. */
  predicate TestIsStable(s: State, pc: Pc) {
    match pc
    case TestReady(listed) => listed == {} || FirstExists(listed, s.ready)
    case TestClaimed(_, listed) => listed == {} || FirstExists(listed, s.claimed)
    case _ => true
  }

  function Apply(policy: Policy, limits: Limits, s: State, a: Action): State
    requires Enabled(policy, s, a)
  {
    match a
    case Start(p, f, pressure) =>
      s.(senders := s.senders[p := Sender(f, pressure, 0, TestBreaker)], used := s.used + {p},
         plain := s.plain + {f}, captured := s.captured[f := pressure])
    case Step(p) => SenderStep(limits, s, p)
    case Fork(p) => s.(running := s.running[p := s.senders[p].pc])
    case Ends(p, works) => Completed(s.(running := s.running - {p}), p, s.running[p], works)
    case Writes(p, written) => Written(s, p, written)
    case Lists(p, names) =>
      (match s.senders[p].pc
       case ReadyGlobbing(_) => s.At(p, TestReady(names))
       case ClaimedGlobbing(counted, _) => s.At(p, TestClaimed(counted, names)))
    case Marks(p, written) =>
      var marker := s.senders[p].pc.marker;
      (if written then s.(markers := s.markers + {marker}) else s).At(p, Remove(marker))
    case Crash(p) =>
      (if policy.commandsOutlive then s else s.(running := s.running - {p})).At(p, Gone)
    case Interrupt(p) => s.At(p, Release)
    case Claim(f) => s.(ready := s.ready - {f}, claimed := s.claimed + {f})
    case Drain(f) => s.(claimed := s.claimed - {f}, drained := s.drained + {f})
    case ClaimOrphan(f) => s.(plain := s.plain - {f}, orphans := s.orphans + {f})
    case DrainOrphan(f) => s.(orphans := s.orphans - {f}, drained := s.drained + {f})
    case Archive(m) => s.(markers := s.markers - {m}, ledger := s.ledger + {m})
    case ExpireGuard => s.(guard := None)
  }

  /** Writing the identifier into the file that was created; a failed write leaves it empty. */
  function Written(s: State, p: Pid, written: bool): State
    requires s.Live(p)
  {
    if written then
      var s1 := if s.lock == Some(LockFile(p, false)) then s.(lock := Some(LockFile(p, true))) else s;
      s1.At(p, GlobReady)
    else
      var sender := s.senders[p];
      s.(senders := s.senders[p := sender.(attempts := sender.attempts + 1, pc := Guard)])
  }

  // ---- Runs ----

  /** Nobody is running yet; a lock, a guard and a backlog within the limit may be left over. */
  ghost predicate Initial(limits: Limits, s: State) {
    && s.senders == map[] && s.running == map[]
    && (s.lock.Some? ==> s.lock.value.creator in s.used)
    && (s.guard.Some? ==> s.guard.value in s.used)
    && |s.Backlog()| <= limits.absolute
    && s.shed == map[] && s.captured == map[]
  }

  ghost predicate Next(policy: Policy, limits: Limits, s: State, s': State) {
    exists a :: Enabled(policy, s, a) && s' == Apply(policy, limits, s, a)
  }

  ghost predicate Run(policy: Policy, limits: Limits, run: seq<State>) {
    && |run| > 0 && Initial(limits, run[0])
    && (forall n :: 0 < n < |run| ==> Next(policy, limits, run[n - 1], run[n]))
  }

  ghost predicate Reachable(policy: Policy, limits: Limits, s: State) {
    exists run :: Run(policy, limits, run) && run[|run| - 1] == s
  }
}
