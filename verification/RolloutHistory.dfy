/**
 Running commands told from the records alone: which call an output belongs to, by the handles that
 earlier outputs named, and what text and completion it then makes.
 */
module RolloutHistory {
  import opened Wrappers
  import opened RolloutModel
  import opened RolloutSafety

  // ---- What the records say ----

  function ItemBased(records: seq<Record>): bool {
    if records == [] then false
    else if records[|records| - 1].Session? then records[|records| - 1].itemBased
    else ItemBased(records[..|records| - 1])
  }

  /** The call that last took an identifier, while no output or patch has answered it. */
  function OpenCall(records: seq<Record>, c: CallId): Option<Call>
    decreases |records|, 0
  {
    if records == [] then None
    else
      var front := records[..|records| - 1];
      match records[|records| - 1]
      case Called(d, call) => if d == c then Some(call) else OpenCall(front, c)
      case CellCalled(d, polls, _) => if d == c then Some(CellCall(front, polls)) else OpenCall(front, c)
      case FunctionOutput(d, _) => if d == c then None else OpenCall(front, c)
      case CustomOutput(d, _) => if d == c then None else OpenCall(front, c)
      case Patched(d) => if d == c then None else OpenCall(front, c)
      case _ => OpenCall(front, c)
  }

  /** A cell polls the handle its script names if a call is bound to it; else it is a step or a command. */
  function CellCall(records: seq<Record>, polls: Option<Handle>): Call
    decreases |records|, 1
  {
    if polls.Some? && LastBound(records, polls.value).Some? then Call(Exec, OtherInput, polls, false)
    else if ItemBased(records) then Call(Exec, OtherInput, None, true)
    else Call(Exec, CommandInput, None, false)
  }

  /** How an output is read after these records: as its own command's, as a poll's, or neither. */
  function HowRead(records: seq<Record>, r: Record): Reading
    decreases |records|, 1
  {
    if !(r.FunctionOutput? || r.CustomOutput?) || OpenCall(records, r.callId).None? then NoLog
    else
      var call := OpenCall(records, r.callId).value;
      if r.FunctionOutput? then
        if call.tool == PollTool then Poll(call.polls, r.output)
        else if call.input == CommandInput then Own(r.callId, r.output)
        else NoLog
      else if call.polls.Some? then Poll(call.polls, r.output)
      else if call.tool == Exec && !call.codeCell then Own(r.callId, r.output)
      else NoLog
  }

  /**
   The running call an output is about: its own if it is a command's. A poll of a handle is about the
   call that was last bound to this handle, if it still runs, and about no other; a poll without a handle
   is about the call that last yielded or was polled while it ran.
   */
  function About(records: seq<Record>, r: Record): Option<CallId>
    decreases |records|, 2
  {
    match HowRead(records, r)
    case NoLog => None
    case Own(c, _) => Some(c)
    case Poll(polls, _) =>
      if polls.Some? then LastBound(records, polls.value) else LastYielded(records)
  }

  /** The handle an output names while its process still runs. */
  function Names(records: seq<Record>, r: Record): Option<Handle>
    decreases |records|, 2
  {
    match HowRead(records, r)
    case NoLog => None
    case Own(_, output) => output.running
    case Poll(_, output) => output.running
  }

  /** A poll's output that names no handle any more ends the call it is about. */
  predicate Ends(records: seq<Record>, r: Record, c: CallId)
    decreases |records|, 3
  {
    HowRead(records, r).Poll? && About(records, r) == Some(c) && Names(records, r).None?
  }

  /** The call last bound to a handle, by an output that named it, and not ended since. */
  function LastBound(records: seq<Record>, h: Handle): Option<CallId>
    decreases |records|, 0
  {
    if records == [] then None
    else
      var front, last := records[..|records| - 1], records[|records| - 1];
      var before := LastBound(front, h);
      if About(front, last).Some? && Names(front, last) == Some(h) then About(front, last)
      else if before.Some? && Ends(front, last, before.value) then None
      else before
  }

  /** The call that last named a handle, and has not ended since. */
  function LastYielded(records: seq<Record>): Option<CallId>
    decreases |records|, 0
  {
    if records == [] then None
    else
      var front, last := records[..|records| - 1], records[|records| - 1];
      var before := LastYielded(front);
      if About(front, last).Some? && Names(front, last).Some? then About(front, last)
      else if before.Some? && Ends(front, last, before.value) then None
      else before
  }

  /** Some handle is bound to the call. */
  ghost predicate Runs(records: seq<Record>, c: CallId) {
    exists h :: LastBound(records, h) == Some(c)
  }

  // ---- Agreement ----

  function HolderOf(m: Model, h: Handle): Option<CallId> {
    if h in m.pending then Some(m.pending[h].callId) else None
  }

  function LastOf(m: Model): Option<CallId> {
    if m.lastRunning.Some? then Some(m.lastRunning.value.callId) else None
  }

  /** The parser's tables say what the records say. */
  ghost predicate Agrees(m: Model, records: seq<Record>) {
    && m.itemBased == ItemBased(records)
    && (forall c :: OpenCall(records, c) == if c in m.calls then Some(m.calls[c]) else None)
    && (forall h :: LastBound(records, h) == HolderOf(m, h))
    && LastYielded(records) == LastOf(m)
  }

  lemma ReadsAlike(m: Model, records: seq<Record>, r: Record)
    requires Agrees(m, records)
    ensures HowRead(records, r) == Reads(m, r)
    ensures HowRead(records, r).Poll? ==>
              About(records, r) == var target := Target(m, Reads(m, r).polls);
                                   if target.Some? then Some(target.value.callId) else None
  {
    if r.FunctionOutput? || r.CustomOutput? {
      assert OpenCall(records, r.callId) == if r.callId in m.calls then Some(m.calls[r.callId]) else None;
    }
    hide OpenCall, LastYielded, LastBound;
    match HowRead(records, r)
    case Poll(polls, _) =>
      if polls.Some? {
        assert LastBound(records, polls.value) == HolderOf(m, polls.value);
      }
    case _ =>
  }

  lemma OwnBinds(m: Model, c: CallId, output: Parsed)
    requires OneLog(m)
    ensures var m' := CommandOutput(m, c, output).model;
            && (forall h :: HolderOf(m', h) == if output.running == Some(h) then Some(c) else HolderOf(m, h))
            && LastOf(m') == (if output.running.Some? then Some(c) else LastOf(m))
            && m'.itemBased == m.itemBased
  {
    HeldIsPending(m, c);
    CompletedFrame(TrackRunning(m, c, output), c, output, false);
    hide CommandCompleted, Held, IsPending;
    CompletedMode(TrackRunning(m, c, output), c, output, false);
    if output.running.Some? {
      HeldIsOfCall(m, c);
    }
  }

  lemma HeldIsOfCall(m: Model, c: CallId)
    ensures Held(m, c).Some? ==> Held(m, c).value.callId == c
  {
  }

  lemma CompletedMode(m: Model, c: CallId, output: Parsed, final: bool)
    ensures CommandCompleted(m, c, output, final).model.itemBased == m.itemBased
  {
    hide RecordedExit;
  }

  lemma PollBinds(m: Model, polls: Option<Handle>, output: Parsed)
    ensures var m', target := PollResult(m, polls, output).model, Target(m, polls);
            && (target.None? ==> m' == m)
            && (target.Some? ==>
                  var c := target.value.callId;
                  && (forall h :: HolderOf(m', h) ==
                                  if output.running == Some(h) then Some(c)
                                  else if output.running.None? && HolderOf(m, h) == Some(c) then None
                                  else HolderOf(m, h))
                  && LastOf(m') == (if output.running.Some? then Some(c)
                                    else if LastOf(m) == Some(c) then None else LastOf(m)))
            && m'.itemBased == m.itemBased
  {
    var target := Target(m, polls);
    if target.Some? {
      var c := target.value.callId;
      var pushed := Push(m, c, output.body);
      var command := PushTo(target.value, c, output.body);
      hide Target, Join;
      if output.running.None? {
        var whole := output.(body := Join(command.chunks));
        CompletedFrame(Forget(pushed, c), c, whole, true);
        CompletedMode(Forget(pushed, c), c, whole, true);
        hide CommandCompleted;
      }
    }
  }

  /** What an output leaves bound, from how it is read. */
  lemma OutputBinds(m: Model, r: Record)
    requires OneLog(m)
    ensures var m', reading := Step(m, r).model, Reads(m, r);
            match reading {
              case NoLog => m'.pending == m.pending && m'.lastRunning == m.lastRunning
              case Own(c, output) =>
                && (forall h :: HolderOf(m', h)
                                == if output.running == Some(h) then Some(c) else HolderOf(m, h))
                && LastOf(m') == (if output.running.Some? then Some(c) else LastOf(m))
              case Poll(polls, output) =>
                var target := Target(m, polls);
                && (target.None? ==> m'.pending == m.pending && m'.lastRunning == m.lastRunning)
                && (target.Some? ==>
                      var c := target.value.callId;
                      && (forall h :: HolderOf(m', h) ==
                                      if output.running == Some(h) then Some(c)
                                      else if output.running.None? && HolderOf(m, h) == Some(c) then None
                                      else HolderOf(m, h))
                      && LastOf(m') == (if output.running.Some? then Some(c)
                                        else if LastOf(m) == Some(c) then None else LastOf(m)))
            }
  {
    StepReads(m, r);
    StepKeepsLast(m, r);
    match Reads(m, r)
    case NoLog =>
    case Own(c, output) =>
      var m1 := m.(calls := m.calls - {c});
      SamePendingOneLog(m, m1);
      hide Step, Reads, CommandOutput;
      OwnBinds(m1, c, output);
    case Poll(polls, output) =>
      var m1 := m.(calls := m.calls - {r.callId});
      hide Step, Reads, PollResult;
      PollBinds(m1, polls, output);
  }

  lemma StepKeepsLast(m: Model, r: Record)
    ensures Reads(m, r).NoLog? ==> Step(m, r).model.lastRunning == m.lastRunning
    ensures !r.Session? ==> Step(m, r).model.itemBased == m.itemBased
    ensures r.Session? ==> Step(m, r).model.itemBased == r.itemBased
  {
    hide CommandOutput, PollResult, CommandExecution, RecordedExit;
    if r.Process? {
      ExecutionFrame(m, r.id, r.command, r.exitCode);
    }
    if r.FunctionOutput? || r.CustomOutput? {
      var m1 := m.(calls := m.calls - {r.callId});
      OutputKeepsMode(m1, r.callId, r.output);
      if r.callId in m.calls {
        PollBinds(m1, m.calls[r.callId].polls, r.output);
      }
    }
  }

  lemma OutputKeepsMode(m: Model, c: CallId, output: Parsed)
    ensures CommandOutput(m, c, output).model.itemBased == m.itemBased
  {
    hide CommandCompleted, Held;
    CompletedMode(TrackRunning(m, c, output), c, output, false);
  }

  lemma StepCalls(m: Model, r: Record, c: CallId)
    ensures var m' := Step(m, r).model;
            var call := if c in m.calls then Some(m.calls[c]) else None;
            (if c in m'.calls then Some(m'.calls[c]) else None) ==
            match r {
              case Called(d, made) => if d == c then Some(made) else call
              case CellCalled(d, polls, _) =>
                if d != c then call
                else if polls.Some? && polls.value in m.pending then
                  Some(Call(Exec, OtherInput, polls, false))
                else if m.itemBased then Some(Call(Exec, OtherInput, None, true))
                else Some(Call(Exec, CommandInput, None, false))
              case FunctionOutput(d, _) => if d == c then None else call
              case CustomOutput(d, _) => if d == c then None else call
              case Patched(d) => if d == c then None else call
              case _ => call
            }
  {
    CallsFrame(m, r);
    hide CommandOutput, PollResult, CommandExecution, RecordedExit;
  }

  lemma BoundAgrees(m: Model, records: seq<Record>, r: Record, h: Handle)
    requires OneLog(m) && Agrees(m, records)
    ensures LastBound(records + [r], h) == HolderOf(Step(m, r).model, h)
  {
    var after := records + [r];
    assert after[..|after| - 1] == records && after[|after| - 1] == r;
    assert LastBound(records, h) == HolderOf(m, h);
    ReadsAlike(m, records, r);
    OutputBinds(m, r);
    hide Step, Reads, Target, HowRead, OpenCall, LastYielded;
  }

  lemma YieldedAgrees(m: Model, records: seq<Record>, r: Record)
    requires OneLog(m) && Agrees(m, records)
    ensures LastYielded(records + [r]) == LastOf(Step(m, r).model)
  {
    var after := records + [r];
    assert after[..|after| - 1] == records && after[|after| - 1] == r;
    ReadsAlike(m, records, r);
    OutputBinds(m, r);
    hide Step, Reads, Target, HowRead, OpenCall, LastBound;
  }

  lemma ModeAgrees(m: Model, records: seq<Record>, r: Record)
    requires Agrees(m, records)
    ensures ItemBased(records + [r]) == Step(m, r).model.itemBased
  {
    var after := records + [r];
    assert after[..|after| - 1] == records && after[|after| - 1] == r;
    StepKeepsLast(m, r);
    hide Step, Reads, OpenCall, LastBound, LastYielded;
  }

  lemma StepAgrees(m: Model, records: seq<Record>, r: Record)
    requires OneLog(m) && Agrees(m, records)
    ensures Agrees(Step(m, r).model, records + [r])
  {
    var m', after := Step(m, r).model, records + [r];
    ModeAgrees(m, records, r);
    YieldedAgrees(m, records, r);
    forall c ensures OpenCall(after, c) == if c in m'.calls then Some(m'.calls[c]) else None {
      CallAgrees(m, records, r, c);
    }
    forall h ensures LastBound(after, h) == HolderOf(m', h) {
      BoundAgrees(m, records, r, h);
    }
    hide Step, OpenCall, LastBound, LastYielded, ItemBased;
  }

  lemma CallAgrees(m: Model, records: seq<Record>, r: Record, c: CallId)
    requires Agrees(m, records)
    ensures var m' := Step(m, r).model;
            OpenCall(records + [r], c) == if c in m'.calls then Some(m'.calls[c]) else None
  {
    var after := records + [r];
    assert after[..|after| - 1] == records && after[|after| - 1] == r;
    StepCalls(m, r, c);
    hide Step, Reads, LastYielded;
    assert OpenCall(records, c) == if c in m.calls then Some(m.calls[c]) else None;
    if r.CellCalled? && r.polls.Some? {
      assert LastBound(records, r.polls.value) == HolderOf(m, r.polls.value);
    }
    hide LastBound;
  }

  /** After any records the parser's tables are what the records say. */
  lemma {:induction false} TablesAgree(records: seq<Record>)
    ensures Agrees(Run(records), records)
  {
    hide Step, Agrees;
    if records == [] {
      EmptyAgrees();
    } else {
      var front, last := records[..|records| - 1], records[|records| - 1];
      TablesAgree(front);
      RunKeepsInv(front);
      StepAgrees(Run(front), front, last);
      assert front + [last] == records;
    }
  }

  lemma EmptyAgrees()
    ensures Agrees(Empty, [])
  {
  }

  /** An output gives the handle to a call. */
  predicate Binds(records: seq<Record>, r: Record, h: Handle) {
    About(records, r).Some? && Names(records, r) == Some(h)
  }

  /** Record `i` bound the handle to the call; since then no output named it, and none ended the call. */
  predicate BoundSince(records: seq<Record>, i: int, h: Handle, c: CallId) {
    && 0 <= i < |records|
    && Binds(records[..i], records[i], h) && About(records[..i], records[i]) == Some(c)
    && forall j :: i < j < |records| ==>
         !Binds(records[..j], records[j], h) && !Ends(records[..j], records[j], c)
  }

  lemma BoundSinceLater(records: seq<Record>, i: int, h: Handle, c: CallId)
    requires 0 <= i < |records| - 1
    ensures var n := |records| - 1;
            BoundSince(records, i, h, c) <==>
              BoundSince(records[..n], i, h, c)
              && !Binds(records[..n], records[n], h) && !Ends(records[..n], records[n], c)
  {
    var n := |records| - 1;
    var front := records[..n];
    assert forall j :: 0 <= j < n ==> front[..j] == records[..j] && front[j] == records[j];
    hide Binds, Ends, About;
    if BoundSince(front, i, h, c) && !Binds(front, records[n], h) && !Ends(front, records[n], c) {
      forall j | i < j < |records|
        ensures !Binds(records[..j], records[j], h) && !Ends(records[..j], records[j], c)
      {
        assert j < n ==> !Binds(front[..j], front[j], h) && !Ends(front[..j], front[j], c);
      }
    }
  }

  lemma BoundStep(records: seq<Record>, h: Handle)
    requires records != []
    ensures var front, last := records[..|records| - 1], records[|records| - 1];
            var before := LastBound(front, h);
            LastBound(records, h) ==
            if Binds(front, last, h) then About(front, last)
            else if before.Some? && Ends(front, last, before.value) then None else before
  {
  }

  /** A handle is bound to the call of the last output that named it, if that call was not ended since. */
  lemma {:induction false} BoundIff(records: seq<Record>, h: Handle, c: CallId)
    ensures LastBound(records, h) == Some(c) <==> exists i :: BoundSince(records, i, h, c)
  {
    if records != [] {
      var n := |records| - 1;
      var front, last := records[..n], records[n];
      BoundIff(front, h, c);
      BoundStep(records, h);
      hide Binds, Ends, About, LastBound;
      forall i | 0 <= i < n
        ensures BoundSince(records, i, h, c) <==>
                  BoundSince(front, i, h, c) && !Binds(front, last, h) && !Ends(front, last, c)
      {
        BoundSinceLater(records, i, h, c);
      }
      assert BoundSince(records, n, h, c) <==> Binds(front, last, h) && About(front, last) == Some(c);
      hide BoundSince;
      BoundSinceInRange(records, h, c);
      BoundSinceInRange(front, h, c);
    }
  }

  lemma BoundSinceInRange(records: seq<Record>, h: Handle, c: CallId)
    ensures forall i :: BoundSince(records, i, h, c) ==> 0 <= i < |records|
  {
  }

  // ---- Logs ----

  /**
   The text of the run a call is in, or was last in: the output with which it yielded, and in order
   every output of a poll that is about it.
   */
  ghost function Log(records: seq<Record>, c: CallId): seq<string>
    decreases |records|, 0
  {
    if records == [] then [] else LogWith(records[..|records| - 1], records[|records| - 1], c)
  }

  ghost function LogWith(records: seq<Record>, r: Record, c: CallId): seq<string>
    decreases |records|, 1
  {
    match HowRead(records, r)
    case NoLog => Log(records, c)
    case Own(d, output) =>
      if d == c && output.running.Some? && !Runs(records, c) then Chunk(output.body)
      else Log(records, c)
    case Poll(_, output) =>
      if About(records, r) == Some(c) then Log(records, c) + Chunk(output.body) else Log(records, c)
  }

  /** Every handle of a command holds this log. */
  ghost predicate Logged(m: Model, c: CallId, log: seq<string>) {
    forall h :: h in m.pending && m.pending[h].callId == c ==> m.pending[h].chunks == log
  }

  lemma RunsIsPending(records: seq<Record>, c: CallId)
    ensures Runs(records, c) <==> IsPending(Run(records), c)
  {
    TablesAgree(records);
    var m := Run(records);
    hide Run, LastBound, OpenCall, LastYielded, ItemBased;
    if Runs(records, c) {
      var h :| LastBound(records, h) == Some(c);
      assert HolderOf(m, h) == Some(c);
    }
    if IsPending(m, c) {
      var h :| h in m.pending && m.pending[h].callId == c;
      assert LastBound(records, h) == HolderOf(m, h);
    }
  }

  lemma SamePendingLogged(m: Model, m': Model, c: CallId, log: seq<string>)
    requires Logged(m, c, log) && m'.pending == m.pending
    ensures Logged(m', c, log)
  {
  }

  lemma PushLogs(m: Model, command: Command, body: string, c: CallId, log: seq<string>)
    requires OneLog(m) && Logged(m, c, log)
    requires exists h :: h in m.pending && m.pending[h] == command
    ensures var log' := if command.callId == c then log + Chunk(body) else log;
            Logged(Push(m, command.callId, body), c, log')
    ensures command.callId == c ==>
              PushTo(command, c, body).chunks == log + Chunk(body)
  {
    var h :| h in m.pending && m.pending[h] == command;
  }

  lemma PollLogs(m: Model, polls: Option<Handle>, output: Parsed, c: CallId, log: seq<string>)
    requires OneLog(m) && Logged(m, c, log)
    ensures var o := PollResult(m, polls, output);
            var target := Target(m, polls);
            var log' := if target.Some? && target.value.callId == c
                        then log + Chunk(output.body) else log;
            && Logged(o.model, c, log')
            && (target.None? || output.running.Some? ==> o.events == [])
            && (target.Some? && target.value.callId == c && output.running.None? ==>
                  FinalOf(o.events, c, Join(log')))
  {
    hide OneLog, RecordedExit, Join, IsPending, Target, Push;
    var target := Target(m, polls);
    if target.Some? {
      var d := target.value.callId;
      TargetIsPending(m, polls);
      PushLogs(m, target.value, output.body, c, log);
      hide Chunk;
      var pushed := Push(m, d, output.body);
      if output.running.None? {
        CompletedFrame(Forget(pushed, d), d,
                       output.(body := Join(PushTo(target.value, d, output.body).chunks)), true);
      }
    }
  }

  /** One completion of this call, the final one, with this body. */
  ghost predicate FinalOf(events: seq<Event>, c: CallId, body: string) {
    && |events| == 1 && events[0].Completed?
    && events[0].callId == c && events[0].final && events[0].body == body
  }

  /** One completion of this call, not the final one, with this body. */
  ghost predicate FirstOf(events: seq<Event>, c: CallId, body: string) {
    && |events| == 1 && events[0].Completed?
    && events[0].callId == c && !events[0].final && events[0].body == body
  }

  lemma OwnLogs(m: Model, d: CallId, output: Parsed, c: CallId, log: seq<string>)
    requires OneLog(m) && Logged(m, c, log)
    ensures var o := CommandOutput(m, d, output);
            var log' := if d == c && output.running.Some? && !IsPending(m, c)
                        then Chunk(output.body) else log;
            && Logged(o.model, c, log') && FirstOf(o.events, d, output.body)
  {
    HeldIsPending(m, d);
    CompletedFrame(TrackRunning(m, d, output), d, output, false);
    hide RecordedExit, Held;
  }

  /** The completions a record emits, given the text of the run of the call it is about. */
  ghost predicate Emits(records: seq<Record>, r: Record, events: seq<Event>) {
    match HowRead(records, r)
    case NoLog => forall e :: e in events ==> !e.Completed?
    case Own(d, own) => FirstOf(events, d, own.body)
    case Poll(_, polled) =>
      if polled.running.None? && About(records, r).Some?
      then FinalOf(events, About(records, r).value, Join(LogWith(records, r, About(records, r).value)))
      else events == []
  }

  lemma OutputContinues(m: Model, r: Record, c: CallId, log: seq<string>)
    requires OneLog(m) && Logged(m, c, log)
    ensures var o := Step(m, r);
            match Reads(m, r) {
              case NoLog => Logged(o.model, c, log) && forall e :: e in o.events ==> !e.Completed?
              case Own(d, own) =>
                && FirstOf(o.events, d, own.body)
                && Logged(o.model, c, if d == c && own.running.Some? && !IsPending(m, c)
                                      then Chunk(own.body) else log)
              case Poll(polls, polled) =>
                var target := Target(m, polls);
                var log' := if target.Some? && target.value.callId == c
                            then log + Chunk(polled.body) else log;
                && Logged(o.model, c, log')
                && (target.None? || polled.running.Some? ==> o.events == [])
                && (target.Some? && target.value.callId == c && polled.running.None? ==>
                      FinalOf(o.events, c, Join(log')))
            }
  {
    StepReads(m, r);
    match Reads(m, r)
    case NoLog =>
      hide Step, Reads;
      SamePendingLogged(m, Step(m, r).model, c, log);
    case Own(d, own) =>
      var m1 := m.(calls := m.calls - {d});
      hide Step, Reads, CommandOutput;
      SamePendingOneLog(m, m1);
      SamePendingLogged(m, m1, c, log);
      OwnLogs(m1, d, own, c, log);
    case Poll(polls, polled) =>
      var m1 := m.(calls := m.calls - {r.callId});
      hide Step, Reads, PollResult;
      SamePendingOneLog(m, m1);
      SamePendingLogged(m, m1, c, log);
      PollLogs(m1, polls, polled, c, log);
  }

  lemma StepContinues(m: Model, records: seq<Record>, r: Record, c: CallId)
    requires OneLog(m) && Agrees(m, records) && Logged(m, c, Log(records, c))
    requires Runs(records, c) <==> IsPending(m, c)
    ensures Logged(Step(m, r).model, c, LogWith(records, r, c))
    ensures About(records, r).None? || About(records, r) == Some(c) ==> Emits(records, r, Step(m, r).events)
  {
    ReadsAlike(m, records, r);
    hide HowRead, Log, Runs, LastBound, OpenCall, LastYielded, Agrees, Step, Reads, OneLog, Logged,
      IsPending, FinalOf, FirstOf, Target;
    OutputContinues(m, r, c, Log(records, c));
  }

  /**
   Whatever the records, every handle of a running call holds the text of its run: the output with which
   it yielded and every poll about it, in order.
   */
  lemma {:induction false} LogsConserved(records: seq<Record>, c: CallId)
    ensures Logged(Run(records), c, Log(records, c))
  {
    if records != [] {
      var front, last := records[..|records| - 1], records[|records| - 1];
      assert records == front + [last];
      LogsConserved(front, c);
      RunKeepsInv(front);
      TablesAgree(front);
      RunsIsPending(front, c);
      hide Step, Logged, Agrees, OneLog, LogWith, Emits, Runs;
      StepContinues(Run(front), front, last, c);
    }
  }

  /**
   What each record emits of completions: a command's own output its first one, with the text of this
   output; a poll's output that ends a run the final one of exactly the call it is about, with the whole
   text of the run; any other record none.
   */
  lemma RecordEmits(records: seq<Record>, r: Record)
    ensures Emits(records, r, Step(Run(records), r).events)
  {
    var c := if About(records, r).Some? then About(records, r).value else 0;
    LogsConserved(records, c);
    RunKeepsInv(records);
    TablesAgree(records);
    RunsIsPending(records, c);
    hide Step, Logged, Agrees, OneLog, Run, About, Emits, Runs;
    StepContinues(Run(records), records, r, c);
  }

  // ---- Nothing lost ----

  /** An output gives a handle that is bound to one call to another call. */
  predicate Reuses(records: seq<Record>, r: Record) {
    && About(records, r).Some? && Names(records, r).Some?
    && LastBound(records, Names(records, r).value).Some?
    && LastBound(records, Names(records, r).value) != About(records, r)
  }

  predicate NoReuse(records: seq<Record>) {
    records == [] || (NoReuse(records[..|records| - 1])
                      && !Reuses(records[..|records| - 1], records[|records| - 1]))
  }

  /** The call's own output came while its process still ran. */
  predicate Yielded(records: seq<Record>, c: CallId) {
    records != [] &&
    var front, last := records[..|records| - 1], records[|records| - 1];
    Yielded(front, c) || (HowRead(front, last).Own? && About(front, last) == Some(c)
                          && Names(front, last).Some?)
  }

  lemma {:induction false} StillRuns(records: seq<Record>, r: Record, c: CallId)
    requires Runs(records, c) && !Reuses(records, r) && !Ends(records, r, c)
    ensures Runs(records + [r], c)
  {
    var h :| LastBound(records, h) == Some(c);
    var after := records + [r];
    assert after[..|after| - 1] == records && after[|after| - 1] == r;
    assert LastBound(after, h) == Some(c) by {
      hide HowRead, OpenCall, LastYielded;
    }
  }

  lemma StartsRunning(records: seq<Record>, r: Record, c: CallId)
    requires HowRead(records, r).Own? && About(records, r) == Some(c) && Names(records, r).Some?
    ensures Runs(records + [r], c)
  {
    var after := records + [r];
    assert after[..|after| - 1] == records && after[|after| - 1] == r;
    hide HowRead, OpenCall, LastYielded;
    assert LastBound(after, Names(records, r).value) == Some(c);
  }

  lemma EndIsFinal(records: seq<Record>, r: Record, c: CallId)
    requires Ends(records, r, c)
    ensures Finals(Step(Run(records), r).events, c) == 1
  {
    RecordEmits(records, r);
    var events := Step(Run(records), r).events;
    hide Step, Run, HowRead, LastBound, LastYielded, LogWith;
    assert events[..0] == [] && IsFinal(events[0], c);
  }

  /**
   For a call made once, in records that never give a running call's handle to another: once it has
   yielded, it still runs under some handle or was completed for good exactly once.
   */
  lemma {:induction false} NothingLost(records: seq<Record>, c: CallId)
    requires Calls(records, c) <= 1 && NoReuse(records) && Yielded(records, c)
    ensures Runs(records, c) <==> Finals(Events(records), c) == 0
    ensures !Runs(records, c) <==> Finals(Events(records), c) == 1
  {
    var front, last := records[..|records| - 1], records[|records| - 1];
    assert records == front + [last];
    FinalsAtMostCalls(records, c);
    RunsIsPending(records, c);
    FinalsAppend(Events(front), Step(Run(front), last).events, c);
    hide Step, Run, Reuses, Ends, HowRead, About, Names, LastBound, Runs, IsPending;
    if Yielded(front, c) {
      NothingLost(front, c);
    }
    if HowRead(front, last).Own? && About(front, last) == Some(c) && Names(front, last).Some? {
      StartsRunning(front, last, c);
    } else if Runs(front, c) {
      if Ends(front, last, c) {
        EndIsFinal(front, last, c);
      } else {
        StillRuns(front, last, c);
      }
    }
  }

  // ---- Steps shown ----

  /** A call is shown as opened unless it is a plan or polls; a script's unless it is read as a poll. */
  lemma OpenedIff(records: seq<Record>, r: Record, c: CallId)
    ensures Opened(c) in Step(Run(records), r).events <==>
              || (r.Called? && r.callId == c && r.call.tool != PollTool && r.call.input != PlanInput)
              || (r.CellCalled? && r.callId == c && CellCall(records, r.polls).polls.None?)
  {
    TablesAgree(records);
    var m := Run(records);
    if r.CellCalled? && r.polls.Some? {
      assert LastBound(records, r.polls.value) == HolderOf(m, r.polls.value);
    }
    hide LastBound, OpenCall, LastYielded, ItemBased, Run, RecordedExit, CommandExecution, TrackRunning;
  }

  /** A step is shown as finished by a patch, or by the output of an open call that is nothing else. */
  lemma FinishedIff(records: seq<Record>, r: Record, c: CallId)
    ensures Finished(c) in Step(Run(records), r).events <==>
              || (r.Patched? && r.callId == c)
              || ((r.FunctionOutput? || r.CustomOutput?) && r.callId == c && OpenCall(records, c).Some?
                  && HowRead(records, r).NoLog?
                  && (r.FunctionOutput? ==> OpenCall(records, c).value.input != PlanInput)
                  && (r.CustomOutput? && !OpenCall(records, c).value.codeCell ==>
                        OpenCall(records, c).value.tool != ApplyPatch))
  {
    TablesAgree(records);
    var m := Run(records);
    ReadsAlike(m, records, r);
    if r.FunctionOutput? || r.CustomOutput? {
      assert OpenCall(records, r.callId) == if r.callId in m.calls then Some(m.calls[r.callId]) else None;
    }
    hide LastBound, OpenCall, LastYielded, ItemBased, Run, RecordedExit, CommandExecution, TrackRunning,
      HowRead;
  }
}
