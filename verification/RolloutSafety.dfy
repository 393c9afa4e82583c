/**
 What holds over every sequence of rollout records: one log per running command, at most one final
 completion, and exit codes that are attributed only when they can be.
 */
module RolloutSafety {
  import opened Wrappers
  import opened RolloutModel

  // ---- The invariant ----

  /** All handles of one call, and the last running command, hold the same log. */
  ghost predicate OneLog(m: Model) {
    && (forall h, k :: SameCall(m, h, k) ==> m.pending[h] == m.pending[k])
    && (m.lastRunning.Some? ==>
          exists h :: h in m.pending && m.pending[h] == m.lastRunning.value)
  }

  predicate SameCall(m: Model, h: Handle, k: Handle) {
    h in m.pending && k in m.pending && m.pending[h].callId == m.pending[k].callId
  }

  /** A cell never has more codes for a command than its script names it. */
  ghost predicate CellSound(cell: Cell) {
    && cell.commands != []
    && (forall c :: c in cell.exits ==>
          cell.exits[c] != [] && |cell.exits[c]| <= Count(cell.commands, c))
  }

  ghost predicate CellsSound(m: Model) {
    forall c :: c in m.openCells ==> CellSound(m.openCells[c])
  }

  ghost predicate Inv(m: Model) {
    OneLog(m) && CellsSound(m)
  }

  // ---- One log per command ----

  lemma HeldIsPending(m: Model, c: CallId)
    requires OneLog(m)
    ensures Held(m, c).Some? <==> IsPending(m, c)
    ensures forall h :: h in m.pending && m.pending[h].callId == c ==>
              Held(m, c) == Some(m.pending[h])
  {
  }

  lemma BindKeepsOneLog(m: Model, h: Handle, command: Command)
    requires OneLog(m)
    requires forall k :: k in m.pending && m.pending[k].callId == command.callId ==>
               m.pending[k] == command
    ensures OneLog(Bind(m, h, command))
  {
    assert Bind(m, h, command).pending[h] == command;
  }

  lemma TrackKeepsOneLog(m: Model, c: CallId, output: Parsed)
    requires OneLog(m)
    ensures OneLog(TrackRunning(m, c, output))
  {
    hide OneLog, Held, IsPending, Bind;
    if output.running.Some? {
      HeldIsPending(m, c);
      var held := Held(m, c);
      var command := if held.Some? then held.value else Command(c, Chunk(output.body));
      NoneHeldElsewhere(m, c, command);
      BindKeepsOneLog(m, output.running.value, command);
    }
  }

  lemma NoneHeldElsewhere(m: Model, c: CallId, command: Command)
    requires OneLog(m)
    requires Held(m, c).Some? ==> command == Held(m, c).value
    requires Held(m, c).None? ==> command.callId == c
    ensures command.callId == c
    ensures forall k :: k in m.pending && m.pending[k].callId == command.callId ==>
              m.pending[k] == command
  {
    HeldIsPending(m, c);
  }

  lemma PushKeepsOneLog(m: Model, c: CallId, body: string)
    requires OneLog(m)
    ensures OneLog(Push(m, c, body))
  {
    var m' := Push(m, c, body);
    if m'.lastRunning.Some? {
      var h :| h in m.pending && m.pending[h] == m.lastRunning.value;
      assert m'.pending[h] == m'.lastRunning.value;
    }
  }

  lemma ForgetKeepsOneLog(m: Model, c: CallId)
    requires OneLog(m)
    ensures OneLog(Forget(m, c))
    ensures !IsPending(Forget(m, c), c)
  {
    var m' := Forget(m, c);
    if m'.lastRunning.Some? {
      var h :| h in m.pending && m.pending[h] == m.lastRunning.value;
      assert m'.pending[h] == m'.lastRunning.value;
    }
  }

  lemma TargetIsPending(m: Model, polls: Option<Handle>)
    requires OneLog(m) && Target(m, polls).Some?
    ensures exists h :: h in m.pending && m.pending[h] == Target(m, polls).value
    ensures IsPending(m, Target(m, polls).value.callId)
  {
    if polls.Some? {
      var h := polls.value;
      assert h in m.pending && m.pending[h] == Target(m, polls).value;
    } else {
      var h :| h in m.pending && m.pending[h] == m.lastRunning.value;
      assert h in m.pending && m.pending[h] == Target(m, polls).value;
    }
  }

  /** After a push, the pushed command is the one held under every handle of its call. */
  lemma PushedIsHeld(m: Model, command: Command, body: string)
    requires OneLog(m) && exists h :: h in m.pending && m.pending[h] == command
    ensures var m' := Push(m, command.callId, body);
            forall k :: k in m'.pending && m'.pending[k].callId == command.callId ==>
              m'.pending[k] == PushTo(command, command.callId, body)
  {
    var h :| h in m.pending && m.pending[h] == command;
  }

  lemma PollKeepsOneLog(m: Model, polls: Option<Handle>, output: Parsed)
    requires OneLog(m)
    ensures OneLog(PollResult(m, polls, output).model)
  {
    var target := Target(m, polls);
    if target.Some? {
      var c := target.value.callId;
      TargetIsPending(m, polls);
      PushKeepsOneLog(m, c, output.body);
      PushedIsHeld(m, target.value, output.body);
      var pushed := Push(m, c, output.body);
      var command := PushTo(target.value, c, output.body);
      hide Push, PushTo, Target, CommandCompleted, OneLog, Forget;
      if output.running.Some? {
        BindKeepsOneLog(pushed, output.running.value, command);
      } else {
        ForgetKeepsOneLog(pushed, c);
        var whole := output.(body := Join(command.chunks));
        CompletedFrame(Forget(pushed, c), c, whole, true);
        SamePendingOneLog(Forget(pushed, c),
                          CommandCompleted(Forget(pushed, c), c, whole, true).model);
      }
    }
  }

  lemma CompletedFrame(m: Model, c: CallId, output: Parsed, final: bool)
    ensures var m' := CommandCompleted(m, c, output, final).model;
            m'.pending == m.pending && m'.lastRunning == m.lastRunning && m'.calls == m.calls
  {
    hide RecordedExit;
  }

  lemma ExecutionFrame(m: Model, id: Option<CallId>, command: Option<string>, exitCode: Option<int>)
    ensures var m' := CommandExecution(m, id, command, exitCode).0;
            && m'.pending == m.pending && m'.lastRunning == m.lastRunning && m'.calls == m.calls
            && m'.itemBased == m.itemBased
  {
    hide Awaiting, OnlyAwaits, FileExit;
  }

  lemma SamePendingOneLog(m: Model, m': Model)
    requires OneLog(m) && m'.pending == m.pending && m'.lastRunning == m.lastRunning
    ensures OneLog(m')
  {
  }

  lemma CommandOutputKeepsOneLog(m: Model, c: CallId, output: Parsed)
    requires OneLog(m)
    ensures OneLog(CommandOutput(m, c, output).model)
  {
    hide OneLog, TrackRunning, CommandCompleted;
    TrackKeepsOneLog(m, c, output);
    CompletedFrame(TrackRunning(m, c, output), c, output, false);
    SamePendingOneLog(TrackRunning(m, c, output), CommandOutput(m, c, output).model);
  }

  lemma StepKeepsOneLog(m: Model, r: Record)
    requires OneLog(m)
    ensures OneLog(Step(m, r).model)
  {
    hide OneLog, PollResult, CommandOutput, CommandExecution;
    match r
    case FunctionOutput(c, output) =>
      var m1 := m.(calls := m.calls - {c});
      SamePendingOneLog(m, m1);
      if c in m.calls {
        PollKeepsOneLog(m1, m.calls[c].polls, output);
        CommandOutputKeepsOneLog(m1, c, output);
      }
    case CustomOutput(c, output) =>
      var m1 := m.(calls := m.calls - {c});
      SamePendingOneLog(m, m1);
      if c in m.calls {
        PollKeepsOneLog(m1, m.calls[c].polls, output);
        CommandOutputKeepsOneLog(m1, c, output);
        SamePendingOneLog(m1, CodeCellCompleted(m1, c, output).model);
      }
    case Process(id, _, command, exitCode) =>
      ExecutionFrame(m, id, command, exitCode);
      SamePendingOneLog(m, Step(m, r).model);
    case _ =>
      SamePendingOneLog(m, Step(m, r).model);
  }

  // ---- Cells ----

  lemma FilingKeepsCellSound(cell: Cell, command: string, code: int)
    requires CellSound(cell) && Awaits(cell, command)
    ensures CellSound(FileExit(cell, command, code))
  {
  }

  lemma ExecutionFiles(m: Model, id: Option<CallId>, command: Option<string>, exitCode: Option<int>,
                       c: CallId)
    requires c in CommandExecution(m, id, command, exitCode).0.openCells
    ensures var cell := CommandExecution(m, id, command, exitCode).0.openCells[c];
            && c in m.openCells
            && (cell == m.openCells[c]
                || (command.Some? && exitCode.Some? && OnlyAwaits(m, command.value, c)
                    && cell == FileExit(m.openCells[c], command.value, exitCode.value)))
  {
    hide FileExit, TakesItsOwnCode;
  }

  lemma ExecutionKeepsCells(m: Model, id: Option<CallId>, command: Option<string>,
                            exitCode: Option<int>)
    requires CellsSound(m)
    ensures CellsSound(CommandExecution(m, id, command, exitCode).0)
  {
    hide CommandExecution, CellSound, FileExit, OnlyAwaits;
    var m' := CommandExecution(m, id, command, exitCode).0;
    forall c | c in m'.openCells ensures CellSound(m'.openCells[c]) {
      ExecutionFiles(m, id, command, exitCode, c);
      if m'.openCells[c] != m.openCells[c] {
        OnlyAwaitsAwaits(m, command.value, c);
        FilingKeepsCellSound(m.openCells[c], command.value, exitCode.value);
      }
    }
  }

  lemma OnlyAwaitsAwaits(m: Model, command: string, c: CallId)
    requires OnlyAwaits(m, command, c)
    ensures c in m.openCells && Awaits(m.openCells[c], command)
  {
    assert c in Awaiting(m, command);
  }

  lemma StepKeepsCells(m: Model, r: Record)
    requires CellsSound(m)
    ensures CellsSound(Step(m, r).model)
  {
    hide CommandExecution, RecordedExit, Held, Target, Join, PushTo;
    match r
    case Process(id, _, command, exitCode) => ExecutionKeepsCells(m, id, command, exitCode);
    case CellCalled(c, _, commands) =>
      assert commands != [] ==> CellSound(Cell(commands, map[]));
    case _ =>
  }

  lemma StepKeepsInv(m: Model, r: Record)
    requires Inv(m)
    ensures Inv(Step(m, r).model)
  {
    hide OneLog, CellsSound, Step;
    StepKeepsOneLog(m, r);
    StepKeepsCells(m, r);
  }

  /**
   Whatever the records say, all handles of one call share one log, the last running command is
   still pending, and no cell has more codes for a command than its script names.
   */
  lemma {:induction false} RunKeepsInv(records: seq<Record>)
    ensures Inv(Run(records))
  {
    hide Step;
    if records != [] {
      hide Inv;
      RunKeepsInv(records[..|records| - 1]);
      StepKeepsInv(Run(records[..|records| - 1]), records[|records| - 1]);
    }
  }

  // ---- Final completions ----

  function Calls(records: seq<Record>, c: CallId): nat {
    if records == [] then 0
    else
      Calls(records[..|records| - 1], c) + if IsCallOf(records[|records| - 1], c) then 1 else 0
  }

  predicate IsCallOf(r: Record, c: CallId) {
    (r.Called? || r.CellCalled?) && r.callId == c
  }

  function Finals(events: seq<Event>, c: CallId): nat {
    if events == [] then 0
    else
      Finals(events[..|events| - 1], c) + if IsFinal(events[|events| - 1], c) then 1 else 0
  }

  predicate IsFinal(e: Event, c: CallId) {
    e.Completed? && e.final && e.callId == c
  }

  lemma {:induction false} FinalsAppend(a: seq<Event>, b: seq<Event>, c: CallId)
    ensures Finals(a + b, c) == Finals(a, c) + Finals(b, c)
  {
    if b == [] {
      assert a + b == a;
    } else {
      assert (a + b)[..|a + b| - 1] == a + b[..|b| - 1];
      FinalsAppend(a, b[..|b| - 1], c);
    }
  }

  /** What a call may still turn into a final completion: its open call, or its running command. */
  ghost function Open(m: Model, c: CallId): nat {
    (if c in m.calls then 1 else 0) + (if IsPending(m, c) then 1 else 0)
  }

  lemma CommandOutputOpen(m: Model, c: CallId, d: CallId, output: Parsed)
    requires OneLog(m) && d !in m.calls
    ensures var o := CommandOutput(m, d, output);
            && o.events == [o.events[0]] && Finals(o.events, c) == 0
            && Open(o.model, c) <= Open(m, c) + if c == d then 1 else 0
  {
    var tracked := TrackRunning(m, d, output);
    CompletedFrame(tracked, d, output, false);
    HeldIsPending(m, d);
    assert Open(tracked, c) <= Open(m, c) + if c == d then 1 else 0;
  }

  lemma PollOpen(m: Model, c: CallId, polls: Option<Handle>, output: Parsed)
    requires OneLog(m)
    ensures var o := PollResult(m, polls, output);
            && Finals(o.events, c) + Open(o.model, c) <= Open(m, c)
  {
    var target := Target(m, polls);
    if target.Some? {
      var d := target.value.callId;
      TargetIsPending(m, polls);
      var pushed := Push(m, d, output.body);
      PushOpen(m, c, d, output.body);
      var command := PushTo(target.value, d, output.body);
      if output.running.Some? {
        assert IsPending(Bind(pushed, output.running.value, command), c)
               ==> IsPending(pushed, c) || c == d;
        assert Open(Bind(pushed, output.running.value, command), c) <= Open(m, c);
      } else {
        PushKeepsOneLog(m, d, output.body);
        ForgetKeepsOneLog(pushed, d);
        assert Open(Forget(pushed, d), c) + (if c == d then 1 else 0) <= Open(m, c);
        hide Forget, Push;
        var whole := output.(body := Join(command.chunks));
        CompletedFrame(Forget(pushed, d), d, whole, true);
      }
    }
  }

  lemma PushOpen(m: Model, c: CallId, d: CallId, body: string)
    ensures Open(Push(m, d, body), c) == Open(m, c)
  {
    var m' := Push(m, d, body);
    if IsPending(m, c) {
      var h :| h in m.pending && m.pending[h].callId == c;
      assert m'.pending[h].callId == c;
    }
    if IsPending(m', c) {
      var h :| h in m'.pending && m'.pending[h].callId == c;
      assert m.pending[h].callId == c;
    }
  }

  lemma StepOpen(m: Model, r: Record, c: CallId)
    requires OneLog(m)
    ensures var o := Step(m, r);
            && Finals(o.events, c) + Open(o.model, c)
               <= Open(m, c) + if IsCallOf(r, c) then 1 else 0
  {
    if r.FunctionOutput? || r.CustomOutput? {
      TakenOpen(m, r, c);
    } else {
      hide CommandExecution, OneLog;
      if r.Process? {
        ExecutionFrame(m, r.id, r.command, r.exitCode);
      }
    }
  }

  lemma TakenOpen(m: Model, r: Record, c: CallId)
    requires OneLog(m) && (r.FunctionOutput? || r.CustomOutput?)
    ensures Finals(Step(m, r).events, c) + Open(Step(m, r).model, c) <= Open(m, c)
  {
    hide PollResult, CommandOutput, OneLog;
    if r.callId in m.calls {
      OutputOpen(m, r.callId, c, r.output);
    }
  }

  /** Taking an output closes the call it answers; then it is its own, or a poll's. */
  lemma OutputOpen(m: Model, d: CallId, c: CallId, output: Parsed)
    requires OneLog(m) && d in m.calls
    ensures var m1 := m.(calls := m.calls - {d});
            && Open(m1, c) + (if c == d then 1 else 0) == Open(m, c)
            && var own, poll := CommandOutput(m1, d, output), PollResult(m1, m.calls[d].polls, output);
            && Finals(own.events, c) + Open(own.model, c) <= Open(m, c)
            && Finals(poll.events, c) + Open(poll.model, c) <= Open(m, c)
  {
    hide PollResult, CommandOutput;
    var m1 := m.(calls := m.calls - {d});
    SamePendingOneLog(m, m1);
    CommandOutputOpen(m1, c, d, output);
    PollOpen(m1, c, m.calls[d].polls, output);
  }

  /** A call is completed for good at most as often as it was made. */
  lemma {:induction false} FinalsAtMostCalls(records: seq<Record>, c: CallId)
    ensures Finals(Events(records), c) + Open(Run(records), c) <= Calls(records, c)
  {
    if records != [] {
      var front, last := records[..|records| - 1], records[|records| - 1];
      FinalsAtMostCalls(front, c);
      RunKeepsInv(front);
      hide Step, Open;
      StepOpen(Run(front), last, c);
      FinalsAppend(Events(front), Step(Run(front), last).events, c);
    }
  }

  // ---- Readings ----

  /** How an output record is read: as its own command's, as a poll's, or neither. */
  datatype Reading =
    | NoLog
    | Own(callId: CallId, output: Parsed)
    | Poll(polls: Option<Handle>, output: Parsed)

  function Reads(m: Model, r: Record): Reading {
    match r
    case FunctionOutput(c, output) =>
      if c !in m.calls then NoLog
      else if m.calls[c].tool == PollTool then Poll(m.calls[c].polls, output)
      else if m.calls[c].input == CommandInput then Own(c, output)
      else NoLog
    case CustomOutput(c, output) =>
      if c !in m.calls then NoLog
      else if m.calls[c].polls.Some? then Poll(m.calls[c].polls, output)
      else if !m.calls[c].codeCell && m.calls[c].tool == Exec then Own(c, output)
      else NoLog
    case _ => NoLog
  }

  lemma CallsFrame(m: Model, r: Record)
    ensures var calls := Step(m, r).model.calls;
            match r {
              case FunctionOutput(c, _) => calls == m.calls - {c}
              case CustomOutput(c, _) => calls == m.calls - {c}
              case Patched(c) => calls == m.calls - {c}
              case Called(c, _) => calls.Keys == m.calls.Keys + {c}
              case CellCalled(c, _, _) => calls.Keys == m.calls.Keys + {c}
              case _ => calls == m.calls
            }
  {
    hide CommandExecution, RecordedExit, Held, Target, Join, PushTo;
    if r.Process? {
      ExecutionFrame(m, r.id, r.command, r.exitCode);
    }
  }

  /** How a step reads its record, as a choice between the two ways an output is taken. */
  lemma StepReads(m: Model, r: Record)
    ensures Reads(m, r).NoLog? ==>
              Step(m, r).model.pending == m.pending
              && forall e :: e in Step(m, r).events ==> !e.Completed?
    ensures Reads(m, r).Own? ==>
              var c := Reads(m, r).callId;
              c in m.calls &&
              Step(m, r) == CommandOutput(m.(calls := m.calls - {c}), c, Reads(m, r).output)
    ensures Reads(m, r).Poll? ==>
              (r.FunctionOutput? || r.CustomOutput?) && r.callId in m.calls &&
              Step(m, r) == PollResult(m.(calls := m.calls - {r.callId}), Reads(m, r).polls,
                                       Reads(m, r).output)
  {
    hide CommandExecution, CommandOutput, PollResult;
    if r.Process? {
      ExecutionFrame(m, r.id, r.command, r.exitCode);
    }
  }

  // ---- Exit codes ----

  /** The codes of a complete sound cell, counted per command, are one for each command named. */
  lemma CompleteIsExact(cell: Cell, command: string)
    requires CellSound(cell) && Complete(cell) && command in cell.commands
    ensures |Filed(cell, command)| == Count(cell.commands, command) > 0
  {
    var i :| 0 <= i < |cell.commands| && cell.commands[i] == command;
    assert command in multiset(cell.commands);
  }

  /**
   What a recorded exit means for a cell: 0 only if every process its script names reported, and
   all reported 0; any other code only if the script names one command and that is what it reported.
   */
  lemma RecordedExitSound(records: seq<Record>, c: CallId)
    requires c in Run(records).openCells && RecordedExit(Run(records), c).Some?
    ensures var m := Run(records);
            var cell := m.openCells[c];
            && (forall command :: command in cell.commands ==>
                  |Filed(cell, command)| == Count(cell.commands, command))
            && (RecordedExit(m, c).value == 0 ==>
                  forall command :: command in cell.commands ==> AllZero(Filed(cell, command)))
            && (RecordedExit(m, c).value != 0 ==>
                  |cell.commands| == 1
                  && Filed(cell, cell.commands[0]) == [RecordedExit(m, c).value])
  {
    RunKeepsInv(records);
    hide Run;
    var cell := Run(records).openCells[c];
    assert CellSound(cell);
    forall command | command in cell.commands
      ensures |Filed(cell, command)| == Count(cell.commands, command)
    {
      CompleteIsExact(cell, command);
    }
  }

  /** Conversely a sound cell with one command, all reported, always yields that code. */
  lemma RecordedExitComplete(records: seq<Record>, c: CallId)
    requires c in Run(records).openCells && Complete(Run(records).openCells[c])
    ensures var m := Run(records);
            var cell := m.openCells[c];
            && (|cell.commands| == 1 ==> RecordedExit(m, c).Some?)
            && ((forall command :: command in cell.commands ==> AllZero(Filed(cell, command))) ==>
                  RecordedExit(m, c) == Some(0))
  {
    RunKeepsInv(records);
    hide Run;
    var m := Run(records);
    var cell := m.openCells[c];
    assert CellSound(cell);
    CompleteIsExact(cell, cell.commands[0]);
    if |cell.commands| == 1 {
      assert multiset(cell.commands)[cell.commands[0]] <= |multiset(cell.commands)|;
    }
    if forall command :: command in cell.commands ==> AllZero(Filed(cell, command)) {
      forall command | command in cell.exits ensures AllZero(cell.exits[command]) {
        assert Count(cell.commands, command) > 0;
        assert command in cell.commands;
        assert AllZero(Filed(cell, command));
      }
    }
  }
}
