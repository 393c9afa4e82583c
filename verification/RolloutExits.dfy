/**
 The exit of every completion a rollout emits: the output's own where that is explicit, and otherwise
 what the process items recorded before it warrant, counted occurrence by occurrence.
 */
module RolloutExits {
  import opened Wrappers
  import opened RolloutModel
  import opened RolloutSafety

  // ---- Where codes come from ----

  /** A process item that reported this code for this command. */
  predicate Reports(r: Record, command: string, code: int) {
    r.Process? && r.command == Some(command) && r.exitCode == Some(code)
  }

  /** A process item that reported this code for the call it names itself. */
  predicate ReportsOwn(r: Record, c: CallId, code: int) {
    r.Process? && r.id == Some(c) && r.exitCode == Some(code)
  }

  /** How often a code was reported for a command. */
  function Times(records: seq<Record>, command: string, code: int): nat {
    if records == [] then 0
    else
      Times(records[..|records| - 1], command, code)
      + if Reports(records[|records| - 1], command, code) then 1 else 0
  }

  function TimesOwn(records: seq<Record>, c: CallId, code: int): nat {
    if records == [] then 0
    else
      TimesOwn(records[..|records| - 1], c, code)
      + if ReportsOwn(records[|records| - 1], c, code) then 1 else 0
  }

  /** The script of an open cell was called at `j`, and each of its codes was reported since. */
  ghost predicate OpenedAt(records: seq<Record>, c: CallId, cell: Cell, j: int) {
    && 0 <= j < |records| && records[j].CellCalled? && records[j].callId == c
    && records[j].commands == cell.commands
    && AllBacked(records[j + 1..], cell)
  }

  ghost predicate AllBacked(since: seq<Record>, cell: Cell) {
    forall command, code :: Backed(since, cell, command, code)
  }

  /** The codes filed for a command are among those reported for it, as often as filed. */
  predicate Backed(records: seq<Record>, cell: Cell, command: string, code: int) {
    multiset(Filed(cell, command))[code] <= Times(records, command, code)
  }

  /** What a step does to one cell: nothing, closing it, opening it, or filing the item's code. */
  lemma CellStep(m: Model, r: Record, c: CallId)
    requires c in Step(m, r).model.openCells
    ensures var cell := Step(m, r).model.openCells[c];
            || (r.CellCalled? && r.callId == c && cell == Cell(r.commands, map[]))
            || (c in m.openCells && cell == m.openCells[c])
            || (c in m.openCells && r.Process? && r.command.Some? && r.exitCode.Some?
                && OnlyAwaits(m, r.command.value, c)
                && cell == FileExit(m.openCells[c], r.command.value, r.exitCode.value))
  {
    hide RecordedExit, Held, Target, Join, PushTo, FileExit, CommandExecution;
    if r.Process? {
      ExecutionFiles(m, r.id, r.command, r.exitCode, c);
    }
  }

  lemma LaterRecords(records: seq<Record>, j: int)
    requires 0 <= j < |records| - 1
    ensures records[j + 1..][..|records[j + 1..]| - 1] == records[..|records| - 1][j + 1..]
    ensures records[j + 1..][|records[j + 1..]| - 1] == records[|records| - 1]
  {
  }

  /** A cell that a record leaves alone, or files its own code under, stays backed. */
  lemma StaysOpened(records: seq<Record>, c: CallId, cell: Cell, cell': Cell, j: int)
    requires records != [] && OpenedAt(records[..|records| - 1], c, cell, j)
    requires var r := records[|records| - 1];
             cell' == cell || (r.Process? && r.command.Some? && r.exitCode.Some?
                               && cell' == FileExit(cell, r.command.value, r.exitCode.value))
    ensures OpenedAt(records, c, cell', j)
  {
    var r, since := records[|records| - 1], records[j + 1..];
    LaterRecords(records, j);
    forall command, code ensures Backed(since, cell', command, code) {
      assert Backed(records[..|records| - 1][j + 1..], cell, command, code);
      if cell' != cell && command == r.command.value {
        assert Filed(cell', command) == Filed(cell, command) + [r.exitCode.value];
      }
    }
  }

  /** Every code filed for a cell was reported by an item of its own since the cell was called. */
  lemma {:induction false} FiledWasReported(records: seq<Record>, c: CallId) returns (j: int)
    requires c in Run(records).openCells
    ensures OpenedAt(records, c, Run(records).openCells[c], j)
  {
    var front, last := records[..|records| - 1], records[|records| - 1];
    var m := Run(front);
    CellStep(m, last, c);
    var cell := Step(m, last).model.openCells[c];
    hide Step, OnlyAwaits, FileExit;
    if last.CellCalled? && last.callId == c && cell == Cell(last.commands, map[]) {
      j := |records| - 1;
      var since := records[j + 1..];
      forall command, code ensures Backed(since, cell, command, code) {
        assert Filed(cell, command) == [];
      }
    } else {
      j := FiledWasReported(front, c);
      StaysOpened(records, c, m.openCells[c], cell, j);
    }
  }

  /** A code kept for a call was reported by an item that names this call. */
  ghost predicate OwnReported(records: seq<Record>, c: CallId, codes: seq<int>) {
    codes != [] && forall code :: multiset(codes)[code] <= TimesOwn(records, c, code)
  }

  /** What a step does to the codes kept for a call: nothing, or keeping the item's own. */
  lemma OwnStep(m: Model, r: Record, c: CallId)
    requires c in Step(m, r).model.callExits
    ensures var codes := Step(m, r).model.callExits[c];
            || (c in m.callExits && codes == m.callExits[c])
            || (r.Process? && r.id == Some(c) && r.exitCode.Some?
                && codes == (if c in m.callExits then m.callExits[c] else []) + [r.exitCode.value])
  {
    hide RecordedExit, Held, Target, Join, PushTo, FileExit;
  }

  lemma {:induction false} OwnWasReported(records: seq<Record>, c: CallId)
    requires c in Run(records).callExits
    ensures OwnReported(records, c, Run(records).callExits[c])
  {
    var front, last := records[..|records| - 1], records[|records| - 1];
    var m := Run(front);
    OwnStep(m, last, c);
    var codes := Step(m, last).model.callExits[c];
    hide Step;
    if c in m.callExits {
      OwnWasReported(front, c);
    }
    assert OwnReported(records, c, codes);
  }

  // ---- What is emitted ----

  /** A completion's exit, read off the output and the codes recorded when it arrived. */
  lemma StepExit(m: Model, r: Record, e: Event)
    requires e in Step(m, r).events && e.Completed?
    ensures r.FunctionOutput? || r.CustomOutput?
    ensures e.exit == if r.output.running.None? && !r.output.exit.Explicit?
                         && RecordedExit(m, e.callId).Some?
                      then Explicit(RecordedExit(m, e.callId).value) else r.output.exit
  {
    StepReads(m, r);
    match Reads(m, r)
    case NoLog =>
      hide RecordedExit, CommandExecution;
    case Own(c, output) =>
      hide Step, RecordedExit, Held;
      SameCodes(m, TrackRunning(m.(calls := m.calls - {c}), c, output), c);
    case Poll(polls, output) =>
      hide Step, RecordedExit;
      var m1 := m.(calls := m.calls - {r.callId});
      var c := Target(m1, polls).value.callId;
      SameCodes(m, Forget(Push(m1, c, output.body), c), c);
  }

  lemma SameCodes(m: Model, m': Model, c: CallId)
    requires m'.openCells == m.openCells && m'.callExits == m.callExits
    ensures RecordedExit(m', c) == RecordedExit(m, c)
  {
  }

  /** The items warrant 0 for a script when every occurrence of every command it names reported 0. */
  ghost predicate ScriptWarrants(commands: seq<string>, since: seq<Record>, code: int) {
    if code == 0 then
      commands != []
      && forall command :: command in commands ==>
           Times(since, command, 0) >= Count(commands, command)
    else
      |commands| == 1 && Times(since, commands[0], code) >= 1
  }

  /**
   Items warrant a code for a call: for an open cell, those since its script was called warrant it of
   the script, and for any other call an item that names the call reported it.
   */
  ghost predicate Warrants(records: seq<Record>, c: CallId, code: int) {
    if c in Run(records).openCells then
      exists j :: 0 <= j < |records| && records[j].CellCalled? && records[j].callId == c
                  && records[j].commands == Run(records).openCells[c].commands
                  && ScriptWarrants(records[j].commands, records[j + 1..], code)
    else
      TimesOwn(records, c, code) >= 1
  }

  lemma RecordedIsWarranted(records: seq<Record>, c: CallId)
    requires RecordedExit(Run(records), c).Some?
    ensures Warrants(records, c, RecordedExit(Run(records), c).value)
  {
    var m := Run(records);
    var code := RecordedExit(m, c).value;
    if c in m.openCells {
      var j := FiledWasReported(records, c);
      RecordedExitSound(records, c);
      var cell, since := m.openCells[c], records[j + 1..];
      RunKeepsInv(records);
      assert CellSound(cell);
      hide Run, Times, RecordedExit;
      forall command | command in cell.commands
        ensures code == 0 ==> Times(since, command, 0) >= Count(cell.commands, command)
      {
        assert Backed(since, cell, command, 0);
        if code == 0 { AllZeroCount(Filed(cell, command)); }
      }
      assert code != 0 ==> Backed(since, cell, cell.commands[0], code);
      assert ScriptWarrants(cell.commands, since, code);
    } else {
      OwnWasReported(records, c);
      hide Run, TimesOwn;
      var codes := m.callExits[c];
      assert codes[0] in multiset(codes);
    }
  }

  lemma {:induction false} AllZeroCount(codes: seq<int>)
    requires AllZero(codes)
    ensures multiset(codes)[0] == |codes|
  {
    if codes != [] {
      AllZeroCount(codes[1..]);
      assert codes == [codes[0]] + codes[1..];
    }
  }

  /** The exit of a completion emitted at `i`, in terms of its own output and the records before. */
  ghost predicate ExitStands(records: seq<Record>, i: int, e: Event)
    requires 0 <= i < |records| && e.Completed?
  {
    var r, before := records[i], records[..i];
    && e in Step(Run(before), r).events
    && (r.FunctionOutput? || r.CustomOutput?)
    && (r.output.exit.Explicit? || r.output.running.Some? ==> e.exit == r.output.exit)
    && (e.exit != r.output.exit ==> e.exit.Explicit? && Warrants(before, e.callId, e.exit.code))
  }

  /**
   Every completion a rollout ever emits shows its output's own exit where that is explicit. Where it
   is not, the exit shown is still the output's, or a code the items before it warrant: 0 only if
   every occurrence of every command of the cell's script reported 0 since the script was called,
   another code only if the script names one command and an item reported that code for it.
   */
  lemma {:induction false} EmittedExitsStand(records: seq<Record>, e: Event) returns (i: int)
    requires e in Events(records) && e.Completed?
    ensures 0 <= i < |records| && ExitStands(records, i, e)
  {
    var front, last := records[..|records| - 1], records[|records| - 1];
    if e in Step(Run(front), last).events {
      i := |records| - 1;
      StepExit(Run(front), last, e);
      if e.exit != last.output.exit {
        RecordedIsWarranted(front, e.callId);
      }
    } else {
      i := EmittedExitsStand(front, e);
      assert front[..i] == records[..i];
    }
  }

  /** Conversely a code that was recorded when the final output arrived is the one shown. */
  lemma RecordedIsShown(records: seq<Record>, i: int, e: Event)
    requires 0 <= i < |records| && e in Step(Run(records[..i]), records[i]).events && e.Completed?
    requires RecordedExit(Run(records[..i]), e.callId).Some?
    ensures records[i].FunctionOutput? || records[i].CustomOutput?
    ensures records[i].output.running.None? && !records[i].output.exit.Explicit? ==>
              e.exit == Explicit(RecordedExit(Run(records[..i]), e.callId).value)
  {
    StepExit(Run(records[..i]), records[i], e);
  }
}
