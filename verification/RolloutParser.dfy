/**
 The rollout parser itself: maps of open calls and open cells, and one heap record per running
 command that all of its poll handles share.
 */
module RolloutParser {
  import opened Wrappers
  import opened IntSets
  import opened RolloutModel
  import opened RolloutSafety

  /** A command whose call yielded while its process was still running. */
  class PendingCommand {
    const callId: CallId
    var chunks: seq<string>

    constructor (callId: CallId, chunks: seq<string>)
      ensures this.callId == callId && this.chunks == chunks
    {
      this.callId := callId;
      this.chunks := chunks;
    }

    ghost function Value(): Command
      reads this
    {
      Command(callId, chunks)
    }
  }

  class CodexRolloutParser {
    var calls: map<CallId, Call>
    var pending: map<Handle, PendingCommand>
    var lastRunning: PendingCommand?
    var openCells: map<CallId, Cell>
    var callExits: map<CallId, seq<int>>
    var itemBased: bool

    ghost function Repr(): set<object>
      reads this
    {
      (set h | h in pending :: pending[h] as object) + if lastRunning == null then {} else {lastRunning}
    }

    ghost function Values(): map<Handle, Command>
      reads this, Repr()
    {
      map h | h in pending :: pending[h].Value()
    }

    ghost function Abs(): Model
      reads this, Repr()
    {
      Model(calls, Values(), if lastRunning == null then None else Some(lastRunning.Value()),
            openCells, callExits, itemBased)
    }

    /** All handles of one call share one record, and the last running one is among them. */
    ghost predicate Shared()
      reads this, Repr()
    {
      && (forall h, k :: h in pending && k in pending && pending[h].callId == pending[k].callId ==>
            pending[h] == pending[k])
      && (lastRunning != null ==> exists h :: h in pending && pending[h] == lastRunning)
    }

    ghost predicate Valid()
      reads this, Repr()
    {
      Shared() && CellsSound(Abs())
    }

    constructor ()
      ensures Valid() && Abs() == Empty
    {
      calls, pending, openCells, callExits := map[], map[], map[], map[];
      lastRunning := null;
      itemBased := false;
    }

    /** The command already held for a call, if any. */
    method Find(c: CallId) returns (held: PendingCommand?)
      requires Shared()
      ensures held == null <==> Held(Abs(), c).None?
      ensures held != null ==>
                && held.callId == c && Held(Abs(), c) == Some(held.Value())
                && forall h :: h in pending && pending[h].callId == c ==> pending[h] == held
    {
      if lastRunning != null && lastRunning.callId == c {
        return lastRunning;
      }
      if h :| h in pending && pending[h].callId == c {
        held := pending[h];
        assert Abs().pending[h].callId == c;
      } else {
        held := null;
        assert forall h :: h in Abs().pending ==> Abs().pending[h].callId != c;
      }
    }

    /** Maps a handle to a command, which is now the last one known to be running. */
    method Bind(h: Handle, command: PendingCommand)
      requires Shared()
      requires forall k :: k in pending && pending[k].callId == command.callId ==>
                 pending[k] == command
      modifies this`pending, this`lastRunning
      ensures Shared() && Repr() <= old(Repr()) + {command}
      ensures Abs() == RolloutModel.Bind(old(Abs()), h, command.Value())
    {
      ghost var before := Values();
      pending := pending[h := command];
      lastRunning := command;
      assert pending[h] == lastRunning;
      assert Values() == before[h := command.Value()];
    }

    /** Remembers a command whose call yielded while still running, keyed by its poll handle. */
    method TrackRunning(c: CallId, output: Parsed)
      requires Shared()
      modifies this`pending, this`lastRunning
      ensures Shared() && Abs() == RolloutModel.TrackRunning(old(Abs()), c, output)
      ensures fresh(Repr() - old(Repr()))
    {
      hide Held, RolloutModel.Bind;
      if output.running.None? {
        return;
      }
      ghost var before := Abs();
      var command := Find(c);
      assert Abs() == before;
      if command == null {
        HeldNone(before, c);
        assert forall h :: h in pending ==> before.pending[h].callId == pending[h].callId;
        command := new PendingCommand(c, Chunk(output.body));
        assert Abs() == before;
      } else {
        HeldInRepr(command);
      }
      Bind(output.running.value, command);
    }

    /** Appends a poll's output to the record every handle of the command shares. */
    method Push(target: PendingCommand, body: string)
      requires Shared() && exists h :: h in pending && pending[h] == target
      modifies target
      ensures Shared() && Repr() == old(Repr())
      ensures Abs() == RolloutModel.Push(old(Abs()), target.callId, body)
      ensures target.Value() == PushTo(old(target.Value()), target.callId, body)
    {
      ghost var before := Abs();
      if body != "" {
        target.chunks := target.chunks + [body];
      }
      assert target.chunks == old(target.chunks) + Chunk(body);
      forall h | h in pending
        ensures pending[h].Value() == PushTo(before.pending[h], target.callId, body)
      {
        assert pending[h].callId == target.callId ==> pending[h] == target;
      }
      assert Values() == RolloutModel.Push(before, target.callId, body).pending;
    }

    /** Drops every handle of one call. */
    method DropHandles(c: CallId)
      modifies this`pending
      ensures forall h :: h in pending <==> h in old(pending) && old(pending)[h].callId != c
      ensures forall h :: h in pending ==> pending[h] == old(pending)[h]
    {
      ghost var was := pending;
      var handles := pending.Keys;
      while handles != {}
        invariant handles <= was.Keys
        invariant forall h :: h in pending <==> h in was && (h in handles || was[h].callId != c)
        invariant forall h :: h in pending ==> pending[h] == was[h]
        decreases |handles|
      {
        ghost var some := Member(handles);
        var h :| h in handles;
        if pending[h].callId == c {
          pending := pending - {h};
        }
        handles := handles - {h};
      }
    }

    /** Forgets a command under every handle. */
    method Forget(target: PendingCommand)
      requires Shared()
      modifies this`pending, this`lastRunning
      ensures Shared() && Repr() <= old(Repr())
      ensures Abs() == RolloutModel.Forget(old(Abs()), target.callId)
    {
      hide RolloutModel.Forget;
      ghost var before, was := Abs(), pending;
      DropHandles(target.callId);
      ForgottenValues(before, was, pending, target.callId);
      if lastRunning != null && lastRunning.callId == target.callId {
        lastRunning := null;
      }
      ForgetFields(before, target.callId);
    }

    /** The exit code the items recorded for a command. */
    method RecordedExit(c: CallId) returns (code: Option<int>)
      requires Valid()
      ensures code == RolloutModel.RecordedExit(Abs(), c)
    {
      var codes: seq<int> := if c in callExits then callExits[c] else [];
      if c in openCells {
        var cell := openCells[c];
        assert CellSound(Abs().openCells[c]);
        codes := [];
        if Complete(cell) {
          codes := Flatten(cell);
        }
      }
      code := CodesExit(codes);
    }

    /** The completion of a command; items fill in only an exit its output left open. */
    method CommandCompleted(c: CallId, output: Parsed, final: bool) returns (event: Event)
      requires Valid()
      modifies this`openCells, this`callExits
      ensures Valid() && Repr() == old(Repr())
      ensures Outcome(Abs(), [event]) == RolloutModel.CommandCompleted(old(Abs()), c, output, final)
    {
      hide RolloutModel.RecordedExit;
      var exit := output.exit;
      if output.running.None? {
        var recorded := RecordedExit(c);
        if recorded.Some? && !output.exit.Explicit? {
          exit := Explicit(recorded.value);
        }
        openCells := openCells - {c};
        callExits := callExits - {c};
      }
      event := Completed(c, final, output.body, exit);
      assert Values() == old(Values());
      CompletedCells(old(Abs()), c, output, final);
    }

    /** Output of a poll: either the command still runs, or this is its late result. */
    method PollResult(polls: Option<Handle>, output: Parsed) returns (events: seq<Event>)
      requires Valid()
      modifies this, Repr()
      ensures Valid() && Repr() <= old(Repr())
      ensures Outcome(Abs(), events) == RolloutModel.PollResult(old(Abs()), polls, output)
    {
      hide RolloutModel.Push, RolloutModel.Forget, RolloutModel.Bind, RolloutModel.CommandCompleted;
      var target: PendingCommand? := null;
      ghost var h: Handle := 0;
      if polls.Some? {
        if polls.value in pending {
          target := pending[polls.value];
          h := polls.value;
        }
      } else {
        target := lastRunning;
        if target != null {
          h :| h in pending && pending[h] == target;
        }
      }
      if target == null {
        return [];
      }
      assert h in pending && pending[h] == target;
      assert pending[h] in Repr();
      Push(target, output.body);
      if output.running.Some? {
        Bind(output.running.value, target);
        return [];
      }
      Forget(target);
      var event := CommandCompleted(target.callId, output.(body := Join(target.chunks)), true);
      events := [event];
    }

    /** A command's own output: it yields, or it is complete. */
    method CommandOutput(c: CallId, output: Parsed) returns (event: Event)
      requires Valid()
      modifies this`pending, this`lastRunning, this`openCells, this`callExits
      ensures Valid() && fresh(Repr() - old(Repr()))
      ensures Outcome(Abs(), [event]) == RolloutModel.CommandOutput(old(Abs()), c, output)
    {
      hide RolloutModel.TrackRunning, RolloutModel.CommandCompleted;
      TrackedCells(Abs(), c, output);
      TrackRunning(c, output);
      event := CommandCompleted(c, output, false);
    }

    method IsPending(c: CallId) returns (found: bool)
      requires Shared()
      ensures found == RolloutModel.IsPending(Abs(), c)
    {
      if h :| h in pending && pending[h].callId == c {
        found := true;
        assert Abs().pending[h].callId == c;
      } else {
        found := false;
        assert forall h :: h in Abs().pending ==> Abs().pending[h].callId == pending[h].callId;
      }
    }

    /** Files a code under the function call that is itself the process. */
    method FileOwn(c: CallId, code: int)
      requires Valid()
      modifies this`callExits
      ensures Valid() && Repr() == old(Repr())
      ensures var codes := if c in old(callExits) then old(callExits)[c] else [];
              Abs() == old(Abs()).(callExits := old(callExits)[c := codes + [code]])
    {
      hide CellSound;
      ghost var m := Abs();
      var codes := if c in callExits then callExits[c] else [];
      callExits := callExits[c := codes + [code]];
      assert Values() == m.pending;
    }

    /** Files a code under an open cell whose script awaits it. */
    method FileUnder(c: CallId, command: string, code: int)
      requires Valid() && c in openCells && Awaits(openCells[c], command)
      modifies this`openCells
      ensures Valid() && Repr() == old(Repr())
      ensures Abs() == old(Abs()).(openCells :=
                old(openCells)[c := FileExit(old(openCells)[c], command, code)])
    {
      hide CellSound, FileExit, Awaits;
      ghost var m := Abs();
      FilingKeepsCellSound(m.openCells[c], command, code);
      openCells := openCells[c := FileExit(openCells[c], command, code)];
      assert Values() == m.pending;
    }

    /** Files the exit code of one process; the cell it was filed under is returned. */
    method CommandExecution(id: Option<CallId>, command: Option<string>, exitCode: Option<int>)
      returns (parent: Option<CallId>)
      requires Valid()
      modifies this`openCells, this`callExits
      ensures Valid() && Repr() == old(Repr())
      ensures (Abs(), parent) == RolloutModel.CommandExecution(old(Abs()), id, command, exitCode)
    {
      hide RolloutModel.CommandExecution, FileExit, CellsSound, Awaits, RolloutModel.IsPending;
      ghost var m := Abs();
      ExecutionCases(m, id, command, exitCode);
      if exitCode.None? {
        return None;
      }
      var own := false;
      if id.Some? {
        own := IsPending(id.value);
        own := own || (id.value in calls && calls[id.value].input == CommandInput);
      }
      assert Abs() == m && Valid();
      hide Valid;
      if own {
        FileOwn(id.value, exitCode.value);
        return None;
      }
      if command.None? {
        return None;
      }
      var cells := set c | c in openCells && Awaits(openCells[c], command.value);
      assert cells == Awaiting(m, command.value);
      if |cells| != 1 {
        return None;
      }
      ghost var some := Member(cells);
      var c :| c in cells;
      FileUnder(c, command.value, exitCode.value);
      parent := Some(c);
    }

    /** A code cell's script is called: a poll of a known handle, a step, or a command. */
    method CallCell(c: CallId, polls: Option<Handle>, commands: seq<string>)
      returns (events: seq<Event>)
      requires Valid()
      modifies this`calls, this`openCells
      ensures Valid() && Repr() == old(Repr())
      ensures Outcome(Abs(), events) == RolloutModel.CallCell(old(Abs()), c, polls, commands)
    {
      ghost var m := Abs();
      hide CellSound;
      if polls.Some? && polls.value in pending {
        calls := calls[c := Call(Exec, OtherInput, polls, false)];
        assert Values() == m.pending;
        return [];
      }
      calls := calls[c := if itemBased then Call(Exec, OtherInput, None, true)
                          else Call(Exec, CommandInput, None, false)];
      if commands != [] {
        FreshCellSound(commands);
        openCells := openCells[c := Cell(commands, map[])];
      }
      events := [Opened(c)];
      assert Values() == m.pending;
    }

    method TakeFunctionOutput(c: CallId, output: Parsed) returns (events: seq<Event>)
      requires Valid()
      modifies this, Repr()
      ensures Valid() && fresh(Repr() - old(Repr()))
      ensures Outcome(Abs(), events) == RolloutModel.TakeFunctionOutput(old(Abs()), c, output)
    {
      hide CellSound, RolloutModel.PollResult, RolloutModel.CommandOutput;
      ghost var m := Abs();
      if c !in calls {
        return [];
      }
      var call := calls[c];
      calls := calls - {c};
      assert Abs() == m.(calls := calls);
      if call.tool == PollTool {
        events := PollResult(call.polls, output);
      } else if call.input == CommandInput {
        var event := CommandOutput(c, output);
        events := [event];
      } else {
        events := if call.input == PlanInput then [] else [Finished(c)];
      }
    }

    method TakeCustomOutput(c: CallId, output: Parsed) returns (events: seq<Event>)
      requires Valid()
      modifies this, Repr()
      ensures Valid() && fresh(Repr() - old(Repr()))
      ensures Outcome(Abs(), events) == RolloutModel.TakeCustomOutput(old(Abs()), c, output)
    {
      hide CellSound, RolloutModel.PollResult, RolloutModel.CommandOutput;
      ghost var m := Abs();
      if c !in calls {
        return [];
      }
      var call := calls[c];
      calls := calls - {c};
      assert Abs() == m.(calls := calls);
      if call.polls.Some? {
        events := PollResult(call.polls, output);
      } else if call.codeCell {
        if output.running.None? {
          openCells := openCells - {c};
        }
        events := [Finished(c)];
        assert Values() == m.pending;
      } else if call.tool == Exec {
        var event := CommandOutput(c, output);
        events := [event];
      } else {
        events := if call.tool == ApplyPatch then [] else [Finished(c)];
      }
    }

    /**
     Reads one record. The heap, with its shared records, moves exactly as the model does, and the
     events are the model's.
     */
    method ParseRecord(r: Record) returns (events: seq<Event>)
      requires Valid()
      modifies this, Repr()
      ensures Valid() && fresh(Repr() - old(Repr()))
      ensures Outcome(Abs(), events) == Step(old(Abs()), r)
    {
      hide CellSound, RolloutModel.CallCell, RolloutModel.TakeFunctionOutput,
        RolloutModel.TakeCustomOutput, RolloutModel.CommandExecution;
      ghost var m := Abs();
      match r
      case Session(items) =>
        itemBased := items;
        events := [];
        assert Values() == m.pending;
      case Called(c, call) =>
        calls := calls[c := call];
        events := if call.tool == PollTool || call.input == PlanInput then [] else [Opened(c)];
        assert Values() == m.pending;
      case CellCalled(c, polls, commands) =>
        events := CallCell(c, polls, commands);
      case FunctionOutput(c, output) =>
        events := TakeFunctionOutput(c, output);
      case CustomOutput(c, output) =>
        events := TakeCustomOutput(c, output);
      case Process(id, nested, command, exitCode) =>
        var parent := CommandExecution(id, command, exitCode);
        var exit := if exitCode.Some? then Explicit(exitCode.value) else Unknown;
        ExecutionFrame(m, id, command, exitCode);
        events := if itemBased && id.Some? && nested && command.Some?
                  then [Nested(id.value, parent, exit)] else [];
      case Patched(c) =>
        calls := calls - {c};
        events := [Finished(c)];
        assert Values() == m.pending;
    }

    lemma HeldInRepr(command: PendingCommand)
      requires Shared() && Held(Abs(), command.callId).Some?
      requires forall h :: h in pending && pending[h].callId == command.callId ==>
                 pending[h] == command
      ensures command in Repr()
    {
      var h :| h in pending && pending[h].callId == command.callId;
    }
  }

  lemma ForgottenValues(m: Model, was: map<Handle, PendingCommand>,
                        kept: map<Handle, PendingCommand>, c: CallId)
    requires m.pending.Keys == was.Keys
    requires forall h :: h in was ==> m.pending[h] == was[h].Value()
    requires forall h :: h in kept <==> h in was && was[h].callId != c
    requires forall h :: h in kept ==> kept[h] == was[h]
    ensures (map h | h in kept :: kept[h].Value()) == RolloutModel.Forget(m, c).pending
  {
    var left, right := map h | h in kept :: kept[h].Value(), RolloutModel.Forget(m, c).pending;
    forall h ensures h in left <==> h in right {
      assert h in was ==> m.pending[h] == was[h].Value();
    }
    assert left.Keys == right.Keys;
    forall h | h in left ensures left[h] == right[h] {
      assert m.pending[h] == was[h].Value();
    }
  }

  lemma ForgetFields(m: Model, c: CallId)
    ensures var m' := RolloutModel.Forget(m, c);
            m' == m.(pending := m'.pending,
                     lastRunning := if m.lastRunning.Some? && m.lastRunning.value.callId == c
                                    then None else m.lastRunning)
  {
  }

  lemma CompletedCells(m: Model, c: CallId, output: Parsed, final: bool)
    requires CellsSound(m)
    ensures CellsSound(RolloutModel.CommandCompleted(m, c, output, final).model)
  {
    hide RolloutModel.RecordedExit, CellSound;
  }

  lemma TrackedCells(m: Model, c: CallId, output: Parsed)
    ensures RolloutModel.TrackRunning(m, c, output).openCells == m.openCells
    ensures CellsSound(m) ==> CellsSound(RolloutModel.TrackRunning(m, c, output))
  {
    hide Held, CellSound;
  }

  /** The outcomes of filing a code, by the tests that lead to each. */
  lemma ExecutionCases(m: Model, id: Option<CallId>, command: Option<string>, exitCode: Option<int>)
    ensures exitCode.None? ==> RolloutModel.CommandExecution(m, id, command, exitCode) == (m, None)
    ensures exitCode.Some? && TakesItsOwnCode(m, id) ==>
              var codes := if id.value in m.callExits then m.callExits[id.value] else [];
              RolloutModel.CommandExecution(m, id, command, exitCode)
              == (m.(callExits := m.callExits[id.value := codes + [exitCode.value]]), None)
    ensures exitCode.Some? && !TakesItsOwnCode(m, id)
            && (command.None? || |Awaiting(m, command.value)| != 1) ==>
              RolloutModel.CommandExecution(m, id, command, exitCode) == (m, None)
    ensures exitCode.Some? && !TakesItsOwnCode(m, id) && command.Some? ==>
              forall c :: c in Awaiting(m, command.value) && |Awaiting(m, command.value)| == 1 ==>
                RolloutModel.CommandExecution(m, id, command, exitCode)
                == (m.(openCells := m.openCells[c :=
                      FileExit(m.openCells[c], command.value, exitCode.value)]), Some(c))
  {
    hide FileExit, TakesItsOwnCode;
    if command.Some? {
      AwaitingOne(m, command.value, Awaiting(m, command.value));
      hide Awaiting;
    }
  }

  lemma AwaitingOne(m: Model, command: string, cells: set<CallId>)
    requires cells == Awaiting(m, command)
    ensures |cells| == 1 <==> exists c :: OnlyAwaits(m, command, c)
    ensures |cells| == 1 ==> forall c :: c in cells ==> OnlyAwaits(m, command, c)
    ensures forall c, d :: OnlyAwaits(m, command, c) && OnlyAwaits(m, command, d) ==> c == d
  {
    if |cells| == 1 {
      var c := Member(cells);
      SubsetSize({c}, cells);
      assert OnlyAwaits(m, command, c);
    }
    forall c, d | OnlyAwaits(m, command, c) && OnlyAwaits(m, command, d) ensures c == d {
      assert d in {c};
    }
  }

  lemma FreshCellSound(commands: seq<string>)
    requires commands != []
    ensures CellSound(Cell(commands, map[]))
  {
  }

  lemma HeldNone(m: Model, c: CallId)
    requires Held(m, c).None?
    ensures forall h :: h in m.pending ==> m.pending[h].callId != c
  {
  }

  /**
   All codes of a complete cell, command by command in whatever order its map lists them: as many as
   the script names commands.
   */
  method Flatten(cell: Cell) returns (codes: seq<int>)
    requires CellSound(cell) && Complete(cell)
    ensures |codes| == |cell.commands|
    ensures AllZero(codes) <==> forall c :: c in cell.exits ==> AllZero(cell.exits[c])
    ensures |cell.commands| == 1 ==> codes == Filed(cell, cell.commands[0])
  {
    codes := [];
    var left := cell.exits.Keys;
    ghost var rest := multiset(cell.commands);
    KeysAreNamed(cell);
    while left != {}
      invariant left <= cell.exits.Keys
      invariant forall c :: c in left <==> c in rest
      invariant forall c :: c in left ==> rest[c] == |cell.exits[c]|
      invariant |codes| + |rest| == |cell.commands|
      invariant AllZero(codes) <==>
                  forall c :: c in cell.exits && c !in left ==> AllZero(cell.exits[c])
      invariant |cell.commands| == 1 ==>
                  codes == if cell.commands[0] in left then [] else Filed(cell, cell.commands[0])
      decreases |left|
    {
      var c :| c in left;
      ZeroAppend(codes, cell.exits[c]);
      if |cell.commands| == 1 {
        OnlyCommand(cell, c);
      }
      codes := codes + cell.exits[c];
      rest := rest[c := 0];
      left := left - {c};
    }
    EmptyRest(rest);
  }

  lemma EmptyRest(rest: multiset<string>)
    requires forall c :: c !in rest
    ensures |rest| == 0
  {
    assert rest == multiset{};
  }

  lemma ZeroAppend(a: seq<int>, b: seq<int>)
    ensures AllZero(a + b) <==> AllZero(a) && AllZero(b)
  {
    forall i | 0 <= i < |b| ensures (a + b)[|a| + i] == b[i] {}
    if AllZero(a + b) {
      forall i | 0 <= i < |a| ensures a[i] == 0 { assert (a + b)[i] == a[i]; }
      forall i | 0 <= i < |b| ensures b[i] == 0 { assert (a + b)[|a| + i] == b[i]; }
    }
  }

  lemma OnlyCommand(cell: Cell, c: string)
    requires |cell.commands| == 1 && c in multiset(cell.commands)
    ensures c == cell.commands[0]
  {
    assert c in cell.commands;
  }

  /** The commands of a complete sound cell are those with codes, each as often as it is named. */
  lemma KeysAreNamed(cell: Cell)
    requires CellSound(cell) && Complete(cell)
    ensures forall c :: c in cell.exits <==> c in multiset(cell.commands)
    ensures forall c :: c in cell.exits ==> |cell.exits[c]| == multiset(cell.commands)[c]
  {
    forall c | c in multiset(cell.commands) ensures c in cell.exits {
      CompleteIsExact(cell, c);
    }
    forall c | c in cell.exits
      ensures c in multiset(cell.commands) && |cell.exits[c]| == multiset(cell.commands)[c]
    {
      assert Count(cell.commands, c) > 0;
      assert c in cell.commands;
      CompleteIsExact(cell, c);
    }
  }
}
