/**
 What a Codex rollout says about long-running commands and exit codes, as a function of the records
 read so far.

 A record is taken after its text was parsed: an output's running handle, body and exit status, and
 the poll handle and command list of a code cell's script, are inputs. Call identifiers and poll
 handles are numbers, since only their equality matters.
 */
module RolloutModel {
  import opened Wrappers

  type CallId = int
  type Handle = int

  datatype Exit = Explicit(code: int) | InferredFailure | Unknown

  datatype Parsed = Parsed(running: Option<Handle>, body: string, exit: Exit)

  datatype Tool = Shell | PollTool | Exec | ApplyPatch | OtherTool

  datatype Input = CommandInput | PlanInput | OtherInput

  /** A call whose output has not arrived yet. */
  datatype Call = Call(tool: Tool, input: Input, polls: Option<Handle>, codeCell: bool)

  /** A command that yielded while its process was still running. */
  datatype Command = Command(callId: CallId, chunks: seq<string>)

  /** An open code cell: the commands its script names, and the codes recorded for each. */
  datatype Cell = Cell(commands: seq<string>, exits: map<string, seq<int>>)

  datatype Record =
    | Session(itemBased: bool)
    | Called(callId: CallId, call: Call)
    | CellCalled(callId: CallId, polls: Option<Handle>, commands: seq<string>)
    | FunctionOutput(callId: CallId, output: Parsed)
    | CustomOutput(callId: CallId, output: Parsed)
    | Process(id: Option<CallId>, nested: bool, command: Option<string>, exitCode: Option<int>)
    | Patched(callId: CallId)

  datatype Event =
    | Opened(callId: CallId)
    | Finished(callId: CallId)
    | Completed(callId: CallId, final: bool, body: string, exit: Exit)
    | Nested(callId: CallId, parent: Option<CallId>, exit: Exit)

  datatype Model = Model(
    calls: map<CallId, Call>,
    pending: map<Handle, Command>,
    lastRunning: Option<Command>,
    openCells: map<CallId, Cell>,
    callExits: map<CallId, seq<int>>,
    itemBased: bool)

  const Empty := Model(map[], map[], None, map[], map[], false)

  datatype Outcome = Outcome(model: Model, events: seq<Event>)

  function Join(chunks: seq<string>): string {
    if chunks == [] then "" else Join(chunks[..|chunks| - 1]) + chunks[|chunks| - 1]
  }

  function Chunk(body: string): seq<string> {
    if body == "" then [] else [body]
  }

  // ---- Running commands ----

  predicate IsPending(m: Model, c: CallId) {
    exists h :: h in m.pending && m.pending[h].callId == c
  }

  /** Adds a chunk to one command, wherever it is held. */
  function Push(m: Model, c: CallId, body: string): Model {
    m.(pending := map h | h in m.pending :: PushTo(m.pending[h], c, body),
       lastRunning := if m.lastRunning.Some? then Some(PushTo(m.lastRunning.value, c, body)) else None)
  }

  function PushTo(command: Command, c: CallId, body: string): Command {
    if command.callId == c then command.(chunks := command.chunks + Chunk(body)) else command
  }

  /** The command already held for a call, if any. */
  ghost function Held(m: Model, c: CallId): Option<Command> {
    if m.lastRunning.Some? && m.lastRunning.value.callId == c then m.lastRunning
    else if IsPending(m, c) then
      assert exists h :: h in m.pending && m.pending[h].callId == c;
      var h :| h in m.pending && m.pending[h].callId == c;
      Some(m.pending[h])
    else None
  }

  function Bind(m: Model, h: Handle, command: Command): Model {
    m.(pending := m.pending[h := command], lastRunning := Some(command))
  }

  /** Remembers a command whose call yielded, under the handle its output names. */
  ghost function TrackRunning(m: Model, c: CallId, output: Parsed): Model {
    if output.running.None? then m
    else
      var held := Held(m, c);
      Bind(m, output.running.value,
           if held.Some? then held.value else Command(c, Chunk(output.body)))
  }

  /** The command a poll returns output of. */
  function Target(m: Model, polls: Option<Handle>): Option<Command> {
    if polls.Some? then
      if polls.value in m.pending then Some(m.pending[polls.value]) else None
    else m.lastRunning
  }

  /** Forgets a command under every handle. */
  function Forget(m: Model, c: CallId): Model {
    m.(pending := map h | h in m.pending && m.pending[h].callId != c :: m.pending[h],
       lastRunning := if m.lastRunning.Some? && m.lastRunning.value.callId == c then None
                      else m.lastRunning)
  }

  ghost function PollResult(m: Model, polls: Option<Handle>, output: Parsed): Outcome {
    var target := Target(m, polls);
    if target.None? then Outcome(m, [])
    else
      var c := target.value.callId;
      var pushed := Push(m, c, output.body);
      var command := PushTo(target.value, c, output.body);
      if output.running.Some? then
        Outcome(Bind(pushed, output.running.value, command), [])
      else
        CommandCompleted(Forget(pushed, c), c, output.(body := Join(command.chunks)), true)
  }

  // ---- Exit codes ----

  function Count(commands: seq<string>, command: string): nat {
    multiset(commands)[command]
  }

  function Filed(cell: Cell, command: string): seq<int> {
    if command in cell.exits then cell.exits[command] else []
  }

  /** Every command the script names has reported as often as it is named. */
  predicate Complete(cell: Cell) {
    forall i :: 0 <= i < |cell.commands| ==>
      |Filed(cell, cell.commands[i])| >= Count(cell.commands, cell.commands[i])
  }

  predicate AllZero(codes: seq<int>) {
    forall i :: 0 <= i < |codes| ==> codes[i] == 0
  }

  /** What a complete cell says: its one command's code, or 0 if every command exited 0. */
  function CellExit(cell: Cell): Option<int> {
    if !Complete(cell) then None
    else if |cell.commands| == 1 then
      var codes := Filed(cell, cell.commands[0]);
      if |codes| == 1 then Some(codes[0]) else None
    else if cell.commands != [] && forall c :: c in cell.exits ==> AllZero(cell.exits[c]) then Some(0)
    else None
  }

  function CodesExit(codes: seq<int>): Option<int> {
    if codes == [] then None
    else if |codes| == 1 || AllZero(codes) then Some(codes[0])
    else None
  }

  function RecordedExit(m: Model, c: CallId): Option<int> {
    if c in m.openCells then CellExit(m.openCells[c])
    else if c in m.callExits then CodesExit(m.callExits[c])
    else None
  }

  function CommandCompleted(m: Model, c: CallId, output: Parsed, final: bool): Outcome {
    if output.running.Some? then
      Outcome(m, [Completed(c, final, output.body, output.exit)])
    else
      var recorded := RecordedExit(m, c);
      var exit := if recorded.Some? && !output.exit.Explicit? then Explicit(recorded.value)
                  else output.exit;
      Outcome(m.(openCells := m.openCells - {c}, callExits := m.callExits - {c}),
              [Completed(c, final, output.body, exit)])
  }

  /** A cell whose script names a command more often than codes were filed for it. */
  predicate Awaits(cell: Cell, command: string) {
    |Filed(cell, command)| < Count(cell.commands, command)
  }

  function Awaiting(m: Model, command: string): set<CallId> {
    set c | c in m.openCells && Awaits(m.openCells[c], command)
  }

  /** The one open cell whose script still awaits a code for this command. */
  predicate OnlyAwaits(m: Model, command: string, c: CallId) {
    Awaiting(m, command) == {c}
  }

  function FileExit(cell: Cell, command: string, code: int): Cell {
    cell.(exits := cell.exits[command := Filed(cell, command) + [code]])
  }

  predicate TakesItsOwnCode(m: Model, id: Option<CallId>) {
    id.Some? && ((id.value in m.calls && m.calls[id.value].input == CommandInput)
                 || IsPending(m, id.value))
  }

  /** Files the code of one process; the cell it was filed under is the parent. */
  ghost function CommandExecution(m: Model, id: Option<CallId>, command: Option<string>,
                            exitCode: Option<int>): (Model, Option<CallId>)
  {
    if exitCode.None? then (m, None)
    else if TakesItsOwnCode(m, id) then
      var codes := if id.value in m.callExits then m.callExits[id.value] else [];
      (m.(callExits := m.callExits[id.value := codes + [exitCode.value]]), None)
    else if command.None? || !exists c :: OnlyAwaits(m, command.value, c) then (m, None)
    else
      var c :| OnlyAwaits(m, command.value, c);
      assert c in Awaiting(m, command.value);
      (m.(openCells := m.openCells[c := FileExit(m.openCells[c], command.value, exitCode.value)]),
       Some(c))
  }

  // ---- Records ----

  function OpenCell(m: Model, c: CallId, call: Call, commands: seq<string>): Outcome {
    var cells := if commands == [] then m.openCells else m.openCells[c := Cell(commands, map[])];
    Outcome(m.(calls := m.calls[c := call], openCells := cells), [Opened(c)])
  }

  function CallCell(m: Model, c: CallId, polls: Option<Handle>, commands: seq<string>): Outcome {
    if polls.Some? && polls.value in m.pending then
      Outcome(m.(calls := m.calls[c := Call(Exec, OtherInput, polls, false)]), [])
    else if m.itemBased then
      OpenCell(m, c, Call(Exec, OtherInput, None, true), commands)
    else
      OpenCell(m, c, Call(Exec, CommandInput, None, false), commands)
  }

  ghost function CommandOutput(m: Model, c: CallId, output: Parsed): Outcome {
    CommandCompleted(TrackRunning(m, c, output), c, output, false)
  }

  ghost function TakeFunctionOutput(m: Model, c: CallId, output: Parsed): Outcome {
    if c !in m.calls then Outcome(m, [])
    else
      var call, m1 := m.calls[c], m.(calls := m.calls - {c});
      if call.tool == PollTool then PollResult(m1, call.polls, output)
      else if call.input == CommandInput then CommandOutput(m1, c, output)
      else if call.input == PlanInput then Outcome(m1, [])
      else Outcome(m1, [Finished(c)])
  }

  function CodeCellCompleted(m: Model, c: CallId, output: Parsed): Outcome {
    Outcome(if output.running.None? then m.(openCells := m.openCells - {c}) else m, [Finished(c)])
  }

  ghost function TakeCustomOutput(m: Model, c: CallId, output: Parsed): Outcome {
    if c !in m.calls then Outcome(m, [])
    else
      var call, m1 := m.calls[c], m.(calls := m.calls - {c});
      if call.polls.Some? then PollResult(m1, call.polls, output)
      else if call.codeCell then CodeCellCompleted(m1, c, output)
      else if call.tool == Exec then CommandOutput(m1, c, output)
      else if call.tool == ApplyPatch then Outcome(m1, [])
      else Outcome(m1, [Finished(c)])
  }

  ghost function TakeProcess(m: Model, id: Option<CallId>, nested: bool, command: Option<string>,
                       exitCode: Option<int>): Outcome
  {
    var (m1, parent) := CommandExecution(m, id, command, exitCode);
    var exit := if exitCode.Some? then Explicit(exitCode.value) else Unknown;
    Outcome(m1, if m.itemBased && id.Some? && nested && command.Some?
                then [Nested(id.value, parent, exit)] else [])
  }

  ghost function Step(m: Model, r: Record): Outcome {
    match r
    case Session(itemBased) => Outcome(m.(itemBased := itemBased), [])
    case Called(c, call) =>
      Outcome(m.(calls := m.calls[c := call]), if call.tool == PollTool || call.input == PlanInput then [] else [Opened(c)])
    case CellCalled(c, polls, commands) => CallCell(m, c, polls, commands)
    case FunctionOutput(c, output) => TakeFunctionOutput(m, c, output)
    case CustomOutput(c, output) => TakeCustomOutput(m, c, output)
    case Process(id, nested, command, exitCode) => TakeProcess(m, id, nested, command, exitCode)
    case Patched(c) => Outcome(m.(calls := m.calls - {c}), [Finished(c)])
  }

  ghost function Run(records: seq<Record>): Model {
    if records == [] then Empty
    else Step(Run(records[..|records| - 1]), records[|records| - 1]).model
  }

  ghost function Events(records: seq<Record>): seq<Event> {
    if records == [] then []
    else
      var front := records[..|records| - 1];
      Events(front) + Step(Run(front), records[|records| - 1]).events
  }
}
