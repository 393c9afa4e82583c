/**
 Where exit codes go, told from the records alone: which code cells are open, which codes each has been
 given for which command, and which codes wait for a call's own result.
 */
module RolloutCells {
  import opened Wrappers
  import opened IntSets
  import opened RolloutModel
  import opened RolloutSafety
  import opened RolloutHistory
  import opened RolloutExits

  // ---- What the records say ----

  /** A script that names commands is called, and is not read as a poll. */
  predicate Opens(records: seq<Record>, r: Record, c: CallId) {
    r.CellCalled? && r.callId == c && r.commands != [] && CellCall(records, r.polls).polls.None?
  }

  /** The result of a call: its own output or that of a poll about it, with nothing left running. */
  predicate Results(records: seq<Record>, r: Record, c: CallId) {
    About(records, r) == Some(c) && Names(records, r).None?
  }

  /** The output of a code cell, with nothing left running. */
  predicate CellReturns(records: seq<Record>, r: Record, c: CallId) {
    && r.CustomOutput? && r.callId == c && r.output.running.None?
    && OpenCall(records, c).Some?
    && OpenCall(records, c).value.polls.None? && OpenCall(records, c).value.codeCell
  }

  /** The script of a call whose cell is open. */
  function Script(records: seq<Record>, c: CallId): Option<seq<string>> {
    if records == [] then None
    else
      var front, last := records[..|records| - 1], records[|records| - 1];
      if Opens(front, last, c) then Some(last.commands)
      else if Results(front, last, c) || CellReturns(front, last, c) then None
      else Script(front, c)
  }

  /** The process is that of a call of its own: an open command, or one that still runs. */
  ghost predicate OfItsCall(records: seq<Record>, id: Option<CallId>) {
    && id.Some?
    && ((OpenCall(records, id.value).Some? && OpenCall(records, id.value).value.input == CommandInput)
        || Runs(records, id.value))
  }

  /** The codes given to a cell for one command, in order, since its script was called. */
  ghost function Given(records: seq<Record>, c: CallId, command: string): seq<int>
    decreases |records|, 0
  {
    if records == [] then []
    else
      var front, last := records[..|records| - 1], records[|records| - 1];
      if Opens(front, last, c) then []
      else if Gives(front, last, c, command) then Given(front, c, command) + [last.exitCode.value]
      else Given(front, c, command)
  }

  /** An open cell names a command more often than codes were given for it. */
  ghost predicate Wants(records: seq<Record>, c: CallId, command: string)
    decreases |records|, 1
  {
    && Script(records, c).Some?
    && |Given(records, c, command)| < multiset(Script(records, c).value)[command]
  }

  /** No other open cell does. */
  ghost predicate OnlyWants(records: seq<Record>, c: CallId, command: string)
    decreases |records|, 2
  {
    Wants(records, c, command) && forall d :: d != c ==> !Wants(records, d, command)
  }

  /** A process with a code, not of a call of its own, for a command that only this cell wants. */
  ghost predicate Gives(records: seq<Record>, r: Record, c: CallId, command: string)
    decreases |records|, 3
  {
    && r.Process? && r.exitCode.Some? && r.command == Some(command) && !OfItsCall(records, r.id)
    && OnlyWants(records, c, command)
  }

  /** The codes kept for a call's own result. */
  ghost function Kept(records: seq<Record>, c: CallId): seq<int> {
    if records == [] then []
    else
      var front, last := records[..|records| - 1], records[|records| - 1];
      if last.Process? && last.exitCode.Some? && last.id == Some(c) && OfItsCall(front, last.id)
      then Kept(front, c) + [last.exitCode.value]
      else if Results(front, last, c) then []
      else Kept(front, c)
  }

  // ---- Agreement ----

  function CommandsOf(m: Model, c: CallId): Option<seq<string>> {
    if c in m.openCells then Some(m.openCells[c].commands) else None
  }

  function CodesOf(m: Model, c: CallId, command: string): seq<int> {
    if c in m.openCells && command in m.openCells[c].exits then m.openCells[c].exits[command] else []
  }

  function OwnCodesOf(m: Model, c: CallId): seq<int> {
    if c in m.callExits then m.callExits[c] else []
  }

  /** The parser's cells and codes are what the records say. */
  ghost predicate CellsAgree(m: Model, records: seq<Record>) {
    && (forall c :: Script(records, c) == CommandsOf(m, c))
    && (forall c, command :: c in m.openCells ==> Given(records, c, command) == CodesOf(m, c, command))
    && (forall c :: Kept(records, c) == OwnCodesOf(m, c))
  }

  /** A cell and the codes of a call, as they were. */
  predicate Untouched(m: Model, m': Model, c: CallId) {
    && (c in m'.openCells <==> c in m.openCells)
    && (c in m.openCells ==> m'.openCells[c] == m.openCells[c])
    && OwnCodesOf(m', c) == OwnCodesOf(m, c)
  }

  lemma OwnResult(m: Model, d: CallId, output: Parsed, c: CallId)
    ensures var m' := CommandOutput(m, d, output).model;
            if output.running.None? && c == d
            then c !in m'.openCells && c !in m'.callExits
            else Untouched(m, m', c)
  {
    hide RecordedExit, Held;
  }

  lemma PollResults(m: Model, polls: Option<Handle>, output: Parsed, c: CallId)
    ensures var m', target := PollResult(m, polls, output).model, Target(m, polls);
            if target.Some? && target.value.callId == c && output.running.None?
            then c !in m'.openCells && c !in m'.callExits
            else Untouched(m, m', c)
  {
    hide RecordedExit, Target, Join, PushTo;
  }

  /** An output read as neither touches a cell only when it is the cell's own. */
  lemma UnreadCells(m: Model, r: Record, c: CallId)
    requires (r.FunctionOutput? || r.CustomOutput?) && Reads(m, r).NoLog?
    ensures var m' := Step(m, r).model;
            if r.CustomOutput? && r.callId == c && r.output.running.None? && c in m.calls
               && m.calls[c].polls.None? && m.calls[c].codeCell
            then c !in m'.openCells && OwnCodesOf(m', c) == OwnCodesOf(m, c)
            else Untouched(m, m', c)
  {
    hide CommandOutput, PollResult, Target;
  }

  lemma ReadCells(m: Model, r: Record, c: CallId)
    requires !Reads(m, r).NoLog?
    ensures var m', reading := Step(m, r).model, Reads(m, r);
            var about := if reading.Own? then Some(reading.callId)
                         else var target := Target(m, reading.polls);
                              if target.Some? then Some(target.value.callId) else None;
            if about == Some(c) && reading.output.running.None?
            then c !in m'.openCells && c !in m'.callExits
            else Untouched(m, m', c)
  {
    StepReads(m, r);
    hide CommandOutput, PollResult, Step;
    match Reads(m, r)
    case Own(d, output) => OwnResult(m.(calls := m.calls - {d}), d, output, c);
    case Poll(polls, output) => PollResults(m.(calls := m.calls - {r.callId}), polls, output, c);
  }

  /** What an output does to the cell and the codes of a call. */
  lemma OutputCells(m: Model, records: seq<Record>, r: Record, c: CallId)
    requires Agrees(m, records) && (r.FunctionOutput? || r.CustomOutput?)
    ensures var m' := Step(m, r).model;
            if Results(records, r, c) then c !in m'.openCells && c !in m'.callExits
            else if CellReturns(records, r, c)
            then c !in m'.openCells && OwnCodesOf(m', c) == OwnCodesOf(m, c)
            else Untouched(m, m', c)
  {
    ReadsAlike(m, records, r);
    assert OpenCall(records, r.callId)
           == if r.callId in m.calls then Some(m.calls[r.callId]) else None;
    hide LastBound, OpenCall, LastYielded, ItemBased, HowRead, Step, Target;
    if Reads(m, r).NoLog? {
      UnreadCells(m, r, c);
    } else {
      ReadCells(m, r, c);
      assert !CellReturns(records, r, r.callId);
      hide Reads;
    }
  }

  lemma WantsIff(m: Model, records: seq<Record>, c: CallId, command: string)
    requires CellsAgree(m, records)
    ensures Wants(records, c, command) <==> c in m.openCells && Awaits(m.openCells[c], command)
  {
    assert Script(records, c) == CommandsOf(m, c);
    if c in m.openCells {
      assert Given(records, c, command) == CodesOf(m, c, command);
    }
    hide Script, Given;
  }

  lemma OnlyWantsIff(m: Model, records: seq<Record>, c: CallId, command: string)
    requires CellsAgree(m, records)
    ensures OnlyWants(records, c, command) <==> OnlyAwaits(m, command, c)
  {
    WantsIff(m, records, c, command);
    forall d ensures Wants(records, d, command) <==> d in Awaiting(m, command) {
      WantsIff(m, records, d, command);
    }
    hide Script, Given, Awaits, CellsAgree;
    if OnlyAwaits(m, command, c) {
      assert c in Awaiting(m, command);
      assert Wants(records, c, command);
      forall d | d != c ensures !Wants(records, d, command) {
        assert d !in Awaiting(m, command);
      }
    } else if Wants(records, c, command) {
      assert c in Awaiting(m, command);
      var others := Awaiting(m, command) - {c};
      assert others != {} by { assert Awaiting(m, command) != {c}; }
      var d := Member(others);
      assert Wants(records, d, command);
    }
  }

  lemma ItsCallIff(records: seq<Record>, id: Option<CallId>)
    ensures OfItsCall(records, id) <==> TakesItsOwnCode(Run(records), id)
  {
    if id.Some? {
      TablesAgree(records);
      RunsIsPending(records, id.value);
      var m := Run(records);
      assert OpenCall(records, id.value) == if id.value in m.calls then Some(m.calls[id.value]) else None;
      hide Run, OpenCall, LastBound, LastYielded, Runs, IsPending;
    }
  }

  /** What a process leaves of a cell and the codes of a call. */
  lemma ExecutionCells(m: Model, id: Option<CallId>, command: Option<string>, exitCode: Option<int>,
                       c: CallId)
    ensures var m', own := CommandExecution(m, id, command, exitCode).0, TakesItsOwnCode(m, id);
            && OwnCodesOf(m', c) == (if own && exitCode.Some? && id == Some(c)
                                     then OwnCodesOf(m, c) + [exitCode.value] else OwnCodesOf(m, c))
            && (c in m'.openCells <==> c in m.openCells)
            && (c in m.openCells ==>
                  m'.openCells[c] ==
                  if exitCode.Some? && !own && command.Some? && OnlyAwaits(m, command.value, c)
                  then FileExit(m.openCells[c], command.value, exitCode.value) else m.openCells[c])
  {
    hide FileExit, IsPending;
    if command.Some? && OnlyAwaits(m, command.value, c) {
      forall d | OnlyAwaits(m, command.value, d) ensures d == c {
        assert d in Awaiting(m, command.value);
      }
    }
  }

  lemma FiledCodes(m: Model, m': Model, c: CallId, command: string, code: int)
    requires c in m.openCells && c in m'.openCells
    requires m'.openCells[c] == FileExit(m.openCells[c], command, code)
    ensures CommandsOf(m', c) == CommandsOf(m, c)
    ensures forall other :: CodesOf(m', c, other)
              == if other == command then CodesOf(m, c, other) + [code] else CodesOf(m, c, other)
  {
  }

  /** A cell and its codes after a record, from before it. */
  ghost predicate CellFollows(m: Model, m': Model, records: seq<Record>, r: Record, c: CallId) {
    if Opens(records, r, c) then m'.openCells.Keys >= {c} && m'.openCells[c] == Cell(r.commands, map[])
    else if Results(records, r, c) || CellReturns(records, r, c) then c !in m'.openCells
    else
      && CommandsOf(m', c) == CommandsOf(m, c)
      && forall command :: c in m.openCells ==>
           CodesOf(m', c, command) ==
           if Gives(records, r, c, command) then CodesOf(m, c, command) + [r.exitCode.value]
           else CodesOf(m, c, command)
  }

  ghost predicate OwnFollows(m: Model, m': Model, records: seq<Record>, r: Record, c: CallId) {
    OwnCodesOf(m', c) ==
    if r.Process? && r.exitCode.Some? && r.id == Some(c) && OfItsCall(records, r.id)
    then OwnCodesOf(m, c) + [r.exitCode.value]
    else if Results(records, r, c) then [] else OwnCodesOf(m, c)
  }

  /** The code of a process goes to the one cell that wants it, unless the process is a call's own. */
  lemma GivesIff(records: seq<Record>, r: Record, c: CallId, command: string)
    requires r.Process? && CellsAgree(Run(records), records)
    ensures var m := Run(records);
            Gives(records, r, c, command) <==>
              r.exitCode.Some? && !TakesItsOwnCode(m, r.id) && r.command == Some(command)
              && OnlyAwaits(m, command, c)
  {
    hide TakesItsOwnCode, OfItsCall, OnlyAwaits, CellsAgree;
    ItsCallIff(records, r.id);
    OnlyWantsIff(Run(records), records, c, command);
  }

  lemma ProcessKeepsCell(records: seq<Record>, r: Record, c: CallId, command: string)
    requires r.Process? && CellsAgree(Run(records), records) && c in Run(records).openCells
    ensures var m, m' := Run(records), Step(Run(records), r).model;
            && c in m'.openCells && CommandsOf(m', c) == CommandsOf(m, c)
            && CodesOf(m', c, command) ==
               if Gives(records, r, c, command) then CodesOf(m, c, command) + [r.exitCode.value]
               else CodesOf(m, c, command)
  {
    var m, m' := Run(records), Step(Run(records), r).model;
    ExecutionCells(m, r.id, r.command, r.exitCode, c);
    assert m' == CommandExecution(m, r.id, r.command, r.exitCode).0;
    GivesIff(records, r, c, command);
    hide Step, Run, TakesItsOwnCode, CommandExecution, Gives, CellsAgree, OnlyAwaits;
    if m'.openCells[c] != m.openCells[c] {
      FiledCodes(m, m', c, r.command.value, r.exitCode.value);
    }
    hide FileExit;
  }

  lemma NoResult(records: seq<Record>, r: Record, c: CallId)
    requires !r.FunctionOutput? && !r.CustomOutput?
    ensures !Results(records, r, c) && !CellReturns(records, r, c)
  {
    assert HowRead(records, r) == NoLog;
  }

  lemma ProcessFollows(records: seq<Record>, r: Record, c: CallId)
    requires r.Process? && CellsAgree(Run(records), records)
    ensures var m, m' := Run(records), Step(Run(records), r).model;
            CellFollows(m, m', records, r, c) && OwnFollows(m, m', records, r, c)
  {
    var m, m' := Run(records), Step(Run(records), r).model;
    ItsCallIff(records, r.id);
    ExecutionCells(m, r.id, r.command, r.exitCode, c);
    assert m' == CommandExecution(m, r.id, r.command, r.exitCode).0;
    NoResult(records, r, c);
    hide Step, Run, TakesItsOwnCode, OfItsCall, CommandExecution, CellsAgree, FileExit, Gives, Results,
      CellReturns, OnlyAwaits;
    if c in m.openCells {
      forall command ensures CodesOf(m', c, command) ==
               if Gives(records, r, c, command) then CodesOf(m, c, command) + [r.exitCode.value]
               else CodesOf(m, c, command)
      {
        ProcessKeepsCell(records, r, c, command);
      }
      ProcessKeepsCell(records, r, c, "");
    }
  }

  lemma OutputFollows(m: Model, records: seq<Record>, r: Record, c: CallId)
    requires Agrees(m, records) && (r.FunctionOutput? || r.CustomOutput?)
    ensures var m' := Step(m, r).model;
            CellFollows(m, m', records, r, c) && OwnFollows(m, m', records, r, c)
  {
    hide Step, Results, CellReturns, Agrees;
    OutputCells(m, records, r, c);
    ResultDropsCodes(Step(m, r).model, c);
  }

  lemma OtherFollows(m: Model, records: seq<Record>, r: Record, c: CallId)
    requires Agrees(m, records) && !r.Process? && !r.FunctionOutput? && !r.CustomOutput?
    ensures var m' := Step(m, r).model;
            CellFollows(m, m', records, r, c) && OwnFollows(m, m', records, r, c)
  {
    NoResult(records, r, c);
    if r.CellCalled? {
      CellAlike(m, records, r.polls);
    }
    hide CellCall, Results, CellReturns, Agrees;
  }

  lemma ResultDropsCodes(m: Model, c: CallId)
    ensures c !in m.callExits ==> OwnCodesOf(m, c) == []
  {
  }

  lemma CellAlike(m: Model, records: seq<Record>, polls: Option<Handle>)
    requires Agrees(m, records)
    ensures CellCall(records, polls).polls.None? <==> !(polls.Some? && polls.value in m.pending)
  {
    if polls.Some? {
      assert LastBound(records, polls.value) == HolderOf(m, polls.value);
    }
    hide LastBound, LastYielded, OpenCall, ItemBased;
  }

  // ---- Whole runs ----

  lemma CellAfter(records: seq<Record>, r: Record, c: CallId)
    ensures Script(records + [r], c) ==
            if Opens(records, r, c) then Some(r.commands)
            else if Results(records, r, c) || CellReturns(records, r, c) then None
            else Script(records, c)
    ensures forall command ::
              Given(records + [r], c, command) ==
              if Opens(records, r, c) then []
              else if Gives(records, r, c, command) then Given(records, c, command) + [r.exitCode.value]
              else Given(records, c, command)
    ensures Kept(records + [r], c) ==
            if r.Process? && r.exitCode.Some? && r.id == Some(c) && OfItsCall(records, r.id)
            then Kept(records, c) + [r.exitCode.value]
            else if Results(records, r, c) then [] else Kept(records, c)
  {
    var after := records + [r];
    assert after[..|after| - 1] == records && after[|after| - 1] == r;
    hide Opens, Results, CellReturns, OfItsCall;
  }

  lemma CellStaysAgreed(m: Model, m': Model, records: seq<Record>, r: Record, c: CallId)
    requires CellsAgree(m, records)
    requires CellFollows(m, m', records, r, c) && OwnFollows(m, m', records, r, c)
    ensures Script(records + [r], c) == CommandsOf(m', c)
    ensures forall command :: c in m'.openCells ==>
              Given(records + [r], c, command) == CodesOf(m', c, command)
    ensures Kept(records + [r], c) == OwnCodesOf(m', c)
  {
    CellAfter(records, r, c);
    hide Opens, Results, CellReturns, OfItsCall, Gives, Script, Given, Kept;
    assert Script(records, c) == CommandsOf(m, c);
    assert Kept(records, c) == OwnCodesOf(m, c);
    forall command | c in m'.openCells
      ensures Given(records + [r], c, command) == CodesOf(m', c, command)
    {
      assert c in m.openCells ==> Given(records, c, command) == CodesOf(m, c, command);
    }
  }

  /**
   After any records, the open cells are those of the scripts called and not yet answered; each holds for
   each command exactly the codes of the processes that only it still wanted, and for each call exactly
   the codes of its own processes are kept, until its result.
   */
  lemma {:induction false} CodesAreFiled(records: seq<Record>)
    ensures CellsAgree(Run(records), records)
  {
    if records == [] {
      assert forall c: CallId, command :: Given([], c, command) == [];
    } else {
      var front, last := records[..|records| - 1], records[|records| - 1];
      assert records == front + [last];
      CodesAreFiled(front);
      TablesAgree(front);
      var m, m' := Run(front), Run(records);
      assert m' == Step(m, last).model;
      hide Step, CellsAgree, CellFollows, OwnFollows, Agrees, Run;
      forall c
        ensures Script(records, c) == CommandsOf(m', c)
        ensures forall command :: c in m'.openCells ==> Given(records, c, command) == CodesOf(m', c, command)
        ensures Kept(records, c) == OwnCodesOf(m', c)
      {
        if last.Process? {
          ProcessFollows(front, last, c);
        } else if last.FunctionOutput? || last.CustomOutput? {
          OutputFollows(m, front, last, c);
        } else {
          OtherFollows(m, front, last, c);
        }
        CellStaysAgreed(m, m', front, last, c);
      }
      CellsAgreeAll(m', records);
    }
  }

  lemma CellsAgreeAll(m: Model, records: seq<Record>)
    requires forall c :: Script(records, c) == CommandsOf(m, c)
    requires forall c, command :: c in m.openCells ==> Given(records, c, command) == CodesOf(m, c, command)
    requires forall c :: Kept(records, c) == OwnCodesOf(m, c)
    ensures CellsAgree(m, records)
  {
  }

  /** A process of a code cell is reported under the cell that its code was given to, if any. */
  lemma NestedUnderItsCell(records: seq<Record>, r: Record, e: Event)
    requires r.Process? && e in Step(Run(records), r).events
    ensures e.Nested? && ItemBased(records) && r.nested && r.id == Some(e.callId) && r.command.Some?
    ensures forall c :: e.parent == Some(c) <==> Gives(records, r, c, r.command.value)
    ensures e.exit == if r.exitCode.Some? then Explicit(r.exitCode.value) else Unknown
  {
    var m := Run(records);
    TablesAgree(records);
    CodesAreFiled(records);
    forall c ensures e.parent == Some(c) <==> Gives(records, r, c, r.command.value) {
      GivesIff(records, r, c, r.command.value);
      ExecutionParent(m, r.id, r.command, r.exitCode, c);
      hide Run, Gives, CommandExecution, OnlyAwaits, TakesItsOwnCode;
    }
  }

  lemma ExecutionParent(m: Model, id: Option<CallId>, command: Option<string>, exitCode: Option<int>,
                        c: CallId)
    ensures CommandExecution(m, id, command, exitCode).1 == Some(c) <==>
              exitCode.Some? && !TakesItsOwnCode(m, id) && command.Some?
              && OnlyAwaits(m, command.value, c)
  {
    hide FileExit, IsPending;
    if command.Some? && OnlyAwaits(m, command.value, c) {
      forall d | OnlyAwaits(m, command.value, d) ensures d == c {
        assert d in Awaiting(m, command.value);
      }
    }
  }

  // ---- The exit shown ----

  predicate AreZero(codes: seq<int>) {
    forall code :: code in codes ==> code == 0
  }

  ghost predicate OnlyZeros(records: seq<Record>, c: CallId) {
    forall command :: AreZero(Given(records, c, command))
  }

  /**
   The code on record for a call when its result arrives. For a script: once every command it names has
   its codes, the code of its one command, or 0 if no code is another. For any other call: its one code,
   or 0 if it has several and no other.
   */
  ghost function OnRecord(records: seq<Record>, c: CallId): Option<int> {
    if Script(records, c).Some? then
      var script := Script(records, c).value;
      if exists command :: command in script && Wants(records, c, command) then None
      else if |script| == 1 then
        var codes := Given(records, c, script[0]);
        if |codes| == 1 then Some(codes[0]) else None
      else if OnlyZeros(records, c) then Some(0)
      else None
    else
      var codes := Kept(records, c);
      if |codes| == 1 then Some(codes[0])
      else if codes != [] && AreZero(codes) then Some(0) else None
  }

  lemma CompleteIff(m: Model, records: seq<Record>, c: CallId)
    requires CellsAgree(m, records) && c in m.openCells
    ensures Complete(m.openCells[c]) <==>
              !exists command :: command in m.openCells[c].commands && Wants(records, c, command)
  {
    var commands := m.openCells[c].commands;
    forall command ensures Wants(records, c, command) <==> Awaits(m.openCells[c], command) {
      WantsIff(m, records, c, command);
    }
    hide Script, Given, CellsAgree, Filed, Count;
    if Complete(m.openCells[c]) {
      forall command | command in commands ensures !Wants(records, c, command) {
        var i :| 0 <= i < |commands| && commands[i] == command;
      }
    } else {
      var i :| 0 <= i < |commands| && Awaits(m.openCells[c], commands[i]);
      assert commands[i] in commands && Wants(records, c, commands[i]);
    }
  }

  lemma AllZeroIff(m: Model, records: seq<Record>, c: CallId)
    requires CellsAgree(m, records) && c in m.openCells
    ensures (forall command :: command in m.openCells[c].exits ==> AllZero(m.openCells[c].exits[command]))
            <==> OnlyZeros(records, c)
  {
    var exits := m.openCells[c].exits;
    if OnlyZeros(records, c) {
      forall command | command in exits ensures AllZero(exits[command]) {
        assert AreZero(Given(records, c, command));
        assert Given(records, c, command) == CodesOf(m, c, command);
        ZeroAlike(exits[command]);
      }
    } else {
      var command :| !AreZero(Given(records, c, command));
      assert Given(records, c, command) == CodesOf(m, c, command);
      ZeroAlike(CodesOf(m, c, command));
      assert command in exits && !AllZero(exits[command]);
    }
  }

  lemma ZeroAlike(codes: seq<int>)
    ensures AllZero(codes) <==> AreZero(codes)
  {
    if AreZero(codes) {
      forall i | 0 <= i < |codes| ensures codes[i] == 0 {
        assert codes[i] in codes;
      }
    }
  }

  lemma OneGiven(m: Model, records: seq<Record>, c: CallId, command: string)
    requires CellsAgree(m, records) && c in m.openCells
    ensures Filed(m.openCells[c], command) == Given(records, c, command)
    ensures Script(records, c) == Some(m.openCells[c].commands)
  {
    assert Script(records, c) == CommandsOf(m, c);
    assert Given(records, c, command) == CodesOf(m, c, command);
  }

  lemma ScriptOnRecord(m: Model, records: seq<Record>, c: CallId)
    requires CellsAgree(m, records) && CellsSound(m) && c in m.openCells
    ensures RecordedExit(m, c) == OnRecord(records, c)
  {
    assert CellSound(m.openCells[c]);
    CompleteIff(m, records, c);
    AllZeroIff(m, records, c);
    OneGiven(m, records, c, m.openCells[c].commands[0]);
    hide Wants, Given, Script, Complete, Filed, CellsAgree, OnlyZeros;
  }

  lemma KeptOnRecord(m: Model, records: seq<Record>, c: CallId)
    requires CellsAgree(m, records) && c !in m.openCells
    ensures RecordedExit(m, c) == OnRecord(records, c)
  {
    assert Script(records, c) == CommandsOf(m, c);
    assert Kept(records, c) == OwnCodesOf(m, c);
    ZeroAlike(Kept(records, c));
    hide Wants, Given, Script, Kept, CellsAgree;
  }

  /**
   The exit of every completion, told from the records alone: the output's own where that is explicit or
   the process still runs, and otherwise the code on record for the call, if there is one.
   */
  lemma ShownIsOnRecord(records: seq<Record>, r: Record, e: Event)
    requires e in Step(Run(records), r).events && e.Completed?
    ensures r.FunctionOutput? || r.CustomOutput?
    ensures e.exit == if r.output.running.None? && !r.output.exit.Explicit?
                         && OnRecord(records, e.callId).Some?
                      then Explicit(OnRecord(records, e.callId).value) else r.output.exit
  {
    StepExit(Run(records), r, e);
    CodesAreFiled(records);
    RunKeepsInv(records);
    hide Step, OnRecord, RecordedExit, CellsAgree, OneLog, CellsSound;
    if e.callId in Run(records).openCells {
      ScriptOnRecord(Run(records), records, e.callId);
    } else {
      KeptOnRecord(Run(records), records, e.callId);
    }
  }
}
