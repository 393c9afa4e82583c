/**
 Reading the hunks of a unified diff, which inverts printing them, and counting their lines.

 A line number is a natural number; the source's numbers are exact below 2^53.
 */
module UnifiedDiff {
  import opened Decimals
  import opened Wrappers

  datatype Hunk = Hunk(oldStart: nat, oldLines: nat, newStart: nat, newLines: nat,
                       lines: seq<string>)

  // ---- Numbers ----

  /** The longest run of digits at the start of a text. */
  function DigitRun(s: string): (run: string)
    ensures |run| <= |s| && run == s[..|run|]
  {
    if s == "" || !Digit(s[0]) then "" else [s[0]] + DigitRun(s[1..])
  }

  lemma {:induction false} RunIsDigits(s: string)
    ensures forall i :: 0 <= i < |DigitRun(s)| ==> Digit(DigitRun(s)[i])
  {
    if s != "" && Digit(s[0]) {
      RunIsDigits(s[1..]);
    }
  }

  lemma {:induction false} RunOfDigits(digits: string, rest: string)
    requires forall i :: 0 <= i < |digits| ==> Digit(digits[i])
    requires rest == "" || !Digit(rest[0])
    ensures DigitRun(digits + rest) == digits
  {
    if digits == "" {
      assert digits + rest == rest;
    } else {
      assert (digits + rest)[1..] == digits[1..] + rest;
      RunOfDigits(digits[1..], rest);
    }
  }

  // ---- Headers ----

  predicate Begins(s: string, prefix: string) {
    |prefix| <= |s| && s[..|prefix|] == prefix
  }

  datatype Number = Number(value: nat, rest: string)

  function ReadNumber(s: string): Option<Number> {
    var run := DigitRun(s);
    RunIsDigits(s);
    if run == "" then None else Some(Number(Value(run), s[|run|..]))
  }

  datatype Range = Range(start: nat, lines: nat, rest: string)

  /** A start and, after a comma, a number of lines, which is 1 when left out. */
  function ReadRange(s: string): Option<Range> {
    var start := ReadNumber(s);
    if start.None? then None
    else if !Begins(start.value.rest, ",") then Some(Range(start.value.value, 1, start.value.rest))
    else
      var lines := ReadNumber(start.value.rest[1..]);
      if lines.None? then None
      else Some(Range(start.value.value, lines.value.value, lines.value.rest))
  }

  function ReadHeader(line: string): Option<Hunk> {
    if !Begins(line, "@@ -") then None
    else
      var before := ReadRange(line[4..]);
      if before.None? || !Begins(before.value.rest, " +") then None
      else
        var after := ReadRange(before.value.rest[2..]);
        if after.None? || !Begins(after.value.rest, " @@") then None
        else Some(Hunk(before.value.start, before.value.lines, after.value.start, after.value.lines, []))
  }

  /** A range as diffs print it: a single line is not counted. */
  function RangeText(start: nat, lines: nat): string {
    Decimal(start) + if lines == 1 then "" else "," + Decimal(lines)
  }

  /** A header, with the section heading that may follow it. */
  function HeaderText(h: Hunk, heading: string): string {
    "@@ -" + RangeText(h.oldStart, h.oldLines) + " +" + RangeText(h.newStart, h.newLines) + " @@"
    + heading
  }

  lemma NumberReads(n: nat, rest: string)
    requires rest == "" || !Digit(rest[0])
    ensures ReadNumber(Decimal(n) + rest) == Some(Number(n, rest))
  {
    RunOfDigits(Decimal(n), rest);
    DecimalReads(n);
    assert (Decimal(n) + rest)[|Decimal(n)|..] == rest;
  }

  lemma RangeReads(start: nat, lines: nat, rest: string)
    requires rest != "" && !Digit(rest[0]) && rest[0] != ','
    ensures ReadRange(RangeText(start, lines) + rest) == Some(Range(start, lines, rest))
  {
    hide ReadNumber;
    if lines == 1 {
      NumberReads(start, rest);
      assert RangeText(start, lines) + rest == Decimal(start) + rest;
      return;
    }
    var tail := "," + (Decimal(lines) + rest);
    assert RangeText(start, lines) + rest == Decimal(start) + tail;
    NumberReads(start, tail);
    assert tail[1..] == Decimal(lines) + rest;
    NumberReads(lines, rest);
  }

  lemma HeaderReads(h: Hunk, heading: string)
    ensures ReadHeader(HeaderText(h, heading)) == Some(h.(lines := []))
  {
    hide ReadRange, RangeText;
    var after := RangeText(h.newStart, h.newLines) + (" @@" + heading);
    var before := RangeText(h.oldStart, h.oldLines) + (" +" + after);
    assert HeaderText(h, heading) == "@@ -" + before;
    assert HeaderText(h, heading)[4..] == before;
    RangeReads(h.oldStart, h.oldLines, " +" + after);
    assert (" +" + after)[2..] == after;
    RangeReads(h.newStart, h.newLines, " @@" + heading);
  }

  // ---- Which lines are headers ----

  predicate Digits(s: string) {
    s != "" && forall i :: 0 <= i < |s| ==> Digit(s[i])
  }

  /** A start alone, for one line, or a start and a number of lines. */
  ghost predicate SpellsRange(text: string, start: nat, lines: nat) {
    || (Digits(text) && start == Value(text) && lines == 1)
    || exists a, b :: Digits(a) && Digits(b) && text == a + "," + b
                      && start == Value(a) && lines == Value(b)
  }

  /** `@@ -`, the old range, ` +`, the new range, ` @@`, and anything after it. */
  ghost predicate SpellsHeader(line: string, h: Hunk, before: string, after: string, heading: string) {
    && line == "@@ -" + before + " +" + after + " @@" + heading
    && SpellsRange(before, h.oldStart, h.oldLines) && SpellsRange(after, h.newStart, h.newLines)
    && h.lines == []
  }

  lemma DigitsRead(digits: string, rest: string)
    requires Digits(digits) && (rest == "" || !Digit(rest[0]))
    ensures ReadNumber(digits + rest) == Some(Number(Value(digits), rest))
  {
    RunOfDigits(digits, rest);
    assert (digits + rest)[|digits|..] == rest;
  }

  lemma NumberIsDigits(s: string)
    requires ReadNumber(s).Some?
    ensures Digits(DigitRun(s)) && ReadNumber(s).value.value == Value(DigitRun(s))
    ensures s == DigitRun(s) + ReadNumber(s).value.rest
  {
    RunIsDigits(s);
  }

  lemma SpelledRangeReads(text: string, start: nat, lines: nat, rest: string)
    requires SpellsRange(text, start, lines) && rest != "" && !Digit(rest[0]) && rest[0] != ','
    ensures ReadRange(text + rest) == Some(Range(start, lines, rest))
  {
    hide ReadNumber;
    if Digits(text) && start == Value(text) && lines == 1 {
      DigitsRead(text, rest);
    } else {
      var a, b :| Digits(a) && Digits(b) && text == a + "," + b && start == Value(a) && lines == Value(b);
      var tail := "," + (b + rest);
      assert text + rest == a + tail;
      DigitsRead(a, tail);
      assert tail[1..] == b + rest;
      DigitsRead(b, rest);
    }
  }

  lemma SpelledOnce(a: string)
    requires Digits(a)
    ensures SpellsRange(a, Value(a), 1)
  {
  }

  lemma SpelledTwice(a: string, b: string)
    requires Digits(a) && Digits(b)
    ensures SpellsRange(a + "," + b, Value(a), Value(b))
  {
  }

  lemma RangeIsSpelled(s: string) returns (text: string)
    requires ReadRange(s).Some?
    ensures var r := ReadRange(s).value; s == text + r.rest && SpellsRange(text, r.start, r.lines)
  {
    hide DigitRun, ReadNumber, Value, SpellsRange;
    NumberIsDigits(s);
    var start := ReadNumber(s).value;
    text := DigitRun(s);
    SpelledOnce(text);
    if Begins(start.rest, ",") {
      var more := start.rest[1..];
      NumberIsDigits(more);
      BeginsSplits(start.rest, ",");
      SpelledTwice(text, DigitRun(more));
      var tail := ReadNumber(more).value.rest;
      assert text + ("," + (DigitRun(more) + tail)) == (text + "," + DigitRun(more)) + tail;
      text := text + "," + DigitRun(more);
    }
  }

  lemma BeginsSplits(s: string, prefix: string)
    requires Begins(s, prefix)
    ensures s == prefix + s[|prefix|..]
  {
  }

  /** A line is read as a header exactly when it is spelled as one, with these numbers. */
  lemma HeaderIff(line: string, h: Hunk)
    ensures ReadHeader(line) == Some(h) <==>
              exists before, after, heading :: SpellsHeader(line, h, before, after, heading)
  {
    hide ReadRange, SpellsRange;
    if ReadHeader(line) == Some(h) {
      var before := RangeIsSpelled(line[4..]);
      var rest := ReadRange(line[4..]).value.rest;
      var after := RangeIsSpelled(rest[2..]);
      var tail := ReadRange(rest[2..]).value.rest;
      BeginsSplits(line, "@@ -");
      BeginsSplits(rest, " +");
      BeginsSplits(tail, " @@");
      assert line == "@@ -" + before + " +" + after + " @@" + tail[3..];
      assert SpellsHeader(line, h, before, after, tail[3..]);
    }
    if before, after, heading :| SpellsHeader(line, h, before, after, heading) {
      var tail := " @@" + heading;
      var rest := " +" + (after + tail);
      assert line == "@@ -" + (before + rest);
      assert line[4..] == before + rest;
      SpelledRangeReads(before, h.oldStart, h.oldLines, rest);
      assert rest[2..] == after + tail;
      SpelledRangeReads(after, h.newStart, h.newLines, tail);
    }
  }

  // ---- Hunks ----

  /** A line that belongs to a hunk's body. */
  predicate BodyLine(line: string) {
    line != "" && (line[0] == '+' || line[0] == '-' || line[0] == ' ')
  }

  function WithLine(hunks: seq<Hunk>, line: string): seq<Hunk>
    requires hunks != []
  {
    var last := hunks[|hunks| - 1];
    hunks[..|hunks| - 1] + [last.(lines := last.lines + [line])]
  }

  /** One more line: a header opens a hunk, and a body line goes to the hunk that is open. */
  function TakeLine(hunks: seq<Hunk>, line: string): seq<Hunk> {
    var header := ReadHeader(line);
    if header.Some? then hunks + [header.value]
    else if hunks != [] && BodyLine(line) then WithLine(hunks, line)
    else hunks
  }

  function Hunks(lines: seq<string>): seq<Hunk> {
    if lines == [] then [] else TakeLine(Hunks(lines[..|lines| - 1]), lines[|lines| - 1])
  }

  method HunksFromUnifiedDiff(lines: seq<string>) returns (hunks: seq<Hunk>)
    ensures hunks == Hunks(lines)
  {
    hide ReadHeader;
    hunks := [];
    var i := 0;
    while i < |lines|
      invariant 0 <= i <= |lines|
      invariant hunks == Hunks(lines[..i])
    {
      assert lines[..i + 1][..i] == lines[..i];
      var header := ReadHeader(lines[i]);
      if header.Some? {
        hunks := hunks + [header.value];
      } else if hunks != [] && BodyLine(lines[i]) {
        hunks := WithLine(hunks, lines[i]);
      }
      i := i + 1;
    }
    assert lines[..i] == lines;
  }

  /** A diff's lines: each hunk's header, with some heading, then its body. */
  function Lines(hunks: seq<Hunk>, heading: Hunk -> string): seq<string> {
    if hunks == [] then []
    else
      var h := hunks[|hunks| - 1];
      Lines(hunks[..|hunks| - 1], heading) + ([HeaderText(h, heading(h))] + h.lines)
  }

  predicate Bodies(h: Hunk) {
    forall i :: 0 <= i < |h.lines| ==> BodyLine(h.lines[i])
  }

  lemma BeginsAlike(s: string, prefix: string)
    ensures Begins(s, prefix) && prefix != "" ==> s != "" && s[0] == prefix[0]
  {
    if Begins(s, prefix) && prefix != "" {
      assert s[..|prefix|][0] == prefix[0];
    }
  }

  lemma BodyIsNoHeader(line: string)
    requires BodyLine(line)
    ensures ReadHeader(line).None?
  {
    BeginsAlike(line, "@@ -");
    hide Begins;
  }

  lemma BodyIsTaken(hunks: seq<Hunk>, h: Hunk, line: string)
    requires BodyLine(line)
    ensures TakeLine(hunks + [h], line) == hunks + [h.(lines := h.lines + [line])]
  {
    BodyIsNoHeader(line);
    hide ReadHeader;
    assert (hunks + [h])[..|hunks|] == hunks;
  }

  lemma HunksOfOneMore(lines: seq<string>, line: string)
    ensures Hunks(lines + [line]) == TakeLine(Hunks(lines), line)
  {
    hide TakeLine;
    assert (lines + [line])[..|lines|] == lines;
  }

  lemma {:induction false} BodyTaken(lines: seq<string>, hunks: seq<Hunk>, h: Hunk,
                                     body: seq<string>)
    requires Hunks(lines) == hunks + [h.(lines := [])]
    requires forall i :: 0 <= i < |body| ==> BodyLine(body[i])
    ensures Hunks(lines + body) == hunks + [h.(lines := body)]
  {
    hide TakeLine, Hunks;
    if body == [] {
      assert lines + body == lines;
    } else {
      var front, last := body[..|body| - 1], body[|body| - 1];
      BodyTaken(lines, hunks, h, front);
      assert lines + body == (lines + front) + [last];
      HunksOfOneMore(lines + front, last);
      BodyIsTaken(hunks, h.(lines := front), last);
      assert front + [last] == body;
    }
  }

  lemma HeaderIsTaken(hunks: seq<Hunk>, h: Hunk, heading: string)
    ensures TakeLine(hunks, HeaderText(h, heading)) == hunks + [h.(lines := [])]
  {
    HeaderReads(h, heading);
    hide ReadHeader, HeaderText;
  }

  /** Reading a printed diff gives back its hunks, whatever headings its headers carry. */
  lemma {:induction false} HunksInvertLines(hunks: seq<Hunk>, heading: Hunk -> string)
    requires forall i :: 0 <= i < |hunks| ==> Bodies(hunks[i])
    ensures Hunks(Lines(hunks, heading)) == hunks
  {
    hide TakeLine, HeaderText;
    if hunks != [] {
      var front, h := hunks[..|hunks| - 1], hunks[|hunks| - 1];
      HunksInvertLines(front, heading);
      assert Bodies(h);
      var before, header := Lines(front, heading), HeaderText(h, heading(h));
      hide Hunks;
      HunksOfOneMore(before, header);
      HeaderIsTaken(front, h, heading(h));
      BodyTaken(before + [header], front, h, h.lines);
      assert before + ([header] + h.lines) == before + [header] + h.lines;
      assert front + [h] == hunks;
    } else {
      assert Hunks([]) == [];
    }
  }

  /** The added, removed and unchanged lines among some lines. */
  function BodyOf(lines: seq<string>): seq<string> {
    if lines == [] then []
    else
      var front, last := BodyOf(lines[..|lines| - 1]), lines[|lines| - 1];
      if last != "" && last[0] in ['+', '-', ' '] then front + [last] else front
  }

  predicate IsHeader(line: string) {
    ReadHeader(line).Some?
  }

  /** The places of all headers, in order. */
  ghost predicate Heads(lines: seq<string>, heads: seq<int>) {
    && (forall i, j :: 0 <= i < j < |heads| ==> heads[i] < heads[j])
    && (forall i :: 0 <= i < |heads| ==> 0 <= heads[i] < |lines|)
    && (forall n :: 0 <= n < |lines| ==> (n in heads <==> IsHeader(lines[n])))
  }

  /** Where the lines of a hunk end: at the next header, or with the diff. */
  function Until(lines: seq<string>, heads: seq<int>, k: int): int
    requires 0 <= k < |heads|
  {
    if k + 1 < |heads| then heads[k + 1] else |lines|
  }

  /** A hunk is its header and the body lines up to the next one. */
  ghost predicate HunkAt(lines: seq<string>, heads: seq<int>, k: int, h: Hunk) {
    && 0 <= k < |heads| && 0 <= heads[k] < Until(lines, heads, k) <= |lines|
    && ReadHeader(lines[heads[k]]).Some?
    && h == ReadHeader(lines[heads[k]]).value.(
              lines := BodyOf(lines[heads[k] + 1..Until(lines, heads, k)]))
  }

  lemma HeaderHasNoLines(line: string)
    ensures ReadHeader(line).Some? ==> ReadHeader(line).value.lines == []
  {
    hide ReadRange;
  }

  /** A hunk that a later header, or line after a later header, does not touch. */
  lemma HunkStays(lines: seq<string>, line: string, heads: seq<int>, heads': seq<int>, k: int, h: Hunk)
    requires HunkAt(lines, heads, k, h) && heads <= heads'
    requires Until(lines + [line], heads', k) == Until(lines, heads, k)
    ensures HunkAt(lines + [line], heads', k, h)
  {
    hide ReadHeader, BodyOf;
    var all, until := lines + [line], Until(lines, heads, k);
    assert heads'[k] == heads[k] && all[heads[k]] == lines[heads[k]];
    assert all[heads[k] + 1..until] == lines[heads[k] + 1..until];
  }

  lemma HunkOpens(lines: seq<string>, line: string, heads: seq<int>)
    requires ReadHeader(line).Some?
    ensures HunkAt(lines + [line], heads + [|lines|], |heads|, ReadHeader(line).value)
  {
    HeaderHasNoLines(line);
    hide ReadHeader;
    var all := lines + [line];
    assert all[|lines| + 1..|all|] == [];
  }

  lemma HunkTakesLine(lines: seq<string>, line: string, heads: seq<int>, h: Hunk)
    requires heads != [] && HunkAt(lines, heads, |heads| - 1, h)
    ensures HunkAt(lines + [line], heads, |heads| - 1,
                   if BodyLine(line) then h.(lines := h.lines + [line]) else h)
  {
    hide ReadHeader;
    var all, from := lines + [line], heads[|heads| - 1] + 1;
    assert all[from..|all|] == lines[from..|lines|] + [line];
    assert (lines[from..|lines|] + [line])[..|lines[from..|lines|]|] == lines[from..|lines|];
  }

  lemma HunksAfter(lines: seq<string>, line: string)
    ensures var hunks, after := Hunks(lines), Hunks(lines + [line]);
            if IsHeader(line) then after == hunks + [ReadHeader(line).value]
            else
              && |after| == |hunks|
              && (forall k :: 0 <= k < |hunks| - 1 ==> after[k] == hunks[k])
              && (hunks != [] ==>
                    var last := hunks[|hunks| - 1];
                    after[|hunks| - 1] ==
                    if BodyLine(line) then last.(lines := last.lines + [line]) else last)
  {
    HunksOfOneMore(lines, line);
    hide ReadHeader, BodyLine, Hunks;
  }

  /** Each hunk still stands after one more line. */
  lemma HunkStandsAfter(lines: seq<string>, line: string, heads: seq<int>, k: int)
    requires |Hunks(lines)| == |heads|
    requires forall n :: 0 <= n < |heads| ==> HunkAt(lines, heads, n, Hunks(lines)[n])
    requires var heads' := if IsHeader(line) then heads + [|lines|] else heads; 0 <= k < |heads'|
    ensures var heads' := if IsHeader(line) then heads + [|lines|] else heads;
            |Hunks(lines + [line])| == |heads'|
            && HunkAt(lines + [line], heads', k, Hunks(lines + [line])[k])
  {
    hide ReadHeader, BodyLine, HunkAt, Hunks;
    HunksAfter(lines, line);
    var heads' := if IsHeader(line) then heads + [|lines|] else heads;
    if k == |heads| {
      HunkOpens(lines, line, heads);
    } else if k < |heads| - 1 || IsHeader(line) {
      HunkStays(lines, line, heads, heads', k, Hunks(lines)[k]);
    } else {
      HunkTakesLine(lines, line, heads, Hunks(lines)[k]);
    }
  }

  /**
   Reading a diff finds one hunk per header line, in order, and gives it exactly the body lines between
   this header and the next. Every other line, and every line before the first header, is passed over.
   */
  lemma {:induction false} HunksStand(lines: seq<string>) returns (heads: seq<int>)
    ensures Heads(lines, heads) && |Hunks(lines)| == |heads|
    ensures forall k :: 0 <= k < |heads| ==> HunkAt(lines, heads, k, Hunks(lines)[k])
  {
    if lines == [] {
      heads := [];
    } else {
      var front, line := lines[..|lines| - 1], lines[|lines| - 1];
      assert lines == front + [line];
      var before := HunksStand(front);
      hide ReadHeader, BodyLine, HunkAt, Hunks, Heads;
      HunksAfter(front, line);
      HeadsGrow(front, line, before);
      heads := if IsHeader(line) then before + [|front|] else before;
      forall k | 0 <= k < |heads| ensures HunkAt(lines, heads, k, Hunks(lines)[k]) {
        HunkStandsAfter(front, line, before, k);
      }
    }
  }

  lemma HeadsGrow(lines: seq<string>, line: string, heads: seq<int>)
    requires Heads(lines, heads)
    ensures Heads(lines + [line], if IsHeader(line) then heads + [|lines|] else heads)
  {
    hide IsHeader;
  }

  // ---- Counting ----

  function Starting(lines: seq<string>, mark: char): nat {
    if lines == [] then 0
    else
      var line := lines[|lines| - 1];
      Starting(lines[..|lines| - 1], mark) + if line != "" && line[0] == mark then 1 else 0
  }

  function Marked(hunks: seq<Hunk>, mark: char): nat {
    if hunks == [] then 0
    else Marked(hunks[..|hunks| - 1], mark) + Starting(hunks[|hunks| - 1].lines, mark)
  }

  method CountHunkLines(hunks: seq<Hunk>) returns (added: nat, removed: nat)
    ensures added == Marked(hunks, '+') && removed == Marked(hunks, '-')
  {
    added, removed := 0, 0;
    var i := 0;
    while i < |hunks|
      invariant 0 <= i <= |hunks|
      invariant added == Marked(hunks[..i], '+') && removed == Marked(hunks[..i], '-')
    {
      assert hunks[..i + 1][..i] == hunks[..i];
      var lines := hunks[i].lines;
      var j := 0;
      while j < |lines|
        invariant 0 <= j <= |lines|
        invariant added == Marked(hunks[..i], '+') + Starting(lines[..j], '+')
        invariant removed == Marked(hunks[..i], '-') + Starting(lines[..j], '-')
      {
        assert lines[..j + 1][..j] == lines[..j];
        if lines[j] != "" && lines[j][0] == '+' {
          added := added + 1;
        } else if lines[j] != "" && lines[j][0] == '-' {
          removed := removed + 1;
        }
        j := j + 1;
      }
      assert lines[..j] == lines;
      i := i + 1;
    }
    assert hunks[..i] == hunks;
  }

  /** The header counts the lines of the old and of the new text. */
  predicate Tallies(h: Hunk) {
    && h.oldLines == Starting(h.lines, '-') + Starting(h.lines, ' ')
    && h.newLines == Starting(h.lines, '+') + Starting(h.lines, ' ')
  }

  function Growth(hunks: seq<Hunk>): int {
    if hunks == [] then 0
    else Growth(hunks[..|hunks| - 1]) + hunks[|hunks| - 1].newLines - hunks[|hunks| - 1].oldLines
  }

  /** For hunks whose headers tally, the counts differ by exactly what the headers say. */
  lemma {:induction false} CountsMatchHeaders(hunks: seq<Hunk>)
    requires forall i :: 0 <= i < |hunks| ==> Tallies(hunks[i])
    ensures Marked(hunks, '+') - Marked(hunks, '-') == Growth(hunks)
  {
    if hunks != [] {
      CountsMatchHeaders(hunks[..|hunks| - 1]);
      assert Tallies(hunks[|hunks| - 1]);
    }
  }
}
