/**
 The shell command a generated hook runs: quoting the relay's path for a POSIX shell, and the test by
 which Salidium recognises its own hooks.
 */
module RelayCommand {
  import opened Wrappers

  // ---- Quoting ----

  /** A single quote ends the quoting, is escaped, and starts it again. */
  function Escaped(s: string): string {
    if s == "" then ""
    else (if s[0] == '\'' then "'\\''" else [s[0]]) + Escaped(s[1..])
  }

  function Quoted(s: string): string {
    "'" + Escaped(s) + "'"
  }

  datatype Word = Word(text: string, rest: string)

  /**
   One word as a shell reads it under section 2.2 of the POSIX Shell Command Language: single quotes keep
   everything up to the next one, a backslash outside quotes keeps one character, and an unquoted
   blank ends the word.
   */
  function ReadWord(s: string, quoted: bool): Word {
    if s == "" then Word("", "")
    else if quoted then
      if s[0] == '\'' then ReadWord(s[1..], false)
      else var w := ReadWord(s[1..], true); Word([s[0]] + w.text, w.rest)
    else if s[0] == '\'' then ReadWord(s[1..], true)
    else if s[0] == '\\' && |s| > 1 then
      var w := ReadWord(s[2..], false);
      Word([s[1]] + w.text, w.rest)
    else if s[0] == ' ' then Word("", s)
    else var w := ReadWord(s[1..], false); Word([s[0]] + w.text, w.rest)
  }

  lemma EscapeReads(more: string)
    ensures ReadWord("'\\''" + more, true)
            == Word("'" + ReadWord(more, true).text, ReadWord(more, true).rest)
  {
    var all := "'\\''" + more;
    var s1, s2 := all[1..], "'" + more;
    assert s1[2..] == s2 && s2[1..] == more;
    assert s1[0] == '\\' && s1[1] == '\'';
    assert ReadWord(s2, false) == ReadWord(more, true);
    assert ReadWord(s1, false) == Word(['\''] + ReadWord(s2, false).text, ReadWord(s2, false).rest);
    assert ReadWord(all, true) == ReadWord(s1, false);
  }

  lemma PlainReads(c: char, more: string)
    requires c != '\''
    ensures ReadWord([c] + more, true)
            == Word([c] + ReadWord(more, true).text, ReadWord(more, true).rest)
  {
    assert ([c] + more)[1..] == more;
  }

  lemma {:induction false} EscapedReads(s: string, tail: string)
    ensures ReadWord(Escaped(s) + tail, true)
            == Word(s + ReadWord(tail, true).text, ReadWord(tail, true).rest)
  {
    hide ReadWord, Escaped;
    if s == "" {
      NothingEscaped(tail);
      assert s + ReadWord(tail, true).text == ReadWord(tail, true).text;
    } else {
      EscapedReads(s[1..], tail);
      EscapedHeadReads(s, tail);
      assert [s[0]] + (s[1..] + ReadWord(tail, true).text) == s + ReadWord(tail, true).text;
    }
  }

  lemma NothingEscaped(tail: string)
    ensures Escaped("") + tail == tail
  {
  }

  lemma EscapedHeadReads(s: string, tail: string)
    requires s != ""
    ensures var w := ReadWord(Escaped(s[1..]) + tail, true);
            ReadWord(Escaped(s) + tail, true) == Word([s[0]] + w.text, w.rest)
  {
    hide ReadWord;
    var more := Escaped(s[1..]) + tail;
    assert Escaped(s) + tail == (if s[0] == '\'' then "'\\''" else [s[0]]) + more;
    if s[0] == '\'' {
      EscapeReads(more);
    } else {
      PlainReads(s[0], more);
    }
  }

  /** A shell reads a quoted path back as that path, whatever characters it has. */
  lemma QuotedReads(s: string, rest: string)
    ensures ReadWord(Quoted(s) + " " + rest, false) == Word(s, " " + rest)
  {
    var tail := "' " + rest;
    EscapedReads(s, tail);
    assert (Quoted(s) + " " + rest)[1..] == Escaped(s) + tail;
    assert tail[1..] == " " + rest;
    assert s + "" == s;
  }

  // ---- The command ----

  const MARKER := "SALIDIUM_HOOK=1 "
  const RELAY := "/hooks/relay.sh"

  /** Fails where the source throws: on a path with a line break. */
  function Command(script: string, provider: string): Option<string> {
    if '\n' in script || '\r' in script then None
    else Some(MARKER + Quoted(script) + " " + provider)
  }

  function HookCommand(relay: string, event: string, pressure: string): string {
    relay + " " + event + " " + pressure
  }

  predicate White(c: char) {
    c == ' ' || c == '\t' || c == '\n' || c == '\r' || c == '\U{0B}' || c == '\U{0C}' ||
    c == '\U{A0}' || c == '\U{FEFF}' || c == '\U{2028}' || c == '\U{2029}' || c == '\U{1680}' ||
    c == '\U{202F}' || c == '\U{205F}' || c == '\U{3000}' || '\U{2000}' <= c <= '\U{200A}'
  }

  function TrimStart(s: string): string {
    if s != "" && White(s[0]) then TrimStart(s[1..]) else s
  }

  function TrimEnd(s: string): string {
    if s != "" && White(s[|s| - 1]) then TrimEnd(s[..|s| - 1]) else s
  }

  predicate Begins(s: string, prefix: string) {
    |prefix| <= |s| && s[..|prefix|] == prefix
  }

  /** The relay's path, a closing quote, and then a blank or the end. */
  predicate RelayAt(s: string, i: int) {
    && 0 <= i <= |s| && Begins(s[i..], RELAY + "'")
    && (i + |RELAY| + 1 == |s| || White(s[i + |RELAY| + 1]))
  }

  /** The form older versions installed: an unquoted path through `/.salidium/hooks/`. */
  predicate LegacyFrom(s: string, i: int, j: int) {
    && 0 <= i <= j <= |s|
    && (i == 0 || (Begins(s, "/bin/sh") && 7 < i && forall k :: 7 <= k < i ==> White(s[k])))
    && (forall k :: i <= k < j ==>
          !White(s[k]) && (k > i ==> s[k] != '\'' && s[k] != '"'))
    && Begins(s[j..], "/.salidium/hooks/")
  }

  predicate Recognises(command: string) {
    var s := TrimEnd(TrimStart(command));
    || (Begins(s, MARKER + "'") && exists i :: 0 <= i <= |s| && RelayAt(s, i))
    || (exists i, j :: 0 <= i <= |s| && 0 <= j <= |s| && LegacyFrom(s, i, j))
  }

  lemma {:induction false} EscapedKeepsTail(s: string, tail: string)
    requires '\'' !in tail
    ensures exists head :: Escaped(s + tail) == head + tail
  {
    if s == "" {
      EscapedPlain(tail);
      assert s + tail == tail && Escaped(s + tail) == "" + tail;
    } else {
      EscapedKeepsTail(s[1..], tail);
      var head :| Escaped(s[1..] + tail) == head + tail;
      assert (s + tail)[1..] == s[1..] + tail;
      var first := if s[0] == '\'' then "'\\''" else [s[0]];
      assert Escaped(s + tail) == (first + head) + tail;
    }
  }

  lemma {:induction false} EscapedPlain(s: string)
    requires '\'' !in s
    ensures Escaped(s) == s
  {
    if s != "" {
      EscapedPlain(s[1..]);
    }
  }

  /**
   Every hook Salidium generates satisfies its own recogniser, whatever the home directory, as long as
   it is absolute, so that the relay's path ends in `/hooks/relay.sh`.
   */
  lemma GeneratedIsRecognised(home: string, provider: string, event: string, pressure: string)
    requires pressure != "" && !White(pressure[|pressure| - 1])
    requires Command(home + RELAY, provider).Some?
    ensures Recognises(HookCommand(Command(home + RELAY, provider).value, event, pressure))
  {
    hide Escaped, TrimEnd, TrimStart, LegacyFrom, RelayAt, Begins;
    var relay := Command(home + RELAY, provider).value;
    EscapedKeepsTail(home, RELAY);
    var head :| Escaped(home + RELAY) == head + RELAY;
    CommandShape(relay, head, provider, event, pressure);
    NothingToTrim(HookCommand(relay, event, pressure));
    RelayFound(head, " " + provider + " " + event + " " + pressure);
  }

  lemma CommandShape(relay: string, head: string, provider: string, event: string,
                     pressure: string)
    requires relay == MARKER + ("'" + (head + RELAY) + "'") + " " + provider && pressure != ""
    ensures var command := HookCommand(relay, event, pressure);
            && command == MARKER + "'" + head + RELAY + "'"
                          + (" " + provider + " " + event + " " + pressure)
            && command != "" && command[0] == 'S'
            && command[|command| - 1] == pressure[|pressure| - 1]
  {
  }

  lemma NothingToTrim(s: string)
    requires s != "" && !White(s[0]) && !White(s[|s| - 1])
    ensures TrimEnd(TrimStart(s)) == s
  {
    hide White;
    assert TrimStart(s) == s;
  }

  lemma RelayFound(head: string, rest: string)
    requires rest != "" && White(rest[0])
    ensures var s := MARKER + "'" + head + RELAY + "'" + rest;
            Begins(s, MARKER + "'") && exists i :: 0 <= i <= |s| && RelayAt(s, i)
  {
    hide White;
    var before := MARKER + "'" + head;
    var s := MARKER + "'" + head + RELAY + "'" + rest;
    assert s[..|MARKER| + 1] == MARKER + "'";
    assert s[|before|..] == RELAY + "'" + rest;
    assert s[|before|..][..|RELAY| + 1] == RELAY + "'";
    assert s[|before| + |RELAY| + 1] == rest[0];
    assert RelayAt(s, |before|);
  }

  predicate OneLine(s: string) {
    '\n' !in s && '\r' !in s
  }

  lemma {:induction false} EscapedStaysOnLine(s: string)
    ensures OneLine(Escaped(s)) <==> OneLine(s)
  {
    if s != "" {
      EscapedStaysOnLine(s[1..]);
      assert s == [s[0]] + s[1..];
    }
  }

  /**
   There is a command exactly when it fits on one line; after the marker, a shell reads the script's path
   as its first word.
   */
  lemma CommandIsOneLine(script: string, provider: string)
    requires OneLine(provider)
    ensures var command := MARKER + Quoted(script) + " " + provider;
            && (Command(script, provider).Some? <==> OneLine(command))
            && (Command(script, provider).Some? ==>
                  && Command(script, provider).value == command
                  && ReadWord(command[|MARKER|..], false) == Word(script, " " + provider))
  {
    hide Escaped, ReadWord;
    var command := MARKER + Quoted(script) + " " + provider;
    EscapedStaysOnLine(script);
    assert command[|MARKER|..] == Quoted(script) + " " + provider;
    QuotedReads(script, provider);
  }

  // ---- What is recognised ----

  ghost predicate AllWhite(s: string) {
    forall k :: 0 <= k < |s| ==> White(s[k])
  }

  ghost predicate Trimmed(s: string) {
    s != "" && !White(s[0]) && !White(s[|s| - 1])
  }

  /** The marker, and then a quoted text that ends with the relay's path and the word with it. */
  ghost predicate SpellsCurrent(s: string, middle: string, rest: string) {
    s == MARKER + "'" + middle + RELAY + "'" + rest && (rest == "" || White(rest[0]))
  }

  /** Nothing, or the shell and a gap. */
  ghost predicate SpellsShell(shell: string) {
    shell == "" || exists gap :: gap != "" && AllWhite(gap) && shell == "/bin/sh" + gap
  }

  /** A path without gaps and without quotes, but for one in front. */
  ghost predicate SpellsPath(path: string) {
    forall k :: 0 <= k < |path| ==> !White(path[k]) && (k > 0 ==> path[k] != '\'' && path[k] != '"')
  }

  ghost predicate SpellsLegacy(s: string, shell: string, path: string, rest: string) {
    s == shell + path + "/.salidium/hooks/" + rest && SpellsShell(shell) && SpellsPath(path)
  }

  ghost predicate SpellsOurs(s: string) {
    || (exists middle, rest :: SpellsCurrent(s, middle, rest))
    || (exists shell, path, rest :: SpellsLegacy(s, shell, path, rest))
  }

  lemma BeginsIff(s: string, prefix: string)
    ensures Begins(s, prefix) ==> s == prefix + s[|prefix|..]
    ensures forall rest :: s == prefix + rest ==> Begins(s, prefix)
  {
  }

  lemma RelayIsSpelled(s: string, i: int)
    requires Begins(s, MARKER + "'") && RelayAt(s, i)
    ensures exists middle, rest :: SpellsCurrent(s, middle, rest)
  {
    hide White;
    var n := |MARKER| + 1;
    assert s[i] == s[i..][0] == (RELAY + "'")[0] == '/';
    assert forall k :: 0 <= k < n ==> s[k] == s[..n][k] == (MARKER + "'")[k] != '/';
    assert n <= i;
    var middle, rest := s[n..i], s[i + |RELAY| + 1..];
    BeginsIff(s[i..], RELAY + "'");
    assert s == s[..n] + middle + s[i..];
    assert s[i..] == RELAY + "'" + rest;
    assert SpellsCurrent(s, middle, rest);
  }

  lemma LegacyIsSpelled(s: string, i: int, j: int)
    requires LegacyFrom(s, i, j)
    ensures exists shell, path, rest :: SpellsLegacy(s, shell, path, rest)
  {
    hide White;
    var shell, path, rest := s[..i], s[i..j], s[j..][|"/.salidium/hooks/"|..];
    if i > 0 {
      var gap := s[7..i];
      assert s[..7] == "/bin/sh" && shell == s[..7] + gap;
      assert AllWhite(gap);
    }
    assert s == shell + path + s[j..];
    assert SpellsLegacy(s, shell, path, rest);
  }

  lemma SpelledIsLegacy(s: string, shell: string, path: string, rest: string)
    requires SpellsLegacy(s, shell, path, rest)
    ensures exists i, j :: 0 <= i <= |s| && 0 <= j <= |s| && LegacyFrom(s, i, j)
  {
    hide White;
    var i, j := |shell|, |shell| + |path|;
    var tail := "/.salidium/hooks/" + rest;
    assert s == shell + path + tail;
    assert s[..i] == shell && s[i..j] == path && s[j..] == tail;
    assert tail[..|"/.salidium/hooks/"|] == "/.salidium/hooks/";
    assert forall k :: i <= k < j ==> s[k] == path[k - i];
    if shell != "" {
      var gap :| gap != "" && AllWhite(gap) && shell == "/bin/sh" + gap;
      assert s[..7] == shell[..7] == "/bin/sh";
      assert forall k :: 7 <= k < i ==> s[k] == gap[k - 7];
    }
    assert LegacyFrom(s, i, j);
  }

  lemma {:induction false} TrimStartDrops(s: string)
    ensures exists before :: AllWhite(before) && s == before + TrimStart(s)
    ensures TrimStart(s) != "" ==> !White(TrimStart(s)[0])
  {
    hide White;
    if s != "" && White(s[0]) {
      TrimStartDrops(s[1..]);
      var before :| AllWhite(before) && s[1..] == before + TrimStart(s[1..]);
      assert AllWhite([s[0]] + before) && s == [s[0]] + before + TrimStart(s);
    } else {
      assert AllWhite("") && s == "" + TrimStart(s);
    }
  }

  lemma {:induction false} TrimEndDrops(s: string)
    ensures exists after :: AllWhite(after) && s == TrimEnd(s) + after
    ensures TrimEnd(s) != "" ==> !White(TrimEnd(s)[|TrimEnd(s)| - 1])
  {
    hide White;
    if s != "" && White(s[|s| - 1]) {
      var front := s[..|s| - 1];
      TrimEndDrops(front);
      var after :| AllWhite(after) && front == TrimEnd(front) + after;
      assert AllWhite(after + [s[|s| - 1]]) && s == TrimEnd(s) + (after + [s[|s| - 1]]);
    } else {
      assert AllWhite("") && s == TrimEnd(s) + "";
    }
  }

  lemma {:induction false} TrimStartSkips(before: string, s: string)
    requires AllWhite(before) && (s == "" || !White(s[0]))
    ensures TrimStart(before + s) == s
  {
    hide White;
    if before == "" {
      assert before + s == s;
    } else {
      assert (before + s)[1..] == before[1..] + s;
      TrimStartSkips(before[1..], s);
    }
  }

  lemma {:induction false} TrimEndSkips(s: string, after: string)
    requires AllWhite(after) && (s == "" || !White(s[|s| - 1]))
    ensures TrimEnd(s + after) == s
  {
    hide White;
    if after == "" {
      assert s + after == s;
    } else {
      assert (s + after)[..|s + after| - 1] == s + after[..|after| - 1];
      TrimEndSkips(s, after[..|after| - 1]);
    }
  }

  /** Trimming keeps what stands between white space. */
  lemma TrimIff(command: string, s: string)
    requires s != ""
    ensures s == TrimEnd(TrimStart(command)) <==>
              Trimmed(s) && exists before, after ::
                AllWhite(before) && AllWhite(after) && command == before + s + after
  {
    hide White, AllWhite, TrimStart, TrimEnd;
    TrimStartDrops(command);
    TrimEndDrops(TrimStart(command));
    var before :| AllWhite(before) && command == before + TrimStart(command);
    var after :| AllWhite(after) && TrimStart(command) == TrimEnd(TrimStart(command)) + after;
    if s == TrimEnd(TrimStart(command)) {
      assert TrimStart(command)[0] == s[0];
      assert command == before + s + after;
    }
    if Trimmed(s) {
      forall before: string, after: string
        | AllWhite(before) && AllWhite(after) && command == before + s + after
        ensures s == TrimEnd(TrimStart(command))
      {
        assert command == before + (s + after);
        TrimStartSkips(before, s + after);
        TrimEndSkips(s, after);
      }
    }
  }

  /**
   Exactly the commands that spell, between white space, a current hook of Salidium's or one of an older
   version are recognised.
   */
  lemma RecognisesIff(command: string)
    ensures Recognises(command) <==>
              exists before, s, after ::
                && AllWhite(before) && AllWhite(after) && Trimmed(s)
                && command == before + s + after && SpellsOurs(s)
  {
    hide White, AllWhite, TrimStart, TrimEnd, Begins, RelayAt, LegacyFrom, Trimmed, SpellsCurrent,
      SpellsLegacy;
    var trimmed := TrimEnd(TrimStart(command));
    SpellsIff(trimmed);
    if Recognises(command) {
      TrimIff(command, trimmed);
    }
    forall before: string, s: string, after: string
      | AllWhite(before) && AllWhite(after) && Trimmed(s) && command == before + s + after
        && SpellsOurs(s)
      ensures Recognises(command)
    {
      SpelledHasText(s);
      TrimIff(command, s);
      assert s == trimmed;
    }
  }

  lemma SpelledHasText(s: string)
    requires SpellsOurs(s)
    ensures s != ""
  {
    hide White, SpellsShell, SpellsPath;
  }

  lemma SpellsIff(s: string)
    ensures SpellsOurs(s) <==>
              || (Begins(s, MARKER + "'") && exists i :: 0 <= i <= |s| && RelayAt(s, i))
              || (exists i, j :: 0 <= i <= |s| && 0 <= j <= |s| && LegacyFrom(s, i, j))
    ensures SpellsOurs(s) ==> s != ""
  {
    hide White, Begins, RelayAt, LegacyFrom, SpellsCurrent, SpellsLegacy;
    if SpellsOurs(s) {
      SpelledHasText(s);
    }
    if middle, rest :| SpellsCurrent(s, middle, rest) {
      CurrentIsFound(s, middle, rest);
    }
    if shell, path, rest :| SpellsLegacy(s, shell, path, rest) {
      SpelledIsLegacy(s, shell, path, rest);
    }
    if Begins(s, MARKER + "'") {
      if i :| 0 <= i <= |s| && RelayAt(s, i) {
        RelayIsSpelled(s, i);
      }
    }
    if i, j :| 0 <= i <= |s| && 0 <= j <= |s| && LegacyFrom(s, i, j) {
      LegacyIsSpelled(s, i, j);
    }
  }

  lemma CurrentIsFound(s: string, middle: string, rest: string)
    requires SpellsCurrent(s, middle, rest)
    ensures Begins(s, MARKER + "'") && exists i :: 0 <= i <= |s| && RelayAt(s, i)
  {
    hide White;
    var i := |MARKER| + 1 + |middle|;
    assert s == (MARKER + "'" + middle) + (RELAY + "'" + rest);
    assert s[..|MARKER| + 1] == MARKER + "'";
    assert s[i..] == RELAY + "'" + rest;
    assert s[i..][..|RELAY| + 1] == RELAY + "'";
    assert rest != "" ==> s[i + |RELAY| + 1] == rest[0];
    assert RelayAt(s, i);
  }

  /** A text that stands somewhere in another. */
  ghost predicate Contains(s: string, part: string) {
    exists i :: 0 <= i <= |s| && Begins(s[i..], part)
  }

  lemma {:induction false} TrimStartIsPart(s: string)
    ensures exists i :: 0 <= i <= |s| && TrimStart(s) == s[i..]
  {
    if s != "" && White(s[0]) {
      TrimStartIsPart(s[1..]);
      var i :| 0 <= i <= |s[1..]| && TrimStart(s[1..]) == s[1..][i..];
      assert s[1..][i..] == s[i + 1..];
    } else {
      assert s[0..] == s;
    }
  }

  lemma {:induction false} TrimEndIsPart(s: string)
    ensures exists i :: 0 <= i <= |s| && TrimEnd(s) == s[..i]
  {
    if s != "" && White(s[|s| - 1]) {
      TrimEndIsPart(s[..|s| - 1]);
      var i :| 0 <= i <= |s[..|s| - 1]| && TrimEnd(s[..|s| - 1]) == s[..|s| - 1][..i];
      assert s[..|s| - 1][..i] == s[..i];
    } else {
      assert s[..|s|] == s;
    }
  }

  lemma BeginsInside(s: string, from: int, until: int, i: int, part: string)
    requires 0 <= from <= |s| && 0 <= until <= |s| - from && 0 <= i <= until
    requires Begins(s[from..][..until][i..], part)
    ensures Begins(s[from + i..], part)
  {
    assert s[from..][..until][i..] == s[from + i..from + until];
    assert s[from + i..from + until][..|part|] == s[from + i..][..|part|];
  }

  lemma PartOfTrimmed(s: string, part: string)
    requires Contains(TrimEnd(TrimStart(s)), part)
    ensures Contains(s, part)
  {
    hide Begins, TrimStart, TrimEnd;
    TrimStartIsPart(s);
    TrimEndIsPart(TrimStart(s));
    var from :| 0 <= from <= |s| && TrimStart(s) == s[from..];
    var until :| 0 <= until <= |s[from..]| && TrimEnd(s[from..]) == s[from..][..until];
    var trimmed := s[from..][..until];
    var i :| 0 <= i <= |trimmed| && Begins(trimmed[i..], part);
    BeginsInside(s, from, until, i, part);
  }

  /** No other hook is taken for Salidium's: a recognised command names its relay or its directory. */
  lemma RecognisedIsOurs(command: string)
    requires Recognises(command)
    ensures Contains(command, "/hooks/relay.sh'") || Contains(command, "/.salidium/hooks/")
  {
    var s := TrimEnd(TrimStart(command));
    hide Begins, White, TrimStart, TrimEnd;
    if Begins(s, MARKER + "'") && exists i :: 0 <= i <= |s| && RelayAt(s, i) {
      var i :| 0 <= i <= |s| && RelayAt(s, i);
      assert RELAY + "'" == "/hooks/relay.sh'";
      assert Contains(s, "/hooks/relay.sh'");
      PartOfTrimmed(command, "/hooks/relay.sh'");
    } else {
      var i, j :| 0 <= i <= |s| && 0 <= j <= |s| && LegacyFrom(s, i, j);
      assert Contains(s, "/.salidium/hooks/");
      PartOfTrimmed(command, "/.salidium/hooks/");
    }
  }
}
