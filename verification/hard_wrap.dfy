/** How a pane of fixed width shows text: lines cut at the last column, continuations re-indented. */
module HardWrap {
  import opened Prelude
  import opened TerminalText
  import opened RightmostSearch

  /** `lead` stands before the first row of a line, `indent` before each continuation. */
  datatype Pane = Pane(width: nat, lead: string, indent: string)

  predicate PaneFits(p: Pane) {
    && |p.lead| < p.width && |p.indent| < p.width
    && Blanks(p.lead, 0, |p.lead|) && Blanks(p.indent, 0, |p.indent|)
  }

  /** The rest of a line, with `room` columns left on the current row. */
  function Wrap(p: Pane, room: nat, line: string): string
    requires |p.indent| < p.width
    decreases |line|, if room == 0 then 1 else 0
  {
    if line == "" then ""
    else if room == 0 then "\n" + p.indent + Wrap(p, p.width - |p.indent|, line)
    else [line[0]] + Wrap(p, room - 1, line[1..])
  }

  function WrapLine(p: Pane, line: string): string
    requires PaneFits(p)
  {
    p.lead + Wrap(p, p.width - |p.lead|, line)
  }

  /** The length of the first line. */
  function LineEnd(text: string): (n: nat)
    ensures n <= |text| && (n < |text| ==> text[n] == '\n') && '\n' !in text[..n]
  {
    if text == "" || text[0] == '\n' then 0
    else
      var n := LineEnd(text[1..]);
      assert text[..1 + n] == [text[0]] + text[1..][..n];
      1 + n
  }

  /** What the pane shows of a text. */
  function Screen(p: Pane, text: string): string
    requires PaneFits(p)
    decreases |text|
  {
    var n := LineEnd(text);
    if text == "" then ""
    else if n == |text| then WrapLine(p, text)
    else WrapLine(p, text[..n]) + "\n" + Screen(p, text[n + 1..])
  }

  // Rows

  /** A line that fits stays whole; a longer one is cut after `room` characters. */
  lemma {:induction false} WrapCuts(p: Pane, room: nat, line: string)
    requires |p.indent| < p.width
    ensures |line| <= room ==> Wrap(p, room, line) == line
    ensures |line| > room ==>
      Wrap(p, room, line) == line[..room] + "\n" + p.indent + Wrap(p, p.width - |p.indent|, line[room..])
    decreases |line|
  {
    if line != "" && room > 0 { WrapCuts(p, room - 1, line[1..]); }
  }

  lemma LineEndIs(text: string, n: nat)
    requires n <= |text| && '\n' !in text[..n] && (n < |text| ==> text[n] == '\n')
    ensures LineEnd(text) == n
  {
    NoNewlineBefore(text, n);
    NoNewlineBefore(text, LineEnd(text));
  }

  lemma NoNewlineBefore(text: string, n: nat)
    requires n <= |text| && '\n' !in text[..n]
    ensures forall k | 0 <= k < n :: text[k] != '\n'
  {
    forall k | 0 <= k < n ensures text[k] != '\n' { assert text[k] == text[..n][k]; }
  }

  /** Text after a finished line is shown below it. */
  lemma {:induction false} ScreenJoins(p: Pane, a: string, b: string)
    requires PaneFits(p)
    ensures Screen(p, a + "\n" + b) == Screen(p, a + "\n") + Screen(p, b)
    decreases |a|
  {
    hide Wrap;
    var n := LineEnd(a);
    var all, done := a + "\n" + b, a + "\n";
    assert all[..n] == done[..n] == a[..n];
    LineEndIs(all, n);
    LineEndIs(done, n);
    if n == |a| {
      assert all[n + 1..] == b && done[n + 1..] == "";
    } else {
      assert all[n + 1..] == a[n + 1..] + "\n" + b && done[n + 1..] == a[n + 1..] + "\n";
      ScreenJoins(p, a[n + 1..], b);
    }
  }

  lemma ScreenOfLine(p: Pane, line: string)
    requires PaneFits(p) && '\n' !in line
    ensures Screen(p, line + "\n") == WrapLine(p, line) + "\n"
  {
    var text := line + "\n";
    assert text[..|line|] == line;
    LineEndIs(text, |line|);
    assert text[|line| + 1..] == "";
  }

  // A wrapped token is still spelled

  lemma BreakBetween(a: string, indent: string, b: string)
    requires Blanks(indent, 0, |indent|)
    ensures Break(a + "\n" + indent + b, |a|, |a| + 1 + |indent|)
  {
    var text := a + "\n" + indent + b;
    assert BreakAt(text, |a|, |a|, |a| + 1 + |indent|);
  }

  lemma {:induction false} WrapSpells(p: Pane, room: nat, token: string, i: nat, a: string, b: string)
    requires PaneFits(p) && room > 0 && i < |token|
    ensures var w := Wrap(p, room, token[i..]); Spells(a + w + b, token, i, |a|, |a| + |w|)
    decreases |token| - i
  {
    hide Break;
    var w := Wrap(p, room, token[i..]);
    var text := a + w + b;
    assert token[i..][1..] == token[i + 1..];
    if i + 1 < |token| {
      var next := if room > 1 then a + [token[i]] else a + [token[i]] + "\n" + p.indent;
      var left := if room > 1 then room - 1 else p.width - |p.indent|;
      var rest := Wrap(p, left, token[i + 1..]);
      assert text == next + rest + b;
      WrapSpells(p, left, token, i + 1, next, b);
      if room == 1 {
        assert text == (a + [token[i]]) + "\n" + p.indent + (rest + b);
        BreakBetween(a + [token[i]], p.indent, rest + b);
      }
      assert SpellsAfter(text, token, i + 1, |a| + 1, |a| + |w|);
    }
  }

  /** A line shown by a pane spells what it was, from its lead on. */
  lemma LineSpells(p: Pane, token: string, a: string, b: string)
    requires PaneFits(p) && token != ""
    ensures var w := Wrap(p, p.width - |p.lead|, token);
      && a + WrapLine(p, token) + b == (a + p.lead) + w + b
      && Spells((a + p.lead) + w + b, token, 0, |a| + |p.lead|, |a| + |p.lead| + |w|)
  {
    assert token[0..] == token;
    WrapSpells(p, p.width - |p.lead|, token, 0, a + p.lead, b);
  }

  // No row holds more than it has room for

  /** No more than `most` characters run on without white space, `run` of them before the text. */
  predicate Runs(text: string, run: nat, most: nat) {
    text == "" || (if Filler(text[0]) then Runs(text[1..], 0, most) else run < most && Runs(text[1..], run + 1, most))
  }

  lemma {:induction false} RunsOver(a: string, b: string, run: nat, most: nat)
    requires Runs(a, run, most) && Runs(b, 0, most)
    ensures Runs(a + "\n" + b, run, most)
    decreases |a|
  {
    var text := a + "\n" + b;
    if a == "" {
      assert text[1..] == b;
    } else {
      assert text[1..] == a[1..] + "\n" + b;
      RunsOver(a[1..], b, if Filler(a[0]) then 0 else run + 1, most);
    }
  }

  lemma {:induction false} RunsAfterBlanks(blanks: string, b: string, most: nat)
    requires Blanks(blanks, 0, |blanks|) && Runs(b, 0, most)
    ensures Runs(blanks + b, 0, most)
    decreases |blanks|
  {
    if blanks == "" {
      assert blanks + b == b;
    } else {
      assert (blanks + b)[1..] == blanks[1..] + b;
      RunsAfterBlanks(blanks[1..], b, most);
    }
  }

  lemma {:induction false} WrapRuns(p: Pane, room: nat, line: string, run: nat, most: nat)
    requires PaneFits(p) && run + room <= most && p.width - |p.indent| <= most
    ensures Runs(Wrap(p, room, line), run, most)
    decreases |line|, if room == 0 then 1 else 0
  {
    var w := Wrap(p, room, line);
    if line != "" {
      if room == 0 {
        var rest := Wrap(p, p.width - |p.indent|, line);
        WrapRuns(p, p.width - |p.indent|, line, 0, most);
        RunsAfterBlanks(p.indent, rest, most);
        assert w[1..] == p.indent + rest;
      } else {
        WrapRuns(p, room - 1, line[1..], if Filler(line[0]) then 0 else run + 1, most);
        assert w[1..] == Wrap(p, room - 1, line[1..]);
      }
    }
  }

  /** On a screen nothing longer than a row's room runs on. */
  lemma {:induction false} ScreenRuns(p: Pane, text: string, most: nat)
    requires PaneFits(p) && p.width - |p.lead| <= most && p.width - |p.indent| <= most
    ensures Runs(Screen(p, text), 0, most)
    decreases |text|
  {
    hide Wrap, Runs;
    if text != "" {
      var n := LineEnd(text);
      LineRuns(p, text[..n], most);
      if n == |text| {
        assert text[..n] == text;
      } else {
        ScreenRuns(p, text[n + 1..], most);
        RunsOver(WrapLine(p, text[..n]), Screen(p, text[n + 1..]), 0, most);
      }
    } else {
      NothingRuns(most);
    }
  }

  lemma NothingRuns(most: nat)
    ensures Runs("", 0, most)
  {
  }

  lemma LineRuns(p: Pane, line: string, most: nat)
    requires PaneFits(p) && p.width - |p.lead| <= most && p.width - |p.indent| <= most
    ensures Runs(WrapLine(p, line), 0, most)
  {
    WrapRuns(p, p.width - |p.lead|, line, 0, most);
    RunsAfterBlanks(p.lead, Wrap(p, p.width - |p.lead|, line), most);
  }

  lemma {:induction false} RunsBound(text: string, run: nat, most: nat, i: nat, length: nat)
    requires Runs(text, run, most) && i + length <= |text| && forall k | i <= k < i + length :: !Filler(text[k])
    ensures length <= most && (i == 0 && length > 0 ==> run + length <= most)
    decreases |text|
  {
    if i > 0 {
      RunsBound(text[1..], if Filler(text[0]) then 0 else run + 1, most, i - 1, length);
    } else if length > 0 {
      RunsBound(text[1..], run + 1, most, 0, length - 1);
    }
  }

  /** A token longer than every row's room stands whole on no screen. */
  lemma NothingWholeOnScreen(text: string, token: string, most: nat)
    requires Runs(text, 0, most) && Solid(token) && |token| > most
    ensures !Contains(text, token)
  {
    hide Runs;
    forall i | 0 <= i <= |text| ensures !OccursAt(text, token, i) {
      if OccursAt(text, token, i) {
        forall k | i <= k < i + |token| ensures !Filler(text[k]) { assert text[i..i + |token|][k - i] == text[k]; }
        RunsBound(text, 0, most, i, |token|);
      }
    }
  }

  /** Every character shown was in the text, or is a blank or a line break. */
  lemma {:induction false} WrapShows(p: Pane, room: nat, line: string, c: char)
    requires PaneFits(p) && !Filler(c) && c !in line
    ensures c !in Wrap(p, room, line)
    decreases |line|, if room == 0 then 1 else 0
  {
    if line != "" {
      if room == 0 {
        WrapShows(p, p.width - |p.indent|, line, c);
      } else {
        WrapShows(p, room - 1, line[1..], c);
      }
    }
  }

  lemma {:induction false} ScreenShows(p: Pane, text: string, c: char)
    requires PaneFits(p) && !Filler(c) && c !in text
    ensures c !in Screen(p, text)
    decreases |text|
  {
    hide Wrap;
    if text != "" {
      var n := LineEnd(text);
      WrapShows(p, p.width - |p.lead|, text[..n], c);
      if n == |text| {
        assert text[..n] == text;
      } else {
        ScreenShows(p, text[n + 1..], c);
      }
    }
  }

  lemma {:induction false} WrapKeeps(p: Pane, room: nat, line: string, c: char)
    requires PaneFits(p) && c in line
    ensures c in Wrap(p, room, line)
    decreases |line|, if room == 0 then 1 else 0
  {
    if room == 0 {
      WrapKeeps(p, p.width - |p.indent|, line, c);
    } else if line[0] != c {
      WrapKeeps(p, room - 1, line[1..], c);
    }
  }

  /** Every character of the text is shown. */
  lemma {:induction false} ScreenKeeps(p: Pane, text: string, c: char)
    requires PaneFits(p) && c in text && c != '\n'
    ensures c in Screen(p, text)
    decreases |text|
  {
    hide Wrap;
    var n := LineEnd(text);
    if c in text[..n] {
      WrapKeeps(p, p.width - |p.lead|, text[..n], c);
      if n == |text| { assert text[..n] == text; }
    } else {
      assert text == text[..n] + [text[n]] + text[n + 1..];
      ScreenKeeps(p, text[n + 1..], c);
    }
  }
}
