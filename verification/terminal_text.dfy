/** Searching terminal text: whitespace, occurrences, and tokens a narrow pane has hard-wrapped. */
module TerminalText {
  import opened Prelude

  type Span = (nat, nat)

  // Whitespace

  /** The characters Python's `str.strip` removes. */
  predicate IsSpace(c: char) {
    var n := c as int;
    || 9 <= n <= 13 || 28 <= n <= 32 || n == 0x85 || n == 0xa0 || n == 0x1680 || 0x2000 <= n <= 0x200a
    || n == 0x2028 || n == 0x2029 || n == 0x202f || n == 0x205f || n == 0x3000
  }

  predicate AllSpace(s: string) {
    forall i | 0 <= i < |s| :: IsSpace(s[i])
  }

  function StripLeft(s: string): string {
    if s != "" && IsSpace(s[0]) then StripLeft(s[1..]) else s
  }

  function StripRight(s: string): string {
    if s != "" && IsSpace(s[|s| - 1]) then StripRight(s[..|s| - 1]) else s
  }

  /** `str.strip` */
  function Strip(s: string): string { StripRight(StripLeft(s)) }

  predicate Trimmed(s: string) {
    s != "" ==> !IsSpace(s[0]) && !IsSpace(s[|s| - 1])
  }

  /** Stripping is determined by its result: what stands between white space and neither starts
    nor ends with any. */
  lemma {:induction false} StripIs(left: string, core: string, right: string)
    requires AllSpace(left) && Trimmed(core) && AllSpace(right)
    ensures Strip(left + core + right) == core
    decreases |left| + |right|
  {
    var s := left + core + right;
    if left != "" {
      assert s[0] == left[0] && s[1..] == left[1..] + core + right;
      StripIs(left[1..], core, right);
    } else if core == "" {
      assert s == right;
      StripAllSpace(right);
    } else {
      assert s[0] == core[0];
      assert StripLeft(s) == core + right;
      StripRightIs(core, right);
    }
  }

  lemma {:induction false} StripAllSpace(s: string)
    requires AllSpace(s)
    ensures StripLeft(s) == "" && Strip(s) == ""
  {
    if s != "" { StripAllSpace(s[1..]); }
  }

  lemma {:induction false} StripRightIs(core: string, right: string)
    requires core != "" && Trimmed(core) && AllSpace(right)
    ensures StripRight(core + right) == core
    decreases |right|
  {
    var s := core + right;
    if right == "" {
      assert s == core;
    } else {
      assert s[..|s| - 1] == core + right[..|right| - 1];
      StripRightIs(core, right[..|right| - 1]);
    }
  }

  /** Every text is white space, its stripped core, and white space. */
  lemma StripSplits(s: string) returns (left: string, right: string)
    ensures s == left + Strip(s) + right && AllSpace(left) && AllSpace(right) && Trimmed(Strip(s))
  {
    var rest;
    left, rest := StripLeftSplits(s);
    right := StripRightSplits(rest);
    hide IsSpace, StripLeft, StripRight;
    assert Strip(s) == StripRight(rest);
    if Strip(s) != "" { assert Strip(s)[0] == rest[0]; }
    assert left + Strip(s) + right == left + (Strip(s) + right);
  }

  lemma {:induction false} StripLeftSplits(s: string) returns (left: string, rest: string)
    ensures rest == StripLeft(s) && s == left + rest && AllSpace(left) && (rest != "" ==> !IsSpace(rest[0]))
    decreases |s|
  {
    if s != "" && IsSpace(s[0]) {
      left, rest := StripLeftSplits(s[1..]);
      left := [s[0]] + left;
    } else {
      left, rest := "", s;
    }
  }

  lemma {:induction false} StripRightSplits(s: string) returns (right: string)
    ensures s == StripRight(s) + right && AllSpace(right)
    ensures StripRight(s) != "" ==> !IsSpace(StripRight(s)[|StripRight(s)| - 1])
    decreases |s|
  {
    if s != "" && IsSpace(s[|s| - 1]) {
      right := StripRightSplits(s[..|s| - 1]);
      right := right + [s[|s| - 1]];
    } else {
      right := "";
    }
  }

  lemma StripAround(a: string, r: string, b: string)
    requires AllSpace(a) && AllSpace(b)
    ensures Strip(a + r + b) == Strip(r)
  {
    var left, right := StripSplits(r);
    assert a + r + b == (a + left) + Strip(r) + (right + b);
    StripIs(a + left, Strip(r), right + b);
  }

  // Contiguous occurrences

  predicate OccursAt(text: string, token: string, i: nat) {
    i + |token| <= |text| && text[i..i + |token|] == token
  }

  predicate Contains(text: string, token: string) {
    exists i | 0 <= i <= |text| :: OccursAt(text, token, i)
  }

  lemma OccursShift(prefix: string, s: string, token: string, j: nat)
    ensures OccursAt(prefix + s, token, |prefix| + j) <==> OccursAt(s, token, j)
  {
    assert j + |token| <= |s| ==> (prefix + s)[|prefix| + j..|prefix| + j + |token|] == s[j..j + |token|];
  }

  function RFindUpTo(text: string, token: string, i: nat): Option<nat> {
    if OccursAt(text, token, i) then Some(i) else if i == 0 then None else RFindUpTo(text, token, i - 1)
  }

  /** `str.rfind` */
  function RFind(text: string, token: string): Option<nat> { RFindUpTo(text, token, |text|) }

  lemma {:induction false} RFindUpToIs(text: string, token: string, i: nat)
    ensures match RFindUpTo(text, token, i)
            case Some(k) => k <= i && OccursAt(text, token, k) && forall j | k < j <= i :: !OccursAt(text, token, j)
            case None => forall j | 0 <= j <= i :: !OccursAt(text, token, j)
  {
    if !OccursAt(text, token, i) && i > 0 { RFindUpToIs(text, token, i - 1); }
  }

  lemma RFindIs(text: string, token: string, i: nat)
    requires OccursAt(text, token, i) && forall j | i < j <= |text| :: !OccursAt(text, token, j)
    ensures RFind(text, token) == Some(i)
  {
    RFindUpToIs(text, token, |text|);
  }

  // Hard-wrapped occurrences: what a wrapped token may look like

  predicate Blank(c: char) { c == ' ' || c == '\t' }

  predicate Blanks(text: string, from: nat, to: nat)
    requires to <= |text|
  {
    forall k | from <= k < to :: Blank(text[k])
  }

  /** `text[from..to]` is one line break with blanks around it. */
  predicate BreakAt(text: string, from: nat, newline: nat, to: nat) {
    && from <= newline < to <= |text| && text[newline] == '\n' && Blanks(text, newline + 1, to)
    && (Blanks(text, from, newline) || (from < newline && text[newline - 1] == '\r' && Blanks(text, from, newline - 1)))
  }

  predicate Break(text: string, from: nat, to: nat) {
    exists newline: nat | from <= newline < to :: BreakAt(text, from, newline, to)
  }

  /** `text[from..to]` spells `token[i..]`, with at most one line break between two characters. */
  ghost predicate Spells(text: string, token: string, i: nat, from: nat, to: nat)
    decreases |token| - i, 0
  {
    && i < |token| && from < |text| && text[from] == token[i]
    && if i + 1 == |token| then to == from + 1 else SpellsAfter(text, token, i + 1, from + 1, to)
  }

  ghost predicate SpellsAfter(text: string, token: string, i: nat, from: nat, to: nat)
    requires i < |token|
    decreases |token| - i, 1
  {
    exists next: nat :: (next == from || Break(text, from, next)) && Spells(text, token, i, next, to)
  }

  // Hard-wrapped occurrences: how the pattern is matched

  function SkipBlanks(text: string, p: nat): (q: nat)
    requires p <= |text|
    ensures p <= q <= |text| && Blanks(text, p, q) && (q < |text| ==> !Blank(text[q]))
    decreases |text| - p
  {
    if p < |text| && Blank(text[p]) then SkipBlanks(text, p + 1) else p
  }

  /** Just past the newline of a break starting at `p`, if there is one. */
  function PastNewline(text: string, p: nat): (r: Option<nat>)
    requires p <= |text|
    ensures r.Some? ==> p < r.value <= |text| && BreakAt(text, p, r.value - 1, r.value)
  {
    var q := SkipBlanks(text, p);
    var n := if q < |text| && text[q] == '\r' then q + 1 else q;
    if n < |text| && text[n] == '\n' then Some(n + 1) else None
  }

  /** Matches `token[i..]` at `p`, backtracking as the regular expression does; the end of the match. */
  function MatchRest(text: string, token: string, i: nat, p: nat): (end: Option<nat>)
    requires i < |token| && p <= |text|
    ensures end.Some? ==> p < end.value <= |text|
    decreases |token| - i, 1, 0
  {
    if p == |text| || text[p] != token[i] then None
    else if i + 1 == |token| then Some(p + 1)
    else match PastNewline(text, p + 1)
      case Some(q) =>
        (match MatchAfterBreak(text, token, i + 1, q, SkipBlanks(text, q))
         case Some(end) => Some(end)
         case None => MatchRest(text, token, i + 1, p + 1))
      case None => MatchRest(text, token, i + 1, p + 1)
  }

  /** Tries to go on from `p`, giving back blanks one by one down to `low`. */
  function MatchAfterBreak(text: string, token: string, i: nat, low: nat, p: nat): (end: Option<nat>)
    requires i < |token| && low <= p <= |text|
    ensures end.Some? ==> low < end.value <= |text|
    decreases |token| - i, 2, p
  {
    match MatchRest(text, token, i, p)
    case Some(end) => Some(end)
    case None => if p > low then MatchAfterBreak(text, token, i, low, p - 1) else None
  }

  /** The leftmost match starting at `p` or later. */
  function FirstMatch(text: string, token: string, p: nat): (span: Option<Span>)
    requires token != "" && p <= |text|
    ensures span.Some? ==> p <= span.value.0 < span.value.1 <= |text|
    decreases |text| - p
  {
    match MatchRest(text, token, 0, p)
    case Some(end) => Some((p, end))
    case None => if p == |text| then None else FirstMatch(text, token, p + 1)
  }

  /** The last of the non-overlapping matches from `p` on. */
  function LastMatch(text: string, token: string, p: nat): (span: Option<Span>)
    requires token != "" && p <= |text|
    ensures span.Some? ==> p <= span.value.0 < span.value.1 <= |text|
    decreases |text| - p
  {
    match FirstMatch(text, token, p)
    case None => None
    case Some(found) =>
      match LastMatch(text, token, found.1)
      case None => Some(found)
      case Some(later) => Some(later)
  }

  /** `find_wrapped` */
  function Find(text: string, token: string): (span: Option<Span>)
    ensures span.Some? ==> span.value.0 < span.value.1 <= |text|
  {
    if token == "" then None
    else
      RFindUpToIs(text, token, |text|);
      match RFind(text, token)
      case Some(i) => Some((i, i + |token|))
      case None => LastMatch(text, token, 0)
  }

  /** `find_wrapped`, as the loops it runs. */
  method FindWrapped(text: string, token: string) returns (span: Option<Span>)
    ensures span == Find(text, token)
  {
    if token == "" { return None; }
    var index := RFind(text, token);
    if index.Some? { return Some((index.value, index.value + |token|)); }
    span := None;
    var p := 0;
    while true
      invariant p <= |text|
      invariant LastMatch(text, token, 0) ==
        match LastMatch(text, token, p) case None => span case Some(later) => Some(later)
      decreases |text| - p
    {
      var found := FirstMatch(text, token, p);
      if found.None? { break; }
      span, p := found, found.value.1;
    }
  }

  // The matcher finds exactly what the token may look like

  lemma {:induction false} MatchIsSpelled(text: string, token: string, i: nat, p: nat)
    requires i < |token| && p <= |text|
    ensures var end := MatchRest(text, token, i, p); end.Some? ==> Spells(text, token, i, p, end.value)
    decreases |token| - i, 1, 0
  {
    if p < |text| && text[p] == token[i] && i + 1 < |token| {
      MatchIsSpelled(text, token, i + 1, p + 1);
      var newline := PastNewline(text, p + 1);
      if newline.Some? {
        var q := newline.value;
        BreakExtends(text, p + 1, q);
        AfterBreakIsSpelled(text, token, i + 1, q, SkipBlanks(text, q));
      }
    }
  }

  lemma BreakExtends(text: string, p: nat, q: nat)
    requires p < q <= |text| && BreakAt(text, p, q - 1, q)
    ensures forall next: nat | q <= next <= SkipBlanks(text, q) :: Break(text, p, next)
  {
    forall next: nat | q <= next <= SkipBlanks(text, q) ensures Break(text, p, next) {
      assert BreakAt(text, p, q - 1, next);
    }
  }

  lemma {:induction false} AfterBreakIsSpelled(text: string, token: string, i: nat, low: nat, p: nat)
    requires i < |token| && low <= p <= |text|
    ensures var end := MatchAfterBreak(text, token, i, low, p);
      end.Some? ==> exists next: nat | low <= next <= p :: Spells(text, token, i, next, end.value)
    decreases |token| - i, 2, p
  {
    MatchIsSpelled(text, token, i, p);
    if MatchRest(text, token, i, p).None? && p > low { AfterBreakIsSpelled(text, token, i, low, p - 1); }
  }

  lemma {:induction false} SpelledIsMatched(text: string, token: string, i: nat, p: nat, to: nat)
    requires p <= |text| && Spells(text, token, i, p, to)
    ensures MatchRest(text, token, i, p).Some?
    decreases |token| - i
  {
    hide MatchAfterBreak, SkipBlanks, PastNewline, Break, BreakAt;
    if i + 1 < |token| {
      assert SpellsAfter(text, token, i + 1, p + 1, to);
      var next: nat :| (next == p + 1 || Break(text, p + 1, next)) && Spells(text, token, i + 1, next, to);
      SpelledIsMatched(text, token, i + 1, next, to);
      if next != p + 1 { BreakIsTried(text, token, i + 1, p + 1, next); }
    }
  }

  lemma BreakIsTried(text: string, token: string, i: nat, p: nat, next: nat)
    requires i < |token| && p <= |text| && Break(text, p, next) && next <= |text|
      && MatchRest(text, token, i, next).Some?
    ensures var newline := PastNewline(text, p);
      newline.Some? && MatchAfterBreak(text, token, i, newline.value, SkipBlanks(text, newline.value)).Some?
  {
    hide MatchRest, MatchAfterBreak, SkipBlanks, PastNewline, BreakAt;
    var newline: nat :| p <= newline < next && BreakAt(text, p, newline, next);
    NewlineFound(text, p, newline, next);
    TriedEach(text, token, i, newline + 1, next, SkipBlanks(text, newline + 1));
  }

  lemma {:induction false} SkipBlanksStopsAt(text: string, p: nat, q: nat)
    requires p <= q < |text| && Blanks(text, p, q) && !Blank(text[q])
    ensures SkipBlanks(text, p) == q
    decreases q - p
  {
    if p < q { SkipBlanksStopsAt(text, p + 1, q); }
  }

  lemma {:induction false} SkipBlanksPasses(text: string, p: nat, q: nat)
    requires p <= q <= |text| && Blanks(text, p, q)
    ensures q <= SkipBlanks(text, p)
    decreases q - p
  {
    if p < q { SkipBlanksPasses(text, p + 1, q); }
  }

  lemma NewlineFound(text: string, p: nat, newline: nat, next: nat)
    requires BreakAt(text, p, newline, next)
    ensures PastNewline(text, p) == Some(newline + 1) && next <= SkipBlanks(text, newline + 1)
  {
    SkipBlanksStopsAt(text, p, if Blanks(text, p, newline) then newline else newline - 1);
    SkipBlanksPasses(text, newline + 1, next);
  }

  lemma {:induction false} TriedEach(text: string, token: string, i: nat, low: nat, next: nat, p: nat)
    requires i < |token| && low <= next <= p <= |text| && MatchRest(text, token, i, next).Some?
    ensures MatchAfterBreak(text, token, i, low, p).Some?
    decreases p
  {
    if next < p { TriedEach(text, token, i, low, next, p - 1); }
  }

  lemma {:induction false} FirstMatchIs(text: string, token: string, p: nat)
    requires token != "" && p <= |text|
    ensures match FirstMatch(text, token, p)
            case Some(span) => Spells(text, token, 0, span.0, span.1)
            case None => forall from: nat, to: nat | p <= from :: !Spells(text, token, 0, from, to)
    decreases |text| - p
  {
    MatchIsSpelled(text, token, 0, p);
    if MatchRest(text, token, 0, p).None? {
      forall to: nat ensures !Spells(text, token, 0, p, to) {
        if Spells(text, token, 0, p, to) { SpelledIsMatched(text, token, 0, p, to); }
      }
      if p < |text| { FirstMatchIs(text, token, p + 1); }
    }
  }

  lemma {:induction false} LastMatchSpells(text: string, token: string, p: nat)
    requires token != "" && p <= |text|
    ensures var span := LastMatch(text, token, p); span.Some? ==> Spells(text, token, 0, span.value.0, span.value.1)
    ensures LastMatch(text, token, p).None? <==> FirstMatch(text, token, p).None?
    decreases |text| - p
  {
    FirstMatchIs(text, token, p);
    var first := FirstMatch(text, token, p);
    if first.Some? { LastMatchSpells(text, token, first.value.1); }
  }

  lemma {:induction false} ContiguousSpells(text: string, token: string, i: nat, p: nat)
    requires i < |token| && p + |token| - i <= |text| && text[p..p + |token| - i] == token[i..]
    ensures Spells(text, token, i, p, p + |token| - i)
    decreases |token| - i
  {
    assert text[p] == text[p..p + |token| - i][0] == token[i];
    if i + 1 < |token| {
      assert text[p + 1..p + |token| - i] == text[p..p + |token| - i][1..] == token[i + 1..];
      ContiguousSpells(text, token, i + 1, p + 1);
    }
  }

  /** A non-empty token is found exactly when the text spells it somewhere, wrapped or not; what is
    found spells it; and a contiguous occurrence is found at its rightmost place. */
  lemma FindIs(text: string, token: string)
    requires token != ""
    ensures Find(text, token).Some? <==> exists from: nat, to: nat :: Spells(text, token, 0, from, to)
    ensures var span := Find(text, token); span.Some? ==> Spells(text, token, 0, span.value.0, span.value.1)
    ensures forall i: nat | OccursAt(text, token, i) ::
      Find(text, token).Some? && i <= Find(text, token).value.0 && OccursAt(text, token, Find(text, token).value.0)
  {
    hide Spells, MatchRest, FirstMatch, LastMatch, RFindUpTo;
    RFindUpToIs(text, token, |text|);
    FirstMatchIs(text, token, 0);
    LastMatchSpells(text, token, 0);
    var index := RFind(text, token);
    if index.Some? {
      assert token[0..] == token;
      ContiguousSpells(text, token, 0, index.value);
      assert Spells(text, token, 0, index.value, index.value + |token|);
    } else if Find(text, token).Some? {
      var span := Find(text, token).value;
      assert Spells(text, token, 0, span.0, span.1);
    }
  }

  /** Matches do not overlap, so the last one found need not be the rightmost one there is. */
  lemma LastIsNotAlwaysRightmost()
    ensures var text, token := "a\na\na", "aa";
      Find(text, token) == Some((0, 3)) && Spells(text, token, 0, 2, 5)
  {
    var text, token := "a\na\na", "aa";
    RFindUpToIs(text, token, |text|);
    assert PastNewline(text, 1) == Some(2) && PastNewline(text, 3) == Some(4);
    assert SkipBlanks(text, 2) == 2;
    assert MatchRest(text, token, 1, 2) == Some(3);
    assert MatchRest(text, token, 0, 0) == Some(3);
    assert MatchRest(text, token, 0, 3).None? && MatchRest(text, token, 0, 5).None?;
    assert MatchRest(text, token, 0, 4).None? by { assert PastNewline(text, 5).None?; }
    assert FirstMatch(text, token, 5).None? && FirstMatch(text, token, 4).None? && FirstMatch(text, token, 3).None?;
    assert LastMatch(text, token, 3).None?;
    assert BreakAt(text, 3, 3, 4) && Break(text, 3, 4);
    assert Spells(text, token, 1, 4, 5);
    assert SpellsAfter(text, token, 1, 3, 5);
  }
}
