/** When the span `find_wrapped` returns is the rightmost one, as its description promises. */
module RightmostSearch {
  import opened Prelude
  import opened TerminalText

  /** The token is spelled, wrapped or whole, somewhere from `a` on. */
  ghost predicate SpelledFrom(text: string, token: string, a: nat) {
    exists from: nat, to: nat :: a <= from && Spells(text, token, 0, from, to)
  }

  /** No spelling of the token starts after the one found. */
  ghost predicate Rightmost(text: string, token: string) {
    Find(text, token).Some? ==> !SpelledFrom(text, token, Find(text, token).value.0 + 1)
  }

  /** What a hard wrap may put between two characters. */
  predicate Filler(c: char) { Blank(c) || c == '\r' || c == '\n' }

  predicate Solid(token: string) {
    token != "" && forall i | 0 <= i < |token| :: !Filler(token[i])
  }

  /** A proper end of the token is also its beginning. */
  predicate Bordered(token: string) {
    exists k | 0 < k < |token| :: token[k..] == token[..|token| - k]
  }

  /** `text[from..to]` without its fillers. */
  function Solids(text: string, from: nat, to: nat): string
    requires from <= to <= |text|
    decreases |text| - from
  {
    if from == to then "" else (if Filler(text[from]) then "" else [text[from]]) + Solids(text, from + 1, to)
  }

  lemma {:induction false} SolidsConcat(text: string, a: nat, b: nat, c: nat)
    requires a <= b <= c <= |text|
    ensures Solids(text, a, c) == Solids(text, a, b) + Solids(text, b, c)
    decreases b - a
  {
    if a < b { SolidsConcat(text, a + 1, b, c); }
  }

  lemma {:induction false} FillersVanish(text: string, a: nat, b: nat)
    requires a <= b <= |text| && forall k | a <= k < b :: Filler(text[k])
    ensures Solids(text, a, b) == ""
    decreases b - a
  {
    if a < b { FillersVanish(text, a + 1, b); }
  }

  lemma BreakVanishes(text: string, a: nat, b: nat)
    requires Break(text, a, b)
    ensures a < b <= |text| && Solids(text, a, b) == ""
  {
    var newline: nat :| a <= newline < b && BreakAt(text, a, newline, b);
    FillersVanish(text, a, b);
  }

  /** A spelling of a solid token is that token with fillers strewn in, none at its ends. */
  lemma {:induction false} SpelledSolids(text: string, token: string, i: nat, from: nat, to: nat)
    requires Solid(token) && i < |token| && Spells(text, token, i, from, to)
    ensures from < to <= |text| && !Filler(text[from]) && !Filler(text[to - 1])
    ensures Solids(text, from, to) == token[i..]
    decreases |token| - i
  {
    hide Break;
    if i + 1 < |token| {
      assert SpellsAfter(text, token, i + 1, from + 1, to);
      var next: nat :| (next == from + 1 || Break(text, from + 1, next)) && Spells(text, token, i + 1, next, to);
      SpelledSolids(text, token, i + 1, next, to);
      if next != from + 1 { BreakVanishes(text, from + 1, next); }
      SolidsConcat(text, from + 1, next, to);
      assert token[i..] == [token[i]] + token[i + 1..];
    } else {
      assert Solids(text, to, to) == "";
    }
  }

  /** From one start there is only one way to spell a solid token. */
  lemma SpelledOnce(text: string, token: string, from: nat, to: nat, end: nat)
    requires Solid(token) && Spells(text, token, 0, from, to) && Spells(text, token, 0, from, end)
    ensures to == end
  {
    hide Spells;
    SpelledSolids(text, token, 0, from, to);
    SpelledSolids(text, token, 0, from, end);
    if to < end {
      SolidsConcat(text, from, to, end);
      LastIsSolid(text, to, end);
    } else if end < to {
      SolidsConcat(text, from, end, to);
      LastIsSolid(text, end, to);
    }
  }

  lemma LastIsSolid(text: string, a: nat, b: nat)
    requires a < b <= |text| && !Filler(text[b - 1])
    ensures |Solids(text, a, b)| > 0
  {
    SolidsConcat(text, a, b - 1, b);
  }

  lemma FirstIsSolid(text: string, a: nat, b: nat)
    requires a < b <= |text| && !Filler(text[a])
    ensures |Solids(text, a, b)| > 0
  {
  }

  /** Where two spellings overlap, the token has a border. */
  lemma OverlapIsBorder(text: string, token: string, s: nat, e: nat, from: nat, to: nat)
    requires Solid(token) && Spells(text, token, 0, s, e) && Spells(text, token, 0, from, to) && s < from < e
    ensures Bordered(token)
  {
    hide Spells;
    SpelledSolids(text, token, 0, s, e);
    SpelledSolids(text, token, 0, from, to);
    var before, shared := Solids(text, s, from), Solids(text, from, e);
    SolidsConcat(text, s, from, e);
    FirstIsSolid(text, s, from);
    FirstIsSolid(text, from, e);
    assert token == before + shared;
    if to <= e {
      SolidsConcat(text, from, to, e);
    } else {
      SolidsConcat(text, from, e, to);
      assert token == shared + Solids(text, e, to);
    }
    assert token[|before|..] == shared == token[..|token| - |before|];
  }

  /** After the last match there is no further spelling. */
  lemma {:induction false} NothingAfterLastMatch(text: string, token: string, p: nat)
    requires token != "" && p <= |text| && LastMatch(text, token, p).Some?
    ensures FirstMatch(text, token, LastMatch(text, token, p).value.1).None?
    decreases |text| - p
  {
    var found := FirstMatch(text, token, p).value;
    if LastMatch(text, token, found.1).Some? {
      NothingAfterLastMatch(text, token, found.1);
    } else {
      LastMatchSpells(text, token, found.1);
    }
  }

  lemma NothingWhole(text: string, token: string)
    requires token != "" && !Contains(text, token)
    ensures Find(text, token) == LastMatch(text, token, 0)
  {
    RFindUpToIs(text, token, |text|);
  }

  lemma UnborderedIsRightmost(text: string, token: string)
    requires Solid(token) && !Bordered(token) && !Contains(text, token)
    ensures Rightmost(text, token)
  {
    hide Spells, FirstMatch, Bordered, LastMatch;
    NothingWhole(text, token);
    if Find(text, token).Some? {
      var found := Find(text, token).value;
      FindIs(text, token);
      NothingAfterLastMatch(text, token, 0);
      FirstMatchIs(text, token, found.1);
      if from: nat, to: nat :| found.0 + 1 <= from && Spells(text, token, 0, from, to) {
        OverlapIsBorder(text, token, found.0, found.1, from, to);
      }
    }
  }

  // A bordered token is missed on some screen

  /** Every character on a line of its own. */
  function Spread(u: string): string {
    if |u| <= 1 then u else [u[0], '\n'] + Spread(u[1..])
  }

  lemma {:induction false} SpreadAt(u: string)
    requires u != ""
    ensures |Spread(u)| == 2 * |u| - 1
    ensures forall i | 0 <= i < |u| :: Spread(u)[2 * i] == u[i]
    ensures forall i | 0 <= i < |u| - 1 :: Spread(u)[2 * i + 1] == '\n'
    decreases |u|
  {
    if |u| > 1 {
      SpreadAt(u[1..]);
      var rest := Spread(u[1..]);
      assert Spread(u) == [u[0], '\n'] + rest;
      forall i | 0 <= i < |u| ensures Spread(u)[2 * i] == u[i] {
        if i > 0 { assert Spread(u)[2 * i] == rest[2 * (i - 1)]; }
      }
      forall i | 0 <= i < |u| - 1 ensures Spread(u)[2 * i + 1] == '\n' {
        if i > 0 { assert Spread(u)[2 * i + 1] == rest[2 * (i - 1) + 1]; }
      }
    }
  }

  lemma {:induction false} SpreadSpells(u: string, token: string, d: nat, i: nat)
    requires i < |token| && d + |token| <= |u| && forall k | 0 <= k < |token| :: token[k] == u[d + k]
    ensures Spells(Spread(u), token, i, 2 * (d + i), 2 * (d + |token|) - 1)
    decreases |token| - i
  {
    SpreadAt(u);
    var text, j, to := Spread(u), d + i, 2 * (d + |token|) - 1;
    assert text[2 * j] == u[j] == token[i];
    if i + 1 < |token| {
      SpreadSpells(u, token, d, i + 1);
      assert text[2 * j + 1] == '\n';
      assert BreakAt(text, 2 * j + 1, 2 * j + 1, 2 * (j + 1)) && Break(text, 2 * j + 1, 2 * (j + 1));
      assert SpellsAfter(text, token, i + 1, 2 * j + 1, to);
    }
  }

  lemma SpreadHoldsNothingWhole(u: string, token: string)
    requires u != "" && Solid(token) && |token| > 1
    ensures !Contains(Spread(u), token)
  {
    SpreadAt(u);
    var text := Spread(u);
    assert !Filler(token[0]) && !Filler(token[1]);
    forall i | 0 <= i < |text| - 1 ensures text[i] == '\n' || text[i + 1] == '\n' {
      assert i == 2 * (i / 2) || i == 2 * (i / 2) + 1;
    }
    forall i | 0 <= i <= |text| ensures !OccursAt(text, token, i) {
      if OccursAt(text, token, i) { TwoCharacters(text, token, i); }
    }
  }

  lemma TwoCharacters(text: string, token: string, i: nat)
    requires OccursAt(text, token, i) && |token| > 1
    ensures text[i] == token[0] && text[i + 1] == token[1]
  {
    assert text[i..i + |token|][0] == text[i] && text[i..i + |token|][1] == text[i + 1];
  }

  /** The token run together with itself along its border spells it twice, the two spellings overlapping. */
  lemma BorderSpellsTwice(token: string, k: nat)
    requires 0 < k < |token| && token[k..] == token[..|token| - k]
    ensures var text := Spread(token[..k] + token);
      && |text| == 2 * (k + |token|) - 1
      && Spells(text, token, 0, 0, 2 * |token| - 1) && Spells(text, token, 0, 2 * k, |text|)
  {
    hide Spells;
    var u := token[..k] + token;
    SpreadAt(u);
    BorderAligns(token, k);
    SpreadSpells(u, token, 0, 0);
    SpreadSpells(u, token, k, 0);
  }

  lemma BorderAligns(token: string, k: nat)
    requires 0 < k < |token| && token[k..] == token[..|token| - k]
    ensures var u := token[..k] + token;
      (forall i | 0 <= i < |token| :: token[i] == u[0 + i]) && (forall i | 0 <= i < |token| :: token[i] == u[k + i])
  {
    var u := token[..k] + token;
    forall i | 0 <= i < |token| ensures token[i] == u[0 + i] {
      if i >= k { assert token[k..][i - k] == token[..|token| - k][i - k]; }
    }
  }

  lemma BorderedIsMissed(token: string) returns (text: string)
    requires Solid(token) && Bordered(token)
    ensures !Contains(text, token) && !Rightmost(text, token)
  {
    hide Spells, Find, Solid, Spread, Contains;
    var k :| 0 < k < |token| && token[k..] == token[..|token| - k];
    text := Spread(token[..k] + token);
    BorderSpellsTwice(token, k);
    SpreadHoldsNothingWhole(token[..k] + token, token);
    NothingPast(text, token, k);
    LeftmostOnly(text, token, 2 * |token| - 1);
  }

  /** What is left behind the first spelling is too short for another. */
  lemma NothingPast(text: string, token: string, k: nat)
    requires Solid(token) && 0 < k < |token| && |text| == 2 * (k + |token|) - 1
    requires Spells(text, token, 0, 2 * k, |text|)
    ensures forall from: nat, to: nat | 2 * |token| - 1 <= from :: !Spells(text, token, 0, from, to)
  {
    hide Spells, Solids;
    var e := 2 * |token| - 1;
    SpelledSolids(text, token, 0, 2 * k, |text|);
    SolidsConcat(text, 2 * k, e, |text|);
    FirstIsSolid(text, 2 * k, e);
    forall from: nat, to: nat | e <= from && Spells(text, token, 0, from, to) ensures false {
      SpelledSolids(text, token, 0, from, to);
      SolidsConcat(text, e, from, |text|);
      SolidsConcat(text, from, to, |text|);
    }
  }

  /** If a spelling starts the text and none starts past its end, it is the one found. */
  lemma LeftmostOnly(text: string, token: string, end: nat)
    requires Solid(token) && !Contains(text, token) && Spells(text, token, 0, 0, end)
    requires forall from: nat, to: nat | end <= from :: !Spells(text, token, 0, from, to)
    ensures Find(text, token) == Some((0, end))
  {
    hide Spells, MatchRest;
    NothingWhole(text, token);
    SpelledSolids(text, token, 0, 0, end);
    SpelledIsMatched(text, token, 0, 0, end);
    MatchIsSpelled(text, token, 0, 0);
    SpelledOnce(text, token, 0, end, MatchRest(text, token, 0, 0).value);
    FirstMatchIs(text, token, end);
  }

  /** On screens where a solid token occurs only wrapped, the search finds its rightmost spelling on every
    one of them if and only if the token has no border. */
  lemma WrappedRightmostIff(token: string)
    requires Solid(token)
    ensures (forall text | !Contains(text, token) :: Rightmost(text, token)) <==> !Bordered(token)
  {
    hide Rightmost, Contains, Bordered, Solid;
    if Bordered(token) {
      var text := BorderedIsMissed(token);
    } else {
      forall text | !Contains(text, token) ensures Rightmost(text, token) { UnborderedIsRightmost(text, token); }
    }
  }

  // A whole occurrence hides wrapped ones after it

  lemma BreakShift(text: string, a: nat, p: nat, q: nat)
    requires a <= |text|
    ensures Break(text, a + p, a + q) <==> Break(text[a..], p, q)
  {
    var tail := text[a..];
    if Break(text, a + p, a + q) {
      var n: nat :| a + p <= n < a + q && BreakAt(text, a + p, n, a + q);
      assert BreakAt(tail, p, n - a, q);
    }
    if Break(tail, p, q) {
      var n: nat :| p <= n < q && BreakAt(tail, p, n, q);
      assert BreakAt(text, a + p, a + n, a + q);
    }
  }

  lemma {:induction false} SpellsShift(text: string, token: string, a: nat, i: nat, from: nat, to: nat)
    requires a <= |text| && i < |token|
    ensures Spells(text, token, i, a + from, a + to) <==> Spells(text[a..], token, i, from, to)
    decreases |token| - i
  {
    hide Break;
    if i + 1 < |token| {
      if SpellsAfter(text, token, i + 1, a + from + 1, a + to) {
        var next: nat :| (next == a + from + 1 || Break(text, a + from + 1, next)) &&
                         Spells(text, token, i + 1, next, a + to);
        if next != a + from + 1 { BreakGoesOn(text, a + from + 1, next); }
        BreakShift(text, a, from + 1, next - a);
        SpellsShift(text, token, a, i + 1, next - a, to);
        assert SpellsAfter(text[a..], token, i + 1, from + 1, to);
      }
      if SpellsAfter(text[a..], token, i + 1, from + 1, to) {
        var next: nat :| (next == from + 1 || Break(text[a..], from + 1, next)) &&
                         Spells(text[a..], token, i + 1, next, to);
        BreakShift(text, a, from + 1, next);
        SpellsShift(text, token, a, i + 1, next, to);
        assert SpellsAfter(text, token, i + 1, a + from + 1, a + to);
      }
    }
  }

  lemma BreakGoesOn(text: string, p: nat, q: nat)
    requires Break(text, p, q)
    ensures p < q <= |text|
  {
  }

  lemma {:induction false} SpellsEndAfter(text: string, token: string, i: nat, from: nat, to: nat)
    requires i < |token| && Spells(text, token, i, from, to)
    ensures from < to
    decreases |token| - i
  {
    hide Break;
    if i + 1 < |token| {
      assert SpellsAfter(text, token, i + 1, from + 1, to);
      var next: nat :| (next == from + 1 || Break(text, from + 1, next)) && Spells(text, token, i + 1, next, to);
      if next != from + 1 { BreakGoesOn(text, from + 1, next); }
      SpellsEndAfter(text, token, i + 1, next, to);
    }
  }

  /** A spelling starts at `a` or later exactly when the text from `a` on is found to hold the token. */
  lemma FoundFrom(text: string, token: string, a: nat)
    requires token != "" && a <= |text|
    ensures Find(text[a..], token).Some? <==> SpelledFrom(text, token, a)
  {
    hide Spells, Find;
    FindIs(text[a..], token);
    if Find(text[a..], token).Some? {
      var span := Find(text[a..], token).value;
      SpellsShift(text, token, a, 0, span.0, span.1);
      assert Spells(text, token, 0, a + span.0, a + span.1);
    }
    if from: nat, to: nat :| a <= from && Spells(text, token, 0, from, to) {
      SpellsEndAfter(text, token, 0, from, to);
      SpellsShift(text, token, a, 0, from - a, to - a);
    }
  }

  lemma FoundAnywhere(text: string, token: string)
    requires token != ""
    ensures Find(text, token).Some? <==> SpelledFrom(text, token, 0)
  {
    hide Find, Spells;
    assert text[0..] == text;
    FoundFrom(text, token, 0);
  }

  /** What is found is rightmost exactly when searching on behind its start finds nothing. */
  lemma RightmostIff(text: string, token: string)
    requires token != "" && Find(text, token).Some?
    ensures Rightmost(text, token) <==> Find(text[Find(text, token).value.0 + 1..], token).None?
  {
    hide Find, SpelledFrom;
    FoundFrom(text, token, Find(text, token).value.0 + 1);
  }

  /** Where the token occurs whole, the search returns its last whole occurrence; for a solid token without border
    that is rightmost exactly when the text behind it spells no further one. */
  lemma WholeRightmostIff(text: string, token: string, i: nat)
    requires token != "" && LastWhole(text, token, i)
    ensures Find(text, token) == Some((i, i + |token|))
    ensures Solid(token) && !Bordered(token) ==>
      (Rightmost(text, token) <==> !SpelledFrom(text[i + |token|..], token, 0))
  {
    hide Spells, Bordered, Solid;
    RFindIs(text, token, i);
    RightmostIff(text, token);
    FoundFrom(text, token, i + 1);
    FoundFrom(text, token, i + |token|);
    FoundAnywhere(text[i + |token|..], token);
    WholeSpells(text, token, i);
    if Solid(token) && !Bordered(token) { NextIsBehind(text, token, i, i + |token|); }
  }

  // What the search takes

  /** The last whole occurrence. */
  predicate LastWhole(text: string, token: string, i: nat) {
    OccursAt(text, token, i) && forall j | i < j <= |text| :: !OccursAt(text, token, j)
  }

  /** The last whole occurrence, if there is one, and otherwise the rightmost spelling. */
  ghost predicate Taken(text: string, token: string, from: nat, to: nat) {
    && Spells(text, token, 0, from, to)
    && if Contains(text, token) then LastWhole(text, token, from) else !SpelledFrom(text, token, from + 1)
  }

  /** A whole occurrence spells the token, and from its start nothing else does. */
  lemma WholeSpells(text: string, token: string, i: nat)
    requires token != "" && OccursAt(text, token, i)
    ensures Spells(text, token, 0, i, i + |token|) && i <= |text| && Contains(text, token)
    ensures Solid(token) ==> forall to: nat | Spells(text, token, 0, i, to) :: to == i + |token|
  {
    hide Spells, Solid;
    assert token[0..] == token;
    ContiguousSpells(text, token, 0, i);
    if Solid(token) {
      forall to: nat | Spells(text, token, 0, i, to) ensures to == i + |token| {
        SpelledOnce(text, token, i, to, i + |token|);
      }
    }
  }

  /** Of two spellings of a token without border the one that starts first ends before the other starts. */
  lemma SpellingsDoNotOverlap(text: string, token: string, s: nat, e: nat, from: nat, to: nat)
    requires Solid(token) && !Bordered(token)
    requires Spells(text, token, 0, s, e) && Spells(text, token, 0, from, to)
    ensures s < from ==> e <= from
    ensures s == from ==> e == to
  {
    hide Spells, Bordered, Solid;
    if s < from < e { OverlapIsBorder(text, token, s, e, from, to); }
    if s == from { SpelledOnce(text, token, s, e, to); }
  }

  /** Behind the start of a spelling the next one starts behind its end. */
  lemma NextIsBehind(text: string, token: string, s: nat, e: nat)
    requires Solid(token) && !Bordered(token) && Spells(text, token, 0, s, e)
    ensures SpelledFrom(text, token, s + 1) <==> SpelledFrom(text, token, e)
  {
    hide Spells, Bordered;
    SpellsEndAfter(text, token, 0, s, e);
    if from: nat, to: nat :| s + 1 <= from && Spells(text, token, 0, from, to) {
      SpellingsDoNotOverlap(text, token, s, e, from, to);
    }
  }

  /** For a solid token without border that is the place the search finds. */
  lemma FindTakes(text: string, token: string, from: nat, to: nat)
    requires Solid(token) && !Bordered(token)
    ensures Find(text, token) == Some((from, to)) <==> Taken(text, token, from, to)
  {
    hide Spells, Bordered, Find, OccursAt;
    FindIs(text, token);
    if Contains(text, token) {
      WholeIsTaken(text, token, from, to);
    } else if Find(text, token).Some? {
      UnborderedIsRightmost(text, token);
      var found := Find(text, token).value;
      assert Spells(text, token, 0, found.0, found.1) && !SpelledFrom(text, token, found.0 + 1);
      if Spells(text, token, 0, from, to) {
        assert from <= found.0;
        SpellingsDoNotOverlap(text, token, from, to, found.0, found.1);
        assert from < found.0 ==> SpelledFrom(text, token, from + 1);
      }
    } else {
      FoundAnywhere(text, token);
    }
  }

  lemma WholeIsTaken(text: string, token: string, from: nat, to: nat)
    requires Solid(token) && Contains(text, token)
    ensures Find(text, token) == Some((from, to)) <==> LastWhole(text, token, from) && Spells(text, token, 0, from, to)
  {
    hide Spells, RFindUpTo, OccursAt;
    RFindUpToIs(text, token, |text|);
    var i := RFind(text, token).value;
    WholeSpells(text, token, i);
    if LastWhole(text, token, from) {
      WholeSpells(text, token, from);
      RFindIs(text, token, from);
    }
  }

  lemma SpelledBehind(text: string, token: string, a: nat)
    requires token != "" && a <= |text|
    ensures SpelledFrom(text, token, a) <==> SpelledFrom(text[a..], token, 0)
  {
    hide Find, SpelledFrom;
    FoundFrom(text, token, a);
    FoundAnywhere(text[a..], token);
  }

  /** Of the places where a text spells the token, the search finds the one at `here` exactly if no whole one follows,
    where it is whole itself, and if it is wrapped, no whole one stands anywhere and no wrapped one follows. */
  ghost predicate PlaceFound(above: string, here: string, below: string, token: string) {
    if here == token then !Contains(below, token)
    else !Contains(above + here + below, token) && !SpelledFrom(below, token, 0)
  }

  lemma PlaceFoundIff(above: string, here: string, below: string, token: string)
    requires Solid(token) && !Bordered(token)
    requires Spells(above + here + below, token, 0, |above|, |above| + |here|)
    ensures Find(above + here + below, token) == Some((|above|, |above| + |here|)) <==>
            PlaceFound(above, here, below, token)
  {
    hide Spells, Bordered, Find, Contains;
    var text, s, e := above + here + below, |above|, |above| + |here|;
    assert text[e..] == below && text[s..e] == here;
    FindTakes(text, token, s, e);
    if here == token {
      WholeSpells(text, token, s);
      LastOfBelow(above + here, below, token, s);
    } else {
      NotWholeHere(text, token, s, e);
      SpelledBehind(text, token, e);
      NextIsBehind(text, token, s, e);
    }
  }

  lemma NotWholeHere(text: string, token: string, s: nat, e: nat)
    requires Solid(token) && Spells(text, token, 0, s, e) && s <= e <= |text| && text[s..e] != token
    ensures !OccursAt(text, token, s)
  {
    hide Spells;
    if OccursAt(text, token, s) { WholeSpells(text, token, s); }
  }

  lemma LastOfBelow(above: string, below: string, token: string, s: nat)
    requires Solid(token) && !Bordered(token) && OccursAt(above + below, token, s) && s + |token| == |above|
    ensures LastWhole(above + below, token, s) <==> !Contains(below, token)
  {
    hide Spells, OccursAt, Bordered;
    var text := above + below;
    WholeSpells(text, token, s);
    forall j | s < j <= |text| && OccursAt(text, token, j) ensures j >= |above| && Contains(below, token) {
      WholeSpells(text, token, j);
      SpellingsDoNotOverlap(text, token, s, |above|, j, j + |token|);
      OccursShift(above, below, token, j - |above|);
      WholeSpells(below, token, j - |above|);
    }
    if Contains(below, token) {
      var j :| 0 <= j <= |below| && OccursAt(below, token, j);
      OccursShift(above, below, token, j);
    }
  }

  /** A whole occurrence hiding a wrapped one. */
  lemma WholeHidesWrapped()
    ensures var text, token := "ab a\nb", "ab";
      Solid(token) && !Bordered(token) && Find(text, token) == Some((0, 2)) && Spells(text, token, 0, 3, 6)
        && !Rightmost(text, token)
  {
    var text, token := "ab a\nb", "ab";
    assert OccursAt(text, token, 0);
    forall j | 0 < j <= |text| ensures !OccursAt(text, token, j) {
      assert j + 2 <= |text| ==> text[j..j + 2][0] == text[j] && text[j..j + 2][1] == text[j + 1];
    }
    RFindIs(text, token, 0);
    assert BreakAt(text, 4, 4, 5) && Break(text, 4, 5);
    assert Spells(text, token, 1, 5, 6);
    assert SpellsAfter(text, token, 1, 4, 6);
    assert Spells(text, token, 0, 3, 6);
  }
}
