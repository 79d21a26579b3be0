/** Prompting and reading back through a pane of fixed width. */
module PaneCapture {
  import opened Prelude
  import opened BridgeModels
  import opened TerminalText
  import opened RightmostSearch
  import opened HardWrap
  import opened Capture
  import opened WrappedCapture

  /** A token shown on a line of its own. */
  function Shown(p: Pane, token: string): string
    requires PaneFits(p)
  {
    Wrap(p, p.width - |p.lead|, token)
  }

  /** The first row of a line has room for the token. */
  predicate HasRoom(p: Pane, token: string)
    requires PaneFits(p)
  {
    |p.lead| + |token| <= p.width
  }

  /** Where a first row has no room for the token, neither has a continuation. */
  predicate Even(p: Pane, token: string)
    requires PaneFits(p)
  {
    !HasRoom(p, token) ==> |p.indent| + |token| > p.width
  }

  lemma ShownWholeIff(p: Pane, token: string)
    requires PaneFits(p) && Solid(token)
    ensures Shown(p, token) == token <==> HasRoom(p, token)
  {
    var room := p.width - |p.lead|;
    WrapCuts(p, room, token);
    if |token| > room {
      assert Shown(p, token)[room] == '\n';
      assert Filler('\n');
    }
  }

  /** A pane as even as that shows a token whole on no screen, unless it fits. */
  lemma NoneWhole(p: Pane, text: string, token: string)
    requires PaneFits(p) && Even(p, token) && !HasRoom(p, token) && Solid(token)
    ensures !Contains(Screen(p, text), token)
  {
    ScreenRuns(p, text, |token| - 1);
    NothingWholeOnScreen(Screen(p, text), token, |token| - 1);
  }

  // What the pane shows

  lemma BodyEndsLine(m: Message, recipient: string, journalDb: string) returns (body: string)
    ensures FrameBody(m, recipient, journalDb) == body + "\n"
  {
    body := FrameHead(m, recipient) + "\n" + m.text + "\n" + ReplyRequest() + "\n" + m.marker + "\n"
      + FrameNotes(m, recipient, journalDb);
  }

  /** The frame ends in a line with the tag. */
  lemma FrameShown(p: Pane, m: Message, recipient: string, journalDb: string, more: string)
    requires PaneFits(p)
    ensures Screen(p, PromptFrame(m, recipient, journalDb) + more) ==
            Screen(p, FrameBody(m, recipient, journalDb)) + WrapLine(p, CLOSE_TAG) + "\n" + Screen(p, more)
  {
    hide FrameBody, Screen, WrapLine;
    var body := BodyEndsLine(m, recipient, journalDb);
    assert PromptFrame(m, recipient, journalDb) + more == body + "\n" + (CLOSE_TAG + "\n" + more);
    ScreenJoins(p, body, CLOSE_TAG + "\n" + more);
    ScreenJoins(p, CLOSE_TAG, more);
    ScreenOfLine(p, CLOSE_TAG);
  }

  // The echo of a frame alone

  /** On a pane as even as that, an echo of whatever frame is never taken for a fenced reply, whatever the message and
    the screen before. */
  lemma PaneEchoIsNotAReply(p: Pane, before: string, m: Message, recipient: string, journalDb: string)
    requires PaneFits(p) && Even(p, CLOSE_TAG)
    ensures CaptureReply(before, before + Screen(p, PromptFrame(m, recipient, journalDb)), m.marker, None).confidence
            != TurnFenced
  {
    hide FrameBody, Screen, Wrap, Spells, CaptureDelta, Delta, EchoFencedAt, Contains, IsSpace;
    var frame := PromptFrame(m, recipient, journalDb);
    var echo, above := Screen(p, frame), Screen(p, FrameBody(m, recipient, journalDb)) + p.lead;
    DeltaIs(before, before + echo);
    assert frame + "" == frame;
    FrameShown(p, m, recipient, journalDb, "");
    assert Screen(p, "") == "" by { NothingShown(p); }
    var tag := Shown(p, CLOSE_TAG);
    assert echo == above + tag + "\n";
    LineSpells(p, CLOSE_TAG, Screen(p, FrameBody(m, recipient, journalDb)), "\n");
    NewlineIsSpace();
    WrappedEchoIsAReplyIff(above, tag, "\n", m.marker);
    CloseTagIsUnbordered();
    ShownWholeIff(p, CLOSE_TAG);
    if !HasRoom(p, CLOSE_TAG) {
      NoneWhole(p, frame, CLOSE_TAG);
      NoneFenced(echo, |above|, m.marker);
    }
  }

  lemma NothingShown(p: Pane)
    requires PaneFits(p)
    ensures Screen(p, "") == ""
  {
  }

  lemma NewlineIsSpace()
    ensures AllSpace("\n") && IsSpace('\n')
  {
  }

  lemma NoneFenced(screen: string, above: nat, marker: string)
    requires !Contains(screen, CLOSE_TAG)
    ensures forall k: nat, from: nat, to: nat :: !EchoFencedAt(screen, above, marker, k, from, to)
  {
    hide Find, VisibleIn;
    forall k: nat, from: nat, to: nat ensures !EchoFencedAt(screen, above, marker, k, from, to) {
      if EchoFencedAt(screen, above, marker, k, from, to) { WholeSpells(screen, CLOSE_TAG, k); }
    }
  }

  // A reply below a frame

  /** Text around that neither starts a token nor touches one leaves whole occurrences as they are. */
  lemma WholeInMiddle(a: string, r: string, b: string, token: string)
    requires Solid(token) && token[0] !in a && token[0] !in b && r != "" && Filler(r[|r| - 1])
    ensures Contains(a + r + b, token) <==> Contains(r, token)
  {
    var text := a + r + b;
    forall i: nat | OccursAt(text, token, i) ensures |a| <= i && i + |token| <= |a| + |r| {
      OccursCharacter(text, token, i, 0);
      var end := |a| + |r| - 1;
      assert text[end] == r[|r| - 1];
      if i <= end < i + |token| { OccursCharacter(text, token, i, end - i); }
    }
    forall i: nat | i + |token| <= |r| ensures OccursAt(text, token, |a| + i) <==> OccursAt(r, token, i) {
      assert text[|a| + i..|a| + i + |token|] == r[i..i + |token|];
    }
    if Contains(text, token) {
      var i: nat :| i <= |text| && OccursAt(text, token, i);
      assert OccursAt(r, token, i - |a|);
    }
    if Contains(r, token) {
      var i: nat :| i <= |r| && OccursAt(r, token, i);
      assert OccursAt(text, token, |a| + i);
    }
  }

  lemma BreakCut(r: string, b: string, p: nat, q: nat)
    requires q <= |r|
    ensures Break(r + b, p, q) <==> Break(r, p, q)
  {
    var text := r + b;
    forall n: nat | p <= n < q ensures BreakAt(text, p, n, q) <==> BreakAt(r, p, n, q) {
      assert forall k | p <= k < q :: text[k] == r[k];
    }
  }

  lemma {:induction false} SpellsCut(r: string, b: string, token: string, i: nat, from: nat, to: nat)
    requires i < |token| && to <= |r|
    ensures Spells(r + b, token, i, from, to) <==> Spells(r, token, i, from, to)
    decreases |token| - i
  {
    hide Break;
    var text := r + b;
    if i + 1 < |token| {
      if Spells(text, token, i, from, to) {
        assert SpellsAfter(text, token, i + 1, from + 1, to);
        var next: nat :| (next == from + 1 || Break(text, from + 1, next)) && Spells(text, token, i + 1, next, to);
        SpellsEndAfter(text, token, i + 1, next, to);
        if next != from + 1 { BreakGoesOn(text, from + 1, next); }
        SpellsCut(r, b, token, i + 1, next, to);
        BreakCut(r, b, from + 1, next);
        assert SpellsAfter(r, token, i + 1, from + 1, to);
      }
      if Spells(r, token, i, from, to) {
        assert SpellsAfter(r, token, i + 1, from + 1, to);
        var next: nat :| (next == from + 1 || Break(r, from + 1, next)) && Spells(r, token, i + 1, next, to);
        SpellsEndAfter(r, token, i + 1, next, to);
        if next != from + 1 { BreakGoesOn(r, from + 1, next); }
        SpellsCut(r, b, token, i + 1, next, to);
        BreakCut(r, b, from + 1, next);
        assert SpellsAfter(text, token, i + 1, from + 1, to);
        assert text[from] == r[from];
      }
    }
  }

  /** No end of the tag is where a bridge marker begins. */
  lemma TagDoesNotReach(marker: string, a: string, c: string)
    requires StartsWith(marker, "EML_REPLY_") && a != "" && c != "" && StartsWith(c, marker[..1])
    requires forall k | 0 <= k < |c| && k < |marker| :: c[k] == marker[k]
    ensures CLOSE_TAG != a + c
  {
    assert marker[..10] == "EML_REPLY_";
    assert marker[0] == 'E' && marker[1] == 'M' && marker[3] == '_';
    assert forall k | 0 < k < TAG_LENGTH && CLOSE_TAG[k] == 'E' :: k == 2 || k == 11;
    assert CLOSE_TAG[5] == '-' && CLOSE_TAG[12] == ']';
    assert forall k | 0 <= k < |c| :: (a + c)[|a| + k] == c[k];
  }

  /** A tag is not spelled across the end of the reply: what follows are blanks and a bridge marker. */
  lemma NoTagAcross(text: string, b: nat, m: nat, e: nat, marker: string, from: nat, to: nat)
    requires StartsWith(marker, "EML_REPLY_") && Solid(marker) && from < b <= m < |text|
    requires (forall k | b <= k < m :: Filler(text[k])) && Spells(text, marker, 0, m, e)
    requires Spells(text, CLOSE_TAG, 0, from, to)
    ensures to <= b
  {
    hide Spells, Solids, Bordered;
    CloseTagIsUnbordered();
    SpelledSolids(text, CLOSE_TAG, 0, from, to);
    SpelledSolids(text, marker, 0, m, e);
    if b < to <= m {
      FillersEnd(text, b, m, to);
    } else if to > m {
      var a, c := Solids(text, from, m), Solids(text, m, to);
      SolidsConcat(text, from, m, to);
      FirstIsSolid(text, from, m);
      FirstIsSolid(text, m, to);
      SamePrefix(text, m, e, to);
      TagDoesNotReach(marker, a, c);
    }
  }

  lemma FillersEnd(text: string, b: nat, m: nat, to: nat)
    requires b < to <= m <= |text| && forall k | b <= k < m :: Filler(text[k])
    ensures Filler(text[to - 1])
  {
  }

  /** From one start the solid characters are the same as far as they go. */
  lemma SamePrefix(text: string, m: nat, e: nat, to: nat)
    requires m <= e <= |text| && m <= to <= |text|
    ensures var c, marker := Solids(text, m, to), Solids(text, m, e);
      forall k | 0 <= k < |c| && k < |marker| :: c[k] == marker[k]
  {
    hide Solids;
    if to <= e { SolidsConcat(text, m, to, e); } else { SolidsConcat(text, m, e, to); }
  }

  lemma TagInMiddle(r: string, b: string, m: nat, e: nat, marker: string)
    requires r != "" && BridgeMarker(marker) && '[' !in b && m < 1 + |r| + |b| && 1 + |r| <= m
    requires forall k | 1 + |r| <= k < m :: Filler(("\n" + r + b)[k])
    requires Spells("\n" + r + b, marker, 0, m, e)
    ensures SpelledFrom("\n" + r + b, CLOSE_TAG, 0) <==> SpelledFrom(r, CLOSE_TAG, 0)
  {
    hide Spells, MarkerPlain;
    var text := "\n" + r + b;
    PlainIsSolid(marker);
    assert text == "\n" + (r + b) && text[1..] == r + b;
    if from: nat, to: nat :| 0 <= from && Spells(text, CLOSE_TAG, 0, from, to) {
      SpelledStart(text, CLOSE_TAG, from, to);
      NoTagAcross(text, 1 + |r|, m, e, marker, from, to);
      SpellsShift(text, CLOSE_TAG, 1, 0, from - 1, to - 1);
      SpellsCut(r, b, CLOSE_TAG, 0, from - 1, to - 1);
      assert Spells(r, CLOSE_TAG, 0, from - 1, to - 1);
    }
    if from: nat, to: nat :| 0 <= from && Spells(r, CLOSE_TAG, 0, from, to) {
      SpellingIsLong(r, CLOSE_TAG, 0, from, to);
      SpellsCut(r, b, CLOSE_TAG, 0, from, to);
      SpellsShift(text, CLOSE_TAG, 1, 0, from, to);
      assert Spells(text, CLOSE_TAG, 0, 1 + from, 1 + to);
    }
  }

  /** Below a frame whose tag is whole, or on a screen without a whole one, a reply is read back exactly if it is not
    blank, holds no tag of its own, and, where the pane wraps the marker, no whole marker. */
  predicate MarkerFree(p: Pane, shown: string, marker: string)
    requires PaneFits(p)
  {
    HasRoom(p, marker) || !Contains(shown, marker)
  }

  ghost predicate TagFree(p: Pane, shown: string, whole: bool) {
    if whole then !Contains(shown, CLOSE_TAG) else !SpelledFrom(shown, CLOSE_TAG, 0)
  }

  lemma ReadBelowFrame(p: Pane, above: string, tag: string, r: string, marker: string)
    requires PaneFits(p) && BridgeMarker(marker) && r != "" && r[|r| - 1] == '\n'
    requires var screen := above + tag + ("\n" + r + p.lead + Shown(p, marker) + "\n");
      && Spells(screen, CLOSE_TAG, 0, |above|, |above| + |tag|)
      && (tag == CLOSE_TAG || !Contains(screen, CLOSE_TAG))
    ensures var screen := above + tag + ("\n" + r + p.lead + Shown(p, marker) + "\n");
      CaptureDelta(screen, marker) == CaptureResult(Some(Strip(r)), TurnFenced) <==>
      Strip(r) != "" && TagFree(p, r, tag == CLOSE_TAG) && MarkerFree(p, r, marker)
  {
    hide Spells, CaptureDelta, Strip, Contains, BridgeMarker, IsSpace, Shown, Misread, Shows, PlaceFound, TagFree;
    var x, last, end := "\n" + r + p.lead, Shown(p, marker), "\n";
    var tail := x + last + end;
    var screen := above + tag + tail;
    BridgeMarkerIsPlain(marker);
    ShownWholeIff(p, marker);
    ShowsReply(p, above, tag, r, marker);
    NewlineIsSpace();
    BlanksAreSpace(p);
    StripAround("\n", r, p.lead);
    NothingMisread(above, tag, tail, Strip(x), marker);
    WrappedReplyComesBackIff(above, tag, x, last, end, marker);
    OnlyInReply(p, r, marker);
    TagFreeIff(p, above, tag, r, tail);
  }

  lemma BridgeMarkerIsPlain(marker: string)
    requires BridgeMarker(marker)
    ensures MarkerPlain(marker) && Solid(marker) && !Bordered(marker)
  {
  }

  lemma TagFreeIff(p: Pane, above: string, tag: string, r: string, tail: string)
    requires tag == CLOSE_TAG || !Contains(above + tag + tail, CLOSE_TAG)
    requires Contains(tail, CLOSE_TAG) <==> Contains(r, CLOSE_TAG)
    requires SpelledFrom(tail, CLOSE_TAG, 0) <==> SpelledFrom(r, CLOSE_TAG, 0)
    ensures PlaceFound(above, tag, tail, CLOSE_TAG) <==> TagFree(p, r, tag == CLOSE_TAG)
  {
    hide Contains, SpelledFrom;
  }

  lemma ShowsReply(p: Pane, above: string, tag: string, r: string, marker: string)
    requires PaneFits(p) && MarkerPlain(marker) && marker != ""
    requires var screen := above + tag + ("\n" + r + p.lead + Shown(p, marker) + "\n");
      Spells(screen, CLOSE_TAG, 0, |above|, |above| + |tag|)
    ensures var x, last, end := "\n" + r + p.lead, Shown(p, marker), "\n";
      Shows(above + tag + (x + last + end), above, tag, x, last, end, marker)
  {
    hide Spells, IsSpace, Shown, MarkerPlain, MarkerFits, AllSpace, PaneFits;
    MarkerShown(p, above + tag, r, marker);
    NewlineIsSpace();
    var x, last, end := "\n" + r + p.lead, Shown(p, marker), "\n";
    var screen := above + tag + (x + last + end);
    assert |above + tag| + |x| == |above| + |tag| + |x|;
    assert marker != "" ==> MarkerEnds(last, end, marker);
  }

  lemma BlanksAreSpace(p: Pane)
    requires PaneFits(p)
    ensures AllSpace(p.lead) && (forall c | c in p.lead :: Blank(c) && Filler(c))
  {
  }

  lemma MarkerShown(p: Pane, above: string, r: string, marker: string)
    requires PaneFits(p) && marker != ""
    ensures var x, last := "\n" + r + p.lead, Shown(p, marker);
      && Spells(above + (x + last + "\n"), marker, 0, |above| + |x|, |above| + |x| + |last|)
      && Spells(x + last + "\n", marker, 0, |x|, |x| + |last|)
  {
    hide Spells, Wrap;
    var x, last := "\n" + r + p.lead, Shown(p, marker);
    LineSpells(p, marker, above + "\n" + r, "\n");
    assert (above + "\n" + r) + p.lead + last + "\n" == above + (x + last + "\n");
    LineSpells(p, marker, "\n" + r, "\n");
  }

  /** Neither line breaks, blanks nor the marker hold or begin a tag; nor do the former hold a marker. */
  lemma OnlyInReply(p: Pane, r: string, marker: string)
    requires PaneFits(p) && BridgeMarker(marker) && r != "" && r[|r| - 1] == '\n'
    ensures var x, last := "\n" + r + p.lead, Shown(p, marker);
      var tail := x + last + "\n";
      && (Contains(tail, CLOSE_TAG) <==> Contains(r, CLOSE_TAG))
      && (SpelledFrom(tail, CLOSE_TAG, 0) <==> SpelledFrom(r, CLOSE_TAG, 0))
      && (Contains(x, marker) <==> Contains(r, marker))
  {
    hide Spells, Contains, Bordered, IsSpace, Wrap, SpelledFrom;
    var x, last := "\n" + r + p.lead, Shown(p, marker);
    var b := p.lead + last + "\n";
    assert x + last + "\n" == "\n" + r + b;
    PlainIsSolid(marker);
    CloseTagIsUnbordered();
    BlanksAreSpace(p);
    MarkerShown(p, "", r, marker);
    WrapShows(p, p.width - |p.lead|, marker, '[');
    WholeInMiddle("\n", r, b, CLOSE_TAG);
    WholeInMiddle("\n", r, p.lead, marker);
    SpelledStart(x + last + "\n", marker, |x|, |x| + |last|);
    TagInMiddle(r, b, |x|, |x| + |last|, marker);
  }

  /** The case the search is written for: an unwrapped frame and a hard-wrapped marker.  The reply is read back,
    stripped, if and only if it is not blank, holds no close tag, and no whole marker unless the pane has room for
    it. */
  lemma WrappedMarkerComesBackIff(p: Pane, before: string, m: Message, recipient: string, journalDb: string,
                                  reply: string)
    requires PaneFits(p) && BridgeMarker(m.marker)
    ensures var after := before + PromptFrame(m, recipient, journalDb) + reply + "\n" + WrapLine(p, m.marker) + "\n";
      CaptureReply(before, after, m.marker, None) == CaptureResult(Some(Strip(reply)), TurnFenced) <==>
      Strip(reply) != "" && !Contains(reply, CLOSE_TAG) && (HasRoom(p, m.marker) || !Contains(reply, m.marker))
  {
    hide Spells, CaptureDelta, Strip, Contains, FrameBody, Wrap, MarkerPlain, Delta;
    var body, r := FrameBody(m, recipient, journalDb), reply + "\n";
    var after := before + PromptFrame(m, recipient, journalDb) + reply + "\n" + WrapLine(p, m.marker) + "\n";
    var screen := body + CLOSE_TAG + ("\n" + r + p.lead + Shown(p, m.marker) + "\n");
    assert after == before + screen;
    DeltaIs(before, after);
    OwnTagSpelled(body, "\n" + r + p.lead + Shown(p, m.marker) + "\n");
    ReadBelowFrame(p, body, CLOSE_TAG, r, m.marker);
    NewlineIsSpace();
    StripAround("", reply, "\n");
    assert "" + reply + "\n" == r;
    NewlineHoldsNone(reply, CLOSE_TAG);
    PlainIsSolid(m.marker);
    NewlineHoldsNone(reply, m.marker);
  }

  lemma OwnTagSpelled(above: string, tail: string)
    ensures Spells(above + CLOSE_TAG + tail, CLOSE_TAG, 0, |above|, |above| + |CLOSE_TAG|)
  {
    var screen := above + CLOSE_TAG + tail;
    assert screen[|above|..|above| + |CLOSE_TAG|] == CLOSE_TAG;
    WholeSpells(screen, CLOSE_TAG, |above|);
  }

  lemma NewlineHoldsNone(reply: string, token: string)
    requires Solid(token)
    ensures Contains(reply + "\n", token) <==> Contains(reply, token)
  {
    if Contains(reply, token) { WholeWithin(reply, "\n", token); }
    if Contains(reply + "\n", token) {
      var i: nat :| i <= |reply + "\n"| && OccursAt(reply + "\n", token, i);
      OccursCharacter(reply + "\n", token, i, |token| - 1);
      assert reply[i..i + |token|] == (reply + "\n")[i..i + |token|];
      assert OccursAt(reply, token, i);
    }
  }

  /** Through a pane that wraps everything: on a pane as even as that, what it shows of a reply is read back,
    stripped, if and only if the reply is not blank, the screen shows no tag in it (whole, or spelled if the pane wraps
    tags), and no whole marker if the pane wraps markers. */
  lemma PaneReplyComesBackIff(p: Pane, before: string, m: Message, recipient: string, journalDb: string, reply: string)
    requires PaneFits(p) && Even(p, CLOSE_TAG) && BridgeMarker(m.marker)
    ensures var added := Screen(p, PromptFrame(m, recipient, journalDb) + reply + "\n" + m.marker + "\n");
      var shown := Screen(p, reply + "\n");
      CaptureReply(before, before + added, m.marker, None) == CaptureResult(Some(Strip(shown)), TurnFenced) <==>
      Strip(reply) != "" && TagFree(p, shown, HasRoom(p, CLOSE_TAG)) && MarkerFree(p, shown, m.marker)
  {
    hide Spells, CaptureDelta, Strip, Contains, FrameBody, Wrap, MarkerPlain, Delta, Screen, WrapLine;
    var frame, text := PromptFrame(m, recipient, journalDb), reply + "\n" + m.marker + "\n";
    var above, tag := Screen(p, FrameBody(m, recipient, journalDb)) + p.lead, Shown(p, CLOSE_TAG);
    var shown := Screen(p, reply + "\n");
    assert frame + reply + "\n" + m.marker + "\n" == frame + text;
    FrameShown(p, m, recipient, journalDb, text);
    ReplyShown(p, reply, m.marker);
    var screen := above + tag + ("\n" + shown + p.lead + Shown(p, m.marker) + "\n");
    assert Screen(p, frame + text) == screen by { LinesShown(p, CLOSE_TAG); LinesShown(p, m.marker); }
    DeltaIs(before, before + screen);
    OwnTagShown(p, Screen(p, FrameBody(m, recipient, journalDb)),
                "\n" + shown + p.lead + Shown(p, m.marker) + "\n");
    CloseTagIsUnbordered();
    ShownWholeIff(p, CLOSE_TAG);
    if !HasRoom(p, CLOSE_TAG) { NoneWhole(p, frame + text, CLOSE_TAG); }
    ReadBelowFrame(p, above, tag, shown, m.marker);
    BlankIsShownBlank(p, reply);
  }

  lemma BlankIsShownBlank(p: Pane, reply: string)
    requires PaneFits(p)
    ensures Strip(Screen(p, reply + "\n")) == "" <==> Strip(reply) == ""
  {
    hide Strip, Screen, IsSpace;
    var text := reply + "\n";
    var shown := Screen(p, text);
    BlankIffSpace(reply);
    BlankIffSpace(shown);
    SpacesFill();
    NewlineIsSpace();
    if !AllSpace(reply) {
      var k :| 0 <= k < |reply| && !IsSpace(reply[k]);
      assert text[k] == reply[k];
      ScreenKeeps(p, text, reply[k]);
    }
    if !AllSpace(shown) {
      var k :| 0 <= k < |shown| && !IsSpace(shown[k]);
      if shown[k] !in text { ScreenShows(p, text, shown[k]); }
    }
  }

  lemma LinesShown(p: Pane, token: string)
    requires PaneFits(p)
    ensures WrapLine(p, token) == p.lead + Shown(p, token)
  {
  }

  lemma OwnTagShown(p: Pane, above: string, tail: string)
    requires PaneFits(p)
    ensures var tag := Shown(p, CLOSE_TAG);
      Spells(above + p.lead + tag + tail, CLOSE_TAG, 0, |above| + |p.lead|, |above| + |p.lead| + |tag|)
  {
    hide Spells, Wrap;
    LineSpells(p, CLOSE_TAG, above, tail);
  }

  lemma ReplyShown(p: Pane, reply: string, marker: string)
    requires PaneFits(p) && BridgeMarker(marker)
    ensures var shown := Screen(p, reply + "\n");
      && Screen(p, reply + "\n" + marker + "\n") == shown + WrapLine(p, marker) + "\n"
      && shown != "" && shown[|shown| - 1] == '\n'
  {
    hide Wrap, WrapLine;
    assert reply + "\n" + marker + "\n" == reply + "\n" + (marker + "\n");
    ScreenJoins(p, reply, marker + "\n");
    MarkerIsOneLine(marker);
    ScreenOfLine(p, marker);
    EndsInNewline(p, reply);
  }

  lemma MarkerIsOneLine(marker: string)
    requires BridgeMarker(marker)
    ensures '\n' !in marker
  {
    assert IsSpace('\n');
  }

  lemma {:induction false} EndsInNewline(p: Pane, text: string)
    requires PaneFits(p)
    ensures var shown := Screen(p, text + "\n"); shown != "" && shown[|shown| - 1] == '\n'
    decreases |text|
  {
    hide Wrap, WrapLine;
    var n := LineEnd(text);
    var done := text + "\n";
    assert done[..n] == text[..n];
    LineEndIs(done, n);
    if n == |text| {
      assert done[n + 1..] == "" && Screen(p, "") == "";
    } else {
      assert done[n + 1..] == text[n + 1..] + "\n";
      EndsInNewline(p, text[n + 1..]);
    }
  }

  /** A pane whose continuations are indented at least as far as its first rows is even for every token; there a reply
    need not be searched for markers. */
  lemma EvenPaneReplyComesBackIff(p: Pane, before: string, m: Message, recipient: string, journalDb: string,
                                  reply: string)
    requires PaneFits(p) && |p.lead| <= |p.indent| && BridgeMarker(m.marker)
    ensures var added := Screen(p, PromptFrame(m, recipient, journalDb) + reply + "\n" + m.marker + "\n");
      var shown := Screen(p, reply + "\n");
      CaptureReply(before, before + added, m.marker, None) == CaptureResult(Some(Strip(shown)), TurnFenced) <==>
      Strip(reply) != "" && TagFree(p, shown, HasRoom(p, CLOSE_TAG))
  {
    hide CaptureReply, Strip, Screen, TagFree, PromptFrame, Contains, MarkerPlain;
    PaneReplyComesBackIff(p, before, m, recipient, journalDb, reply);
    PlainIsSolid(m.marker);
    if !HasRoom(p, m.marker) { NoneWhole(p, reply + "\n", m.marker); }
  }
}
