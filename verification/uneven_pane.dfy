/** A pane that indents first rows further than continuations can make a bridge message pass for its own answer. */
module UnevenPane {
  import opened Prelude
  import opened BridgeModels
  import opened TerminalText
  import opened RightmostSearch
  import opened HardWrap
  import opened Capture
  import opened WrappedCapture
  import opened PaneCapture

  function Repeat(c: char, n: nat): (s: string)
    ensures |s| == n && forall k | 0 <= k < n :: s[k] == c
  {
    seq(n, _ => c)
  }

  /** A message that fills a first row and ends in the tag. */
  function Trap(p: Pane): string
    requires PaneFits(p)
  {
    Repeat('x', p.width - |p.lead|) + CLOSE_TAG
  }

  lemma TrapShown(p: Pane)
    requires PaneFits(p) && |p.indent| + TAG_LENGTH <= p.width
    ensures WrapLine(p, Trap(p)) == p.lead + Repeat('x', p.width - |p.lead|) + "\n" + p.indent + CLOSE_TAG
    ensures '\n' !in Trap(p)
  {
    hide Wrap;
    var room := p.width - |p.lead|;
    RowThenTag(p, room, Repeat('x', room));
    NoLineBreak(Repeat('x', room));
  }

  lemma NoLineBreak(fill: string)
    requires '\n' !in fill
    ensures '\n' !in fill + CLOSE_TAG
  {
  }

  lemma RowThenTag(p: Pane, room: nat, fill: string)
    requires PaneFits(p) && |p.indent| + TAG_LENGTH <= p.width && |fill| == room
    ensures p.lead + Wrap(p, room, fill + CLOSE_TAG) == p.lead + fill + "\n" + p.indent + CLOSE_TAG
  {
    hide Wrap;
    assert (fill + CLOSE_TAG)[..room] == fill && (fill + CLOSE_TAG)[room..] == CLOSE_TAG;
    WrapCuts(p, room, fill + CLOSE_TAG);
    WrapCuts(p, p.width - |p.indent|, CLOSE_TAG);
    assert p.lead + (fill + "\n" + p.indent + CLOSE_TAG) == p.lead + fill + "\n" + p.indent + CLOSE_TAG;
  }

  /** What follows the message in its frame, above the tag. */
  function BelowText(m: Message, recipient: string, journalDb: string): string {
    ReplyRequest() + "\n" + m.marker + "\n" + FrameNotes(m, recipient, journalDb) + "\n"
  }

  lemma NoneInBoth(a: string, b: string, c: char)
    requires c !in a && c !in b
    ensures c !in a + b
  {
  }

  lemma NotesHaveNoBracket(m: Message, recipient: string, journalDb: string)
    requires '[' !in m.id && '[' !in recipient && '[' !in journalDb && '[' !in m.marker
    ensures '[' !in BelowText(m, recipient, journalDb)
  {
    hide ReplyRequest, FrameNotes;
    HintHasNoBracket(m, recipient, journalDb);
    RequestHasNoBracket();
    var request, notes := ReplyRequest(), FrameNotes(m, recipient, journalDb);
    NoneInBoth(request, "\n", '[');
    NoneInBoth(request + "\n", m.marker, '[');
    NoneInBoth(request + "\n" + m.marker, "\n", '[');
    NoneInBoth(request + "\n" + m.marker + "\n", notes, '[');
    NoneInBoth(request + "\n" + m.marker + "\n" + notes, "\n", '[');
  }

  lemma DataNoticeHasNoBracket()
    ensures '[' !in DataNotice()
  {
  }

  lemma EffectsNoticeHasNoBracket()
    ensures '[' !in EffectsNotice()
  {
  }

  lemma MarkerNoticeHasNoBracket()
    ensures '[' !in MarkerNotice()
  {
  }

  lemma HintNoticeHasNoBracket()
    ensures '[' !in HintNotice()
  {
  }

  lemma FileNoticeHasNoBracket()
    ensures '[' !in FileNotice()
  {
  }

  lemma FallbackNoticeHasNoBracket()
    ensures '[' !in FallbackNotice()
  {
  }

  lemma RequestHasNoBracket()
    ensures '[' !in ReplyRequest()
  {
    hide DataNotice, EffectsNotice, MarkerNotice;
    DataNoticeHasNoBracket();
    EffectsNoticeHasNoBracket();
    MarkerNoticeHasNoBracket();
  }

  lemma HintHasNoBracket(m: Message, recipient: string, journalDb: string)
    requires '[' !in m.id && '[' !in recipient && '[' !in journalDb
    ensures '[' !in FrameNotes(m, recipient, journalDb)
  {
    hide ReplyHint, HintNotice, FileNotice, FallbackNotice;
    HintLineHasNoBracket(m.id, recipient, journalDb);
    HintNoticeHasNoBracket();
    FileNoticeHasNoBracket();
    FallbackNoticeHasNoBracket();
  }

  lemma HintLineHasNoBracket(messageId: string, recipient: string, journalDb: string)
    requires '[' !in messageId && '[' !in recipient && '[' !in journalDb
    ensures '[' !in ReplyHint(messageId, recipient, journalDb)
  {
  }

  /** The frame of a trap, as shown: the tag in the message stands whole, and a marker follows below. */
  lemma TrapFrameShown(p: Pane, m: Message, recipient: string, journalDb: string) returns (above: string)
    requires PaneFits(p) && |p.indent| + TAG_LENGTH <= p.width && m.text == Trap(p)
    ensures Screen(p, PromptFrame(m, recipient, journalDb)) ==
            above + CLOSE_TAG + ("\n" + Screen(p, BelowText(m, recipient, journalDb)) + WrapLine(p, CLOSE_TAG) + "\n")
  {
    hide Screen, Wrap, FrameHead, WrapLine, BelowText, Trap, PromptFrame, FrameBody;
    var head, below := FrameHead(m, recipient), BelowText(m, recipient, journalDb);
    var fill := Repeat('x', p.width - |p.lead|);
    var top, low, tag := Screen(p, head + "\n"), Screen(p, below), WrapLine(p, CLOSE_TAG);
    above := top + p.lead + fill + "\n" + p.indent;
    FrameShown(p, m, recipient, journalDb, "");
    assert PromptFrame(m, recipient, journalDb) + "" == PromptFrame(m, recipient, journalDb);
    NothingShown(p);
    BodySplits(m, recipient, journalDb);
    ScreenJoins(p, head, m.text + "\n" + below);
    ScreenJoins(p, m.text, below);
    TrapShown(p);
    ScreenOfLine(p, m.text);
    RegroupShown(top, p.lead + fill + "\n" + p.indent, CLOSE_TAG, low, tag);
    assert top + (p.lead + fill + "\n" + p.indent) == above;
  }

  lemma RegroupShown(top: string, row: string, closing: string, low: string, tag: string)
    ensures top + ((row + closing) + "\n" + low) + tag + "\n" + "" ==
            (top + row) + closing + ("\n" + low + tag + "\n")
  {
  }

  lemma BodySplits(m: Message, recipient: string, journalDb: string)
    ensures FrameBody(m, recipient, journalDb) ==
            FrameHead(m, recipient) + "\n" + (m.text + "\n" + BelowText(m, recipient, journalDb))
  {
    hide FrameNotes, FrameHead, ReplyRequest;
    Regroup(FrameHead(m, recipient), m.text, ReplyRequest(), m.marker, FrameNotes(m, recipient, journalDb));
  }

  lemma Regroup(a: string, b: string, c: string, d: string, e: string)
    ensures a + "\n" + b + "\n" + c + "\n" + d + "\n" + e + "\n"
            == a + "\n" + (b + "\n" + (c + "\n" + d + "\n" + e + "\n"))
  {
    var low := c + "\n" + d + "\n" + e + "\n";
    assert a + "\n" + b + "\n" + c == a + "\n" + (b + "\n" + c);
    assert a + "\n" + b + "\n" + low == a + "\n" + (b + "\n" + low);
    assert a + "\n" + b + "\n" + c + "\n" + d + "\n" + e + "\n" == a + "\n" + b + "\n" + low;
  }

  lemma BracketFree(marker: string)
    requires BridgeMarker(marker)
    ensures '[' !in marker
  {
  }

  // Where the search for the tag ends

  /** Below the message no tag stands whole: the only bracket there begins the frame's own, which is wrapped. */
  lemma NoTagBelow(p: Pane, low: string)
    requires PaneFits(p) && !HasRoom(p, CLOSE_TAG) && '[' !in low
    ensures !Contains("\n" + low + WrapLine(p, CLOSE_TAG) + "\n", CLOSE_TAG)
  {
    hide Spells, Shown, Bordered, Solid, OccursAt, WrapLine;
    var a, tag := "\n" + low + p.lead, Shown(p, CLOSE_TAG);
    var text := "\n" + low + WrapLine(p, CLOSE_TAG) + "\n";
    assert text == a + tag + "\n" by { LinesShown(p, CLOSE_TAG); }
    OwnTagShown(p, "\n" + low, "\n");
    CloseTagIsUnbordered();
    ShownWholeIff(p, CLOSE_TAG);
    BlanksAreSpace(p);
    assert text[|a|..|a| + |tag|] == tag;
    NotWholeHere(text, CLOSE_TAG, |a|, |a| + |tag|);
    forall i: nat | OccursAt(text, CLOSE_TAG, i) ensures false {
      OccursCharacter(text, CLOSE_TAG, i, 0);
      WholeSpells(text, CLOSE_TAG, i);
      SpelledStart(text, CLOSE_TAG, i, i + TAG_LENGTH);
      NoBracketIn(a, text, i);
      SpellingsDoNotOverlap(text, CLOSE_TAG, |a|, |a| + |tag|, i, i + TAG_LENGTH);
    }
  }

  lemma NoBracketIn(a: string, text: string, i: nat)
    requires '[' !in a && |a| <= |text| && text[..|a|] == a && i < |text| && text[i] == '['
    ensures |a| <= i
  {
    assert forall k | 0 <= k < |a| :: a[k] == text[..|a|][k] == text[k];
  }

  // Where the search for the marker ends

  /** Whatever is found as the marker starts below the line that ends the message. */
  lemma MarkerIsBelow(text: string, a: nat, e: nat, marker: string, from: nat, to: nat)
    requires Spells(text, "END_MESSAGE", 0, a, e) && Spells(text, marker, 0, from, to) && BridgeMarker(marker)
    requires forall k | 0 <= k < a && k < |text| :: Filler(text[k])
    ensures a < from && a < |text| && !IsSpace(text[a])
  {
    hide Spells, Solids, Bordered, IsSpace;
    BridgeMarkerIsPlain(marker);
    EndIsSolid();
    SpelledSolids(text, "END_MESSAGE", 0, a, e);
    SpelledSolids(text, marker, 0, from, to);
    SpelledStart(text, "END_MESSAGE", a, e);
    assert marker[..10] == "EML_REPLY_" && marker[1] == 'M';
    if from == a { SamePrefix(text, a, e, to); }
  }

  lemma EndIsSolid()
    ensures Solid("END_MESSAGE") && !IsSpace('E')
  {
  }

  /** The message's end and the marker, as shown below it. */
  lemma BelowShown(p: Pane, m: Message, recipient: string, journalDb: string)
    returns (between: string, after: string)
    requires PaneFits(p) && BridgeMarker(m.marker)
    ensures Screen(p, BelowText(m, recipient, journalDb)) ==
            WrapLine(p, "END_MESSAGE") + between + WrapLine(p, m.marker) + after
  {
    hide Screen, WrapLine, DataNotice, EffectsNotice, MarkerNotice, FrameNotes, BridgeMarker;
    var notices := "\n" + DataNotice() + EffectsNotice() + MarkerNotice();
    var notes := FrameNotes(m, recipient, journalDb) + "\n";
    RequestBegins();
    assert BelowText(m, recipient, journalDb) == ReplyRequest() + "\n" + (m.marker + "\n" + notes);
    ScreenJoins(p, ReplyRequest(), m.marker + "\n" + notes);
    MarkerIsOneLine(m.marker);
    ScreenJoins(p, m.marker, notes);
    ScreenOfLine(p, m.marker);
    assert ReplyRequest() + "\n" == "END_MESSAGE" + "\n" + (notices + "\n");
    ScreenJoins(p, "END_MESSAGE", notices + "\n");
    assert '\n' !in "END_MESSAGE";
    ScreenOfLine(p, "END_MESSAGE");
    between := "\n" + Screen(p, notices + "\n");
    after := "\n" + Screen(p, notes);
  }

  lemma RequestBegins()
    ensures ReplyRequest() == "END_MESSAGE" + "\n" + ("\n" + DataNotice() + EffectsNotice() + MarkerNotice())
  {
    hide DataNotice, EffectsNotice, MarkerNotice;
    assert "END_MESSAGE\n\n" == "END_MESSAGE" + "\n" + "\n";
  }

  /** Below the message its end is shown first, and the marker further on. */
  lemma LinesBelow(p: Pane, m: Message, recipient: string, journalDb: string, tail: string)
    returns (e: nat, s: nat, t: nat)
    requires PaneFits(p) && BridgeMarker(m.marker)
    ensures var rest, a := "\n" + Screen(p, BelowText(m, recipient, journalDb)) + tail, 1 + |p.lead|;
      && Spells(rest, "END_MESSAGE", 0, a, e) && Spells(rest, m.marker, 0, s, t)
      && forall k | 0 <= k < a && k < |rest| :: Filler(rest[k])
  {
    hide Spells, Screen, WrapLine, BridgeMarker, BelowText;
    var between, after := BelowShown(p, m, recipient, journalDb);
    var rest := "\n" + Screen(p, BelowText(m, recipient, journalDb)) + tail;
    BridgeMarkerIsPlain(m.marker);
    var line, shown := WrapLine(p, "END_MESSAGE"), WrapLine(p, m.marker);
    Reassociate("\n", line, between, shown, after, tail);
    LineSpells(p, "END_MESSAGE", "\n", between + shown + after + tail);
    LineSpells(p, m.marker, "\n" + line + between, after + tail);
    e := 1 + |p.lead| + |Shown(p, "END_MESSAGE")|;
    s := |"\n" + line + between| + |p.lead|;
    t := s + |Shown(p, m.marker)|;
    StartsBlank(p, line, between + shown + after + tail);
  }

  lemma Reassociate(a: string, b: string, c: string, d: string, e: string, f: string)
    ensures a + (b + c + d + e) + f == a + b + (c + d + e + f) == (a + b + c) + d + (e + f)
  {
  }

  lemma StartsBlank(p: Pane, line: string, more: string)
    requires PaneFits(p) && line == WrapLine(p, "END_MESSAGE")
    ensures var rest := "\n" + line + more; forall k | 0 <= k < 1 + |p.lead| && k < |rest| :: Filler(rest[k])
  {
    hide Wrap;
    BlanksAreSpace(p);
    assert forall k | 0 <= k < |p.lead| :: line[k] == p.lead[k];
  }

  /** Below the message a marker is found, with something visible before it. */
  lemma MarkerFoundBelow(p: Pane, m: Message, recipient: string, journalDb: string, tail: string)
    requires PaneFits(p) && BridgeMarker(m.marker)
    ensures var rest := "\n" + Screen(p, BelowText(m, recipient, journalDb)) + tail;
      Find(rest, m.marker).Some? && VisibleIn(rest, 0, Find(rest, m.marker).value.0)
  {
    hide Spells, Find, Screen, IsSpace, BridgeMarker, BelowText;
    var rest := "\n" + Screen(p, BelowText(m, recipient, journalDb)) + tail;
    var e, s, t := LinesBelow(p, m, recipient, journalDb, tail);
    BridgeMarkerIsPlain(m.marker);
    FoundAnywhere(rest, m.marker);
    FindIs(rest, m.marker);
    var found := Find(rest, m.marker).value;
    MarkerIsBelow(rest, 1 + |p.lead|, e, m.marker, found.0, found.1);
  }

  lemma TrapIsLast(above: string, rest: string)
    requires !Contains(rest, CLOSE_TAG)
    ensures LastWhole(above + CLOSE_TAG + rest, CLOSE_TAG, |above|)
  {
    hide Contains;
    CloseTagIsUnbordered();
    var closed := above + CLOSE_TAG;
    assert (closed + rest)[|above|..|above| + TAG_LENGTH] == CLOSE_TAG;
    LastOfBelow(closed, rest, CLOSE_TAG, |above|);
  }

  lemma VisibleBehind(echo: string, n: nat, from: nat)
    requires n <= |echo| && VisibleIn(echo[n..], 0, from)
    ensures VisibleIn(echo, n, n + from)
  {
    hide IsSpace;
    var j :| 0 <= j < from && j < |echo[n..]| && !IsSpace(echo[n..][j]);
    assert echo[n + j] == echo[n..][j];
  }

  /** On an uneven pane the echo of a message that sets this trap is taken for a fenced reply. */
  lemma UnevenPaneEchoIsAReply(p: Pane, before: string, m: Message, recipient: string, journalDb: string)
    requires PaneFits(p) && !Even(p, CLOSE_TAG) && m.text == Trap(p) && BridgeMarker(m.marker)
    requires '[' !in m.id && '[' !in recipient && '[' !in journalDb
    ensures CaptureReply(before, before + Screen(p, PromptFrame(m, recipient, journalDb)), m.marker, None).confidence
            == TurnFenced
  {
    hide Spells, Find, Screen, Wrap, IsSpace, BelowText, PromptFrame, CaptureDelta, Delta, WrapLine, LastWhole, Trap,
      BridgeMarker;
    var echo := Screen(p, PromptFrame(m, recipient, journalDb));
    var above := TrapFrameShown(p, m, recipient, journalDb);
    var low := Screen(p, BelowText(m, recipient, journalDb));
    var rest := "\n" + low + WrapLine(p, CLOSE_TAG) + "\n";
    assert echo == above + CLOSE_TAG + rest;
    DeltaIs(before, before + echo);
    BracketFree(m.marker);
    NotesHaveNoBracket(m, recipient, journalDb);
    ScreenShows(p, BelowText(m, recipient, journalDb), '[');
    NoTagBelow(p, low);
    TrapIsLast(above, rest);
    assert rest == "\n" + low + (WrapLine(p, CLOSE_TAG) + "\n");
    MarkerFoundBelow(p, m, recipient, journalDb, WrapLine(p, CLOSE_TAG) + "\n");
    var found := Find(rest, m.marker).value;
    assert echo[|above| + TAG_LENGTH..] == rest;
    VisibleBehind(echo, |above| + TAG_LENGTH, found.0);
    EchoFencedIsRead(echo, |echo|, m.marker, |above|, found.0, found.1);
  }

  /** The echo of a frame is taken for a fenced reply. */
  predicate EchoFenced(p: Pane, before: string, m: Message, recipient: string, journalDb: string)
    requires PaneFits(p)
  {
    CaptureReply(before, before + Screen(p, PromptFrame(m, recipient, journalDb)), m.marker, None).confidence
    == TurnFenced
  }

  /** A pane never makes an echo pass for a reply, whatever message is sent, if and only if it is even for the tag:
    either a first row has room for it, or no continuation has. */
  lemma EchoSafeIff(p: Pane)
    requires PaneFits(p)
    ensures (forall before, m, recipient, journalDb :: !EchoFenced(p, before, m, recipient, journalDb)) <==>
            Even(p, CLOSE_TAG)
  {
    hide CaptureReply, Screen, PromptFrame;
    if Even(p, CLOSE_TAG) {
      forall before, m, recipient, journalDb ensures !EchoFenced(p, before, m, recipient, journalDb) {
        PaneEchoIsNotAReply(p, before, m, recipient, journalDb);
      }
    } else {
      var m := TrapMessage(p);
      UnevenPaneEchoIsAReply(p, "", m, "b", "");
      assert EchoFenced(p, "", m, "b", "");
    }
  }

  lemma TrapMessage(p: Pane) returns (m: Message)
    requires PaneFits(p)
    ensures m.text == Trap(p) && BridgeMarker(m.marker) && '[' !in m.id
  {
    hide Trap, BridgeMarker;
    BridgeMarkersArePlain("m", "1");
    var routing := Routing(0, 8, 0, 6, ["a"], "k", Sha256(Trap(p)));
    m := Message("m", "t", "c", None, "request", "direct", "a", "b", TargetAuthority(Unlocked, None, None), Trap(p),
                 "EML_REPLY_" + "m" + "_" + "1", HerdrPrompt, true, false, routing);
  }
}
