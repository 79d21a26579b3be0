/** Reading a reply back from a screen on which the frame's closing tag and the marker may be hard-wrapped. */
module WrappedCapture {
  import opened Prelude
  import opened BridgeModels
  import opened TerminalText
  import opened RightmostSearch
  import opened Capture

  const TAG_LENGTH := |CLOSE_TAG|

  /** A marker of visible characters, no proper end of which is also its beginning. */
  predicate MarkerPlain(marker: string) {
    marker != "" && (forall k | 0 <= k < |marker| :: !IsSpace(marker[k])) && !Bordered(marker)
  }

  lemma PlainIsSolid(marker: string)
    requires MarkerPlain(marker)
    ensures Solid(marker) && !Bordered(marker) && !IsSpace(marker[0])
  {
  }

  /** The markers of bridge messages, whose ids are lower-case, are solid and have no border. */
  lemma BridgeMarkersAreUnbordered(messageId: string, suffix: string)
    requires suffix != "" && forall c | c in messageId + suffix :: c != 'E' && !Filler(c)
    ensures var marker := "EML_REPLY_" + messageId + "_" + suffix; Solid(marker) && !Bordered(marker)
  {
    hide Filler;
    var marker, middle := "EML_REPLY_" + messageId + "_" + suffix, messageId + "_" + suffix;
    assert marker == "EML_REPLY_" + middle;
    SplitMarker(middle);
    assert forall k | 0 <= k < |middle| :: middle[k] in messageId + suffix || middle[k] == '_';
    HeadIsSolid();
    forall k | 0 < k < |marker| ensures marker[k..] != marker[..|marker| - k] {
      assert marker[k..][0] == marker[k] && marker[..|marker| - k][0] == 'E';
      if k == 5 { assert marker[k..][1] == 'P' && marker[..|marker| - k][1] == 'M'; }
    }
  }

  lemma HeadIsSolid()
    ensures !Filler('_') && forall k | 0 <= k < 10 :: !Filler("EML_REPLY_"[k])
  {
  }

  lemma SplitMarker(middle: string)
    ensures var marker := "EML_REPLY_" + middle;
      (forall k | 10 <= k < |marker| :: marker[k] == middle[k - 10]) &&
      (forall k | 0 <= k < 10 :: marker[k] == "EML_REPLY_"[k])
  {
  }

  /** A marker as the bridge makes it: plain, with its prefix, and without a bracket. */
  predicate BridgeMarker(marker: string) {
    MarkerPlain(marker) && StartsWith(marker, "EML_REPLY_") && '[' !in marker
  }

  lemma BridgeMarkersArePlain(messageId: string, suffix: string)
    requires suffix != "" && forall c | c in messageId + suffix :: c != 'E' && c != '[' && !IsSpace(c)
    ensures BridgeMarker("EML_REPLY_" + messageId + "_" + suffix)
  {
    hide IsSpace, Bordered;
    var marker, middle := "EML_REPLY_" + messageId + "_" + suffix, messageId + "_" + suffix;
    assert marker == "EML_REPLY_" + middle && marker[..10] == "EML_REPLY_";
    SpacesFill();
    BridgeMarkersAreUnbordered(messageId, suffix);
    SplitMarker(middle);
    assert forall k | 0 <= k < |middle| :: middle[k] in messageId + suffix || middle[k] == '_';
    HeadIsVisible();
  }

  lemma SpacesFill()
    ensures forall c :: Filler(c) ==> IsSpace(c)
  {
  }

  lemma HeadIsVisible()
    ensures !IsSpace('_') && forall k | 0 <= k < 10 :: !IsSpace("EML_REPLY_"[k])
  {
  }

  /** The close tag is solid and has no border, so a search for it is rightmost wherever it occurs only wrapped. */
  lemma CloseTagIsUnbordered()
    ensures Solid(CLOSE_TAG) && !Bordered(CLOSE_TAG)
    ensures forall text | !Contains(text, CLOSE_TAG) :: Rightmost(text, CLOSE_TAG)
  {
    hide Rightmost, Contains;
    assert forall k | 0 < k < |CLOSE_TAG| :: CLOSE_TAG[k] != CLOSE_TAG[0];
    forall k | 0 < k < |CLOSE_TAG| ensures CLOSE_TAG[k..] != CLOSE_TAG[..|CLOSE_TAG| - k] {
      assert CLOSE_TAG[k..][0] == CLOSE_TAG[k] && CLOSE_TAG[..|CLOSE_TAG| - k][0] == CLOSE_TAG[0];
    }
    WrappedRightmostIff(CLOSE_TAG);
  }

  lemma SpelledStart(text: string, token: string, from: nat, to: nat)
    requires token != "" && Spells(text, token, 0, from, to)
    ensures from < to && from < |text| && text[from] == token[0]
  {
    SpellsEndAfter(text, token, 0, from, to);
  }

  // Where the frame ends

  /** On a screen where the frame's own tag stands wrapped or whole between `above` and `tail`, the capture goes
    on with exactly `tail` if and only if no further tag follows: no whole one if it is whole itself, and
    otherwise no whole one anywhere and no wrapped one behind it. */
  lemma FrameFoundIff(above: string, tag: string, tail: string)
    requires Spells(above + tag + tail, CLOSE_TAG, 0, |above|, |above| + |tag|)
    ensures AfterFrame(above + tag + tail) == tail <==> PlaceFound(above, tag, tail, CLOSE_TAG)
  {
    hide Spells, Find, PlaceFound, Bordered;
    var screen, s, e := above + tag + tail, |above|, |above| + |tag|;
    CloseTagIsUnbordered();
    FindIs(screen, CLOSE_TAG);
    PlaceFoundIff(above, tag, tail, CLOSE_TAG);
    var found := Find(screen, CLOSE_TAG).value;
    SpellingsDoNotOverlap(screen, CLOSE_TAG, s, e, found.0, found.1);
    SpellingsDoNotOverlap(screen, CLOSE_TAG, found.0, found.1, s, e);
    SpellsEndAfter(screen, CLOSE_TAG, 0, s, e);
    assert screen[e..] == tail && |AfterFrame(screen)| == |screen| - found.1;
  }

  // Where the marker is

  lemma {:induction false} SpellingIsLong(text: string, token: string, i: nat, from: nat, to: nat)
    requires i < |token| && Spells(text, token, i, from, to)
    ensures from + |token| - i <= to <= |text|
    ensures text[to - 1] == token[|token| - 1]
    decreases |token| - i
  {
    hide Break;
    if i + 1 < |token| {
      assert SpellsAfter(text, token, i + 1, from + 1, to);
      var next: nat :| (next == from + 1 || Break(text, from + 1, next)) && Spells(text, token, i + 1, next, to);
      if next != from + 1 { BreakGoesOn(text, from + 1, next); }
      SpellingIsLong(text, token, i + 1, next, to);
    }
  }

  /** The screen ends with the marker: with a plain one, wrapped or whole, and white space; or with any one on a line
    of its own. */
  predicate MarkerEnds(last: string, end: string, marker: string) {
    (MarkerPlain(marker) && AllSpace(end)) || (MarkerFits(marker) && last == marker && end == "\n")
  }

  /** Behind the start of the last marker no other one is spelled. */
  lemma NothingBehind(x: string, last: string, end: string, marker: string)
    requires MarkerEnds(last, end, marker) && Spells(x + last + end, marker, 0, |x|, |x| + |last|)
    ensures !SpelledFrom(x + last + end, marker, |x| + 1)
  {
    hide Spells, Bordered, IsSpace;
    var text, s, e := x + last + end, |x|, |x| + |last|;
    assert AllSpace(end) ==> forall k | e <= k < |text| :: IsSpace(text[k]);
    assert end == "\n" ==> text[|text| - 1] == '\n';
    if from: nat, to: nat :| s + 1 <= from && Spells(text, marker, 0, from, to) {
      SpellingIsLong(text, marker, 0, from, to);
      SpelledStart(text, marker, from, to);
      if MarkerPlain(marker) {
        PlainIsSolid(marker);
        SpellingsDoNotOverlap(text, marker, s, e, from, to);
      }
    }
  }

  lemma EndsPlainly(last: string, end: string, marker: string)
    requires MarkerEnds(last, end, marker)
    ensures marker != "" && (last != marker ==> MarkerPlain(marker))
    ensures last != marker ==> Solid(marker) && !Bordered(marker) && !IsSpace(marker[0])
  {
  }

  lemma WholeWithin(x: string, rest: string, token: string)
    requires Contains(x, token)
    ensures Contains(x + rest, token)
  {
    var i :| 0 <= i <= |x| && OccursAt(x, token, i);
    assert (x + rest)[i..i + |token|] == x[i..i + |token|];
    assert OccursAt(x + rest, token, i);
  }

  /** A whole marker before the last one lies before it entirely. */
  lemma WholeBefore(x: string, rest: string, marker: string, e: nat, i: nat)
    requires MarkerPlain(marker) && Spells(x + rest, marker, 0, |x|, e) && OccursAt(x + rest, marker, i) && i < |x|
    ensures i + |marker| <= |x| && Contains(x, marker)
  {
    hide Spells, Bordered, MarkerPlain;
    var text := x + rest;
    PlainIsSolid(marker);
    WholeSpells(text, marker, i);
    SpellingsDoNotOverlap(text, marker, i, i + |marker|, |x|, e);
    assert x[i..i + |marker|] == text[i..i + |marker|];
    assert OccursAt(x, marker, i);
  }

  /** The search takes the last marker exactly if it is whole, or no whole one stands before it. */
  lemma MarkerFoundIff(x: string, last: string, end: string, marker: string)
    requires MarkerEnds(last, end, marker) && Spells(x + last + end, marker, 0, |x|, |x| + |last|)
    ensures Find(x + last + end, marker) == Some((|x|, |x| + |last|)) <==> last == marker || !Contains(x, marker)
  {
    hide Spells, Bordered, Find, MarkerPlain, MarkerEnds, Contains, Solid, OccursAt, IsSpace, SpelledFrom;
    var text, s, e := x + last + end, |x|, |x| + |last|;
    EndsPlainly(last, end, marker);
    NothingBehind(x, last, end, marker);
    assert text[s..e] == last && text == x + (last + end);
    if last == marker {
      assert OccursAt(text, marker, s) by { SliceOccurs(text, marker, s); }
      LastIsFound(text, marker, s);
    } else {
      FindTakes(text, marker, s, e);
      NotWholeHere(text, marker, s, e);
      if Contains(x, marker) { WholeWithin(x, last + end, marker); }
      if Contains(text, marker) { WholeIsBefore(x, last + end, marker, e); }
    }
  }

  lemma SliceOccurs(text: string, token: string, s: nat)
    ensures s + |token| <= |text| && text[s..s + |token|] == token ==> OccursAt(text, token, s)
  {
  }

  lemma LastIsFound(text: string, marker: string, s: nat)
    requires marker != "" && OccursAt(text, marker, s) && !SpelledFrom(text, marker, s + 1)
    ensures Find(text, marker) == Some((s, s + |marker|))
  {
    hide Spells, OccursAt;
    forall j | s < j <= |text| ensures !OccursAt(text, marker, j) {
      if OccursAt(text, marker, j) { WholeSpells(text, marker, j); }
    }
    RFindIs(text, marker, s);
  }

  lemma WholeIsBefore(x: string, rest: string, marker: string, e: nat)
    requires MarkerPlain(marker) && Spells(x + rest, marker, 0, |x|, e) && Contains(x + rest, marker)
    requires !OccursAt(x + rest, marker, |x|) && !SpelledFrom(x + rest, marker, |x| + 1)
    ensures Contains(x, marker)
  {
    hide Spells, MarkerPlain, OccursAt;
    var i :| 0 <= i <= |x + rest| && OccursAt(x + rest, marker, i);
    PlainIsSolid(marker);
    WholeSpells(x + rest, marker, i);
    WholeBefore(x, rest, marker, e, i);
  }

  // What is read

  /** A slice that misses a visible character strips to less than the whole. */
  lemma SliceIsShorter(s: string, a: nat, b: nat, i: nat)
    requires a <= b <= |s| && i < |s| && !(a <= i < b) && !IsSpace(s[i]) && Strip(s[a..b]) != ""
    ensures |Strip(s[a..b])| < |Strip(s)|
  {
    hide Strip, IsSpace;
    var left, right := StripSplits(s[a..b]);
    var core := Strip(s[a..b]);
    var first, last := a + |left|, a + |left| + |core| - 1;
    assert s[first] == s[a..b][|left|] == core[0];
    assert s[last] == s[a..b][|left| + |core| - 1] == core[|core| - 1];
    if i < a { SpanKept(s, i, last); } else { SpanKept(s, first, i); }
  }

  /** What the capture reads when it takes the frame to end at `n` and the marker to start `p` further on. */
  lemma ReadBetween(screen: string, n: nat, p: nat, marker: string)
    requires n <= |screen| && AfterFrame(screen) == screen[n..]
    requires Find(screen[n..], marker).Some? && Find(screen[n..], marker).value.0 == p
    ensures var c := Strip(screen[n..n + p]);
      if c != "" then CaptureDelta(screen, marker) == CaptureResult(Some(c), TurnFenced)
      else CaptureDelta(screen, marker).confidence != TurnFenced
  {
    hide AfterFrame, Strip, Find;
    assert screen[n..][..p] == screen[n..n + p];
  }

  lemma ReadNothing(screen: string, n: nat, marker: string)
    requires n <= |screen| && AfterFrame(screen) == screen[n..] && Find(screen[n..], marker).None?
    ensures CaptureDelta(screen, marker).confidence != TurnFenced
  {
    hide AfterFrame, Strip, Find;
  }

  /** By coincidence: behind the last whole tag, which stands above the frame's own, the same text precedes the last
    whole marker. */
  ghost predicate Misread(screen: string, above: nat, text: string, marker: string) {
    exists k: nat, p: nat :: MisreadAt(screen, above, text, marker, k, p)
  }

  predicate MisreadAt(screen: string, above: nat, text: string, marker: string, k: nat, p: nat) {
    && k + TAG_LENGTH <= above && above <= |screen| && LastWhole(screen, CLOSE_TAG, k)
    && LastWhole(screen[k + TAG_LENGTH..], marker, p)
    && p <= |screen| - k - TAG_LENGTH && Strip(screen[k + TAG_LENGTH..k + TAG_LENGTH + p]) == text
  }

  lemma MisreadIsRead(screen: string, above: nat, text: string, marker: string, k: nat, p: nat)
    requires MisreadAt(screen, above, text, marker, k, p) && marker != ""
    ensures AfterFrame(screen) == screen[k + TAG_LENGTH..]
    ensures text != "" ==> CaptureDelta(screen, marker) == CaptureResult(Some(text), TurnFenced)
  {
    hide OccursAt, CaptureDelta;
    WholeRightmostIff(screen, CLOSE_TAG, k);
    WholeRightmostIff(screen[k + TAG_LENGTH..], marker, p);
    ReadBetween(screen, k + TAG_LENGTH, p, marker);
  }

  /** The screen: what stands above the frame's own tag, the tag, the reply as shown, the last marker, and white
    space. */
  ghost predicate Shows(screen: string, above: string, tag: string, x: string, last: string, end: string,
                        marker: string) {
    && screen == above + tag + (x + last + end)
    && Spells(screen, CLOSE_TAG, 0, |above|, |above| + |tag|)
    && Spells(screen, marker, 0, |above| + |tag| + |x|, |above| + |tag| + |x| + |last|)
    && MarkerEnds(last, end, marker)
  }

  /** The marker as seen from anywhere above it. */
  lemma MarkerFrom(screen: string, n: nat, m: nat, last: string, end: string, marker: string)
    requires n <= m <= |screen| && screen[m..] == last + end && marker != "" && MarkerEnds(last, end, marker)
    requires Spells(screen, marker, 0, m, m + |last|)
    ensures var y := screen[n..m];
      screen[n..] == y + last + end && Spells(y + last + end, marker, 0, |y|, |y| + |last|)
      && !SpelledFrom(screen[n..], marker, m - n + 1)
  {
    hide Spells, MarkerEnds;
    var y := screen[n..m];
    assert screen[n..] == screen[n..m] + screen[m..];
    assert screen[n..] == y + last + end;
    SpellsShift(screen, marker, n, 0, m - n, m - n + |last|);
    NothingBehind(y, last, end, marker);
  }

  /** The capture ends the frame at its own tag. */
  lemma OwnTagRead(screen: string, above: string, tag: string, x: string, last: string, end: string, marker: string)
    requires Shows(screen, above, tag, x, last, end, marker) && marker != ""
    requires AfterFrame(screen) == x + last + end && Strip(x) != ""
    ensures CaptureDelta(screen, marker) == CaptureResult(Some(Strip(x)), TurnFenced) <==>
            last == marker || !Contains(x, marker)
  {
    hide Spells, Find, CaptureDelta, AfterFrame, Strip, Contains, IsSpace, MarkerEnds;
    var e := |above| + |tag|;
    var m, tail := e + |x|, x + last + end;
    assert screen[e..] == tail && screen[m..] == last + end && screen[e..m] == x;
    MarkerFrom(screen, e, m, last, end, marker);
    MarkerFoundIff(x, last, end, marker);
    FindIs(tail, marker);
    var p := Find(tail, marker).value.0;
    assert p <= |x|;
    ReadBetween(screen, e, p, marker);
    assert screen[e..e + p] == x[..p];
    SpelledStart(tail, marker, p, Find(tail, marker).value.1);
    if last != marker && Contains(x, marker) {
      OtherMarkerFound(x, last, end, marker);
      if Strip(x[..p]) != "" { SliceIsShorter(x, 0, p, p); }
    }
  }

  /** Where a whole marker stands before a wrapped last one, the search takes a whole one within the text. */
  lemma OtherMarkerFound(x: string, last: string, end: string, marker: string)
    requires MarkerEnds(last, end, marker) && last != marker && Contains(x, marker)
    requires Spells(x + last + end, marker, 0, |x|, |x| + |last|)
    ensures var found := Find(x + last + end, marker);
      found.Some? && found.value.0 < |x| && x[found.value.0] == marker[0] && !IsSpace(marker[0])
  {
    hide Spells, Bordered, Find, MarkerPlain, MarkerEnds, Contains, IsSpace, Solid, OccursAt;
    var tail := x + last + end;
    EndsPlainly(last, end, marker);
    NothingBehind(x, last, end, marker);
    WholeWithin(x, last + end, marker);
    assert tail == x + (last + end);
    FindIs(tail, marker);
    var found := Find(tail, marker).value;
    FindTakes(tail, marker, found.0, found.1);
    assert tail[|x|..|x| + |last|] == last;
    NotWholeHere(tail, marker, |x|, |x| + |last|);
    SpelledStart(tail, marker, found.0, found.1);
  }

  /** The capture ends the frame at a tag above its own. */
  lemma EarlierTagRead(screen: string, above: string, tag: string, x: string, last: string, end: string,
                       marker: string, n: nat)
    requires Shows(screen, above, tag, x, last, end, marker) && Strip(x) != ""
    requires n <= |above| && AfterFrame(screen) == screen[n..] && TAG_LENGTH <= n
    requires LastWhole(screen, CLOSE_TAG, n - TAG_LENGTH)
    ensures CaptureDelta(screen, marker) == CaptureResult(Some(Strip(x)), TurnFenced) ==>
            Misread(screen, |above|, Strip(x), marker)
  {
    hide Spells, Find, CaptureDelta, AfterFrame, Strip, Contains, IsSpace, MarkerEnds, LastWhole, Solid, Bordered;
    var s, e := |above|, |above| + |tag|;
    var m, z := e + |x|, screen[n..];
    assert screen[m..] == last + end && screen[e..m] == x;
    EndsPlainly(last, end, marker);
    MarkerFrom(screen, n, m, last, end, marker);
    FindIs(z, marker);
    var found := Find(z, marker).value;
    ReadBetween(screen, n, found.0, marker);
    if Contains(z, marker) {
      WholeIsFoundLast(z, marker);
      assert Strip(screen[n..n + found.0]) == Strip(x) ==>
        MisreadAt(screen, |above|, Strip(x), marker, n - TAG_LENGTH, found.0);
    } else {
      OnlyWrapped(screen[n..m], last, end, marker);
      SpelledStart(screen, CLOSE_TAG, s, e);
      LongerAbove(screen, n, s, e, m);
    }
  }

  lemma WholeIsFoundLast(text: string, marker: string)
    requires marker != "" && Contains(text, marker)
    ensures Find(text, marker).Some? && LastWhole(text, marker, Find(text, marker).value.0)
  {
    RFindUpToIs(text, marker, |text|);
  }

  /** Where the marker stands only wrapped, the last one is found. */
  lemma OnlyWrapped(y: string, last: string, end: string, marker: string)
    requires MarkerEnds(last, end, marker) && Spells(y + last + end, marker, 0, |y|, |y| + |last|)
    requires !Contains(y + last + end, marker)
    ensures Find(y + last + end, marker) == Some((|y|, |y| + |last|))
  {
    hide Spells, Find, MarkerEnds;
    MarkerFoundIff(y, last, end, marker);
    assert y + last + end == y + (last + end);
    if Contains(y, marker) { WholeWithin(y, last + end, marker); }
  }

  /** The frame's own tag adds to what is read above it. */
  lemma LongerAbove(screen: string, n: nat, s: nat, e: nat, m: nat)
    requires n <= s < e <= m <= |screen| && Spells(screen, CLOSE_TAG, 0, s, e) && Strip(screen[e..m]) != ""
    ensures Strip(screen[n..m]) != Strip(screen[e..m])
  {
    hide Spells, Strip, IsSpace;
    SpelledStart(screen, CLOSE_TAG, s, e);
    TagIsVisible();
    var y := screen[n..m];
    assert y[e - n..m - n] == screen[e..m] && y[s - n] == screen[s];
    SliceIsShorter(y, e - n, m - n, s - n);
  }

  /** The capture ends the frame at a tag below its own. */
  lemma LaterTagRead(screen: string, above: string, tag: string, x: string, last: string, end: string,
                     marker: string, from: nat, n: nat)
    requires Shows(screen, above, tag, x, last, end, marker) && Strip(x) != ""
    requires |above| + |tag| <= from < n <= |screen| && AfterFrame(screen) == screen[n..]
    requires screen[from] == CLOSE_TAG[0]
    ensures CaptureDelta(screen, marker) != CaptureResult(Some(Strip(x)), TurnFenced)
  {
    hide Spells, Find, CaptureDelta, AfterFrame, Strip, Contains, IsSpace, MarkerEnds, SpelledFrom;
    var e := |above| + |tag|;
    var m, z := e + |x|, screen[n..];
    assert screen[m..] == last + end && screen[e..m] == x;
    EndsPlainly(last, end, marker);
    MarkerFrom(screen, e, m, last, end, marker);
    FoundBefore(screen, e, n, m, marker);
    if Find(z, marker).None? {
      ReadNothing(screen, n, marker);
    } else {
      var p := Find(z, marker).value.0;
      ReadBetween(screen, n, p, marker);
      TagIsVisible();
      assert x[n - e..n - e + p] == screen[n..n + p] && x[from - e] == screen[from];
      if Strip(screen[n..n + p]) != "" { SliceIsShorter(x, n - e, n - e + p, from - e); }
    }
  }

  /** From `n` on a marker is found at the last one or above. */
  lemma FoundBefore(screen: string, e: nat, n: nat, m: nat, marker: string)
    requires e <= n <= |screen| && e <= m <= |screen| && marker != "" && !SpelledFrom(screen[e..], marker, m - e + 1)
    ensures var found := Find(screen[n..], marker); found.Some? ==> n + found.value.0 <= m
  {
    hide Spells, Find;
    FindIs(screen[n..], marker);
    var found := Find(screen[n..], marker);
    if found.Some? {
      assert screen[e..][n - e..] == screen[n..];
      SpellsShift(screen[e..], marker, n - e, 0, found.value.0, found.value.1);
      assert Spells(screen[e..], marker, 0, n - e + found.value.0, n - e + found.value.1);
    }
  }

  lemma FencedIsNotBlank(screen: string, marker: string)
    ensures CaptureDelta(screen, marker) != CaptureResult(Some(""), TurnFenced)
  {
    hide AfterFrame, BeforeMarker, Strip;
  }

  /** What the search takes for the frame's end, if not the frame's own tag: a whole tag above, or one below. */
  lemma OtherTagTaken(screen: string, s: nat, e: nat) returns (from: nat, n: nat)
    requires Spells(screen, CLOSE_TAG, 0, s, e) && e <= |screen| && AfterFrame(screen) != screen[e..]
    ensures from < n <= |screen| && AfterFrame(screen) == screen[n..] && screen[from] == CLOSE_TAG[0]
    ensures e <= from || (n <= s && from + TAG_LENGTH == n && LastWhole(screen, CLOSE_TAG, from))
  {
    hide Spells, Find, Bordered, LastWhole, Contains;
    CloseTagIsUnbordered();
    FindIs(screen, CLOSE_TAG);
    from, n := Find(screen, CLOSE_TAG).value.0, Find(screen, CLOSE_TAG).value.1;
    SpelledStart(screen, CLOSE_TAG, from, n);
    SpelledStart(screen, CLOSE_TAG, s, e);
    SpellingsDoNotOverlap(screen, CLOSE_TAG, s, e, from, n);
    SpellingsDoNotOverlap(screen, CLOSE_TAG, from, n, s, e);
    FindTakes(screen, CLOSE_TAG, from, n);
    if Contains(screen, CLOSE_TAG) {
      assert OccursAt(screen, CLOSE_TAG, from) by { LastOccurs(screen, CLOSE_TAG, from); }
      WholeSpells(screen, CLOSE_TAG, from);
    }
  }

  lemma LastOccurs(text: string, token: string, i: nat)
    requires LastWhole(text, token, i)
    ensures OccursAt(text, token, i)
  {
  }

  /** The reply as shown is read back, stripped, if and only if it is not blank and the search takes both the frame's
    own tag and the last marker: no whole tag follows a whole one; no whole tag stands anywhere and no wrapped one
    follows a wrapped one; and no whole marker stands before a wrapped one.  Or, by coincidence, the same text stands
    between a whole tag above and a whole marker. */
  lemma WrappedReplyComesBackIff(above: string, tag: string, x: string, last: string, end: string, marker: string)
    requires Shows(above + tag + (x + last + end), above, tag, x, last, end, marker)
    ensures var screen, tail := above + tag + (x + last + end), x + last + end;
      CaptureDelta(screen, marker) == CaptureResult(Some(Strip(x)), TurnFenced) <==>
      && Strip(x) != ""
      && (|| (PlaceFound(above, tag, tail, CLOSE_TAG) && (last == marker || !Contains(x, marker)))
          || Misread(screen, |above|, Strip(x), marker))
  {
    hide Spells, Find, CaptureDelta, AfterFrame, Strip, Contains, IsSpace, PlaceFound, MisreadAt, MarkerEnds;
    var screen, tail, e := above + tag + (x + last + end), x + last + end, |above| + |tag|;
    assert screen[e..] == tail;
    EndsPlainly(last, end, marker);
    FrameFoundIff(above, tag, tail);
    SpelledStart(screen, CLOSE_TAG, |above|, e);
    if Strip(x) == "" {
      FencedIsNotBlank(screen, marker);
    } else {
      if k: nat, p: nat :| MisreadAt(screen, |above|, Strip(x), marker, k, p) {
        MisreadIsRead(screen, |above|, Strip(x), marker, k, p);
        MisreadIsAbove(screen, |above|, Strip(x), marker, k, p);
      }
      if AfterFrame(screen) == tail {
        OwnTagRead(screen, above, tag, x, last, end, marker);
      } else {
        var from, n := OtherTagTaken(screen, |above|, e);
        if e <= from {
          LaterTagRead(screen, above, tag, x, last, end, marker, from, n);
        } else {
          EarlierTagRead(screen, above, tag, x, last, end, marker, n);
        }
      }
    }
  }

  lemma MisreadIsAbove(screen: string, above: nat, text: string, marker: string, k: nat, p: nat)
    requires MisreadAt(screen, above, text, marker, k, p)
    ensures k + TAG_LENGTH <= above <= |screen|
  {
  }

  /** Below a whole tag of its own nothing is misread; nor where no tag stands whole. */
  lemma NothingMisread(above: string, tag: string, tail: string, text: string, marker: string)
    requires tag == CLOSE_TAG || !Contains(above + tag + tail, CLOSE_TAG)
    ensures !Misread(above + tag + tail, |above|, text, marker)
  {
    var screen := above + tag + tail;
    if k: nat, p: nat :| MisreadAt(screen, |above|, text, marker, k, p) {
      WholeSpells(screen, CLOSE_TAG, k);
      assert screen[|above|..|above| + |tag|] == tag;
      assert tag == CLOSE_TAG ==> OccursAt(screen, CLOSE_TAG, |above|);
    }
  }

  /** Without any frame in sight, text is read back from above a last marker, wrapped or whole, if and only if it is
    not blank and the search takes that marker. */
  lemma MarkerWithoutFrameIff(x: string, last: string, end: string, marker: string)
    requires MarkerEnds(last, end, marker) && Spells(x + last + end, marker, 0, |x|, |x| + |last|)
    requires !SpelledFrom(x + last + end, CLOSE_TAG, 0)
    ensures CaptureDelta(x + last + end, marker) == CaptureResult(Some(Strip(x)), TurnFenced) <==>
            Strip(x) != "" && (last == marker || !Contains(x, marker))
  {
    hide Spells, Find, CaptureDelta, Strip, Contains, IsSpace, MarkerEnds, SpelledFrom;
    var screen := x + last + end;
    EndsPlainly(last, end, marker);
    FoundAnywhere(screen, CLOSE_TAG);
    assert screen[0..] == screen && AfterFrame(screen) == screen;
    MarkerFoundIff(x, last, end, marker);
    FoundAtOrAbove(x, last, end, marker);
    var p := Find(screen, marker).value.0;
    ReadBetween(screen, 0, p, marker);
    assert screen[0..p] == x[..p] && x[..|x|] == x;
    if Strip(x) == "" {
      FencedIsNotBlank(screen, marker);
    } else if last != marker && Contains(x, marker) {
      OtherMarkerFound(x, last, end, marker);
      if Strip(x[..p]) != "" { SliceIsShorter(x, 0, p, p); }
    }
  }

  lemma FoundAtOrAbove(x: string, last: string, end: string, marker: string)
    requires MarkerEnds(last, end, marker) && Spells(x + last + end, marker, 0, |x|, |x| + |last|)
    ensures var found := Find(x + last + end, marker); found.Some? && found.value.0 <= |x|
  {
    hide Spells, Find, MarkerEnds;
    EndsPlainly(last, end, marker);
    NothingBehind(x, last, end, marker);
    FindIs(x + last + end, marker);
  }

  // The echo of a frame alone

  lemma SpaceHoldsNo(space: string, token: string)
    requires AllSpace(space) && token != "" && !IsSpace(token[0])
    ensures !Contains(space, token) && !SpelledFrom(space, token, 0)
  {
    hide Spells, IsSpace;
    forall i | 0 <= i <= |space| ensures !OccursAt(space, token, i) {
      if OccursAt(space, token, i) { OccursCharacter(space, token, i, 0); }
    }
    if from: nat, to: nat :| 0 <= from && Spells(space, token, 0, from, to) { SpelledStart(space, token, from, to); }
  }

  /** Something visible in `screen[a..b]`. */
  ghost predicate VisibleIn(screen: string, a: nat, b: nat) {
    exists j :: a <= j < b && j < |screen| && !IsSpace(screen[j])
  }

  /** The last whole tag stands at `k`, and behind it a marker is found that something visible precedes. */
  ghost predicate EchoFencedAt(screen: string, above: nat, marker: string, k: nat, from: nat, to: nat) {
    && k + TAG_LENGTH <= above <= |screen| && LastWhole(screen, CLOSE_TAG, k)
    && Find(screen[k + TAG_LENGTH..], marker) == Some((from, to))
    && VisibleIn(screen, k + TAG_LENGTH, k + TAG_LENGTH + from)
  }

  /** The same for a plain marker: the last whole one behind the tag, or the rightmost spelling if all are wrapped. */
  ghost predicate EchoSpelledAt(screen: string, above: nat, marker: string, k: nat, from: nat, to: nat) {
    && k + TAG_LENGTH <= above <= |screen| && LastWhole(screen, CLOSE_TAG, k)
    && Taken(screen[k + TAG_LENGTH..], marker, from, to)
    && VisibleIn(screen, k + TAG_LENGTH, k + TAG_LENGTH + from)
  }

  lemma FencedIsSpelled(screen: string, above: nat, marker: string, k: nat, from: nat, to: nat)
    requires MarkerPlain(marker)
    ensures EchoFencedAt(screen, above, marker, k, from, to) <==> EchoSpelledAt(screen, above, marker, k, from, to)
  {
    hide Taken, Find, VisibleIn, LastWhole, Bordered;
    PlainIsSolid(marker);
    if k + TAG_LENGTH <= |screen| { FindTakes(screen[k + TAG_LENGTH..], marker, from, to); }
  }

  /** A hard-wrapped echo of a frame is taken for a fenced reply exactly when its own tag is wrapped while a whole tag
    stands above, and behind the last such a marker is found that something visible precedes: for a plain marker the
    last whole one, or the rightmost spelling if all are wrapped. */
  lemma WrappedEchoIsAReplyIff(above: string, tag: string, space: string, marker: string)
    requires AllSpace(space) && Spells(above + tag + space, CLOSE_TAG, 0, |above|, |above| + |tag|)
    ensures var screen := above + tag + space;
      CaptureDelta(screen, marker).confidence == TurnFenced <==>
      tag != CLOSE_TAG && exists k: nat, from: nat, to: nat :: EchoFencedAt(screen, |above|, marker, k, from, to)
    ensures var screen := above + tag + space;
      MarkerPlain(marker) ==>
      (CaptureDelta(screen, marker).confidence == TurnFenced <==>
       tag != CLOSE_TAG && exists k: nat, from: nat, to: nat :: EchoSpelledAt(screen, |above|, marker, k, from, to))
  {
    hide Spells, EchoFencedAt, EchoSpelledAt, CaptureDelta, AllSpace, MarkerPlain;
    var screen := above + tag + space;
    EchoIsFencedIff(above, tag, space, marker);
    if MarkerPlain(marker) {
      forall k: nat, from: nat, to: nat
        ensures EchoFencedAt(screen, |above|, marker, k, from, to) <==>
                EchoSpelledAt(screen, |above|, marker, k, from, to)
      {
        FencedIsSpelled(screen, |above|, marker, k, from, to);
      }
    }
  }

  lemma EchoIsFencedIff(above: string, tag: string, space: string, marker: string)
    requires AllSpace(space) && Spells(above + tag + space, CLOSE_TAG, 0, |above|, |above| + |tag|)
    ensures var screen := above + tag + space;
      CaptureDelta(screen, marker).confidence == TurnFenced <==>
      tag != CLOSE_TAG && exists k: nat, from: nat, to: nat :: EchoFencedAt(screen, |above|, marker, k, from, to)
  {
    hide Spells, Find, PlaceFound, AfterFrame, CaptureDelta, AllSpace, EchoFencedAt, OccursAt;
    var screen, e := above + tag + space, |above| + |tag|;
    assert screen[e..] == space;
    EchoFrame(above, tag, space);
    if AfterFrame(screen) == space {
      SpaceReadsNothing(screen, e, marker);
    } else {
      var from, n := OtherTagTaken(screen, |above|, e);
      if e <= from { SpaceIsAllSpace(screen, e, from); TagIsVisible(); }
      FencedBehind(screen, |above|, n, marker);
    }
    if k: nat, from: nat, to: nat :| EchoFencedAt(screen, |above|, marker, k, from, to) {
      EchoFencedIsRead(screen, |above|, marker, k, from, to);
    }
  }

  lemma SpaceIsAllSpace(screen: string, e: nat, i: nat)
    requires e <= i < |screen| && AllSpace(screen[e..])
    ensures IsSpace(screen[i])
  {
    hide IsSpace;
    assert screen[i] == screen[e..][i - e];
  }

  /** The frame's own tag is found exactly if it is whole or no whole one stands above. */
  lemma EchoFrame(above: string, tag: string, space: string)
    requires AllSpace(space)
    requires Spells(above + tag + space, CLOSE_TAG, 0, |above|, |above| + |tag|)
    ensures AfterFrame(above + tag + space) == space <==>
            tag == CLOSE_TAG || !Contains(above + tag + space, CLOSE_TAG)
  {
    hide Spells, AfterFrame, AllSpace, Contains;
    FrameFoundIff(above, tag, space);
    TagIsVisible();
    SpaceHoldsNo(space, CLOSE_TAG);
  }

  lemma SpaceReadsNothing(screen: string, e: nat, marker: string)
    requires e <= |screen| && AfterFrame(screen) == screen[e..] && AllSpace(screen[e..])
    ensures CaptureDelta(screen, marker).confidence != TurnFenced
  {
    hide AfterFrame, CaptureDelta, Find, IsSpace, Strip;
    if Find(screen[e..], marker).None? {
      ReadNothing(screen, e, marker);
    } else {
      var p := Find(screen[e..], marker).value.0;
      ReadBetween(screen, e, p, marker);
      forall j | e <= j < e + p ensures IsSpace(screen[j]) { SpaceIsAllSpace(screen, e, j); }
      BlankSlice(screen, e, e + p);
    }
  }

  lemma BlankSlice(screen: string, a: nat, b: nat)
    requires a <= b <= |screen|
    ensures Strip(screen[a..b]) != "" <==> VisibleIn(screen, a, b)
  {
    hide Strip, IsSpace;
    BlankIffSpace(screen[a..b]);
    forall j | a <= j < b ensures screen[j] == screen[a..b][j - a] {}
    if !AllSpace(screen[a..b]) {
      var i :| 0 <= i < b - a && !IsSpace(screen[a..b][i]);
      assert !IsSpace(screen[a + i]);
    }
  }

  lemma FencedBehind(screen: string, above: nat, n: nat, marker: string)
    requires TAG_LENGTH <= n <= above <= |screen| && AfterFrame(screen) == screen[n..]
    requires LastWhole(screen, CLOSE_TAG, n - TAG_LENGTH)
    ensures CaptureDelta(screen, marker).confidence == TurnFenced ==>
      exists k: nat, from: nat, to: nat :: EchoFencedAt(screen, above, marker, k, from, to)
  {
    hide AfterFrame, CaptureDelta, Find, Strip, VisibleIn, LastWhole;
    if Find(screen[n..], marker).None? {
      ReadNothing(screen, n, marker);
    } else {
      var found := Find(screen[n..], marker).value;
      ReadBetween(screen, n, found.0, marker);
      BlankSlice(screen, n, n + found.0);
      assert Strip(screen[n..n + found.0]) != "" ==>
        EchoFencedAt(screen, above, marker, n - TAG_LENGTH, found.0, found.1);
    }
  }

  lemma EchoFencedIsRead(screen: string, above: nat, marker: string, k: nat, from: nat, to: nat)
    requires EchoFencedAt(screen, above, marker, k, from, to)
    ensures CaptureDelta(screen, marker).confidence == TurnFenced
    ensures k + TAG_LENGTH <= above && AfterFrame(screen) == screen[k + TAG_LENGTH..]
  {
    hide AfterFrame, CaptureDelta, Strip, VisibleIn, OccursAt, LastMatch, RFindUpTo;
    var n := k + TAG_LENGTH;
    FrameAt(screen, k);
    ReadBetween(screen, n, from, marker);
    BlankSlice(screen, n, n + from);
  }

  lemma FrameAt(screen: string, k: nat)
    requires LastWhole(screen, CLOSE_TAG, k)
    ensures k + TAG_LENGTH <= |screen| && AfterFrame(screen) == screen[k + TAG_LENGTH..]
  {
    hide Find;
    WholeRightmostIff(screen, CLOSE_TAG, k);
  }
}
