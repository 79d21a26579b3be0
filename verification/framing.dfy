/** What a prompt frame tells its reader. */
module Framing {
  import opened Prelude
  import opened BridgeModels
  import opened Capture

  predicate OneLine(s: string) { '\n' !in s }

  /** Whatever stands on a line of the frame is one line. */
  predicate LinesFit(m: Message, recipient: string) {
    && OneLine(m.id) && OneLine(m.threadId) && OneLine(m.correlationId) && OneLine(m.sender) && OneLine(recipient)
    && OneLine(m.routeIntent) && OneLine(m.marker)
  }

  /** A frame can have been made of one message only: whoever reads it can tell its id, thread, correlation, sender,
    recipient and intent, every character of the text, even one that imitates the frame, and the marker. */
  lemma FrameTellsMessage(m: Message, n: Message, r: string, s: string, journalDb: string)
    requires LinesFit(m, r) && LinesFit(n, s) && PromptFrame(m, r, journalDb) == PromptFrame(n, s, journalDb)
    ensures m.id == n.id && m.threadId == n.threadId && m.correlationId == n.correlationId && m.sender == n.sender
      && r == s && m.routeIntent == n.routeIntent && m.text == n.text && m.marker == n.marker
  {
    hide PromptFrame, FrameHead;
    HeadTells(m, n, r, s, PromptFrame(m, r, journalDb), journalDb);
    SameHead(m, n, r);
    BodyTells(m, n, r, journalDb);
  }

  lemma SameHead(m: Message, n: Message, r: string)
    requires m.id == n.id && m.threadId == n.threadId && m.correlationId == n.correlationId && m.sender == n.sender
      && m.routeIntent == n.routeIntent
    ensures FrameHead(m, r) == FrameHead(n, r)
  {
  }

  /** The text stands in the frame as it is, right behind the head. */
  lemma TextStands(m: Message, recipient: string, journalDb: string)
    ensures FrameHead(m, recipient) + "\n" + m.text + "\nEND_MESSAGE\n" <= PromptFrame(m, recipient, journalDb)
  {
    hide FrameHead, CLOSE_TAG, FrameNotes, DataNotice, EffectsNotice, MarkerNotice;
    var begun := FrameHead(m, recipient) + "\n" + m.text + "\n";
    assert begun + "END_MESSAGE\n" <= begun + ReplyRequest();
    Begins(begun + "END_MESSAGE\n", begun + ReplyRequest(), PromptFrame(m, recipient, journalDb));
    assert begun + "END_MESSAGE\n" == FrameHead(m, recipient) + "\n" + m.text + "\nEND_MESSAGE\n";
  }

  /** The command the frame suggests names the message and its recipient, and the journal exactly if there is one. */
  lemma HintNamesJournal(id: string, recipient: string, journalDb: string)
    ensures var rest := "reply " + id + " --from " + recipient + " --text-file <utf8-file>";
      ReplyHint(id, recipient, journalDb) ==
        if journalDb == "" then "eml-bridge " + rest else "eml-bridge --db \"" + journalDb + "\" " + rest
  {
    assert "eml-bridge --db \"" == "eml-bridge " + "--db \"";
  }

  lemma HeadTells(m: Message, n: Message, r: string, s: string, frame: string, journalDb: string)
    requires LinesFit(m, r) && LinesFit(n, s)
    requires frame == PromptFrame(m, r, journalDb) == PromptFrame(n, s, journalDb)
    ensures m.id == n.id && m.threadId == n.threadId && m.correlationId == n.correlationId && m.sender == n.sender
      && r == s && m.routeIntent == n.routeIntent
  {
    hide CLOSE_TAG, ReplyRequest, FrameNotes;
    var p1 := "[EML-BRIDGE v0.1]\n" + "message_id: ";
    HeadLines(m, r, journalDb);
    HeadLines(n, s, journalDb);
    LineTold(p1, m.id, n.id, frame);
    var p2 := p1 + m.id + "\n" + "thread_id: ";
    LineTold(p2, m.threadId, n.threadId, frame);
    var p3 := p2 + m.threadId + "\n" + "correlation_id: ";
    LineTold(p3, m.correlationId, n.correlationId, frame);
    var p4 := p3 + m.correlationId + "\n" + "from: ";
    LineTold(p4, m.sender, n.sender, frame);
    var p5 := p4 + m.sender + "\n" + "to: ";
    LineTold(p5, r, s, frame);
    LineTold(p5 + r + "\n" + "route_intent: ", m.routeIntent, n.routeIntent, frame);
  }

  /** The lines of the head, each a beginning of the frame. */
  lemma HeadLines(m: Message, r: string, journalDb: string)
    ensures var frame := PromptFrame(m, r, journalDb);
      var p1 := "[EML-BRIDGE v0.1]\n" + "message_id: ";
      var p2 := p1 + m.id + "\n" + "thread_id: ";
      var p3 := p2 + m.threadId + "\n" + "correlation_id: ";
      var p4 := p3 + m.correlationId + "\n" + "from: ";
      var p5 := p4 + m.sender + "\n" + "to: ";
      var p6 := p5 + r + "\n" + "route_intent: ";
      && p1 + m.id + "\n" <= frame && p2 + m.threadId + "\n" <= frame && p3 + m.correlationId + "\n" <= frame
      && p4 + m.sender + "\n" <= frame && p5 + r + "\n" <= frame && p6 + m.routeIntent + "\n" <= frame
  {
    hide CLOSE_TAG, ReplyRequest, FrameNotes;
    var frame := PromptFrame(m, r, journalDb);
    var p1 := "[EML-BRIDGE v0.1]\n" + "message_id: ";
    var p2 := p1 + m.id + "\n" + "thread_id: ";
    var p3 := p2 + m.threadId + "\n" + "correlation_id: ";
    var p4 := p3 + m.correlationId + "\n" + "from: ";
    var p5 := p4 + m.sender + "\n" + "to: ";
    var p6 := p5 + r + "\n" + "route_intent: ";
    assert FrameHead(m, r) == p6 + m.routeIntent + "\n\n" + "BEGIN_MESSAGE";
    BodyBegins(m, r, journalDb);
    Begins(p6 + m.routeIntent + "\n", FrameHead(m, r), frame);
    Begins(p5 + r + "\n", p6 + m.routeIntent + "\n", frame);
    Begins(p4 + m.sender + "\n", p5 + r + "\n", frame);
    Begins(p3 + m.correlationId + "\n", p4 + m.sender + "\n", frame);
    Begins(p2 + m.threadId + "\n", p3 + m.correlationId + "\n", frame);
    Begins(p1 + m.id + "\n", p2 + m.threadId + "\n", frame);
  }

  lemma BodyBegins(m: Message, r: string, journalDb: string)
    ensures FrameHead(m, r) <= PromptFrame(m, r, journalDb)
  {
    hide FrameHead, CLOSE_TAG, ReplyRequest, FrameNotes;
  }

  lemma Begins(a: string, b: string, c: string)
    requires a <= b <= c
    ensures a <= c
  {
  }

  lemma LineTold(p: string, a: string, b: string, frame: string)
    requires OneLine(a) && OneLine(b) && p + a + "\n" <= frame && p + b + "\n" <= frame
    ensures a == b
  {
    EndsNoSooner(p, a, b, frame);
    EndsNoSooner(p, b, a, frame);
    assert a == frame[|p|..|p| + |a|] == b;
  }

  lemma EndsNoSooner(p: string, a: string, b: string, frame: string)
    requires OneLine(b) && p + a + "\n" <= frame && p + b + "\n" <= frame
    ensures |b| <= |a|
  {
    var x, y := p + a + "\n", p + b + "\n";
    assert forall k | |p| <= k < |p| + |b| :: frame[k] == y[k] == b[k - |p|];
    assert frame[|p| + |a|] == x[|p| + |a|] == '\n';
  }

  lemma BodyTells(m: Message, n: Message, r: string, journalDb: string)
    requires FrameHead(m, r) == FrameHead(n, r) && m.id == n.id && OneLine(m.marker) && OneLine(n.marker)
    requires PromptFrame(m, r, journalDb) == PromptFrame(n, r, journalDb)
    ensures m.text == n.text && m.marker == n.marker
  {
    hide FrameHead, CLOSE_TAG, ReplyRequest, HintNotice, FileNotice, FallbackNotice;
    var head, request, notes := FrameHead(m, r), ReplyRequest(), FrameNotes(m, r, journalDb);
    assert notes == FrameNotes(n, r, journalDb);
    var x, y := head + "\n" + m.text + "\n" + request, head + "\n" + n.text + "\n" + request;
    SameBefore(FrameBody(m, r, journalDb), FrameBody(n, r, journalDb), CLOSE_TAG, "\n");
    SameBefore(x + "\n" + m.marker + "\n", y + "\n" + n.marker + "\n", notes, "\n");
    LastLine(x, m.marker, y, n.marker);
    SameBefore(head + "\n" + m.text, head + "\n" + n.text, "\n", request);
    assert m.text == (head + "\n" + m.text)[|head| + 1..] == (head + "\n" + n.text)[|head| + 1..] == n.text;
  }

  lemma SameBefore(x: string, y: string, b: string, c: string)
    requires x + b + c == y + b + c
    ensures x == y
  {
    assert |x| == |y|;
    assert x == (x + b + c)[..|x|] && y == (y + b + c)[..|y|];
  }

  lemma LastLine(x: string, a: string, y: string, b: string)
    requires OneLine(a) && OneLine(b) && x + "\n" + a + "\n" == y + "\n" + b + "\n"
    ensures x == y && a == b
  {
    var whole, other := x + "\n" + a + "\n", y + "\n" + b + "\n";
    assert |x| == |y| by { LinesBreak(x, a, y, b); }
    assert x == whole[..|x|] == other[..|y|] == y;
    assert a == whole[|x| + 1..|whole| - 1] == other[|y| + 1..|whole| - 1] == b;
  }

  lemma LinesBreak(x: string, a: string, y: string, b: string)
    requires OneLine(a) && OneLine(b) && x + "\n" + a + "\n" == y + "\n" + b + "\n"
    ensures |x| == |y|
  {
    var whole, other := x + "\n" + a + "\n", y + "\n" + b + "\n";
    assert whole[|x|] == other[|y|] == '\n';
    assert forall k | |x| < k < |whole| - 1 :: whole[k] == a[k - |x| - 1];
    assert forall k | |y| < k < |other| - 1 :: other[k] == b[k - |y| - 1];
  }
}
