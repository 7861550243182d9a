/** Transcripts over time: rewriting what was loaded, saving a message twice, and every run of saves and rewrites
    (src/ui/helpers/chat_storage.rs). */
module ChatStorageProofs {

  import opened Wrappers
  import opened Text
  import opened ChatRender
  import opened Attachments
  import opened ChatStorage
  import opened ChatRoundTrip

  // ----- Rewriting what was loaded -----

  /** A message whose stored form prints as the message itself. */
  ghost predicate Faithful<S>(f: Format<S>, m: Message<S>) {
    Printable(f, m) && (match m.attachment case Some(att) => IsTrimmed(att.blossomUrl) case None => IsPlainText(f, m))
  }

  ghost predicate AllFaithful<S>(f: Format<S>, messages: seq<Message<S>>) {
    forall i :: 0 <= i < |messages| ==> Faithful(f, messages[i])
  }

  lemma StoredPrintsTheSame<S>(f: Format<S>, m: Message<S>)
    requires f.Lawful() && Faithful(f, m)
    ensures Block(f, StoredAs(f, m)) == Block(f, m)
  {
    StoredMeaning(f, m);
    match m.attachment
    case Some(att) => ReserializesIff(f.codec, att);
    case None =>
  }

  lemma TranscriptPush<S>(f: Format<S>, messages: seq<Message<S>>, m: Message<S>)
    ensures Transcript(f, messages + [m]) == Transcript(f, messages) + (Block(f, m) + "\n\n")
  {
    assert (messages + [m])[..|messages|] == messages;
  }

  lemma {:induction false} AllStoredPrintTheSame<S>(f: Format<S>, messages: seq<Message<S>>)
    requires f.Lawful() && AllFaithful(f, messages)
    ensures Transcript(f, AllStoredAs(f, messages)) == Transcript(f, messages)
  {
    if messages != [] {
      var n := |messages| - 1;
      AllStoredPrintTheSame(f, messages[..n]);
      StoredPrintsTheSame(f, messages[n]);
      TranscriptPush(f, AllStoredAs(f, messages[..n]), StoredAs(f, messages[n]));
    }
  }

  /** Loading a transcript and rewriting it reproduces it byte for byte. */
  lemma RewriteIsFixedPoint<S>(f: Format<S>, messages: seq<Message<S>>)
    requires f.Lawful() && AllFaithful(f, messages)
    ensures Transcript(f, LoadText(f, Transcript(f, messages))) == Transcript(f, messages)
  {
    TranscriptRoundTrip(f, messages);
    assert NoneHidden(messages);
    AllComeBackIff(f, messages);
    AllStoredPrintTheSame(f, messages);
  }

  /** For a single attachment the condition on the URL is exact. */
  lemma AttachmentRewriteIff<S>(f: Format<S>, m: Message<S>)
    requires f.Lawful() && Printable(f, m) && m.attachment.Some?
    ensures Body(f, StoredAs(f, m)) == Body(f, m) <==> IsTrimmed(m.attachment.value.blossomUrl)
  {
    StoredMeaning(f, m);
    ReserializesIff(f.codec, m.attachment.value);
  }

  // ----- Saving twice -----

  /** What stands behind the last separator. */
  function Tail(text: string): string {
    Last(Split(text, "\n\n"))
  }

  /** A block put behind `tail` is read as a block of the same sender. */
  predicate ReadsOn<S(==)>(f: Format<S>, tail: string, m: Message<S>) {
    && '\n' !in tail && Find(tail, " - ").None?
    && f.parseLabel(Trim(tail + f.labelOf(m.sender))) == Some(m.sender)
  }

  lemma {:induction false} SplitAppended(text: string, b: string)
    requires NoBreakPair(b) && b != "" && b[0] != '\n'
    ensures var parts := Split(text, "\n\n");
            Split(text + (b + "\n\n"), "\n\n") == parts[..|parts| - 1] + [Last(parts) + b, ""]
    decreases |text|
  {
    match Find(text, "\n\n")
    case None =>
      NoPairAnywhere(text, b);
      assert text + (b + "\n\n") == (text + b) + ("\n\n" + "");
      SplitOffBlock(text + b, "");
    case Some(k) =>
      var rest := text[k + 2..];
      SplitAppended(rest, b);
      SplitBehind(text, b + "\n\n", k);
      KeepFirst(text[..k], Split(rest, "\n\n"), [Last(Split(rest, "\n\n")) + b, ""]);
  }

  lemma KeepFirst(first: string, parts: seq<string>, end: seq<string>)
    requires parts != []
    ensures var all := [first] + parts;
            [first] + (parts[..|parts| - 1] + end) == all[..|all| - 1] + end && Last(all) == Last(parts)
  {
    assert ([first] + parts)[..|parts|] == [first] + parts[..|parts| - 1];
  }

  lemma NoPairAnywhere(text: string, b: string)
    requires Find(text, "\n\n").None? && NoBreakPair(b) && b != "" && b[0] != '\n'
    ensures NoBreakPair(text + b)
  {
    var s := text + b;
    forall i | 0 <= i < |s| - 1
      ensures !(s[i] == '\n' && s[i + 1] == '\n')
    {
      if i + 1 < |text| && text[i] == text[i + 1] == '\n' {
        assert text[i..i + 2] == "\n\n";
        FindFirst(text, "\n\n", i);
      }
    }
  }

  lemma SplitBehind(text: string, more: string, k: nat)
    requires Find(text, "\n\n") == Some(k)
    ensures Split(text + more, "\n\n") == [text[..k]] + Split(text[k + 2..] + more, "\n\n")
  {
    FindInPrefix(text, more, k);
    CutBehind(text, more, k);
  }

  lemma CutBehind(text: string, more: string, k: nat)
    requires k + 2 <= |text|
    ensures (text + more)[..k] == text[..k] && (text + more)[k + 2..] == text[k + 2..] + more
  {
  }

  /** The first separator stays the first when text is added behind it. */
  lemma {:induction false} FindInPrefix(text: string, more: string, k: nat)
    requires Find(text, "\n\n") == Some(k)
    ensures Find(text + more, "\n\n") == Some(k)
    decreases k
  {
    assert (text + more)[..2] == text[..2];
    if text[..2] != "\n\n" {
      assert (text + more)[1..] == text[1..] + more;
      FindInPrefix(text[1..], more, k - 1);
    }
  }

  lemma LastOfAppended(parts: seq<string>, piece: string)
    requires Trim(piece) != ""
    ensures LastBlock(parts + [piece, ""]) == Some(piece)
  {
    var all := parts + [piece, ""];
    assert all[..|all| - 1] == parts + [piece];
  }

  /** After an append the last block is the new one, glued to what stood behind the last separator. */
  lemma AppendedIsLastBlock<S>(f: Format<S>, text: string, m: Message<S>)
    requires f.Lawful() && Storable(f, m) && !IsWordless(m)
    ensures LastBlock(Split(text + (Block(f, m) + "\n\n"), "\n\n")) == Some(Tail(text) + Block(f, m))
  {
    BlockIsClean(f, m);
    AppendedIsLastPart(text, Block(f, m));
  }

  lemma AppendedIsLastPart(text: string, b: string)
    requires NoBreakPair(b) && IsTrimmed(b) && b != ""
    ensures LastBlock(Split(text + (b + "\n\n"), "\n\n")) == Some(Tail(text) + b)
  {
    SplitAppended(text, b);
    TrimKeepsTail(Tail(text), b);
    LastOfAppended(Split(text, "\n\n")[..|Split(text, "\n\n")| - 1], Tail(text) + b);
  }

  lemma OccursBehind(s: string, pat: string, d: nat, i: nat)
    requires OccursAt(s, pat, i) && d <= i
    ensures OccursAt(s[d..], pat, i - d)
  {
    assert s[d..][i - d..i - d + |pat|] == s[i..i + |pat|];
  }

  lemma OccursAhead(s: string, more: string, pat: string, i: nat)
    requires OccursAt(s, pat, i)
    ensures OccursAt(s + more, pat, i)
  {
    assert (s + more)[i..i + |pat|] == s[i..i + |pat|];
  }

  lemma OccursShifted(front: string, s: string, pat: string, i: nat)
    requires OccursAt(s, pat, i)
    ensures OccursAt(front + s, pat, |front| + i)
  {
    assert (front + s)[|front| + i..|front| + i + |pat|] == s[i..i + |pat|];
  }

  lemma SecondPartTakesRest(rest: string, j: nat, k: nat)
    requires OccursAt(rest, " - ", j) && OccursAt(rest, " - ", k) && j + 3 <= k
    ensures Find(rest, " - ").Some? && '-' in rest[Find(rest, " - ").value + 3..]
  {
    FindFirst(rest, " - ", j);
    var end := Find(rest, " - ").value + 3;
    OccursCharwise(rest, " - ", k, 1);
    assert rest[end..][k + 1 - end] == '-';
  }

  /** With three separators, the third part takes in the last one. */
  lemma ThirdPartTakesRest(line: string, i: nat, j: nat, k: nat)
    requires OccursAt(line, " - ", i) && OccursAt(line, " - ", j) && OccursAt(line, " - ", k)
    requires i + 3 <= j && j + 3 <= k
    ensures var parts := SplitInThree(line, " - "); parts.Some? && '-' in parts.value.2
  {
    FindFirst(line, " - ", i);
    var end := Find(line, " - ").value + 3;
    OccursBehind(line, " - ", end, j);
    OccursBehind(line, " - ", end, k);
    SecondPartTakesRest(line[end..], j - end, k - end);
    ThirdPartIs(line);
  }

  lemma ThirdPartIs(line: string)
    requires Find(line, " - ").Some? && Find(line[Find(line, " - ").value + 3..], " - ").Some?
    ensures var rest := line[Find(line, " - ").value + 3..];
            var parts := SplitInThree(line, " - ");
            parts.Some? && parts.value.2 == rest[Find(rest, " - ").value + 3..]
  {
  }

  lemma DashBehindDash(front: string, date: string, time: string)
    ensures OccursAt(front + (" - " + (date + (" - " + time))), " - ", |front| + 3 + |date|)
  {
    var back := date + (" - " + time);
    DashStandsBehind(date, time);
    OccursShifted(front + " - ", back, " - ", |date|);
    assert (front + " - ") + back == front + (" - " + back);
  }

  lemma DashInFront(tail: string, name: string, more: string, i: nat)
    requires OccursAt(tail, " - ", i)
    ensures OccursAt((tail + name) + more, " - ", i)
  {
    OccursAhead(tail, name, " - ", i);
    OccursAhead(tail + name, more, " - ", i);
  }

  /** Behind a separator inside the tail, the time field takes in the dash of the real header. */
  lemma ThirdPartHasDash(tail: string, name: string, date: string, time: string)
    requires Find(tail, " - ").Some?
    ensures var parts := SplitInThree((tail + name) + (" - " + (date + (" - " + time))), " - ");
            parts.Some? && '-' in parts.value.2
  {
    var front, back := tail + name, date + (" - " + time);
    DashInFront(tail, name, " - " + back, Find(tail, " - ").value);
    DashStandsBehind(front, back);
    DashBehindDash(front, date, time);
    ThirdPartTakesRest(front + (" - " + back), Find(tail, " - ").value, |front|, |front| + 3 + |date|);
  }

  lemma SeparatorInTail<S>(f: Format<S>, m: Message<S>, tail: string)
    requires f.Lawful() && Storable(f, m) && !IsWordless(m) && '\n' !in tail && Find(tail, " - ").Some?
    ensures ParseBlock(f, tail + Block(f, m)).None?
  {
    LinesBehind(f, m, tail);
    HeaderAssociates(f, m, tail);
    ThirdPartHasDash(tail, f.labelOf(m.sender), Stamp(f, m.timestamp).0, Stamp(f, m.timestamp).1);
    var (name, date, time) := SplitInThree(tail + Header(f, m), " - ").value;
    ParseFrom(f, tail + Block(f, m), tail + Header(f, m), BodyLines(f, m), name, date, time);
    TrimKeeps(time, '-');
    assert f.parseStamp(Trim(date), Trim(time)).None?;
  }

  /** Lines put together again end as the text did. */
  lemma {:induction false} JoinedLinesEndWith(x: string, header: string, body: seq<string>) returns (y: string)
    requires IsCleanLine(header) && body != [] && forall i :: 0 <= i < |body| ==> IsCleanLine(body[i])
    ensures Join(Lines(x + (header + "\n" + Join(body, "\n"))), "\n") == y + (header + "\n" + Join(body, "\n"))
    ensures Lines(x + (header + "\n" + Join(body, "\n"))) != []
    decreases |x|
  {
    var k := NewlineAt(x);
    var block := header + "\n" + Join(body, "\n");
    if k == |x| {
      assert (x + header)[|x + header| - 1] == header[|header| - 1];
      assert x + block == (x + header) + "\n" + Join(body, "\n");
      LinesCons(x + header, Join(body, "\n"));
      LinesOfJoin(body);
      assert ([x + header] + body)[1..] == body;
      y := x;
    } else {
      var rest := x[k + 1..];
      var y' := JoinedLinesEndWith(rest, header, body);
      LinesPeel(x, k, block);
      var lines := Lines(rest + block);
      assert ([DropCr(x[..k])] + lines)[1..] == lines;
      y := DropCr(x[..k]) + "\n" + y';
      assert DropCr(x[..k]) + "\n" + (y' + block) == y + block;
    }
  }

  lemma LinesPeel(x: string, k: nat, more: string)
    requires k == NewlineAt(x) < |x|
    ensures Lines(x + more) == [DropCr(x[..k])] + Lines(x[k + 1..] + more)
  {
    var s := x + more;
    var n := NewlineAt(s);
    assert forall i :: 0 <= i < |x| ==> s[i] == x[i];
    assert n == k;
    assert s[..k] == x[..k] && s[k + 1..] == x[k + 1..] + more;
  }

  /** A block behind a line break: its header is part of what is read as the body. */
  lemma LinesBehindBreak<S>(f: Format<S>, m: Message<S>, tail: string) returns (first: string, body: seq<string>)
    requires f.Lawful() && Storable(f, m) && !IsWordless(m) && '\n' in tail
    ensures Lines(tail + Block(f, m)) == [first] + body && |Trim(Join(body, "\n"))| >= |Block(f, m)|
    ensures '-' !in tail ==> '-' !in first
  {
    var k := NewlineAt(tail);
    var x := tail[k + 1..];
    LinesPeel(tail, k, Block(f, m));
    first, body := DropCr(tail[..k]), Lines(x + Block(f, m));
    HeaderIsClean(f, m);
    BodyLinesAreClean(f, m);
    BlockIsClean(f, m);
    var y := JoinedLinesEndWith(x, Header(f, m), BodyLines(f, m));
    TrimKeepsTail(y, Block(f, m));
  }

  lemma ParsedBody<S>(f: Format<S>, block: string, first: string, body: seq<string>)
    requires Lines(block) == [first] + body
    ensures ParseBlock(f, block).Some? ==> ParseBlock(f, block).value.body == Trim(Join(body, "\n"))
    ensures '-' !in first ==> ParseBlock(f, block).None?
  {
    assert ([first] + body)[1..] == body;
    if Find(first, " - ").Some? {
      OccursCharwise(first, " - ", Find(first, " - ").value, 1);
    }
  }

  /** So a text message glued behind a line break is not recognised. */
  lemma BreakInTail<S>(f: Format<S>, m: Message<S>, tail: string)
    requires f.Lawful() && Storable(f, m) && !IsWordless(m) && '\n' in tail
    ensures var parsed := ParseBlock(f, tail + Block(f, m)); parsed.Some? ==> parsed.value.body != Body(f, m)
    ensures '-' !in tail ==> ParseBlock(f, tail + Block(f, m)).None?
  {
    var first, body := LinesBehindBreak(f, m, tail);
    ParsedBody(f, tail + Block(f, m), first, body);
  }

  /** An appended message is found again as the last one exactly when what stood behind the last separator lets its
      header be read. */
  lemma AppendedIsLastIff<S>(f: Format<S>, text: string, m: Message<S>)
    requires f.Lawful() && Printable(f, m)
    requires m.attachment.None? || '\n' !in Tail(text) || '-' !in Tail(text)
    ensures IsLast(f, text + (Block(f, m) + "\n\n"), m) <==> ReadsOn(f, Tail(text), m)
  {
    AppendedIsLastBlock(f, text, m);
    var tail := Tail(text);
    if '\n' in tail {
      BreakInTail(f, m, tail);
    } else if Find(tail, " - ").Some? {
      SeparatorInTail(f, m, tail);
    } else {
      ParseBehind(f, m, tail);
    }
  }

  /** Saving a message a second time leaves the file as after the first save, exactly when the message was there
      already or the part behind the last separator lets its header be read; otherwise it is written twice. For an
      attachment the part must not hold both a line break and a dash. */
  lemma SaveTwiceIsSaveOnceIff<S>(f: Format<S>, text: string, m: Message<S>)
    requires f.Lawful() && Printable(f, m)
    requires m.attachment.None? || '\n' !in Tail(text) || '-' !in Tail(text)
    ensures var after := Saved(f, Some(text), m, true, true).0;
            Saved(f, after, m, true, true) == (after, true) <==> IsLast(f, text, m) || ReadsOn(f, Tail(text), m)
  {
    AppendedIsLastIff(f, text, m);
    Longer(text + (Block(f, m) + "\n\n"), Block(f, m) + "\n\n");
  }

  lemma Longer(text: string, more: string)
    requires more != ""
    ensures text + more != text
  {
    assert |text + more| > |text|;
  }

  lemma NothingInFront<S>(f: Format<S>, m: Message<S>)
    requires f.Lawful() && Printable(f, m)
    ensures ReadsOn(f, "", m) && !ReadsOn(f, "\n", m)
  {
    HeaderReads(f, m, "");
    assert "" + f.labelOf(m.sender) == f.labelOf(m.sender);
  }

  /** Behind a file that ends in a separator, or no file, saving a message twice in a row is saving it once, and
      says it is durable; even when the first save could not read the file, or the second could not write. */
  lemma SaveTwiceIsSaveOnce<S>(f: Format<S>, content: Option<string>, m: Message<S>, readOk: bool, writeOk: bool)
    requires f.Lawful() && Printable(f, m)
    requires content.Some? ==> Tail(content.value) == ""
    ensures var (after, durable) := Saved(f, content, m, readOk, true);
            durable && Saved(f, after, m, true, writeOk) == (after, true)
  {
    var text := if content.Some? then content.value else "";
    assert Tail("") == "";
    NothingInFront(f, m);
    AppendedIsLastIff(f, text, m);
  }

  // ----- A save that says yes has kept the message -----

  /** A file that could not be read is appended to unseen; a write that fails changes nothing and says so, unless the
      message was seen to be there. */
  lemma UnreadFileIsAppended<S>(f: Format<S>, content: Option<string>, m: Message<S>)
    ensures var text := if content.Some? then content.value else "";
            Saved(f, content, m, false, true) == (Some(text + (Block(f, m) + "\n\n")), true)
    ensures Saved(f, content, m, false, false) == (content, false)
    ensures !Saved(f, content, m, true, false).1 ==> Saved(f, content, m, true, false).0 == content
    ensures content.None? ==> Saved(f, content, m, true, true) == Saved(f, content, m, false, true)
  {
  }

  /** The last message a load of the text yields. */
  function LastLoaded<S>(f: Format<S>, text: string): Option<Message<S>> {
    var messages := LoadText(f, text);
    if messages == [] then None else Some(messages[|messages| - 1])
  }

  /** It is what the last block that is not blank stands for, when that one parses. */
  lemma {:induction false} LastBlockIsLoadedLast<S>(f: Format<S>, blocks: seq<string>)
    requires LastBlock(blocks).Some? && ParseBlock(f, LastBlock(blocks).value).Some?
    ensures var messages := ParseBlocks(f, blocks);
            messages != [] && messages[|messages| - 1] == Restore(f, ParseBlock(f, LastBlock(blocks).value).value)
  {
    var n := |blocks| - 1;
    var rest, own := ParseBlocks(f, blocks[..n]), ParseAny(f, blocks[n]);
    assert ParseBlocks(f, blocks) == rest + own;
    if Trim(blocks[n]) == "" {
      LastBlockIsLoadedLast(f, blocks[..n]);
      assert rest + own == rest;
    } else {
      assert own == [Restore(f, ParseBlock(f, LastBlock(blocks).value).value)];
    }
  }

  /** The message on disk stands for `m`: same sender and second, and what `m` is stored as; for an attachment, the
      same URL or the old placeholder of the same file name will do. */
  predicate StandsFor<S(==)>(f: Format<S>, stored: Message<S>, m: Message<S>) {
    && stored.sender == m.sender && stored.timestamp == m.timestamp
    && (match m.attachment
        case None => stored == StoredAs(f, m)
        case Some(att) =>
          || (stored.attachment.Some? && stored.attachment.value.blossomUrl == Trim(att.blossomUrl))
          || (stored.attachment.None? && ParsePlaceholder(stored.content).Some?
              && ParsePlaceholder(stored.content).value.1 == att.filename))
  }

  /** What the duplicate test accepts stands for the message. */
  lemma LastStandsFor<S>(f: Format<S>, text: string, m: Message<S>)
    requires f.Lawful() && Printable(f, m) && IsLast(f, text, m)
    ensures LastLoaded(f, text).Some? && StandsFor(f, LastLoaded(f, text).value, m)
  {
    var blocks := Split(text, "\n\n");
    LastBlockIsLoadedLast(f, blocks);
    var last := ParseBlock(f, LastBlock(blocks).value).value;
    match m.attachment
    case None =>
    case Some(att) => AcceptedStandsFor(f, last, m);
  }

  lemma AcceptedStandsFor<S>(f: Format<S>, last: Parsed<S>, m: Message<S>)
    requires f.Lawful() && Printable(f, m) && m.attachment.Some? && AlreadyHas(f, last, m)
    ensures StandsFor(f, Restore(f, last), m)
  {
    var att := m.attachment.value;
    SerializeThenParse(f.codec, att);
    assert Body(f, m) == Serialized(f.codec, att);
    if ParseAttachment(f.codec, last.body).Some? {
      TrimTrimmed(ParseAttachment(f.codec, last.body).value.blossomUrl);
      if last.body != Body(f, m) && ParseAttachment(f.codec, last.body).value.blossomUrl != att.blossomUrl {
        PlaceholderIsNoJson(f.codec, last.body);
      }
    }
  }

  lemma PlaceholderIsNoJson(c: Codec, body: string)
    requires ParsePlaceholder(body).Some?
    ensures ParseAttachment(c, body).None?
  {
  }

  /** A save that reports success behind a file that ends in a separator, or no file, has kept the message: the last one
      a load of the file yields stands for it. For a text that is exactly the message as stored. */
  lemma SavedIsLastLoaded<S>(f: Format<S>, content: Option<string>, m: Message<S>, readOk: bool, writeOk: bool)
    requires f.Lawful() && Printable(f, m)
    requires content.Some? ==> Tail(content.value) == ""
    ensures var (after, durable) := Saved(f, content, m, readOk, writeOk);
            durable ==>
              && after.Some? && LastLoaded(f, after.value).Some?
              && StandsFor(f, LastLoaded(f, after.value).value, m)
  {
    var text := if content.Some? then content.value else "";
    var appended := text + (Block(f, m) + "\n\n");
    assert Tail("") == "";
    AppendedStandsFor(f, text, m);
    SavedCases(f, content, m, readOk, writeOk);
    if content.Some? && IsLast(f, content.value, m) {
      LastStandsFor(f, content.value, m);
    }
  }

  lemma AppendedStandsFor<S>(f: Format<S>, text: string, m: Message<S>)
    requires f.Lawful() && Printable(f, m) && Tail(text) == ""
    ensures var appended := text + (Block(f, m) + "\n\n");
            LastLoaded(f, appended).Some? && StandsFor(f, LastLoaded(f, appended).value, m)
  {
    NothingInFront(f, m);
    AppendedIsLastIff(f, text, m);
    LastStandsFor(f, text + (Block(f, m) + "\n\n"), m);
  }

  /** A save that says yes found the message at the end, or appended it. */
  lemma SavedCases<S>(f: Format<S>, content: Option<string>, m: Message<S>, readOk: bool, writeOk: bool)
    ensures var (after, durable) := Saved(f, content, m, readOk, writeOk);
            var text := if content.Some? then content.value else "";
            durable ==>
              || (after == content && content.Some? && IsLast(f, content.value, m))
              || after == Some(text + (Block(f, m) + "\n\n"))
  {
  }

  /** And it keeps what was there: nothing that could be loaded before is lost. */
  lemma SaveKeepsLoaded<S>(f: Format<S>, content: Option<string>, m: Message<S>, readOk: bool, writeOk: bool)
    requires f.Lawful() && Storable(f, m) && content.Some? && Tail(content.value) == ""
    ensures var after := Saved(f, content, m, readOk, writeOk).0;
            after.Some? && LoadText(f, content.value) <= LoadText(f, after.value)
  {
    var b := Block(f, m);
    LoadBehind(f, content.value, b + "\n\n");
  }

  /** What is added behind a separator is read behind what was there. */
  lemma {:induction false} LoadBehind<S>(f: Format<S>, text: string, more: string)
    requires Tail(text) == ""
    ensures LoadText(f, text + more) == LoadText(f, text) + LoadText(f, more)
    decreases |text|
  {
    match Find(text, "\n\n")
    case None =>
      assert text == "" && text + more == more;
      NothingLeft(f, false);
    case Some(k) =>
      var rest := text[k + 2..];
      LoadBehind(f, rest, more);
      LoadFirst(f, text, text[..k], rest);
      SplitBehind(text, more, k);
      LoadFirst(f, text + more, text[..k], rest + more);
      TailOfMore(text[..k], Split(rest, "\n\n"));
      Reassociated(ParseAny(f, text[..k]), LoadText(f, rest), LoadText(f, more));
  }

  lemma LoadFirst<S>(f: Format<S>, text: string, first: string, rest: string)
    requires Split(text, "\n\n") == [first] + Split(rest, "\n\n")
    ensures LoadText(f, text) == ParseAny(f, first) + LoadText(f, rest)
  {
    ParseBlocksOfConcat(f, [first], Split(rest, "\n\n"));
    ParseOne(f, first);
  }

  lemma TailOfMore(first: string, parts: seq<string>)
    requires parts != []
    ensures Last([first] + parts) == Last(parts)
  {
  }

  lemma Reassociated<M>(a: seq<M>, b: seq<M>, c: seq<M>)
    ensures a + (b + c) == (a + b) + c
  {
  }

  /** An attachment whose URL was just saved for the same sender and second is not written again, whatever else of it
      changed. */
  lemma SameAttachmentIsKept<S>(f: Format<S>, content: Option<string>, m: Message<S>, again: Message<S>)
    requires f.Lawful() && Printable(f, m) && m.attachment.Some? && again.attachment.Some?
    requires content.Some? ==> Tail(content.value) == ""
    requires again.sender == m.sender && again.timestamp == m.timestamp
    requires again.attachment.value.blossomUrl == Trim(m.attachment.value.blossomUrl)
    ensures var text := if content.Some? then content.value else "";
            var after := Some(text + (Block(f, m) + "\n\n"));
            Saved(f, after, again, true, true) == (after, true)
  {
    var text := if content.Some? then content.value else "";
    assert Tail("") == "";
    AppendedIsLastBlock(f, text, m);
    assert "" + Block(f, m) == Block(f, m);
    ParsePrintedBlock(f, m);
    SerializeThenParse(f.codec, m.attachment.value);
  }

  lemma PlaceholderBlockParses<S>(f: Format<S>, m: Message<S>, line: string)
    requires f.Lawful() && Printable(f, m) && IsCleanLine(line)
    ensures var block := Header(f, m) + "\n" + line;
            && NoBreakPair(block) && IsTrimmed(block) && block != ""
            && ParseBlock(f, block) == Some(Parsed(m.sender, m.timestamp, line))
  {
    var header := Header(f, m);
    HeaderIsClean(f, m);
    NoBreakPairOfJoin(header, line);
    LinesCons(header, line);
    assert NewlineAt(line) == |line|;
    PrintedHeaderReads(f, m);
    ParseFrom(f, header + "\n" + line, header, [line], f.labelOf(m.sender), Stamp(f, m.timestamp).0,
              Stamp(f, m.timestamp).1);
    TrimTrimmed(line);
  }

  lemma PlaceholderIsLast<S>(f: Format<S>, text: string, m: Message<S>, block: string)
    requires f.Lawful() && Printable(f, m) && m.attachment.Some?
    requires IsCleanLine(Placeholder(m.attachment.value)) && Tail(text) == ""
    requires block == Header(f, m) + "\n" + Placeholder(m.attachment.value)
    ensures IsLast(f, text + (block + "\n\n"), m)
  {
    PlaceholderBlockParses(f, m, Placeholder(m.attachment.value));
    AppendedIsLastPart(text, block);
    assert "" + block == block;
    PlaceholderIsAccepted(f, m);
    IsLastBy(f, text + (block + "\n\n"), block, Parsed(m.sender, m.timestamp, Placeholder(m.attachment.value)), m);
  }

  /** Nor is one whose old placeholder stands there. */
  lemma PlaceholderIsKept<S>(f: Format<S>, text: string, m: Message<S>)
    requires f.Lawful() && Printable(f, m) && m.attachment.Some?
    requires IsCleanLine(Placeholder(m.attachment.value)) && Tail(text) == ""
    ensures var block := Header(f, m) + "\n" + Placeholder(m.attachment.value);
            var after := Some(text + (block + "\n\n"));
            Saved(f, after, m, true, true) == (after, true)
  {
    PlaceholderIsLast(f, text, m, Header(f, m) + "\n" + Placeholder(m.attachment.value));
  }

  lemma PlaceholderIsAccepted<S>(f: Format<S>, m: Message<S>)
    requires m.attachment.Some?
    ensures AlreadyHas(f, Parsed(m.sender, m.timestamp, Placeholder(m.attachment.value)), m)
  {
    PlaceholderRoundTrip(m.attachment.value);
  }

  lemma IsLastBy<S>(f: Format<S>, text: string, block: string, p: Parsed<S>, m: Message<S>)
    requires LastBlock(Split(text, "\n\n")) == Some(block) && ParseBlock(f, block) == Some(p) && AlreadyHas(f, p, m)
    ensures IsLast(f, text, m)
  {
  }

  // ----- Runs -----

  datatype FileOp<S> =
    | SaveOp(message: Message<S>, readOk: bool, writeOk: bool)
    | RewriteOp(messages: seq<Message<S>>, writeOk: bool)

  function AfterOp<S(==)>(f: Format<S>, content: Option<string>, op: FileOp<S>): Option<string> {
    match op
    case SaveOp(m, readOk, writeOk) => Saved(f, content, m, readOk, writeOk).0
    case RewriteOp(messages, writeOk) => if writeOk then Some(Transcript(f, messages)) else content
  }

  function AfterOps<S(==)>(f: Format<S>, ops: seq<FileOp<S>>): Option<string> {
    if ops == [] then None else AfterOp(f, AfterOps(f, ops[..|ops| - 1]), ops[|ops| - 1])
  }

  ghost predicate OpIsStorable<S>(f: Format<S>, op: FileOp<S>) {
    match op
    case SaveOp(m, _, _) => Storable(f, m)
    case RewriteOp(messages, _) => AllStorable(f, messages)
  }

  ghost predicate OpsAreStorable<S>(f: Format<S>, ops: seq<FileOp<S>>) {
    forall i :: 0 <= i < |ops| ==> OpIsStorable(f, ops[i])
  }

  /** The messages the file holds after `op`, given those it held before. */
  function HeldAfter<S(==)>(f: Format<S>, held: seq<Message<S>>, content: Option<string>, op: FileOp<S>)
    : seq<Message<S>>
  {
    match op
    case SaveOp(m, _, _) => if AfterOp(f, content, op) == content then held else held + [m]
    case RewriteOp(messages, writeOk) => if writeOk then messages else held
  }

  function Held<S(==)>(f: Format<S>, ops: seq<FileOp<S>>): seq<Message<S>> {
    if ops == [] then []
    else HeldAfter(f, Held(f, ops[..|ops| - 1]), AfterOps(f, ops[..|ops| - 1]), ops[|ops| - 1])
  }

  ghost predicate Holds<S>(f: Format<S>, content: Option<string>, held: seq<Message<S>>) {
    AllStorable(f, held) && Transcript(f, held) == match content case None => "" case Some(text) => text
  }

  lemma HoldsOneMore<S>(f: Format<S>, content: Option<string>, held: seq<Message<S>>, m: Message<S>)
    requires Holds(f, content, held) && Storable(f, m)
    ensures var text := match content case None => "" case Some(t) => t;
            Holds(f, Some(text + (Block(f, m) + "\n\n")), held + [m])
  {
    TranscriptPush(f, held, m);
  }

  lemma SaveKeepsTranscript<S>(f: Format<S>, held: seq<Message<S>>, content: Option<string>, op: FileOp<S>)
    requires Holds(f, content, held) && op.SaveOp? && Storable(f, op.message)
    ensures Holds(f, AfterOp(f, content, op), HeldAfter(f, held, content, op))
  {
    SaveAppendsOrNot(f, content, op);
    HoldsOneMore(f, content, held, op.message);
  }

  lemma SaveAppendsOrNot<S>(f: Format<S>, content: Option<string>, op: FileOp<S>)
    requires op.SaveOp?
    ensures var text := match content case None => "" case Some(t) => t;
            || AfterOp(f, content, op) == content
            || (AfterOp(f, content, op) == Some(text + (Block(f, op.message) + "\n\n"))
                && AfterOp(f, content, op) != content)
  {
    var text := match content case None => "" case Some(t) => t;
    Longer(text, Block(f, op.message) + "\n\n");
  }

  lemma OpKeepsTranscript<S>(f: Format<S>, held: seq<Message<S>>, content: Option<string>, op: FileOp<S>)
    requires Holds(f, content, held) && OpIsStorable(f, op)
    ensures Holds(f, AfterOp(f, content, op), HeldAfter(f, held, content, op))
  {
    match op
    case SaveOp(_, _, _) => SaveKeepsTranscript(f, held, content, op);
    case RewriteOp(_, _) =>
  }

  /** After any run of saves and rewrites, with any reads and writes failing, the file is the transcript of the
      messages it holds. */
  lemma {:induction false} RunKeepsTranscript<S>(f: Format<S>, ops: seq<FileOp<S>>)
    requires OpsAreStorable(f, ops)
    ensures Holds(f, AfterOps(f, ops), Held(f, ops))
  {
    if ops != [] {
      var n := |ops| - 1;
      assert OpIsStorable(f, ops[n]) && OpsAreStorable(f, ops[..n]);
      RunKeepsTranscript(f, ops[..n]);
      OpKeepsTranscript(f, Held(f, ops[..n]), AfterOps(f, ops[..n]), ops[n]);
    }
  }

  lemma TailOfHeld<S>(f: Format<S>, content: Option<string>, held: seq<Message<S>>)
    requires f.Lawful() && Holds(f, content, held)
    ensures Tail(if content.Some? then content.value else "") == Break(LeavesOpen(held))
    ensures content.Some? ==> LoadText(f, content.value) == Loaded(f, held)
  {
    TailOfTranscript(f, held);
    TranscriptRoundTrip(f, held);
  }

  /** So at any time a load yields what the file holds, as stored; and saving a message twice is saving it once,
      unless it was not there and the message before it hides the next. */
  lemma RunLoadsWhatItHolds<S>(f: Format<S>, ops: seq<FileOp<S>>, m: Message<S>)
    requires f.Lawful() && Printable(f, m) && OpsAreStorable(f, ops)
    ensures AfterOps(f, ops).Some? ==> LoadText(f, AfterOps(f, ops).value) == Loaded(f, Held(f, ops))
    ensures var content, (after, durable) := AfterOps(f, ops), Saved(f, AfterOps(f, ops), m, true, true);
            && durable
            && (Saved(f, after, m, true, true) == (after, true)
                <==> (content.Some? && IsLast(f, content.value, m)) || !LeavesOpen(Held(f, ops)))
  {
    var content := AfterOps(f, ops);
    RunKeepsTranscript(f, ops);
    TailOfHeld(f, content, Held(f, ops));
    NothingInFront(f, m);
    match content
    case Some(text) => SaveTwiceIsSaveOnceIff(f, text, m);
    case None =>
      assert Tail("") == "";
      SaveTwiceIsSaveOnce(f, None, m, true, true);
  }

  // ----- Saved texts over runs -----

  /** No message of the run hides the next one. */
  ghost predicate OpHidesNothing<S>(op: FileOp<S>) {
    match op
    case SaveOp(m, _, _) => !Hides(m)
    case RewriteOp(messages, _) => forall i :: 0 <= i < |messages| ==> !Hides(messages[i])
  }

  ghost predicate OpsHideNothing<S>(ops: seq<FileOp<S>>) {
    forall i :: 0 <= i < |ops| ==> OpHidesNothing(ops[i])
  }

  ghost predicate NoneHides<S>(messages: seq<Message<S>>) {
    forall i :: 0 <= i < |messages| ==> !Hides(messages[i])
  }

  lemma {:induction false} HeldHidesNothing<S>(f: Format<S>, ops: seq<FileOp<S>>)
    requires OpsHideNothing(ops)
    ensures NoneHides(Held(f, ops))
  {
    if ops != [] {
      var n := |ops| - 1;
      assert OpHidesNothing(ops[n]) && OpsHideNothing(ops[..n]);
      HeldHidesNothing(f, ops[..n]);
    }
  }

  /** What the file loads as, when nothing is hidden. */
  function FileLoads<S>(f: Format<S>, content: Option<string>): seq<Message<S>> {
    if content.Some? then LoadText(f, content.value) else []
  }

  lemma HeldIsLoaded<S>(f: Format<S>, ops: seq<FileOp<S>>)
    requires f.Lawful() && OpsAreStorable(f, ops) && OpsHideNothing(ops)
    ensures var content := AfterOps(f, ops);
            && (content.Some? ==> Tail(content.value) == "")
            && FileLoads(f, content) == AllStoredAs(f, Held(f, ops))
  {
    RunKeepsTranscript(f, ops);
    HeldHidesNothing(f, ops);
    TailOfHeld(f, AfterOps(f, ops), Held(f, ops));
    AllComeBackIff(f, Held(f, ops));
    AllStoredLength(f, Held(f, ops));
    if AfterOps(f, ops).None? {
      EmptyTranscript(f, Held(f, ops));
    }
  }

  lemma EmptyTranscript<S>(f: Format<S>, messages: seq<Message<S>>)
    requires Transcript(f, messages) == ""
    ensures messages == []
  {
  }

  /** The operation does not replace the file. */
  predicate IsKept<S>(op: FileOp<S>) {
    op.SaveOp? || !op.writeOk
  }

  lemma OpKeepsLoaded<S>(f: Format<S>, ops: seq<FileOp<S>>, op: FileOp<S>)
    requires f.Lawful() && OpsAreStorable(f, ops) && OpsHideNothing(ops) && OpIsStorable(f, op) && IsKept(op)
    ensures FileLoads(f, AfterOps(f, ops)) <= FileLoads(f, AfterOp(f, AfterOps(f, ops), op))
  {
    HeldIsLoaded(f, ops);
    var content := AfterOps(f, ops);
    if op.SaveOp? && content.Some? {
      SaveKeepsLoaded(f, content, op.message, op.readOk, op.writeOk);
    }
  }

  /** The `k`-th operation is a save of a text that reported success, and nothing replaced the file since. */
  ghost predicate SavedText<S>(f: Format<S>, ops: seq<FileOp<S>>, k: nat) {
    && k < |ops| && ops[k].SaveOp? && Printable(f, ops[k].message) && ops[k].message.attachment.None?
    && Saved(f, AfterOps(f, ops[..k]), ops[k].message, ops[k].readOk, ops[k].writeOk).1
    && forall i :: k < i < |ops| ==> IsKept(ops[i])
  }

  lemma SaveIsLoaded<S>(f: Format<S>, content: Option<string>, m: Message<S>, readOk: bool, writeOk: bool)
    requires f.Lawful() && Printable(f, m) && m.attachment.None?
    requires content.Some? ==> Tail(content.value) == ""
    ensures var (after, durable) := Saved(f, content, m, readOk, writeOk);
            durable ==> StoredAs(f, m) in FileLoads(f, after)
  {
    SavedIsLastLoaded(f, content, m, readOk, writeOk);
  }

  predicate IsLoaded<S(==)>(f: Format<S>, ops: seq<FileOp<S>>, m: Message<S>) {
    m in FileLoads(f, AfterOps(f, ops))
  }

  lemma OpsPrefix<S>(f: Format<S>, ops: seq<FileOp<S>>)
    requires OpsAreStorable(f, ops) && OpsHideNothing(ops) && ops != []
    ensures var n := |ops| - 1;
            OpsAreStorable(f, ops[..n]) && OpsHideNothing(ops[..n]) && OpIsStorable(f, ops[n])
  {
  }

  /** Every text message whose save reported success since the file was last replaced is among the loaded ones, over
      every run in which no message hides the next. */
  lemma {:induction false} SavedTextIsLoaded<S>(f: Format<S>, ops: seq<FileOp<S>>, k: nat)
    requires f.Lawful() && OpsAreStorable(f, ops) && OpsHideNothing(ops) && SavedText(f, ops, k)
    ensures IsLoaded(f, ops, StoredAs(f, ops[k].message))
  {
    OpsPrefix(f, ops);
    if k == |ops| - 1 {
      SavedLastIsLoaded(f, ops);
    } else {
      SavedTextBefore(f, ops, k);
      SavedTextIsLoaded(f, ops[..|ops| - 1], k);
      StillLoaded(f, ops, StoredAs(f, ops[k].message));
    }
  }

  lemma SavedLastIsLoaded<S>(f: Format<S>, ops: seq<FileOp<S>>)
    requires f.Lawful() && ops != [] && SavedText(f, ops, |ops| - 1)
    requires OpsAreStorable(f, ops[..|ops| - 1]) && OpsHideNothing(ops[..|ops| - 1])
    ensures IsLoaded(f, ops, StoredAs(f, ops[|ops| - 1].message))
  {
    SavedNowIsLoaded(f, ops[..|ops| - 1], ops[|ops| - 1]);
  }

  lemma StillLoaded<S>(f: Format<S>, ops: seq<FileOp<S>>, m: Message<S>)
    requires ops != [] && f.Lawful() && OpsAreStorable(f, ops[..|ops| - 1]) && OpsHideNothing(ops[..|ops| - 1])
    requires OpIsStorable(f, ops[|ops| - 1]) && IsKept(ops[|ops| - 1]) && IsLoaded(f, ops[..|ops| - 1], m)
    ensures IsLoaded(f, ops, m)
  {
    OpKeepsLoaded(f, ops[..|ops| - 1], ops[|ops| - 1]);
  }

  lemma SavedNowIsLoaded<S>(f: Format<S>, ops: seq<FileOp<S>>, op: FileOp<S>)
    requires f.Lawful() && OpsAreStorable(f, ops) && OpsHideNothing(ops)
    requires op.SaveOp? && Printable(f, op.message) && op.message.attachment.None?
    requires Saved(f, AfterOps(f, ops), op.message, op.readOk, op.writeOk).1
    ensures StoredAs(f, op.message) in FileLoads(f, AfterOp(f, AfterOps(f, ops), op))
  {
    HeldIsLoaded(f, ops);
    SaveIsLoaded(f, AfterOps(f, ops), op.message, op.readOk, op.writeOk);
  }

  lemma SavedTextBefore<S>(f: Format<S>, ops: seq<FileOp<S>>, k: nat)
    requires SavedText(f, ops, k) && k < |ops| - 1
    ensures SavedText(f, ops[..|ops| - 1], k) && IsKept(ops[|ops| - 1])
  {
    var before := ops[..|ops| - 1];
    assert before[..k] == ops[..k] && before[k] == ops[k];
    assert forall i :: k < i < |before| ==> before[i] == ops[i] && IsKept(ops[i]);
  }
}
