/** The transcript printer and parser undo each other (src/ui/helpers/chat_storage.rs): what is read back from the
    transcript of any list of messages. */
module ChatRoundTrip {

  import opened Wrappers
  import opened Text
  import opened ChatRender
  import opened Attachments
  import opened ChatStorage

  // ----- What can be stored -----

  /** The label of `s` can be printed in a header and names some sender when read. */
  ghost predicate ReadableLabel<S>(f: Format<S>, s: S) {
    IsCleanLine(f.labelOf(s)) && '-' !in f.labelOf(s) && f.parseLabel(f.labelOf(s)).Some?
  }

  /** And that sender is `s` again. */
  ghost predicate GoodLabel<S>(f: Format<S>, s: S) {
    ReadableLabel(f, s) && f.parseLabel(f.labelOf(s)) == Some(s)
  }

  /** A message with a date of the calendar, a readable label, and any text or a saveable attachment. */
  ghost predicate Storable<S>(f: Format<S>, m: Message<S>) {
    && ReadableLabel(f, m.sender)
    && FIRST_TIMESTAMP <= m.timestamp <= LAST_TIMESTAMP
    && (m.attachment.Some? ==> IsSaveable(m.attachment.value))
  }

  ghost predicate AllStorable<S>(f: Format<S>, messages: seq<Message<S>>) {
    forall i :: 0 <= i < |messages| ==> Storable(f, messages[i])
  }

  /** A text without words. It is printed as it stands. */
  predicate IsWordless<S>(m: Message<S>) {
    m.attachment.None? && Words(m.content) == []
  }

  /** A message that is read back from its block as itself. */
  ghost predicate Printable<S>(f: Format<S>, m: Message<S>) {
    Storable(f, m) && GoodLabel(f, m.sender) && !IsWordless(m)
  }

  function SenderAs<S>(f: Format<S>, s: S): S {
    match f.parseLabel(f.labelOf(s)) case Some(x) => x case None => s
  }

  /** The message a storable one is read back as. */
  function StoredAs<S>(f: Format<S>, m: Message<S>): Message<S> {
    Restore(f, Parsed(SenderAs(f, m.sender), m.timestamp, if IsWordless(m) then "" else Body(f, m)))
  }

  /** How many line breaks stand at the end. */
  function TrailingBreaks(s: string): nat {
    if s == "" || s[|s| - 1] != '\n' then 0 else 1 + TrailingBreaks(s[..|s| - 1])
  }

  /** Together with the break behind its header, the body of the message ends in an odd number of line breaks. They
      are taken two at a time with those of the separator, so one is left over for the next block. */
  predicate Hides<S>(m: Message<S>) {
    IsWordless(m) && TrailingBreaks("\n" + m.content) % 2 == 1
  }

  /** What is read back from a list of messages: all but those behind one that hides the next. */
  function Loaded<S>(f: Format<S>, messages: seq<Message<S>>): seq<Message<S>> {
    if messages == [] then []
    else
      var n := |messages| - 1;
      Loaded(f, messages[..n]) + if n > 0 && Hides(messages[n - 1]) then [] else [StoredAs(f, messages[n])]
  }

  // ----- Blocks -----

  /** No empty line inside, and no line break at the end. */
  predicate NoBreakPair(s: string) {
    (s != "" ==> s[|s| - 1] != '\n') && forall i :: 0 <= i < |s| - 1 ==> !(s[i] == '\n' && s[i + 1] == '\n')
  }

  lemma NoBreakPairOfJoin(a: string, b: string)
    requires NoBreakPair(a) && NoBreakPair(b) && b != "" && b[0] != '\n'
    ensures NoBreakPair(a + "\n" + b)
  {
  }

  /** Joining clean lines: no blank line, nothing to trim. */
  lemma {:induction false} JoinOfClean(lines: seq<string>)
    requires lines != [] && forall i :: 0 <= i < |lines| ==> IsCleanLine(lines[i])
    ensures var s := Join(lines, "\n");
            NoBreakPair(s) && IsTrimmed(s) && s != "" && s[0] == lines[0][0]
  {
    if |lines| > 1 {
      JoinOfClean(lines[1..]);
      NoBreakPairOfJoin(lines[0], Join(lines[1..], "\n"));
    }
  }

  lemma BodyLinesAreClean<S>(f: Format<S>, m: Message<S>)
    requires f.Lawful() && Storable(f, m) && !IsWordless(m)
    ensures BodyLines(f, m) != []
    ensures forall i :: 0 <= i < |BodyLines(f, m)| ==> IsCleanLine(BodyLines(f, m)[i])
  {
    match m.attachment
    case None => WrappedLinesAreClean(f.width, m.content, TRANSCRIPT_WIDTH);
    case Some(att) =>
      var s := f.codec.printJson(Fields(f.codec, att));
      assert |s| >= 2 && s[0] == '{' && s[|s| - 1] == '}' && IsLine(s);
  }

  lemma HeaderIsClean<S>(f: Format<S>, m: Message<S>)
    requires f.Lawful() && Storable(f, m)
    ensures IsCleanLine(Header(f, m)) && NoBreakPair(Header(f, m))
  {
    var name, date, time := f.labelOf(m.sender), Stamp(f, m.timestamp).0, Stamp(f, m.timestamp).1;
    assert Header(f, m)[|Header(f, m)| - 1] == time[|time| - 1];
  }

  lemma BlockIsClean<S>(f: Format<S>, m: Message<S>)
    requires f.Lawful() && Storable(f, m) && !IsWordless(m)
    ensures NoBreakPair(Block(f, m)) && IsTrimmed(Block(f, m)) && Block(f, m) != ""
  {
    BodyLinesAreClean(f, m);
    JoinOfClean(BodyLines(f, m));
    HeaderIsClean(f, m);
    NoBreakPairOfJoin(Header(f, m), Body(f, m));
  }

  lemma WordlessBody<S>(f: Format<S>, m: Message<S>)
    requires IsWordless(m)
    ensures Body(f, m) == m.content && IsBlank(m.content)
  {
    WordlessIsBlank(m.content);
  }

  // ----- Splitting at blank lines -----

  lemma FirstPairAt(a: string, rest: string, i: nat)
    requires NoBreakPair(a) && i < |a|
    ensures !OccursAt(a + ("\n\n" + rest), "\n\n", i)
  {
    var s := a + ("\n\n" + rest);
    if OccursAt(s, "\n\n", i) {
      OccursCharwise(s, "\n\n", i, 0);
      OccursCharwise(s, "\n\n", i, 1);
    }
  }

  /** A block ends at the first blank line. */
  lemma SplitOffBlock(a: string, rest: string)
    requires NoBreakPair(a)
    ensures Split(a + ("\n\n" + rest), "\n\n") == [a] + Split(rest, "\n\n")
  {
    var s := a + ("\n\n" + rest);
    assert s[|a|..|a| + 2] == "\n\n";
    forall i: nat | i < |a|
      ensures !OccursAt(s, "\n\n", i)
    {
      FirstPairAt(a, rest, i);
    }
    FindIs(s, "\n\n", |a|);
    assert s[..|a|] == a && s[|a| + 2..] == rest;
  }

  function Break(open: bool): string {
    if open then "\n" else ""
  }

  /** Whether reading `w` behind an open line break, or behind none, leaves one open. */
  predicate EndsOpen(open: bool, w: string)
    decreases |w|
  {
    if w == "" then open else EndsOpen(w[0] == '\n' && !open, w[1..])
  }

  lemma {:induction false} BreaksBehind(p: string, w: string)
    requires p == "" || p[|p| - 1] != '\n'
    ensures TrailingBreaks(p + w) == TrailingBreaks(w)
  {
    if w == "" {
      assert p + w == p;
    } else {
      assert (p + w)[..|p + w| - 1] == p + w[..|w| - 1];
      BreaksBehind(p, w[..|w| - 1]);
    }
  }

  lemma {:induction false} PairOfBreaks(w: string)
    ensures TrailingBreaks("\n\n" + w) % 2 == TrailingBreaks(w) % 2
  {
    if w == "" {
      assert "\n\n" + w == "\n\n" && "\n\n"[..1] == "\n" && "\n"[..0] == "";
      assert TrailingBreaks("\n") == 1 && TrailingBreaks("\n\n") == 2;
    } else {
      assert ("\n\n" + w)[..|w| + 1] == "\n\n" + w[..|w| - 1];
      PairOfBreaks(w[..|w| - 1]);
    }
  }

  /** An open line break is left exactly behind an odd number of them. */
  lemma {:induction false} EndsOpenIff(open: bool, w: string)
    ensures EndsOpen(open, w) <==> TrailingBreaks(Break(open) + w) % 2 == 1
    decreases |w|
  {
    if w == "" {
      assert Break(open) + w == Break(open) && "\n"[..0] == "";
    } else {
      EndsOpenIff(w[0] == '\n' && !open, w[1..]);
      if w[0] != '\n' {
        assert Break(open) + w == (Break(open) + [w[0]]) + w[1..] && Break(false) + w[1..] == w[1..];
        BreaksBehind(Break(open) + [w[0]], w[1..]);
      } else if open {
        assert Break(open) + w == "\n\n" + w[1..] && Break(false) + w[1..] == w[1..];
        PairOfBreaks(w[1..]);
      } else {
        assert Break(open) + w == "\n" + w[1..];
      }
    }
  }

  /** `text` splits into one piece, blank pieces, and what `left` splits into. */
  predicate SplitsInto(text: string, piece: string, blanks: seq<string>, left: string) {
    && Split(text, "\n\n") == [piece] + (blanks + Split(left, "\n\n"))
    && forall i :: 0 <= i < |blanks| ==> IsBlank(blanks[i])
  }

  lemma SplitsAtPair(a: string, left: string)
    requires NoBreakPair(a)
    ensures SplitsInto(a + ("\n\n" + left), a, [], left)
  {
    SplitOffBlock(a, left);
    assert [] + Split(left, "\n\n") == Split(left, "\n\n");
  }

  lemma SplitsBeforeBlank(a: string, text: string, piece: string, blanks: seq<string>, left: string)
    requires NoBreakPair(a) && IsBlank(piece) && SplitsInto(text, piece, blanks, left)
    ensures SplitsInto(a + ("\n\n" + text), a, [piece] + blanks, left)
  {
    SplitOffBlock(a, text);
    var rest := Split(left, "\n\n");
    assert ([piece] + blanks) + rest == [piece] + (blanks + rest);
  }

  /** White space `w` up to a separator, behind a text and perhaps an open line break. */
  function Behind(a: string, open: bool, w: string, rest: string): string {
    a + (Break(open) + (w + ("\n\n" + rest)))
  }

  /** Reading white space up to the next separator: the piece at hand may grow by some, blank pieces may follow,
      and a line break may be left over. */
  lemma {:induction false} SplitBlank(a: string, open: bool, w: string, rest: string)
      returns (more: string, blanks: seq<string>)
    requires NoBreakPair(a) && IsBlank(w)
    ensures SplitsInto(Behind(a, open, w, rest), a + more, blanks, Break(EndsOpen(open, w)) + rest)
    ensures IsBlank(more) && (open && more != "" ==> more[0] == '\n')
    decreases |w|
  {
    if w == "" {
      ClosingPair(a, open, rest);
      SplitsAtPair(a, Break(open) + rest);
      more, blanks := "", [];
      assert a + more == a;
    } else if w[0] == '\n' && open {
      var more', blanks' := SplitBlank("", false, w[1..], rest);
      OpenPair(a, w, rest);
      SplitsBeforeBlank(a, Behind("", false, w[1..], rest), "" + more', blanks', Break(EndsOpen(open, w)) + rest);
      more, blanks := "", ["" + more'] + blanks';
      assert a + more == a;
    } else if w[0] == '\n' {
      FirstBreak(a, w, rest);
      more, blanks := SplitBlank(a, true, w[1..], rest);
    } else {
      NextChar(a, open, w, rest);
      var c := Break(open) + [w[0]];
      var more', blanks' := SplitBlank(a + c, false, w[1..], rest);
      more, blanks := c + more', blanks';
      Grown(a, open, w[0], more');
    }
  }

  lemma Grown(a: string, open: bool, c: char, more: string)
    requires IsSpace(c) && IsBlank(more)
    ensures var all := (Break(open) + [c]) + more;
            (a + (Break(open) + [c])) + more == a + all && IsBlank(all) && (open ==> all[0] == '\n')
  {
  }

  lemma ClosingPair(a: string, open: bool, rest: string)
    ensures Behind(a, open, "", rest) == a + ("\n\n" + (Break(open) + rest))
  {
    assert "\n" + ("\n\n" + rest) == "\n\n" + ("\n" + rest);
  }

  lemma OpenPair(a: string, w: string, rest: string)
    requires w != "" && w[0] == '\n'
    ensures Behind(a, true, w, rest) == a + ("\n\n" + Behind("", false, w[1..], rest))
  {
    assert w == "\n" + w[1..];
    assert Break(true) + (w + ("\n\n" + rest)) == "\n\n" + (w[1..] + ("\n\n" + rest));
  }

  lemma FirstBreak(a: string, w: string, rest: string)
    requires w != "" && w[0] == '\n'
    ensures Behind(a, false, w, rest) == Behind(a, true, w[1..], rest)
  {
    assert w == "\n" + w[1..];
    assert w + ("\n\n" + rest) == "\n" + (w[1..] + ("\n\n" + rest));
  }

  lemma NextChar(a: string, open: bool, w: string, rest: string)
    requires w != "" && w[0] != '\n' && NoBreakPair(a)
    ensures Behind(a, open, w, rest) == Behind(a + (Break(open) + [w[0]]), false, w[1..], rest)
    ensures NoBreakPair(a + (Break(open) + [w[0]]))
  {
    assert w == [w[0]] + w[1..];
    var tail := w[1..] + ("\n\n" + rest);
    assert w + ("\n\n" + rest) == [w[0]] + tail;
    assert a + (Break(open) + ([w[0]] + tail)) == (a + (Break(open) + [w[0]])) + tail;
  }

  // ----- Parsing a block -----

  lemma CutAt(a: string, rest: string)
    ensures (a + (" - " + rest))[..|a|] == a && (a + (" - " + rest))[|a| + 3..] == rest
  {
  }

  lemma SplitsInThree(s: string, a: string, rest: string, b: string, c: string)
    requires Find(s, " - ") == Some(|a|) && s[..|a|] == a && s[|a| + 3..] == rest
    requires Find(rest, " - ") == Some(|b|) && rest[..|b|] == b && rest[|b| + 3..] == c
    ensures SplitInThree(s, " - ") == Some((a, b, c))
  {
  }

  /** A header splits into its label, date and time. */
  lemma HeaderSplits(name: string, date: string, time: string)
    requires Find(name, " - ").None? && (name != "" ==> name[|name| - 1] != '-') && IsWord(date)
    ensures SplitInThree(name + (" - " + (date + (" - " + time))), " - ") == Some((name, date, time))
  {
    var rest := date + (" - " + time);
    var s := name + (" - " + rest);
    DashEnds(name, rest);
    CutAt(name, rest);
    SpaceFreeEnds(date, time);
    CutAt(date, time);
    SplitsInThree(s, name, rest, date, time);
  }

  lemma DashStandsBehind(a: string, rest: string)
    ensures OccursAt(a + (" - " + rest), " - ", |a|)
  {
    var s := a + (" - " + rest);
    assert s[|a|..|a| + 3] == " - ";
  }

  lemma DashEnds(name: string, rest: string)
    requires Find(name, " - ").None? && (name != "" ==> name[|name| - 1] != '-')
    ensures Find(name + (" - " + rest), " - ") == Some(|name|)
  {
    var s := name + (" - " + rest);
    DashStandsBehind(name, rest);
    forall i: nat | i < |name|
      ensures !OccursAt(s, " - ", i)
    {
      if OccursAt(s, " - ", i) {
        NotAcross(name, " - " + rest, i);
        OccursInFront(name, " - " + rest, i);
        FindFirst(name, " - ", i);
      }
    }
    FindIs(s, " - ", |name|);
  }

  lemma NotAcross(name: string, rest: string, i: nat)
    requires OccursAt(name + rest, " - ", i) && i < |name| && name[|name| - 1] != '-' && rest != "" && rest[0] != '-'
    ensures i + 3 <= |name|
  {
    OccursCharwise(name + rest, " - ", i, 1);
  }

  lemma OccursInFront(name: string, rest: string, i: nat)
    requires i + 3 <= |name| && OccursAt(name + rest, " - ", i)
    ensures OccursAt(name, " - ", i)
  {
    assert (name + rest)[i..i + 3] == name[i..i + 3];
  }

  lemma SpaceFreeEnds(date: string, time: string)
    requires IsWord(date)
    ensures Find(date + (" - " + time), " - ") == Some(|date|)
  {
    var s := date + (" - " + time);
    DashStandsBehind(date, time);
    forall i: nat | i < |date|
      ensures !OccursAt(s, " - ", i)
    {
      if OccursAt(s, " - ", i) {
        OccursCharwise(s, " - ", i, 0);
      }
    }
    FindIs(s, " - ", |date|);
  }

  lemma HeaderAssociates<S>(f: Format<S>, m: Message<S>, tail: string)
    ensures var name, date, time := f.labelOf(m.sender), Stamp(f, m.timestamp).0, Stamp(f, m.timestamp).1;
            tail + Header(f, m) == (tail + name) + (" - " + (date + (" - " + time)))
  {
  }

  /** A name stays the last thing before the first dash when a text without separator is put in front. */
  lemma NoSeparatorIn(tail: string, name: string)
    requires Find(tail, " - ").None? && '-' !in name && name != "" && !IsSpace(name[0])
    ensures Find(tail + name, " - ").None?
  {
    var s := tail + name;
    if Find(s, " - ").Some? {
      var i := Find(s, " - ").value;
      OccursCharwise(s, " - ", i, 1);
      OccursCharwise(s, " - ", i, 2);
      assert forall k :: |tail| <= k < |s| ==> s[k] == name[k - |tail|];
      OccursInFront(tail, name, i);
      FindFirst(tail, " - ", i);
    }
  }

  /** A header behind a text without separator and line break reads as one whose name has that text in front. */
  lemma HeaderReads<S>(f: Format<S>, m: Message<S>, tail: string)
    requires f.Lawful() && Storable(f, m) && Find(tail, " - ").None?
    ensures SplitInThree(tail + Header(f, m), " - ")
         == Some((tail + f.labelOf(m.sender), Stamp(f, m.timestamp).0, Stamp(f, m.timestamp).1))
    ensures f.parseStamp(Trim(Stamp(f, m.timestamp).0), Trim(Stamp(f, m.timestamp).1)) == Some(m.timestamp)
    ensures Trim(f.labelOf(m.sender)) == f.labelOf(m.sender)
  {
    var name, date, time := f.labelOf(m.sender), Stamp(f, m.timestamp).0, Stamp(f, m.timestamp).1;
    NoSeparatorIn(tail, name);
    HeaderAssociates(f, m, tail);
    HeaderSplits(tail + name, date, time);
    TrimTrimmed(name);
    TrimTrimmed(date);
    TrimTrimmed(time);
  }

  lemma PrintedHeaderReads<S>(f: Format<S>, m: Message<S>)
    requires f.Lawful() && Storable(f, m)
    ensures SplitInThree(Header(f, m), " - ")
         == Some((f.labelOf(m.sender), Stamp(f, m.timestamp).0, Stamp(f, m.timestamp).1))
    ensures f.parseStamp(Trim(Stamp(f, m.timestamp).0), Trim(Stamp(f, m.timestamp).1)) == Some(m.timestamp)
    ensures Trim(f.labelOf(m.sender)) == f.labelOf(m.sender)
  {
    assert "" + Header(f, m) == Header(f, m) && "" + f.labelOf(m.sender) == f.labelOf(m.sender);
    HeaderReads(f, m, "");
  }

  lemma ParseFrom<S>(f: Format<S>, block: string, header: string, body: seq<string>, name: string, date: string,
                     time: string)
    requires Lines(block) == [header] + body && SplitInThree(header, " - ") == Some((name, date, time))
    ensures ParseBlock(f, block)
         == match f.parseLabel(Trim(name))
            case None => None
            case Some(sender) =>
              match f.parseStamp(Trim(date), Trim(time))
              case None => None
              case Some(ts) => Some(Parsed(sender, ts, Trim(Join(body, "\n"))))
  {
    assert ([header] + body)[1..] == body;
  }

  function WithBody<S>(f: Format<S>, name: string, m: Message<S>, body: string): Option<Parsed<S>> {
    match f.parseLabel(Trim(name))
    case None => None
    case Some(sender) => Some(Parsed(sender, m.timestamp, body))
  }

  /** A block with words behind a text without separator and line break. */
  lemma ParseBehind<S>(f: Format<S>, m: Message<S>, tail: string)
    requires f.Lawful() && Storable(f, m) && !IsWordless(m) && '\n' !in tail && Find(tail, " - ").None?
    ensures ParseBlock(f, tail + Block(f, m)) == WithBody(f, tail + f.labelOf(m.sender), m, Body(f, m))
  {
    LinesBehind(f, m, tail);
    HeaderReads(f, m, tail);
    ParseFrom(f, tail + Block(f, m), tail + Header(f, m), BodyLines(f, m), tail + f.labelOf(m.sender),
              Stamp(f, m.timestamp).0, Stamp(f, m.timestamp).1);
    BodyLinesAreClean(f, m);
    JoinOfClean(BodyLines(f, m));
    TrimTrimmed(Body(f, m));
  }

  lemma LinesBehind<S>(f: Format<S>, m: Message<S>, tail: string)
    requires f.Lawful() && Storable(f, m) && !IsWordless(m) && '\n' !in tail
    ensures Lines(tail + Block(f, m)) == [tail + Header(f, m)] + BodyLines(f, m)
  {
    BodyLinesAreClean(f, m);
    HeaderIsClean(f, m);
    var line := tail + Header(f, m);
    assert line[|line| - 1] == Header(f, m)[|Header(f, m)| - 1];
    assert tail + Block(f, m) == line + "\n" + Body(f, m);
    LinesCons(line, Body(f, m));
    LinesOfJoin(BodyLines(f, m));
  }

  /** A printed block parses to what was printed. */
  lemma ParsePrintedBlock<S>(f: Format<S>, m: Message<S>)
    requires f.Lawful() && Storable(f, m) && !IsWordless(m)
    ensures ParseBlock(f, Block(f, m)) == Some(Parsed(SenderAs(f, m.sender), m.timestamp, Body(f, m)))
  {
    assert "" + Block(f, m) == Block(f, m) && "" + f.labelOf(m.sender) == f.labelOf(m.sender);
    ParseBehind(f, m, "");
    HeaderReads(f, m, "");
  }

  lemma LinesOfBareHeader(header: string, more: string) returns (body: seq<string>)
    requires IsCleanLine(header) && IsBlank(more) && (more != "" ==> more[0] == '\n')
    ensures Lines(header + more) == [header] + body && IsBlank(Join(body, "\n"))
  {
    if more == "" {
      body := [];
      assert header + more == header;
      assert NewlineAt(header) == |header|;
    } else {
      body := Lines(more[1..]);
      assert header + more == header + "\n" + more[1..];
      LinesCons(header, more[1..]);
      LinesOfBlank(more[1..]);
      JoinOfBlank(body);
    }
  }

  /** So does a header with only white space behind it. */
  lemma ParseBareHeader<S>(f: Format<S>, m: Message<S>, more: string)
    requires f.Lawful() && Storable(f, m) && IsBlank(more) && (more != "" ==> more[0] == '\n')
    ensures ParseBlock(f, Header(f, m) + more) == Some(Parsed(SenderAs(f, m.sender), m.timestamp, ""))
  {
    HeaderIsClean(f, m);
    var body := LinesOfBareHeader(Header(f, m), more);
    PrintedHeaderReads(f, m);
    ParseFrom(f, Header(f, m) + more, Header(f, m), body, f.labelOf(m.sender),
              Stamp(f, m.timestamp).0, Stamp(f, m.timestamp).1);
    TrimBlank(Join(body, "\n"));
  }

  /** Nothing is read from a block whose first line is empty. */
  lemma ParseBehindBreak<S>(f: Format<S>, rest: string)
    ensures ParseBlock(f, "\n" + rest).None?
  {
    LinesCons("", rest);
    assert "" + "\n" + rest == "\n" + rest;
    assert Find("", " - ").None?;
  }

  // ----- Round trip -----

  lemma {:induction false} ParseBlocksOfConcat<S>(f: Format<S>, a: seq<string>, b: seq<string>)
    ensures ParseBlocks(f, a + b) == ParseBlocks(f, a) + ParseBlocks(f, b)
  {
    if b == [] {
      assert a + b == a;
    } else {
      var n := |b| - 1;
      assert a + b == (a + b[..n]) + [b[n]];
      ParseBlocksOfConcat(f, a, b[..n]);
      ParseBlocksPush(f, a + b[..n], b[n]);
    }
  }

  lemma ParseBlocksPush<S>(f: Format<S>, blocks: seq<string>, block: string)
    ensures ParseBlocks(f, blocks + [block]) == ParseBlocks(f, blocks) + ParseAny(f, block)
  {
    assert (blocks + [block])[..|blocks|] == blocks;
  }

  lemma {:induction false} ParseBlanks<S>(f: Format<S>, blanks: seq<string>)
    requires forall i :: 0 <= i < |blanks| ==> IsBlank(blanks[i])
    ensures ParseBlocks(f, blanks) == []
  {
    if blanks != [] {
      TrimBlank(blanks[|blanks| - 1]);
      ParseBlanks(f, blanks[..|blanks| - 1]);
    }
  }

  function Last(parts: seq<string>): string
    requires parts != []
  {
    parts[|parts| - 1]
  }

  lemma BlanksInFront<S>(f: Format<S>, blanks: seq<string>, rest: seq<string>)
    requires forall i :: 0 <= i < |blanks| ==> IsBlank(blanks[i])
    ensures ParseBlocks(f, blanks + rest) == ParseBlocks(f, rest)
  {
    ParseBlanks(f, blanks);
    ParseBlocksOfConcat(f, blanks, rest);
  }

  /** Blank pieces do not count. */
  lemma ParsePieces<S>(f: Format<S>, piece: string, blanks: seq<string>, rest: seq<string>)
    requires forall i :: 0 <= i < |blanks| ==> IsBlank(blanks[i])
    ensures ParseBlocks(f, [piece] + (blanks + rest)) == ParseBlocks(f, [piece]) + ParseBlocks(f, rest)
  {
    var tail := blanks + rest;
    BlanksInFront(f, blanks, rest);
    ParseBlocksOfConcat(f, [piece], tail);
  }

  lemma ParseOne<S>(f: Format<S>, piece: string)
    ensures ParseBlocks(f, [piece]) == ParseAny(f, piece)
  {
    assert [piece][..0] == [];
  }

  /** What of a printed message stands before the first separator, up to white space. */
  function Printed<S>(f: Format<S>, m: Message<S>): string {
    if IsWordless(m) then Header(f, m) else Block(f, m)
  }

  lemma ParsePrinted<S>(f: Format<S>, m: Message<S>, more: string)
    requires f.Lawful() && Storable(f, m) && IsBlank(more) && (more != "" ==> more[0] == '\n')
    requires !IsWordless(m) ==> more == ""
    ensures ParseBlocks(f, [Printed(f, m) + more]) == [StoredAs(f, m)]
  {
    var piece := Printed(f, m) + more;
    ParseOne(f, piece);
    if IsWordless(m) {
      ParseBareHeader(f, m, more);
      HeaderIsClean(f, m);
    } else {
      assert piece == Block(f, m);
      ParsePrintedBlock(f, m);
      BlockIsClean(f, m);
    }
    TrimKeeps(piece, piece[0]);
  }

  /** The piece a message gives, perhaps behind a line break left over. */
  lemma ParsePiece<S>(f: Format<S>, m: Message<S>, open: bool, more: string)
    requires f.Lawful() && Storable(f, m) && IsBlank(more) && (more != "" ==> more[0] == '\n')
    requires !IsWordless(m) ==> more == ""
    ensures ParseBlocks(f, [(Break(open) + Printed(f, m)) + more]) == if open then [] else [StoredAs(f, m)]
  {
    PieceAssociates(open, Printed(f, m), more);
    if open {
      ParseBehindBreak(f, Printed(f, m) + more);
      ParseOne(f, "\n" + (Printed(f, m) + more));
    } else {
      ParsePrinted(f, m, more);
    }
  }

  lemma PieceAssociates(open: bool, printed: string, more: string)
    ensures (Break(open) + printed) + more == if open then "\n" + (printed + more) else printed + more
  {
  }

  /** Reading `text` is reading some messages and then `left`; both end in the same part. */
  ghost predicate LoadsInto<S>(f: Format<S>, text: string, messages: seq<Message<S>>, left: string) {
    && LoadText(f, text) == messages + LoadText(f, left)
    && Last(Split(text, "\n\n")) == Last(Split(left, "\n\n"))
  }

  lemma LoadsBoth<S>(f: Format<S>, text: string, a: seq<Message<S>>, mid: string, b: seq<Message<S>>, left: string)
    requires LoadsInto(f, text, a, mid) && LoadsInto(f, mid, b, left)
    ensures LoadsInto(f, text, a + b, left)
  {
    Chained(LoadText(f, text), a, LoadText(f, mid), b, LoadText(f, left));
  }

  lemma Chained<M>(x: seq<M>, a: seq<M>, y: seq<M>, b: seq<M>, z: seq<M>)
    requires x == a + y && y == b + z
    ensures x == (a + b) + z
  {
  }

  /** Reading one printed message, with or without a line break left over in front. */
  lemma LoadMessage<S>(f: Format<S>, m: Message<S>, open: bool, rest: string)
    requires f.Lawful() && Storable(f, m)
    ensures LoadsInto(f, Break(open) + (Block(f, m) + ("\n\n" + rest)),
                      if open then [] else [StoredAs(f, m)], Break(Hides(m)) + rest)
  {
    var left := Split(Break(Hides(m)) + rest, "\n\n");
    var more, blanks := SplitMessage(f, m, open, rest);
    var piece := (Break(open) + Printed(f, m)) + more;
    ParsePieces(f, piece, blanks, left);
    ParsePiece(f, m, open, more);
    LastOfPieces(piece, blanks, left);
  }

  lemma LastOfPieces(piece: string, blanks: seq<string>, rest: seq<string>)
    requires rest != []
    ensures Last([piece] + (blanks + rest)) == Last(rest)
  {
  }

  lemma SplitMessage<S>(f: Format<S>, m: Message<S>, open: bool, rest: string)
      returns (more: string, blanks: seq<string>)
    requires f.Lawful() && Storable(f, m)
    ensures SplitsInto(Break(open) + (Block(f, m) + ("\n\n" + rest)),
                       (Break(open) + Printed(f, m)) + more, blanks, Break(Hides(m)) + rest)
    ensures IsBlank(more) && (more != "" ==> more[0] == '\n') && (!IsWordless(m) ==> more == "")
  {
    if IsWordless(m) {
      WordlessBody(f, m);
      HeaderIsClean(f, m);
      BreakInFront(open, Header(f, m));
      more, blanks := SplitBlank(Break(open) + Header(f, m), true, m.content, rest);
      EndsOpenIff(true, m.content);
      WordlessAssociates(open, Header(f, m), m.content, rest);
    } else {
      more, blanks := "", [];
      BlockIsClean(f, m);
      BreakInFront(open, Block(f, m));
      SplitsAtPair(Break(open) + Block(f, m), rest);
      PrintedAssociates(open, Block(f, m), rest);
    }
  }

  lemma PrintedAssociates(open: bool, b: string, rest: string)
    ensures Break(open) + (b + ("\n\n" + rest)) == (Break(open) + b) + ("\n\n" + rest)
    ensures (Break(open) + b) + "" == Break(open) + b && Break(false) + rest == rest
  {
  }

  lemma BreakInFront(open: bool, b: string)
    requires NoBreakPair(b) && b != "" && b[0] != '\n'
    ensures NoBreakPair(Break(open) + b)
  {
  }

  lemma WordlessAssociates(open: bool, header: string, content: string, rest: string)
    ensures Break(open) + ((header + "\n" + content) + ("\n\n" + rest))
         == Behind(Break(open) + header, true, content, rest)
  {
    assert (header + "\n" + content) + ("\n\n" + rest) == header + ("\n" + (content + ("\n\n" + rest)));
  }

  /** A list of messages leaves a line break over when its last one does. */
  predicate LeavesOpen<S>(messages: seq<Message<S>>) {
    messages != [] && Hides(messages[|messages| - 1])
  }

  lemma Reassociate(a: string, b: string, rest: string)
    ensures (a + (b + "\n\n")) + rest == a + (b + ("\n\n" + rest))
  {
  }

  lemma {:induction false} LoadTranscript<S>(f: Format<S>, messages: seq<Message<S>>, rest: string)
    requires f.Lawful() && AllStorable(f, messages)
    ensures LoadsInto(f, Transcript(f, messages) + rest, Loaded(f, messages), Break(LeavesOpen(messages)) + rest)
  {
    if messages == [] {
      assert Transcript(f, messages) + rest == rest == Break(false) + rest;
      assert LoadText(f, rest) == [] + LoadText(f, rest);
    } else {
      var n := |messages| - 1;
      var before, m := messages[..n], messages[n];
      var more := Block(f, m) + ("\n\n" + rest);
      LoadTranscript(f, before, more);
      LoadMessage(f, m, LeavesOpen(before), rest);
      Reassociate(Transcript(f, before), Block(f, m), rest);
      LoadsBoth(f, Transcript(f, messages) + rest, Loaded(f, before), Break(LeavesOpen(before)) + more,
                if LeavesOpen(before) then [] else [StoredAs(f, m)], Break(Hides(m)) + rest);
    }
  }

  lemma NothingLeft<S>(f: Format<S>, open: bool)
    ensures LoadText(f, Break(open)) == [] && Split(Break(open), "\n\n") == [Break(open)]
  {
    assert Find(Break(open), "\n\n").None?;
    assert IsBlank(Break(open));
    assert forall i :: 0 <= i < |[Break(open)]| ==> IsBlank([Break(open)][i]);
    ParseBlanks(f, [Break(open)]);
  }

  /** Reading back a printed list of messages, whatever their texts: each is read as stored, in order, but for those
      that stand behind a message without words whose breaks hide the next. */
  lemma TranscriptRoundTrip<S>(f: Format<S>, messages: seq<Message<S>>)
    requires f.Lawful() && AllStorable(f, messages)
    ensures LoadText(f, Transcript(f, messages)) == Loaded(f, messages)
  {
    LoadTranscript(f, messages, "");
    NothingLeft(f, LeavesOpen(messages));
    assert Transcript(f, messages) + "" == Transcript(f, messages);
    assert Break(LeavesOpen(messages)) + "" == Break(LeavesOpen(messages));
  }

  /** The last part of a printed list. */
  lemma TailOfTranscript<S>(f: Format<S>, messages: seq<Message<S>>)
    requires f.Lawful() && AllStorable(f, messages)
    ensures Last(Split(Transcript(f, messages), "\n\n")) == Break(LeavesOpen(messages))
  {
    LoadTranscript(f, messages, "");
    NothingLeft(f, LeavesOpen(messages));
    assert Transcript(f, messages) + "" == Transcript(f, messages);
    assert Break(LeavesOpen(messages)) + "" == Break(LeavesOpen(messages));
  }

  function AllStoredAs<S>(f: Format<S>, messages: seq<Message<S>>): seq<Message<S>> {
    if messages == [] then []
    else AllStoredAs(f, messages[..|messages| - 1]) + [StoredAs(f, messages[|messages| - 1])]
  }

  /** No message but the last one hides the next. */
  predicate NoneHidden<S>(messages: seq<Message<S>>) {
    forall i :: 0 <= i < |messages| - 1 ==> !Hides(messages[i])
  }

  lemma {:induction false} AllStoredLength<S>(f: Format<S>, messages: seq<Message<S>>)
    ensures |AllStoredAs(f, messages)| == |messages| >= |Loaded(f, messages)|
  {
    if messages != [] {
      AllStoredLength(f, messages[..|messages| - 1]);
    }
  }

  lemma NoneHiddenOfPush<S>(messages: seq<Message<S>>)
    requires messages != []
    ensures var n := |messages| - 1;
            NoneHidden(messages) <==> NoneHidden(messages[..n]) && (n > 0 ==> !Hides(messages[n - 1]))
  {
    var n := |messages| - 1;
    assert forall i :: 0 <= i < n ==> messages[..n][i] == messages[i];
  }

  /** Every message comes back, in order, exactly when none is hidden. */
  lemma {:induction false} AllComeBackIff<S>(f: Format<S>, messages: seq<Message<S>>)
    ensures NoneHidden(messages) ==> Loaded(f, messages) == AllStoredAs(f, messages)
    ensures |Loaded(f, messages)| == |messages| <==> NoneHidden(messages)
  {
    AllStoredLength(f, messages);
    if messages != [] {
      var n := |messages| - 1;
      AllStoredLength(f, messages[..n]);
      NoneHiddenOfPush(messages);
      AllComeBackIff(f, messages[..n]);
    }
  }

  /** A text body that is not itself attachment JSON, and whose wrapping keeps the words apart. */
  predicate IsPlainText<S>(f: Format<S>, m: Message<S>) {
    && m.attachment.None?
    && ParseAttachment(f.codec, Body(f, m)).None?
    && KeepsBoundaries(f.width, Greedy(f.width, TRANSCRIPT_WIDTH, Words(m.content)))
  }

  /** What is stored: the same time, the sender the label names, and the same words or the attachment in normal
      form. */
  lemma StoredMeaning<S>(f: Format<S>, m: Message<S>)
    requires f.Lawful() && Storable(f, m)
    ensures StoredAs(f, m).timestamp == m.timestamp
    ensures StoredAs(f, m).sender == m.sender <==> GoodLabel(f, m.sender)
    ensures IsPlainText(f, m) ==> StoredAs(f, m).attachment == None && Words(StoredAs(f, m).content) == Words(m.content)
    ensures m.attachment.Some? ==>
              && StoredAs(f, m).attachment == Some(Normal(m.attachment.value))
              && StoredAs(f, m).content == Display(Normal(m.attachment.value))
  {
    match m.attachment
    case Some(att) =>
      assert Body(f, m) == Serialized(f.codec, att);
      SerializeThenParse(f.codec, att);
    case None => WordsSurviveIff(f.width, TRANSCRIPT_WIDTH, m.content);
  }
}
