/** Chat transcripts on disk: a printer and a parser that undo each other at file level
    (src/ui/helpers/chat_storage.rs). `S` is what a header names: the sender, and in dispute chats the party
    an admin message is addressed to. */
module ChatStorage {

  import opened Wrappers
  import opened Text
  import opened ChatRender
  import opened Attachments

  datatype Message<S> = Message(sender: S, content: string, timestamp: int, attachment: Option<Attachment>)

  const TRANSCRIPT_WIDTH: nat := 80

  /** The first second of year 0 and the last of year 9999. */
  const FIRST_TIMESTAMP: int := -62167219200
  const LAST_TIMESTAMP: int := 253402300799

  const UNPRINTABLE := ("??-??-????", "??:??:??")

  /** How a transcript is written: the sender labels, the display widths, the attachment codec and the calendar.
      The last two are taken as given. */
  datatype Format<!S> = Format(
    labelOf: S -> string,
    parseLabel: string -> Option<S>,
    width: Widths,
    codec: Codec,
    printStamp: int -> Option<(string, string)>,
    parseStamp: (string, string) -> Option<int>)
  {
    /** Dates and times of the years 0 to 9999 are printed without white space and can be read back; a time with a
        dash is not read. */
    ghost predicate Lawful() {
      && codec.Lawful()
      && (forall ts :: FIRST_TIMESTAMP <= ts <= LAST_TIMESTAMP ==>
            && printStamp(ts).Some?
            && IsWord(printStamp(ts).value.0) && IsWord(printStamp(ts).value.1)
            && parseStamp(printStamp(ts).value.0, printStamp(ts).value.1) == Some(ts))
      && (forall date, time :: parseStamp(date, time).Some? ==> '-' !in time)
    }
  }

  // ----- Printing -----

  function BodyLines<S>(f: Format<S>, m: Message<S>): seq<string> {
    match m.attachment
    case Some(att) => [Serialized(f.codec, att)]
    case None => WrappedLines(f.width, m.content, TRANSCRIPT_WIDTH)
  }

  function Body<S>(f: Format<S>, m: Message<S>): string {
    Join(BodyLines(f, m), "\n")
  }

  function Stamp<S>(f: Format<S>, ts: int): (string, string) {
    match f.printStamp(ts) case Some(s) => s case None => UNPRINTABLE
  }

  function Header<S>(f: Format<S>, m: Message<S>): string {
    f.labelOf(m.sender) + " - " + Stamp(f, m.timestamp).0 + " - " + Stamp(f, m.timestamp).1
  }

  function Block<S>(f: Format<S>, m: Message<S>): string {
    Header(f, m) + "\n" + Body(f, m)
  }

  /** The transcript of a list of messages. */
  function Transcript<S>(f: Format<S>, messages: seq<Message<S>>): string {
    if messages == [] then ""
    else Transcript(f, messages[..|messages| - 1]) + (Block(f, messages[|messages| - 1]) + "\n\n")
  }

  // ----- Parsing -----

  datatype Parsed<S> = Parsed(sender: S, timestamp: int, body: string)

  function ParseBlock<S>(f: Format<S>, block: string): Option<Parsed<S>> {
    var lines := Lines(block);
    if lines == [] then None
    else match SplitInThree(lines[0], " - ")
      case None => None
      case Some((first, date, time)) =>
        match f.parseLabel(Trim(first))
        case None => None
        case Some(sender) =>
          match f.parseStamp(Trim(date), Trim(time))
          case None => None
          case Some(ts) => Some(Parsed(sender, ts, Trim(Join(lines[1..], "\n"))))
  }

  function Restore<S>(f: Format<S>, p: Parsed<S>): Message<S> {
    var (content, attachment) := MessageFields(f.codec, p.body);
    Message(p.sender, content, p.timestamp, attachment)
  }

  /** The messages of the blocks that parse, in order. */
  function ParseBlocks<S>(f: Format<S>, blocks: seq<string>): seq<Message<S>> {
    if blocks == [] then []
    else
      var n := |blocks| - 1;
      ParseBlocks(f, blocks[..n]) + ParseAny(f, blocks[n])
  }

  /** The message of a block, if it is not blank and parses. */
  function ParseAny<S>(f: Format<S>, block: string): seq<Message<S>> {
    if Trim(block) == "" || ParseBlock(f, block).None? then [] else [Restore(f, ParseBlock(f, block).value)]
  }

  function LoadText<S>(f: Format<S>, text: string): seq<Message<S>> {
    ParseBlocks(f, Split(text, "\n\n"))
  }

  /** The last block that is not blank. */
  function LastBlock(blocks: seq<string>): Option<string> {
    if blocks == [] then None
    else if Trim(blocks[|blocks| - 1]) != "" then Some(blocks[|blocks| - 1])
    else LastBlock(blocks[..|blocks| - 1])
  }

  // ----- Saving -----

  /** The last block already stands for this message: same header, and the same body, the same attachment, or
      its legacy placeholder. */
  predicate AlreadyHas<S(==)>(f: Format<S>, last: Parsed<S>, m: Message<S>) {
    && last.sender == m.sender && last.timestamp == m.timestamp
    && (|| last.body == Body(f, m)
        || (&& m.attachment.Some?
            && (|| (&& ParseAttachment(f.codec, last.body).Some?
                    && ParseAttachment(f.codec, last.body).value.blossomUrl == m.attachment.value.blossomUrl)
                || PlaceholderNames(last.body, m.attachment.value.filename))))
  }

  predicate IsLast<S(==)>(f: Format<S>, text: string, m: Message<S>) {
    var last := LastBlock(Split(text, "\n\n"));
    last.Some? && ParseBlock(f, last.value).Some? && AlreadyHas(f, ParseBlock(f, last.value).value, m)
  }

  /** What a read of the file gives; a missing file reads as nothing. */
  function ReadBack(content: Option<string>, readOk: bool): Option<string> {
    if readOk then content else None
  }

  /** The file and the answer after a save. */
  function Saved<S(==)>(f: Format<S>, content: Option<string>, m: Message<S>, readOk: bool, writeOk: bool)
    : (Option<string>, bool)
  {
    var existing := ReadBack(content, readOk);
    if existing.Some? && IsLast(f, existing.value, m) then (content, true)
    else if !writeOk then (content, false)
    else (Some((if content.Some? then content.value else "") + (Block(f, m) + "\n\n")), true)
  }

  // ----- The program -----

  /** One transcript file. A failed append or rewrite leaves it as it was. */
  class TranscriptFile<S(==)> {
    const f: Format<S>
    var content: Option<string>

    constructor (f: Format<S>)
      ensures this.f == f && content == None
    {
      this.f := f;
      content := None;
    }

    method Save(m: Message<S>, readOk: bool, writeOk: bool) returns (durable: bool)
      modifies this
      ensures (content, durable) == Saved(f, old(content), m, readOk, writeOk)
    {
      var body := MakeBody(m);
      var existing := ReadBack(content, readOk);
      if existing.Some? {
        var last := LastBlock(Split(existing.value, "\n\n"));
        if last.Some? {
          var parsed := ParseBlock(f, last.value);
          if parsed.Some? && AlreadyHas(f, parsed.value, m) {
            return true;
          }
        }
      }
      if !writeOk {
        return false;
      }
      content := Some((if content.Some? then content.value else "") + (Header(f, m) + "\n" + body + "\n\n"));
      durable := true;
    }

    method MakeBody(m: Message<S>) returns (body: string)
      ensures body == Body(f, m)
    {
      match m.attachment {
        case Some(att) =>
          body := SerializeAttachment(f.codec, att);
        case None =>
          var lines := WrapTextToLines(f.width, m.content, TRANSCRIPT_WIDTH);
          body := Join(lines, "\n");
      }
    }

    /** Replaces the whole file, atomically. */
    method Rewrite(messages: seq<Message<S>>, writeOk: bool) returns (durable: bool)
      modifies this
      ensures durable == writeOk
      ensures content == if writeOk then Some(Transcript(f, messages)) else old(content)
    {
      var text := "";
      for k := 0 to |messages|
        invariant text == Transcript(f, messages[..k])
        invariant content == old(content)
      {
        assert messages[..k + 1][..k] == messages[..k];
        var body := MakeBody(messages[k]);
        text := text + (Header(f, messages[k]) + "\n" + body + "\n\n");
      }
      assert messages[..|messages|] == messages;
      if writeOk {
        content := Some(text);
      }
      durable := writeOk;
    }

    /** The messages of the file, or nothing if there are none. */
    method Load(readOk: bool) returns (messages: Option<seq<Message<S>>>)
      ensures var existing := ReadBack(content, readOk);
              messages == if existing.Some? && LoadText(f, existing.value) != [] then Some(LoadText(f, existing.value))
                          else None
    {
      var existing := ReadBack(content, readOk);
      if existing.None? {
        return None;
      }
      var blocks := Split(existing.value, "\n\n");
      var found := [];
      for k := 0 to |blocks|
        invariant found == ParseBlocks(f, blocks[..k])
      {
        assert blocks[..k + 1][..k] == blocks[..k];
        if Trim(blocks[k]) != "" {
          var parsed := ParseBlock(f, blocks[k]);
          if parsed.Some? {
            found := found + [Restore(f, parsed.value)];
          }
        }
      }
      assert blocks[..|blocks|] == blocks;
      messages := if found == [] then None else Some(found);
    }
  }
}
