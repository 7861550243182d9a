/** The two kinds of transcript, their sender labels and their cursors (src/ui/helpers/chat_storage.rs). */
module ChatTranscripts {

  import opened Wrappers
  import opened ChatTypes
  import opened ChatUtils
  import opened Text
  import opened ChatRender
  import opened Attachments
  import opened ChatStorage
  import opened ChatRoundTrip

  predicate IsDatedAndSaveable<S>(m: Message<S>) {
    FIRST_TIMESTAMP <= m.timestamp <= LAST_TIMESTAMP && (m.attachment.Some? ==> IsSaveable(m.attachment.value))
  }

  // ----- Order chats -----

  datatype UserChatSender = You | Peer

  function OrderLabel(s: UserChatSender): string {
    match s case You => "You" case Peer => "Peer"
  }

  /** Labels of older transcripts are still understood. */
  function ParseOrderLabel(name: string): Option<UserChatSender> {
    if name == "You" then Some(You)
    else if name == "Peer" then Some(Peer)
    else if name == "Admin" || name == "Admin to Buyer" || name == "Admin to Seller" then Some(You)
    else if name == "Buyer" || name == "Seller" then Some(Peer)
    else None
  }

  function OrderFormat(width: Widths, codec: Codec, printStamp: int -> Option<(string, string)>,
                       parseStamp: (string, string) -> Option<int>): Format<UserChatSender>
  {
    Format(OrderLabel, ParseOrderLabel, width, codec, printStamp, parseStamp)
  }

  lemma OrderLabelsAreGood(f: Format<UserChatSender>, s: UserChatSender)
    requires f.labelOf == OrderLabel && f.parseLabel == ParseOrderLabel
    ensures GoodLabel(f, s)
  {
  }

  /** A list of order messages with dates of the calendar and saveable attachments is read back in order, with its
      senders, but for what a message without words hides. */
  lemma OrderRoundTrip(width: Widths, codec: Codec, printStamp: int -> Option<(string, string)>,
                       parseStamp: (string, string) -> Option<int>, messages: seq<Message<UserChatSender>>)
    requires OrderFormat(width, codec, printStamp, parseStamp).Lawful()
    requires forall i :: 0 <= i < |messages| ==> IsDatedAndSaveable(messages[i])
    ensures var f := OrderFormat(width, codec, printStamp, parseStamp);
            && LoadText(f, Transcript(f, messages)) == Loaded(f, messages)
            && forall i :: 0 <= i < |messages| ==> StoredAs(f, messages[i]).sender == messages[i].sender
  {
    var f := OrderFormat(width, codec, printStamp, parseStamp);
    forall i | 0 <= i < |messages|
      ensures Storable(f, messages[i]) && StoredAs(f, messages[i]).sender == messages[i].sender
    {
      assert IsDatedAndSaveable(messages[i]);
      OrderLabelsAreGood(f, messages[i].sender);
      StoredMeaning(f, messages[i]);
    }
    TranscriptRoundTrip(f, messages);
  }

  /** What order transcripts look like, and the labels of older ones that are still understood. */
  lemma OrderLabelsAre()
    ensures OrderLabel(You) == "You" && OrderLabel(Peer) == "Peer"
    ensures forall name :: ParseOrderLabel(name) == Some(You) <==>
              name in {"You", "Admin", "Admin to Buyer", "Admin to Seller"}
    ensures forall name :: ParseOrderLabel(name) == Some(Peer) <==> name in {"Peer", "Buyer", "Seller"}
  {
  }

  /** A block is a line with the sender, the date and the time, and the body under it; a message outside the calendar
      gets question marks. */
  lemma BlockIs<S>(f: Format<S>, m: Message<S>)
    ensures var (date, time) := match f.printStamp(m.timestamp)
                                case Some(stamp) => stamp
                                case None => ("??-??-????", "??:??:??");
            Block(f, m) == f.labelOf(m.sender) + " - " + date + " - " + time + "\n" + Body(f, m)
    ensures m.attachment == None ==> Body(f, m) == Join(WrappedLines(f.width, m.content, 80), "\n")
    ensures m.attachment.Some? ==> Body(f, m) == Serialized(f.codec, m.attachment.value)
  {
  }

  // ----- Dispute chats -----

  datatype ChatSender = Admin | Buyer | Seller

  datatype DisputeSender = DisputeSender(sender: ChatSender, targetParty: Option<ChatParty>)

  function DisputeLabel(s: DisputeSender): string {
    match s.sender
    case Admin => (match s.targetParty
                   case Some(BuyerParty) => "Admin to Buyer"
                   case Some(SellerParty) => "Admin to Seller"
                   case None => "Admin")
    case Buyer => "Buyer"
    case Seller => "Seller"
  }

  function ParseDisputeLabel(name: string): Option<DisputeSender> {
    if name == "Admin to Buyer" then Some(DisputeSender(Admin, Some(BuyerParty)))
    else if name == "Admin to Seller" then Some(DisputeSender(Admin, Some(SellerParty)))
    else if name == "Admin" then Some(DisputeSender(Admin, None))
    else if name == "Buyer" then Some(DisputeSender(Buyer, None))
    else if name == "Seller" then Some(DisputeSender(Seller, None))
    else None
  }

  /** A dispute label names its sender exactly when only admin messages have a target party: the label of a
      buyer or seller message drops it. */
  lemma DisputeLabelsAreGoodIff(f: Format<DisputeSender>, s: DisputeSender)
    requires f.labelOf == DisputeLabel && f.parseLabel == ParseDisputeLabel
    ensures ReadableLabel(f, s) && (GoodLabel(f, s) <==> s.sender == Admin || s.targetParty == None)
  {
  }

  function DisputeFormat(width: Widths, codec: Codec, printStamp: int -> Option<(string, string)>,
                         parseStamp: (string, string) -> Option<int>): Format<DisputeSender>
  {
    Format(DisputeLabel, ParseDisputeLabel, width, codec, printStamp, parseStamp)
  }

  predicate NamesItsSender(s: DisputeSender) {
    s.sender == Admin || s.targetParty == None
  }

  /** So is a list of dispute messages, but for the target party of buyer and seller messages: the senders are the
      same exactly when only admin messages have one. */
  lemma DisputeRoundTripIff(width: Widths, codec: Codec, printStamp: int -> Option<(string, string)>,
                            parseStamp: (string, string) -> Option<int>, messages: seq<Message<DisputeSender>>)
    requires DisputeFormat(width, codec, printStamp, parseStamp).Lawful()
    requires forall i :: 0 <= i < |messages| ==> IsDatedAndSaveable(messages[i])
    ensures var f := DisputeFormat(width, codec, printStamp, parseStamp);
            && LoadText(f, Transcript(f, messages)) == Loaded(f, messages)
            && forall i :: 0 <= i < |messages| ==>
                 (StoredAs(f, messages[i]).sender == messages[i].sender <==> NamesItsSender(messages[i].sender))
  {
    var f := DisputeFormat(width, codec, printStamp, parseStamp);
    forall i | 0 <= i < |messages|
      ensures Storable(f, messages[i])
      ensures StoredAs(f, messages[i]).sender == messages[i].sender <==> NamesItsSender(messages[i].sender)
    {
      assert IsDatedAndSaveable(messages[i]);
      DisputeLabelsAreGoodIff(f, messages[i].sender);
      StoredMeaning(f, messages[i]);
    }
    TranscriptRoundTrip(f, messages);
  }

  lemma DisputeLabelsAre()
    ensures forall party :: DisputeLabel(DisputeSender(Buyer, party)) == "Buyer"
    ensures forall party :: DisputeLabel(DisputeSender(Seller, party)) == "Seller"
    ensures DisputeLabel(DisputeSender(Admin, None)) == "Admin"
    ensures DisputeLabel(DisputeSender(Admin, Some(BuyerParty))) == "Admin to Buyer"
    ensures DisputeLabel(DisputeSender(Admin, Some(SellerParty))) == "Admin to Seller"
    ensures forall name :: ParseDisputeLabel(name).Some? <==>
              name in {"Admin", "Admin to Buyer", "Admin to Seller", "Buyer", "Seller"}
  {
  }

  // ----- Cursors -----

  function MaxTimestamp<S>(messages: seq<Message<S>>): (r: Option<int>)
    ensures r.None? <==> messages == []
    ensures forall i :: 0 <= i < |messages| ==> r.Some? && messages[i].timestamp <= r.value
    ensures r.Some? ==> exists i :: 0 <= i < |messages| && messages[i].timestamp == r.value
  {
    if messages == [] then None
    else
      var n := |messages| - 1;
      match MaxTimestamp(messages[..n])
      case None => Some(messages[n].timestamp)
      case Some(ts) => Some(if ts < messages[n].timestamp then messages[n].timestamp else ts)
  }

  /** The hydrate cursor of a transcript: never ahead of the clock, and behind no stored message that is not
      itself ahead of the clock. */
  function SinceFromFile<S>(messages: seq<Message<S>>, now: nat): (r: Option<int>)
    ensures r.Some? <==> messages != []
    ensures r.Some? ==> r.value <= now
    ensures forall i :: 0 <= i < |messages| && messages[i].timestamp <= now ==> messages[i].timestamp <= r.value
    ensures r.Some? ==> exists i :: 0 <= i < |messages| &&
                          if messages[i].timestamp <= now then r.value == messages[i].timestamp else r.value == now
  {
    match MaxTimestamp(messages)
    case None => None
    case Some(ts) => Some(ClampSince(ts, now))
  }

  /** A transcript poisoned with far-future timestamps cannot close the history window before the present. */
  lemma FutureTimestampsCannotHideHistory<S>(messages: seq<Message<S>>, now: nat)
    requires SEVEN_DAYS <= now
    ensures now - SEVEN_DAYS <= WindowStart(SinceFromFile(messages, now), now) <= now
  {
    WindowStartMeaning(SinceFromFile(messages, now), now);
  }

  // ----- Messages without words -----

  /** A message without words hides the one behind it if and only if its text, with the line break in front of it,
      ends in an odd number of line breaks. An empty text does; a single space does not. */
  lemma WordlessHidesNextIff<S>(f: Format<S>, blank: Message<S>, m: Message<S>)
    requires f.Lawful() && Storable(f, blank) && Storable(f, m) && IsWordless(blank)
    ensures LoadText(f, Transcript(f, [blank, m]))
         == [StoredAs(f, blank)] + if TrailingBreaks("\n" + blank.content) % 2 == 1 then [] else [StoredAs(f, m)]
  {
    TranscriptRoundTrip(f, [blank, m]);
    assert [blank, m][..1] == [blank] && [blank][..0] == [];
    assert Loaded(f, [blank]) == [StoredAs(f, blank)];
  }
}
