/** Attachment metadata in transcripts (src/ui/helpers/attachments.rs). */
module Attachments {

  import opened Wrappers
  import opened Bytes
  import opened Text

  datatype AttachmentType = Image | File

  datatype Attachment = Attachment(
    blossomUrl: string,
    filename: string,
    mimeType: Option<string>,
    fileType: AttachmentType,
    decryptionKey: Option<seq<byte>>)

  /** The object keys the program reads and writes ("type", "blossom_url", "filename", "mime_type", "key"),
      and any other. */
  datatype Key = TypeKey | UrlKey | FilenameKey | MimeKey | DecryptKey | OtherKey(name: string)

  predicate IsNamed(m: map<Key, string>) {
    forall k :: k in m ==> !k.OtherKey?
  }

  datatype Json = JString(text: string) | JObject(fields: map<Key, Json>) | JOther

  /** JSON and base64, which this model takes as given. */
  datatype Codec = Codec(
    printJson: map<Key, string> -> string,
    parseJson: string -> Option<Json>,
    encode64: seq<byte> -> string,
    decode64: string -> Option<seq<byte>>)
  {
    /** Printing an object of strings under the program's own keys is compact, on one line, and can be read back. */
    ghost predicate Lawful() {
      && (forall m :: IsNamed(m) ==> parseJson(printJson(m)) == Some(JObject(map k | k in m :: JString(m[k]))))
      && (forall m :: IsNamed(m) ==>
            var s := printJson(m); |s| >= 2 && s[0] == '{' && s[|s| - 1] == '}' && IsLine(s))
      && (forall key :: decode64(encode64(key)) == Some(key))
    }
  }

  const KEY_LENGTH: nat := 32

  function KindName(t: AttachmentType): string {
    match t case Image => "Image" case File => "File"
  }

  function WireType(t: AttachmentType): string {
    match t case Image => "image_encrypted" case File => "file_encrypted"
  }

  function Icon(t: AttachmentType): string {
    match t case Image => "\U{1F5BC}" case File => "\U{1F4CE}"
  }

  predicate IsSaveable(att: Attachment) {
    Trim(att.blossomUrl) != ""
  }

  // ----- Legacy placeholders -----

  const PLACEHOLDER_TAIL: string := " - Ctrl+S to save"

  function Placeholder(att: Attachment): string {
    "[" + KindName(att.fileType) + ": " + att.filename + PLACEHOLDER_TAIL + "]"
  }

  function StripSuffix(s: string, suffix: string): Option<string> {
    if |suffix| <= |s| && s[|s| - |suffix|..] == suffix then Some(s[..|s| - |suffix|]) else None
  }

  function ParsePlaceholder(content: string): Option<(AttachmentType, string)> {
    var s := Trim(content);
    if s == "" || s[0] != '[' || StripSuffix(s[1..], "]").None? then None
    else
      var inner := StripSuffix(s[1..], "]").value;
      match Find(inner, ": ")
      case None => None
      case Some(k) =>
        match StripSuffix(inner[k + 2..], PLACEHOLDER_TAIL)
        case None => None
        case Some(filename) =>
          if inner[..k] == "Image" then Some((Image, filename))
          else if inner[..k] == "File" then Some((File, filename))
          else None
  }

  /** The kind ends at the first colon. */
  lemma KindEndsAtColon(t: AttachmentType, rest: string)
    ensures Find(KindName(t) + ": " + rest, ": ") == Some(|KindName(t)|)
  {
    var kind := KindName(t);
    var inner := kind + ": " + rest;
    assert OccursAt(inner, ": ", |kind|);
    forall i: nat | i < |kind|
      ensures !OccursAt(inner, ": ", i)
    {
      assert inner[i] == kind[i] && kind[i] != ':';
      if i + 2 <= |inner| {
        assert inner[i..i + 2][0] == inner[i];
      }
    }
    FindIs(inner, ": ", |kind|);
  }

  lemma StripSuffixOf(s: string, suffix: string)
    ensures StripSuffix(s + suffix, suffix) == Some(s)
  {
    assert (s + suffix)[|s|..] == suffix && (s + suffix)[..|s|] == s;
  }

  lemma BracketsComeOff(s: string, inner: string)
    requires s == "[" + inner + "]"
    ensures Trim(s) == s && s[0] == '[' && StripSuffix(s[1..], "]") == Some(inner)
  {
    assert s[0] == '[' && s[|s| - 1] == ']';
    TrimTrimmed(s);
    assert s[1..] == inner + "]";
    StripSuffixOf(inner, "]");
  }

  /** The placeholder parser undoes the printer, whatever the file name contains. */
  lemma PlaceholderRoundTrip(att: Attachment)
    ensures ParsePlaceholder(Placeholder(att)) == Some((att.fileType, att.filename))
  {
    var kind, rest := KindName(att.fileType), att.filename + PLACEHOLDER_TAIL;
    var inner := kind + ": " + rest;
    PlaceholderIs(att);
    BracketsComeOff(Placeholder(att), inner);
    KindEndsAtColon(att.fileType, rest);
    CutBehindColon(kind, rest);
    StripSuffixOf(att.filename, PLACEHOLDER_TAIL);
  }

  lemma PlaceholderIs(att: Attachment)
    ensures Placeholder(att) == "[" + (KindName(att.fileType) + ": " + (att.filename + PLACEHOLDER_TAIL)) + "]"
  {
  }

  lemma CutBehindColon(kind: string, rest: string)
    ensures var inner := kind + ": " + rest; inner[..|kind|] == kind && inner[|kind| + 2..] == rest
  {
  }

  predicate PlaceholderNames(content: string, filename: string) {
    ParsePlaceholder(content).Some? && ParsePlaceholder(content).value.1 == filename
  }

  // ----- JSON -----

  /** The fields written for an attachment. A key that is not 32 bytes long is left out. */
  function Fields(c: Codec, att: Attachment): (m: map<Key, string>)
    ensures IsNamed(m)
  {
    var always := map[TypeKey := WireType(att.fileType), UrlKey := att.blossomUrl, FilenameKey := att.filename];
    var withMime := if att.mimeType.Some? then always[MimeKey := att.mimeType.value] else always;
    if att.decryptionKey.Some? && |att.decryptionKey.value| == KEY_LENGTH
    then withMime[DecryptKey := c.encode64(att.decryptionKey.value)] else withMime
  }

  function Serialized(c: Codec, att: Attachment): string {
    if IsSaveable(att) then c.printJson(Fields(c, att)) else Placeholder(att)
  }

  method SerializeAttachment(c: Codec, att: Attachment) returns (s: string)
    ensures s == Serialized(c, att)
  {
    if !IsSaveable(att) {
      return Placeholder(att);
    }
    var obj: map<Key, string> := map[];
    obj := obj[TypeKey := WireType(att.fileType)];
    obj := obj[UrlKey := att.blossomUrl];
    obj := obj[FilenameKey := att.filename];
    if att.mimeType.Some? {
      obj := obj[MimeKey := att.mimeType.value];
    }
    if att.decryptionKey.Some? {
      if |att.decryptionKey.value| == KEY_LENGTH {
        obj := obj[DecryptKey := c.encode64(att.decryptionKey.value)];
      }
    }
    s := c.printJson(obj);
  }

  /** A field that holds a string. */
  function StringField(fields: map<Key, Json>, name: Key): Option<string> {
    if name in fields && fields[name].JString? then Some(fields[name].text) else None
  }

  function KeyField(c: Codec, fields: map<Key, Json>): Option<seq<byte>> {
    match StringField(fields, DecryptKey)
    case None => None
    case Some(text) =>
      match c.decode64(text)
      case None => None
      case Some(key) => if |key| == KEY_LENGTH then Some(key) else None
  }

  function TypeField(fields: map<Key, Json>): Option<AttachmentType> {
    match StringField(fields, TypeKey)
    case None => None
    case Some(name) =>
      if name == "image_encrypted" then Some(Image)
      else if name == "file_encrypted" then Some(File)
      else None
  }

  function Display(att: Attachment): string {
    Icon(att.fileType) + " " + KindName(att.fileType) + ": " + att.filename
    + if att.decryptionKey.Some? then " (key provided)" else ""
  }

  /** An attachment read from JSON, or nothing. */
  function ParseAttachment(c: Codec, content: string): (r: Option<Attachment>)
    ensures r.Some? ==> IsSaveable(r.value) && IsTrimmed(r.value.blossomUrl)
    ensures r.Some? && r.value.decryptionKey.Some? ==> |r.value.decryptionKey.value| == KEY_LENGTH
  {
    var s := Trim(content);
    if s == "" || s[0] != '{' then None
    else match c.parseJson(s)
      case Some(JObject(fields)) =>
        var kind := TypeField(fields);
        var url := StringField(fields, UrlKey);
        var filename := StringField(fields, FilenameKey);
        if kind.None? || url.None? || Trim(url.value) == "" || filename.None? then None
        else
          TrimTrims(url.value);
          TrimTrimmed(Trim(url.value));
          Some(Attachment(Trim(url.value), filename.value, StringField(fields, MimeKey), kind.value,
                          KeyField(c, fields)))
      case _ => None
  }

  /** Display text and attachment of a transcript body. */
  function MessageFields(c: Codec, body: string): (string, Option<Attachment>) {
    match ParseAttachment(c, body)
    case Some(att) => (Display(att), Some(att))
    case None => (body, None)
  }

  /** What survives a transcript: the URL without surrounding space, and only a 32-byte key. */
  function Normal(att: Attachment): Attachment {
    att.(blossomUrl := Trim(att.blossomUrl),
         decryptionKey := if att.decryptionKey.Some? && |att.decryptionKey.value| == KEY_LENGTH
                          then att.decryptionKey else None)
  }

  lemma WrittenFields(c: Codec, att: Attachment)
    ensures var m := Fields(c, att);
            && {TypeKey, UrlKey, FilenameKey} <= m.Keys
            && m[TypeKey] == WireType(att.fileType) && m[UrlKey] == att.blossomUrl && m[FilenameKey] == att.filename
            && (MimeKey in m <==> att.mimeType.Some?) && (MimeKey in m ==> m[MimeKey] == att.mimeType.value)
            && (DecryptKey in m <==> Normal(att).decryptionKey.Some?)
            && (DecryptKey in m ==> m[DecryptKey] == c.encode64(Normal(att).decryptionKey.value))
  {
  }

  /** Each field is found again as it was written. */
  lemma FieldsReadBack(c: Codec, att: Attachment, fields: map<Key, Json>)
    requires forall key :: c.decode64(c.encode64(key)) == Some(key)
    requires fields == map k | k in Fields(c, att) :: JString(Fields(c, att)[k])
    ensures TypeField(fields) == Some(att.fileType)
    ensures StringField(fields, UrlKey) == Some(att.blossomUrl)
    ensures StringField(fields, FilenameKey) == Some(att.filename)
    ensures StringField(fields, MimeKey) == att.mimeType
    ensures KeyField(c, fields) == Normal(att).decryptionKey
  {
    WrittenFields(c, att);
    assert forall name :: name in fields <==> name in Fields(c, att);
  }

  /** Serializing a saveable attachment and parsing it back yields its normal form. */
  lemma SerializeThenParse(c: Codec, att: Attachment)
    requires c.Lawful() && IsSaveable(att)
    ensures ParseAttachment(c, Serialized(c, att)) == Some(Normal(att))
  {
    var m := Fields(c, att);
    var s := c.printJson(m);
    assert |s| >= 2 && s[0] == '{' && s[|s| - 1] == '}';
    TrimTrimmed(s);
    var fields := map k | k in m :: JString(m[k]);
    assert c.parseJson(s) == Some(JObject(fields));
    FieldsReadBack(c, att, fields);
  }

  /** The attachment itself comes back exactly when its URL is trimmed and its key, if any, is 32 bytes. */
  lemma RoundTripsIff(c: Codec, att: Attachment)
    requires c.Lawful() && IsSaveable(att)
    ensures ParseAttachment(c, Serialized(c, att)) == Some(att)
       <==> IsTrimmed(att.blossomUrl) && (att.decryptionKey.None? || |att.decryptionKey.value| == 32)
  {
    SerializeThenParse(c, att);
    TrimTrims(att.blossomUrl);
    if IsTrimmed(att.blossomUrl) {
      TrimTrimmed(att.blossomUrl);
    }
  }

  /** What was read back is written as it stood exactly when the URL was trimmed. */
  lemma ReserializesIff(c: Codec, att: Attachment)
    requires c.Lawful() && IsSaveable(att)
    ensures IsSaveable(Normal(att))
    ensures Serialized(c, Normal(att)) == Serialized(c, att) <==> IsTrimmed(att.blossomUrl)
  {
    TrimTrims(att.blossomUrl);
    TrimTrimmed(Trim(att.blossomUrl));
    var m, m' := Fields(c, att), Fields(c, Normal(att));
    if IsTrimmed(att.blossomUrl) {
      TrimTrimmed(att.blossomUrl);
      assert m == m';
    } else {
      assert c.parseJson(c.printJson(m)) == Some(JObject(map k | k in m :: JString(m[k])));
      assert c.parseJson(c.printJson(m')) == Some(JObject(map k | k in m' :: JString(m'[k])));
      assert (map k | k in m :: JString(m[k]))[UrlKey] == JString(att.blossomUrl);
      assert (map k | k in m' :: JString(m'[k]))[UrlKey] == JString(Trim(att.blossomUrl));
    }
  }

  /** How an attachment is shown, and how it stood in old transcripts. */
  lemma ShownAs(att: Attachment)
    ensures var hint := if att.decryptionKey.Some? then " (key provided)" else "";
            match att.fileType
            case Image =>
              && Placeholder(att) == "[" + "Image" + ": " + att.filename + " - Ctrl+S to save" + "]"
              && Display(att) == "\U{1F5BC}" + " " + "Image" + ": " + att.filename + hint
            case File =>
              && Placeholder(att) == "[" + "File" + ": " + att.filename + " - Ctrl+S to save" + "]"
              && Display(att) == "\U{1F4CE}" + " " + "File" + ": " + att.filename + hint
  {
  }

  lemma StripSuffixIs(s: string, suffix: string)
    requires StripSuffix(s, suffix).Some?
    ensures s == StripSuffix(s, suffix).value + suffix
  {
    assert s == s[..|s| - |suffix|] + s[|s| - |suffix|..];
  }

  lemma BracketedIs(s: string)
    requires s != "" && s[0] == '[' && StripSuffix(s[1..], "]").Some?
    ensures s == "[" + StripSuffix(s[1..], "]").value + "]"
  {
    StripSuffixIs(s[1..], "]");
    assert s == "[" + s[1..];
  }

  lemma InnerIs(inner: string, k: nat, name: string)
    requires OccursAt(inner, ": ", k) && StripSuffix(inner[k + 2..], PLACEHOLDER_TAIL) == Some(name)
    ensures inner == inner[..k] + ": " + (name + PLACEHOLDER_TAIL)
  {
    StripSuffixIs(inner[k + 2..], PLACEHOLDER_TAIL);
    assert inner == inner[..k] + inner[k..k + 2] + inner[k + 2..];
  }

  lemma ParsedPlaceholderIs(content: string, att: Attachment)
    requires ParsePlaceholder(content) == Some((att.fileType, att.filename))
    ensures Trim(content) == Placeholder(att)
  {
    BracketedIs(Trim(content));
    var inner := StripSuffix(Trim(content)[1..], "]").value;
    InnerIs(inner, Find(inner, ": ").value, att.filename);
    PlaceholderIs(att);
  }

  lemma PlaceholderParses(content: string, att: Attachment)
    requires Trim(content) == Placeholder(att)
    ensures ParsePlaceholder(content) == Some((att.fileType, att.filename))
  {
    PlaceholderRoundTrip(att);
    PlaceholderIs(att);
    BracketsComeOff(Placeholder(att), KindName(att.fileType) + ": " + (att.filename + PLACEHOLDER_TAIL));
  }

  /** A body is a placeholder exactly when, up to white space around it, it is what would be printed. */
  lemma PlaceholderIff(content: string, att: Attachment)
    ensures ParsePlaceholder(content) == Some((att.fileType, att.filename)) <==> Trim(content) == Placeholder(att)
  {
    if ParsePlaceholder(content) == Some((att.fileType, att.filename)) {
      ParsedPlaceholderIs(content, att);
    }
    if Trim(content) == Placeholder(att) {
      PlaceholderParses(content, att);
    }
  }

  /** An attachment without a URL is stored as the old placeholder, which still names its kind and file. */
  lemma UnsaveableIsPlaceholder(c: Codec, att: Attachment)
    requires Trim(att.blossomUrl) == ""
    ensures ParsePlaceholder(Serialized(c, att)) == Some((att.fileType, att.filename))
  {
    PlaceholderRoundTrip(att);
  }

  /** The object has this string under this key. */
  predicate HasString(fields: map<Key, Json>, name: Key, text: string) {
    name in fields && fields[name] == JString(text)
  }

  /** The names an attachment goes by on the wire. */
  predicate NamesType(name: string, t: AttachmentType) {
    name == match t case Image => "image_encrypted" case File => "file_encrypted"
  }

  /** A body is an attachment exactly when it is a JSON object that names a known type, a URL that is not blank and a
      file; then the attachment has these, the media type if it is a string, and the key if it decodes to 32 bytes. */
  lemma ParsedIff(c: Codec, content: string, att: Attachment)
    ensures ParseAttachment(c, content) == Some(att)
       <==> && Trim(content) != "" && Trim(content)[0] == '{'
            && c.parseJson(Trim(content)).Some? && c.parseJson(Trim(content)).value.JObject?
            && var fields := c.parseJson(Trim(content)).value.fields;
               && (exists name :: HasString(fields, TypeKey, name) && NamesType(name, att.fileType))
               && (exists url :: HasString(fields, UrlKey, url) && Trim(url) != "" && att.blossomUrl == Trim(url))
               && HasString(fields, FilenameKey, att.filename)
               && (match att.mimeType
                   case Some(mime) => HasString(fields, MimeKey, mime)
                   case None => forall mime :: !HasString(fields, MimeKey, mime))
               && (match att.decryptionKey
                   case Some(key) =>
                     |key| == 32 && exists text :: HasString(fields, DecryptKey, text) && c.decode64(text) == Some(key)
                   case None =>
                     forall text, key ::
                       HasString(fields, DecryptKey, text) && c.decode64(text) == Some(key) ==> |key| != 32)
  {
    var s := Trim(content);
    if s != "" && s[0] == '{' && c.parseJson(s).Some? && c.parseJson(s).value.JObject? {
      var fields := c.parseJson(s).value.fields;
      TypeIff(fields, att.fileType);
      UrlIff(fields, att.blossomUrl);
      StringsOf(fields, FilenameKey);
      StringsOf(fields, MimeKey);
      KeyIff(c, fields, att.decryptionKey);
    }
  }

  lemma StringsOf(fields: map<Key, Json>, name: Key)
    ensures forall text :: HasString(fields, name, text) <==> StringField(fields, name) == Some(text)
  {
  }

  lemma TypeIff(fields: map<Key, Json>, t: AttachmentType)
    ensures (exists name :: HasString(fields, TypeKey, name) && NamesType(name, t)) <==> TypeField(fields) == Some(t)
  {
    StringsOf(fields, TypeKey);
  }

  lemma UrlIff(fields: map<Key, Json>, url: string)
    ensures (exists text :: HasString(fields, UrlKey, text) && Trim(text) != "" && url == Trim(text))
       <==> var r := StringField(fields, UrlKey); r.Some? && Trim(r.value) != "" && url == Trim(r.value)
  {
    StringsOf(fields, UrlKey);
  }

  lemma KeyIff(c: Codec, fields: map<Key, Json>, r: Option<seq<byte>>)
    ensures KeyField(c, fields) == r
       <==> match r
            case Some(key) =>
              |key| == 32 && exists text :: HasString(fields, DecryptKey, text) && c.decode64(text) == Some(key)
            case None =>
              forall text, key :: HasString(fields, DecryptKey, text) && c.decode64(text) == Some(key) ==> |key| != 32
  {
    StringsOf(fields, DecryptKey);
  }
}
