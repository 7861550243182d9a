/** Reading image dimensions from file headers (src/util/file_validation.rs), against ITU-T T.81 sections
    B.1.1.4 and B.2.2 for JPEG and RFC 2083 section 4.1.1 for PNG. */
module FileValidation {

  import opened Wrappers
  import opened Bytes

  const PNG_SIGNATURE: seq<byte> := [0x89, 0x50, 0x4E, 0x47, 0x0D, 0x0A, 0x1A, 0x0A]

  const EOI: byte := 0xD9

  /** The frame-header markers the scanner recognises. */
  const FRAME_MARKERS: set<byte> := {0xC0, 0xC1, 0xC2, 0xC3, 0xC5, 0xC6, 0xC7, 0xC9, 0xCA, 0xCB}

  datatype Size = Size(width: nat, height: nat)

  // ----- The program -----

  method ReadImageDimensions(data: seq<byte>) returns (r: Option<Size>)
    ensures r == Dimensions(data)
  {
    if PNG_SIGNATURE <= data && |data| >= 24 {
      var w := U32(data, 16);
      var h := U32(data, 20);
      if w > 0 && h > 0 {
        return Some(Size(w, h));
      }
    }
    if |data| >= 4 && data[0] == 0xFF && data[1] == 0xD8 {
      var i := 2;
      while i + 9 < |data|
        invariant 2 <= i <= |data|
        invariant Scan(data[2..]) == Scan(data[i..])
      {
        ghost var rest := data[i..];
        if data[i] != 0xFF {
          assert rest[1..] == data[i + 1..];
          i := i + 1;
          continue;
        }
        var marker := data[i + 1];
        if marker == EOI {
          break;
        }
        var segLen := U16(data, i + 2);
        assert segLen == U16(rest, 2);
        if segLen < 2 || i + 2 + segLen > |data| {
          break;
        }
        if marker in FRAME_MARKERS && segLen >= 7 {
          var h := U16(data, i + 5);
          var w := U16(data, i + 7);
          if w > 0 && h > 0 {
            return Some(Size(w, h));
          }
        }
        assert rest[2 + segLen..] == data[i + 2 + segLen..];
        i := i + 2 + segLen;
      }
    }
    r := None;
  }

  /** What the marker loop finds in the bytes behind SOI. */
  function Scan(d: seq<byte>): Option<Size> {
    if |d| <= 9 then None
    else if d[0] != 0xFF then Scan(d[1..])
    else if d[1] == EOI || U16(d, 2) < 2 || 2 + U16(d, 2) > |d| then None
    else if d[1] in FRAME_MARKERS && U16(d, 2) >= 7 && U16(d, 7) > 0 && U16(d, 5) > 0
    then Some(Size(U16(d, 7), U16(d, 5)))
    else Scan(d[2 + U16(d, 2)..])
  }

  function Dimensions(data: seq<byte>): Option<Size> {
    if PNG_SIGNATURE <= data && |data| >= 24 && U32(data, 16) > 0 && U32(data, 20) > 0
    then Some(Size(U32(data, 16), U32(data, 20)))
    else if |data| >= 4 && data[0] == 0xFF && data[1] == 0xD8 then Scan(data[2..])
    else None
  }

  // ----- JPEG, segment by segment -----

  /** A marker segment: FF, the marker, a 16-bit length that counts itself, and the parameters. */
  datatype Segment = Segment(marker: byte, parameters: seq<byte>)

  predicate IsSegment(s: Segment) {
    |s.parameters| + 2 < 65536
  }

  function Length(s: Segment): nat {
    |s.parameters| + 2
  }

  function Encode(s: Segment): (b: seq<byte>)
    requires IsSegment(s)
    ensures |b| == 2 + Length(s)
  {
    [0xFF, s.marker] + Be16(Length(s)) + s.parameters
  }

  /** A frame header: after the sample precision, the number of lines Y and of samples per line X. */
  function FrameSize(s: Segment): Size
    requires |s.parameters| >= 5
  {
    Size(U16(s.parameters, 3), U16(s.parameters, 1))
  }

  /** SOF0 to SOF11: C0 to CB, of which C4 defines Huffman tables and C8 is reserved. */
  predicate IsFrameMarker(marker: byte) {
    0xC0 <= marker <= 0xCB && marker != 0xC4 && marker != 0xC8
  }

  /** The scanner's table is that range. */
  lemma FrameMarkersAre(marker: byte)
    ensures marker in FRAME_MARKERS <==> IsFrameMarker(marker)
  {
  }

  /** A recognised frame header with a size. */
  predicate IsFrame(s: Segment) {
    && IsSegment(s) && IsFrameMarker(s.marker) && |s.parameters| >= 5
    && FrameSize(s).width > 0 && FrameSize(s).height > 0
  }

  /** What may stand before the frame header: segments, and stray bytes other than FF between them. */
  datatype Item = Stray(b: byte) | Whole(s: Segment)

  /** An item the scanner passes over. */
  predicate IsPassable(item: Item) {
    match item
    case Stray(b) => b != 0xFF
    case Whole(s) => IsSegment(s) && s.marker != 0xD9 && !IsFrame(s)
  }

  predicate ArePassable(items: seq<Item>) {
    forall i :: 0 <= i < |items| ==> IsPassable(items[i])
  }

  function EncodeItem(item: Item): seq<byte>
    requires IsPassable(item)
  {
    match item
    case Stray(b) => [b]
    case Whole(s) => Encode(s)
  }

  function EncodeItems(items: seq<Item>): seq<byte>
    requires ArePassable(items)
  {
    if items == [] then [] else EncodeItem(items[0]) + EncodeItems(items[1..])
  }

  /** The bytes are passable items, then a frame header, then anything. The scanner wants ten bytes from the
      frame header on; a header of length 8 or more provides them itself. */
  ghost predicate IsStream(d: seq<byte>, items: seq<Item>, frame: Segment, rest: seq<byte>) {
    && ArePassable(items) && IsFrame(frame)
    && d == EncodeItems(items) + (Encode(frame) + rest)
    && |Encode(frame) + rest| >= 10
  }

  /** How an encoded segment reads at the front of the bytes. */
  lemma ReadSegment(s: Segment, rest: seq<byte>)
    requires IsSegment(s)
    ensures var d := Encode(s) + rest;
            && d[0] == 0xFF && d[1] == s.marker && U16(d, 2) == Length(s)
            && 2 + Length(s) <= |d| && d[2 + Length(s)..] == rest
            && (|s.parameters| >= 5 ==> U16(d, 7) == FrameSize(s).width && U16(d, 5) == FrameSize(s).height)
  {
    var d := Encode(s) + rest;
    assert d[2] == Be16(Length(s))[0] && d[3] == Be16(Length(s))[1];
    assert forall k :: 0 <= k < |s.parameters| ==> d[4 + k] == s.parameters[k];
  }

  /** The segment that stands at the front of the bytes. */
  lemma FrontSegment(d: seq<byte>) returns (s: Segment)
    requires |d| > 9 && d[0] == 0xFF && U16(d, 2) >= 2 && 2 + U16(d, 2) <= |d|
    ensures IsSegment(s) && s.marker == d[1] && Length(s) == U16(d, 2)
    ensures d == Encode(s) + d[2 + U16(d, 2)..]
  {
    s := Segment(d[1], d[4..2 + U16(d, 2)]);
    var b := Be16(Length(s));
    assert b[0] == d[2] && b[1] == d[3];
    assert d == [d[0], d[1]] + [d[2], d[3]] + d[4..2 + U16(d, 2)] + d[2 + U16(d, 2)..];
  }

  /** Whatever the scanner returns is the size in a frame header that really stands there, behind passable
      items. */
  lemma {:induction false} ScanIsSound(d: seq<byte>) returns (items: seq<Item>, frame: Segment, rest: seq<byte>)
    requires Scan(d).Some?
    ensures IsStream(d, items, frame, rest) && Scan(d) == Some(FrameSize(frame))
    decreases |d|
  {
    if d[0] != 0xFF {
      items, frame, rest := ScanIsSound(d[1..]);
      items := [Stray(d[0])] + items;
      assert d == [d[0]] + d[1..];
      ItemsCons(items, frame, rest);
    } else {
      var s := FrontSegment(d);
      var tail := d[2 + U16(d, 2)..];
      ReadSegment(s, tail);
      FrameMarkersAre(d[1]);
      if IsFrame(s) {
        items, frame, rest := [], s, tail;
      } else {
        items, frame, rest := ScanIsSound(tail);
        items := [Whole(s)] + items;
        ItemsCons(items, frame, rest);
      }
    }
  }

  lemma ItemsCons(items: seq<Item>, frame: Segment, rest: seq<byte>)
    requires items != [] && ArePassable(items) && IsFrame(frame)
    ensures EncodeItems(items) + (Encode(frame) + rest)
         == EncodeItem(items[0]) + (EncodeItems(items[1..]) + (Encode(frame) + rest))
  {
  }

  /** Behind passable items, the scanner finds the frame header. */
  lemma {:induction false} ScanIsComplete(d: seq<byte>, items: seq<Item>, frame: Segment, rest: seq<byte>)
    requires IsStream(d, items, frame, rest)
    ensures Scan(d) == Some(FrameSize(frame))
    decreases |items|
  {
    if items == [] {
      assert d == Encode(frame) + rest;
      ReadSegment(frame, rest);
      FrameMarkersAre(frame.marker);
    } else {
      var tail := EncodeItems(items[1..]) + (Encode(frame) + rest);
      ItemsCons(items, frame, rest);
      ScanIsComplete(tail, items[1..], frame, rest);
      match items[0]
      case Stray(b) => assert d == [b] + tail && d[1..] == tail;
      case Whole(s) =>
        ReadSegment(s, tail);
        FrameMarkersAre(s.marker);
    }
  }

  /** The JPEG scanner meets its segment specification. For every byte string that starts with SOI, it returns
      a size exactly when the bytes behind SOI are passable items followed by a recognised frame header of
      that size. */
  lemma JpegSizeIff(data: seq<byte>, size: Size)
    requires |data| >= 4 && data[0] == 0xFF && data[1] == 0xD8
    ensures Dimensions(data) == Some(size)
       <==> exists items, frame, rest :: IsStream(data[2..], items, frame, rest) && FrameSize(frame) == size
  {
    assert !(PNG_SIGNATURE <= data) by {
      assert PNG_SIGNATURE[0] != data[0];
    }
    if Scan(data[2..]) == Some(size) {
      var items, frame, rest := ScanIsSound(data[2..]);
    }
    if items, frame, rest :| IsStream(data[2..], items, frame, rest) && FrameSize(frame) == size {
      ScanIsComplete(data[2..], items, frame, rest);
    }
  }

  function Wholes(segments: seq<Segment>): (items: seq<Item>)
    ensures |items| == |segments| && forall i :: 0 <= i < |items| ==> items[i] == Whole(segments[i])
  {
    seq(|segments|, i requires 0 <= i < |segments| => Whole(segments[i]))
  }

  /** For every stream of SOI and well-formed segments, none of them EOI or a recognised frame header with a
      size, up to a recognised frame header of length at least 8 with a size, that header's size is returned. */
  lemma StandardStream(segments: seq<Segment>, frame: Segment, rest: seq<byte>)
    requires ArePassable(Wholes(segments)) && IsFrame(frame) && Length(frame) >= 8
    ensures Dimensions([0xFF, 0xD8] + (EncodeItems(Wholes(segments)) + (Encode(frame) + rest)))
         == Some(FrameSize(frame))
  {
    var d := EncodeItems(Wholes(segments)) + (Encode(frame) + rest);
    var data := [0xFF, 0xD8] + d;
    assert data[2..] == d;
    assert IsStream(d, Wholes(segments), frame, rest);
    JpegSizeIff(data, FrameSize(frame));
  }

  // ----- PNG -----

  /** The bytes that name a PNG file, and its first chunk. */
  predicate StartsLikePng(data: seq<byte>) {
    |data| >= 8 && data[..8] == [137, 80, 78, 71, 13, 10, 26, 10]
  }

  /** For every byte string behind the PNG signature: a size is returned exactly when the words at 16 and 20 are there
      and positive, and they are width and height. */
  lemma PngSizeIff(data: seq<byte>, size: Size)
    requires StartsLikePng(data)
    ensures Dimensions(data) == Some(size)
       <==> && |data| >= 24 && size.width > 0 && size.height > 0
            && data[16..20] == Be32Of(size.width) && data[20..24] == Be32Of(size.height)
  {
    assert data[0] == 137;
    if |data| >= 24 {
      WordIs(data, 16);
      WordIs(data, 20);
    }
  }

  /** Four bytes, most significant first, or nothing when four do not do. */
  function Be32Of(x: nat): seq<byte> {
    if x >= 0x1_0000_0000 then []
    else [x / 16777216, x / 65536 % 256, x / 256 % 256, x % 256]
  }

  lemma WordIs(data: seq<byte>, i: nat)
    requires i + 4 <= |data|
    ensures Be32Of(U32(data, i)) == data[i..i + 4]
    ensures forall x: nat :: Be32Of(x) == data[i..i + 4] ==> x == U32(data, i)
  {
    var w := data[i..i + 4];
    assert w == [data[i], data[i + 1], data[i + 2], data[i + 3]];
    DigitsOfWord(data[i], data[i + 1], data[i + 2], data[i + 3]);
    forall x: nat | Be32Of(x) == w
      ensures x == U32(data, i)
    {
      assert |Be32Of(x)| == 4;
      DigitsOf(x);
    }
  }

  lemma DigitsOfWord(a: byte, b: byte, c: byte, d: byte)
    ensures Be32Of((a * 256 + b) * 65536 + (c * 256 + d)) == [a, b, c, d]
  {
    var x := (a * 256 + b) * 65536 + (c * 256 + d);
    assert x / 65536 == a * 256 + b && x / 256 == (a * 256 + b) * 256 + c;
    assert x / 16777216 == a;
  }

  lemma DigitsOf(x: nat)
    requires x < 0x1_0000_0000
    ensures x == ((x / 16777216) * 256 + x / 65536 % 256) * 65536 + ((x / 256 % 256) * 256 + x % 256)
  {
  }

  /** A PNG file starts with the signature and an IHDR chunk of length 13, whose data starts with width and
      height: they are returned exactly when both are positive. */
  lemma PngHeader(width: nat, height: nat, rest: seq<byte>)
    requires width < 0x1_0000_0000 && height < 0x1_0000_0000
    ensures var signature, ihdr := [137, 80, 78, 71, 13, 10, 26, 10], [0, 0, 0, 13, 73, 72, 68, 82];
            Dimensions(signature + ihdr + Be32Of(width) + Be32Of(height) + rest)
            == if width > 0 && height > 0 then Some(Size(width, height)) else None
  {
    var signature, ihdr := [137, 80, 78, 71, 13, 10, 26, 10], [0, 0, 0, 13, 73, 72, 68, 82];
    var data := signature + ihdr + Be32Of(width) + Be32Of(height) + rest;
    assert data[16..20] == Be32Of(width) && data[20..24] == Be32Of(height);
    assert data[..8] == signature;
    WordIs(data, 16);
    WordIs(data, 20);
  }

  /** For every byte string, only positive sizes are returned. */
  lemma {:induction false} SizesArePositive(data: seq<byte>)
    requires Dimensions(data).Some?
    ensures Dimensions(data).value.width > 0 && Dimensions(data).value.height > 0
  {
    if !(PNG_SIGNATURE <= data && |data| >= 24 && U32(data, 16) > 0 && U32(data, 20) > 0) {
      var items, frame, rest := ScanIsSound(data[2..]);
    }
  }

  /** Anything that starts neither like a PNG file nor with SOI has no size. */
  lemma OtherFilesHaveNoSize(data: seq<byte>)
    requires !StartsLikePng(data) && !(|data| >= 4 && data[0] == 255 && data[1] == 216)
    ensures Dimensions(data) == None
  {
    assert PNG_SIGNATURE <= data ==> data[..8] == PNG_SIGNATURE;
  }
}
