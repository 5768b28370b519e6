/** The width and height that stand in the header of a PNG, JPEG or WebP file. */
module ImageSize {
  import opened Wrappers

  type Byte = x: int | 0 <= x < 0x100

  type Bytes = seq<Byte>

  /** The three kinds of WebP, by the name of the first chunk. */
  datatype Format = Png | Jpeg | WebP(chunk: Bytes) | Unknown | Empty

  datatype Pair = Pair(w: int, h: int)

  datatype Size = Size(format: Format, size: Option<Pair>)

  // ----- numbers of several bytes -----

  function Be16(buf: Bytes, i: nat): (n: nat)
    requires i + 2 <= |buf|
    ensures n < 0x1_0000
  {
    0x100 * (buf[i] as int) + buf[i + 1]
  }

  function Be32(buf: Bytes, i: nat): nat
    requires i + 4 <= |buf|
  {
    0x1_0000 * Be16(buf, i) + Be16(buf, i + 2)
  }

  /** The number of n bytes, the least first. */
  function Le(buf: Bytes, i: nat, n: nat): nat
    requires i + n <= |buf|
    decreases n
  {
    if n == 0 then 0 else buf[i] as int + 0x100 * Le(buf, i + 1, n - 1)
  }

  function BeBytes16(n: nat): (b: Bytes)
    requires n < 0x1_0000
    ensures |b| == 2
  {
    [n / 0x100, n % 0x100]
  }

  function BeBytes32(n: nat): (b: Bytes)
    requires n < 0x1_0000_0000
    ensures |b| == 4
  {
    BeBytes16(n / 0x1_0000) + BeBytes16(n % 0x1_0000)
  }

  function LeBytes(v: nat, n: nat): (b: Bytes)
    ensures |b| == n
    decreases n
  {
    if n == 0 then [] else [v % 0x100] + LeBytes(v / 0x100, n - 1)
  }

  function Power(n: nat): (p: nat)
    ensures p > 0
  {
    if n == 0 then 1 else 0x100 * Power(n - 1)
  }

  lemma {:induction false} LeReadsBack(v: nat, n: nat, before: Bytes, after: Bytes)
    requires v < Power(n)
    ensures Le(before + LeBytes(v, n) + after, |before|, n) == v
    decreases n
  {
    if n > 0 {
      var rest := LeBytes(v / 0x100, n - 1);
      assert before + LeBytes(v, n) + after == (before + [v % 0x100]) + rest + after;
      LeReadsBack(v / 0x100, n - 1, before + [v % 0x100], after);
    }
  }

  /** A number as the operators on 32-bit integers take it. */
  function ToInt32(b: nat): int {
    var low := b % 0x1_0000_0000;
    if low < 0x8000_0000 then low else low - 0x1_0000_0000
  }

  /** The lowest 14 bits. */
  function Low14(b: int): nat {
    b % 0x4000
  }

  /** The sign is shifted in from the left. */
  function ShiftRight14(b: int): int {
    b / 0x4000
  }

  // ----- JPEG -----

  /** The markers of a frame header: 0xC4, 0xC8 and 0xCC mark something else. */
  predicate IsSof(m: Byte) {
    0xC0 <= m <= 0xCF && m != 0xC4 && m != 0xC8 && m != 0xCC
  }

  /** Where the scan stands at a frame header that it reads. */
  predicate AtSof(buf: Bytes, i: nat) {
    i < |buf| - 9 && buf[i] == 0xFF && IsSof(buf[i + 1])
  }

  /** Where the scan goes from a position that is no frame header. */
  function Onward(buf: Bytes, i: nat): (j: nat)
    requires i < |buf| - 9
    ensures i < j
  {
    if buf[i] != 0xFF then i + 1 else i + 2 + Be16(buf, i + 2)
  }

  /** The first frame header the scan comes to. */
  function Scan(buf: Bytes, i: nat): (j: Option<nat>)
    ensures j.Some? ==> i <= j.value && AtSof(buf, j.value)
    decreases |buf| - i
  {
    if i >= |buf| - 9 then None
    else if AtSof(buf, i) then Some(i)
    else Scan(buf, Onward(buf, i))
  }

  function JpegSize(buf: Bytes): Option<Pair> {
    match Scan(buf, 2)
    case None => None
    case Some(i) => Some(Pair(Be16(buf, i + 7), Be16(buf, i + 5)))
  }

  // ----- the decoder -----

  const PNG: Bytes := [0x50, 0x4E, 0x47]
  const RIFF: Bytes := [0x52, 0x49, 0x46, 0x46]
  const WEBP: Bytes := [0x57, 0x45, 0x42, 0x50]
  const VP8X: Bytes := [0x56, 0x50, 0x38, 0x58]
  const VP8L: Bytes := [0x56, 0x50, 0x38, 0x4C]
  const VP8: Bytes := [0x56, 0x50, 0x38, 0x20]

  function WebPSize(buf: Bytes): Option<Pair>
    requires |buf| > 30
  {
    var chunk := buf[12..16];
    if chunk == VP8X then Some(Pair(1 + Le(buf, 24, 3), 1 + Le(buf, 27, 3)))
    else if chunk == VP8L then
      var b := Le(buf, 21, 4);
      Some(Pair(Low14(ToInt32(b)) + 1, Low14(ShiftRight14(ToInt32(b))) + 1))
    else if chunk == VP8 then Some(Pair(Low14(Le(buf, 26, 2)), Low14(Le(buf, 28, 2))))
    else None
  }

  function SizeOf(buf: Bytes): Size {
    if |buf| > 26 && buf[0] == 0x89 && buf[1..4] == PNG then Size(Png, Some(Pair(Be32(buf, 16), Be32(buf, 20))))
    else if |buf| > 4 && buf[0] == 0xFF && buf[1] == 0xD8 then Size(Jpeg, JpegSize(buf))
    else if |buf| > 30 && buf[..4] == RIFF && buf[8..12] == WEBP then Size(WebP(buf[12..16]), WebPSize(buf))
    else Size(if buf == [] then Empty else Unknown, None)
  }

  /** Every read of the scan is inside the buffer, and it ends, on every buffer. */
  method Dims(buf: Bytes) returns (size: Size)
    ensures size == SizeOf(buf)
  {
    if |buf| > 26 && buf[0] == 0x89 && buf[1..4] == PNG {
      return Size(Png, Some(Pair(Be32(buf, 16), Be32(buf, 20))));
    }
    if |buf| > 4 && buf[0] == 0xFF && buf[1] == 0xD8 {
      var i := 2;
      while i < |buf| - 9
        invariant i >= 2 && Scan(buf, i) == Scan(buf, 2)
        decreases |buf| - i
      {
        if buf[i] != 0xFF {
          i := i + 1;
          continue;
        }
        var m := buf[i + 1];
        if IsSof(m) {
          return Size(Jpeg, Some(Pair(Be16(buf, i + 7), Be16(buf, i + 5))));
        }
        i := i + 2 + Be16(buf, i + 2);
      }
      return Size(Jpeg, None);
    }
    if |buf| > 30 && buf[..4] == RIFF && buf[8..12] == WEBP {
      var chunk := buf[12..16];
      if chunk == VP8X {
        return Size(WebP(chunk), Some(Pair(1 + Le(buf, 24, 3), 1 + Le(buf, 27, 3))));
      }
      if chunk == VP8L {
        var b := Le(buf, 21, 4);
        return Size(WebP(chunk), Some(Pair(Low14(ToInt32(b)) + 1, Low14(ShiftRight14(ToInt32(b))) + 1)));
      }
      if chunk == VP8 {
        return Size(WebP(chunk), Some(Pair(Low14(Le(buf, 26, 2)), Low14(Le(buf, 28, 2)))));
      }
      return Size(WebP(chunk), None);
    }
    return Size(if buf == [] then Empty else Unknown, None);
  }

  // ----- JPEG files, as they are written -----

  /** What may come before the frame header: a marker segment with its length and payload, or a byte
  between segments that begins no marker. */
  datatype Item = Segment(marker: Byte, payload: Bytes) | Stray(b: Byte)

  /** The thirteen markers of a frame header, Table B.1 of ITU-T T.81. 0xC4 defines Huffman tables, 0xC8 is
  reserved and 0xCC defines arithmetic coding. */
  ghost predicate IsFrameMarker(m: Byte) {
    m in {0xC0, 0xC1, 0xC2, 0xC3, 0xC5, 0xC6, 0xC7, 0xC9, 0xCA, 0xCB, 0xCD, 0xCE, 0xCF}
  }

  lemma FrameMarkers(m: Byte)
    ensures IsSof(m) <==> IsFrameMarker(m)
  {
  }

  ghost predicate Sound(item: Item) {
    match item
    case Segment(marker, payload) => !IsFrameMarker(marker) && |payload| + 2 < 0x1_0000
    case Stray(b) => b != 0xFF
  }

  function ItemBytes(item: Item): Bytes
    requires Sound(item)
  {
    match item
    case Segment(marker, payload) => [0xFF, marker] + BeBytes16(|payload| + 2) + payload
    case Stray(b) => [b]
  }

  function ItemsBytes(items: seq<Item>): Bytes
    requires forall item :: item in items ==> Sound(item)
  {
    if items == [] then [] else ItemBytes(items[0]) + ItemsBytes(items[1..])
  }

  /** The frame header's fixed part: marker, length, precision, height and width. */
  datatype Frame = Frame(marker: Byte, length: nat, precision: Byte, h: nat, w: nat)

  ghost predicate SoundFrame(f: Frame) {
    IsFrameMarker(f.marker) && f.length < 0x1_0000 && f.h < 0x1_0000 && f.w < 0x1_0000
  }

  function FrameBytes(f: Frame): (b: Bytes)
    requires SoundFrame(f)
    ensures |b| == 9
  {
    [0xFF, f.marker] + BeBytes16(f.length) + [f.precision] + BeBytes16(f.h) + BeBytes16(f.w)
  }

  const SOI: Bytes := [0xFF, 0xD8]

  lemma SegmentHeader(before: Bytes, marker: Byte, payload: Bytes, after: Bytes)
    requires |payload| + 2 < 0x1_0000
    ensures var i, buf := |before|, before + ([0xFF, marker] + BeBytes16(|payload| + 2) + payload) + after;
      |buf| >= i + 4 && buf[i] == 0xFF && buf[i + 1] == marker && Be16(buf, i + 2) == |payload| + 2
  {
    var i, buf := |before|, before + ([0xFF, marker] + BeBytes16(|payload| + 2) + payload) + after;
    assert buf[i + 2] == BeBytes16(|payload| + 2)[0] && buf[i + 3] == BeBytes16(|payload| + 2)[1];
  }

  /** The scan passes one item. */
  lemma PassesItem(before: Bytes, item: Item, after: Bytes)
    requires Sound(item) && |after| >= 10
    ensures Scan(before + ItemBytes(item) + after, |before|)
        == Scan(before + ItemBytes(item) + after, |before + ItemBytes(item)|)
  {
    var buf, i := before + ItemBytes(item) + after, |before|;
    match item
    case Segment(marker, payload) =>
      SegmentHeader(before, marker, payload, after);
      FrameMarkers(marker);
      assert Onward(buf, i) == |before + ItemBytes(item)|;
    case Stray(b) =>
      assert buf[i] == b;
  }

  lemma Regroup(a: Bytes, b: Bytes, c: Bytes, d: Bytes)
    ensures a + (b + c) == (a + b) + c
    ensures a + (b + c) + d == (a + b) + c + d == a + b + (c + d)
  {
  }

  lemma {:induction false} PassesItems(before: Bytes, items: seq<Item>, after: Bytes)
    requires (forall item :: item in items ==> Sound(item)) && |after| >= 10
    ensures var buf := before + ItemsBytes(items) + after;
            Scan(buf, |before|) == Scan(buf, |before + ItemsBytes(items)|)
    decreases |items|
  {
    if items != [] {
      var first, rest := ItemBytes(items[0]), ItemsBytes(items[1..]);
      PassesItem(before, items[0], rest + after);
      PassesItems(before + first, items[1..], after);
      Regroup(before, first, rest, after);
    }
  }

  function JpegFile(items: seq<Item>, f: Frame, rest: Bytes): Bytes
    requires (forall item :: item in items ==> Sound(item)) && SoundFrame(f)
  {
    SOI + ItemsBytes(items) + (FrameBytes(f) + rest)
  }

  lemma JpegBegins(items: seq<Item>, after: Bytes)
    requires (forall item :: item in items ==> Sound(item)) && |after| >= 10
    ensures var buf := SOI + ItemsBytes(items) + after;
      SizeOf(buf) == Size(Jpeg, JpegSize(buf))
  {
    var buf := SOI + ItemsBytes(items) + after;
    assert buf[0] == 0xFF && buf[1] == 0xD8;
  }

  /** A start of image, any segments that are no frame header, and a frame header of any of the thirteen kinds
  decode to its height and width. `rest` begins with the number of components, so it is never empty. */
  lemma JpegDecodes(items: seq<Item>, f: Frame, rest: Bytes)
    requires (forall item :: item in items ==> Sound(item)) && SoundFrame(f) && rest != []
    ensures SizeOf(JpegFile(items, f, rest)) == Size(Jpeg, Some(Pair(f.w, f.h)))
  {
    var buf := JpegFile(items, f, rest);
    PassesItems(SOI, items, FrameBytes(f) + rest);
    FrameMarkers(f.marker);
    var i := |SOI + ItemsBytes(items)|;
    var b := FrameBytes(f);
    forall k | 0 <= k < 9 ensures buf[i + k] == b[k] {
    }
    assert buf[i] == b[0] && buf[i + 1] == b[1];
    assert buf[i + 5] == b[5] && buf[i + 6] == b[6] && buf[i + 7] == b[7] && buf[i + 8] == b[8];
    JpegBegins(items, FrameBytes(f) + rest);
  }

  /** A progressive file's header, byte for byte, and one that is cut off right after its width. */
  lemma AProgressiveFile()
    ensures SizeOf([0xFF, 0xD8, 0xFF, 0xC2, 0, 0x11, 8, 0, 0x10, 0, 0x20, 3, 1]) == Size(Jpeg, Some(Pair(0x20, 0x10)))
    ensures SizeOf([0xFF, 0xD8, 0xFF, 0xC2, 0, 0x11, 8, 0, 0x10, 0, 0x20]) == Size(Jpeg, None)
  {
    var buf: Bytes := [0xFF, 0xD8, 0xFF, 0xC2, 0, 0x11, 8, 0, 0x10, 0, 0x20, 3, 1];
    assert AtSof(buf, 2);
    assert Be16(buf, 7) == 0x10 && Be16(buf, 9) == 0x20;
  }

  function Fill(n: nat): (b: Bytes)
    ensures |b| == n && forall i :: 0 <= i < n ==> b[i] == 0xFF
  {
    seq(n, i => 0xFF)
  }

  /** Where the scan goes on after fill bytes before a marker: the second one is taken for a marker, and the
  two bytes after it for a length. */
  function Skipped(fill: nat, m: Byte, y: Byte): nat
    requires fill > 0
  {
    2 + (if fill == 1 then 0x100 * (m as int) + y else if fill == 2 then 0xFF00 + m as int else 0xFFFF)
  }

  /** Fill bytes, which the format allows before any marker, are not passed one by one: with a marker `m`
  and its next byte `y` after them, the scan goes on at a position that has nothing to do with segments. */
  lemma FillBytesAreALength(items: seq<Item>, fill: nat, m: Byte, y: Byte, rest: Bytes)
    requires (forall item :: item in items ==> Sound(item)) && fill > 0 && |rest| >= 7
    ensures var i := |SOI + ItemsBytes(items)|;
      var buf := SOI + ItemsBytes(items) + (Fill(fill) + [0xFF, m, y] + rest);
      SizeOf(buf).format == Jpeg && Scan(buf, 2) == Scan(buf, i + Skipped(fill, m, y))
  {
    var before, after := SOI + ItemsBytes(items), Fill(fill) + [0xFF, m, y] + rest;
    PassesItems(SOI, items, after);
    AfterFill(fill, m, y, rest);
    JumpsOver(before, after);
    JpegBegins(items, after);
  }

  lemma AfterFill(fill: nat, m: Byte, y: Byte, rest: Bytes)
    requires fill > 0 && |rest| >= 7
    ensures var after := Fill(fill) + [0xFF, m, y] + rest;
      after[0] == 0xFF && after[1] == 0xFF && 2 + Be16(after, 2) == Skipped(fill, m, y)
  {
  }

  lemma JumpsOver(before: Bytes, after: Bytes)
    requires |after| >= 10 && after[0] == 0xFF && after[1] == 0xFF
    ensures Scan(before + after, |before|) == Scan(before + after, |before| + 2 + Be16(after, 2))
  {
    var buf, i := before + after, |before|;
    assert buf[i] == after[0] && buf[i + 1] == after[1] && buf[i + 2] == after[2] && buf[i + 3] == after[3];
  }

  /** So a file with fill bytes before any marker of 0xC0 or more, as every segment's is, has no size when it
  ends within 0xC000 bytes of them. */
  lemma FillBytesHideTheSize(items: seq<Item>, fill: nat, m: Byte, y: Byte, rest: Bytes)
    requires (forall item :: item in items ==> Sound(item)) && fill > 0 && m >= 0xC0 && |rest| >= 7
    ensures var after := Fill(fill) + [0xFF, m, y] + rest;
      |after| <= 0xC000 ==> SizeOf(SOI + ItemsBytes(items) + after) == Size(Jpeg, None)
  {
    var buf := SOI + ItemsBytes(items) + (Fill(fill) + [0xFF, m, y] + rest);
    FillBytesAreALength(items, fill, m, y, rest);
    JpegBegins(items, Fill(fill) + [0xFF, m, y] + rest);
  }

  // ----- which format -----

  function Latin1(s: string): seq<int> {
    seq(|s|, i requires 0 <= i < |s| => s[i] as int)
  }

  lemma NamesAreText()
    ensures PNG == Latin1("PNG") && RIFF == Latin1("RIFF") && WEBP == Latin1("WEBP")
    ensures VP8X == Latin1("VP8X") && VP8L == Latin1("VP8L") && VP8 == Latin1("VP8 ")
  {
  }

  /** The format goes by length and first bytes alone, PNG first and WebP last. */
  lemma FormatIs(buf: Bytes)
    ensures var format := SizeOf(buf).format;
      var png := |buf| >= 27 && buf[0] == 0x89 && buf[1..4] == Latin1("PNG");
      var jpeg := |buf| >= 5 && buf[0] == 0xFF && buf[1] == 0xD8;
      var webp := |buf| >= 31 && buf[..4] == Latin1("RIFF") && buf[8..12] == Latin1("WEBP");
      && (format == Png <==> png)
      && (format == Jpeg <==> jpeg)
      && (format.WebP? <==> webp)
      && (format == Empty <==> |buf| == 0)
      && (webp ==> format.chunk == buf[12..16])
      && (!png && !jpeg && !webp ==> SizeOf(buf).size.None?)
  {
    NamesAreText();
    if |buf| >= 31 && buf[..4] == RIFF {
      assert buf[0] == buf[..4][0];
    }
  }

  // ----- PNG and WebP files -----

  lemma PngDecodes(header: Bytes, w: nat, h: nat, rest: Bytes)
    requires |header| == 16 && header[0] == 0x89 && header[1..4] == PNG
    requires w < 0x1_0000_0000 && h < 0x1_0000_0000 && |rest| > 2
    ensures SizeOf(header + BeBytes32(w) + BeBytes32(h) + rest) == Size(Png, Some(Pair(w, h)))
  {
    var buf := header + BeBytes32(w) + BeBytes32(h) + rest;
    assert buf[..16] == header;
    assert buf[1..4] == buf[..16][1..4];
    assert buf[16..20] == BeBytes32(w) && buf[20..24] == BeBytes32(h);
    Be32IsRead(buf, 16, w);
    Be32IsRead(buf, 20, h);
  }

  lemma Be32IsRead(buf: Bytes, i: nat, n: nat)
    requires n < 0x1_0000_0000 && i + 4 <= |buf| && buf[i..i + 4] == BeBytes32(n)
    ensures Be32(buf, i) == n
  {
    var b := buf[i..i + 4];
    assert b[0] == buf[i] && b[1] == buf[i + 1] && b[2] == buf[i + 2] && b[3] == buf[i + 3];
  }

  /** The first 16 bytes of a WebP file, whose first chunk is `chunk`. */
  ghost predicate WebPBegins(buf: Bytes, chunk: Bytes) {
    |buf| > 30 && buf[..4] == RIFF && buf[8..12] == WEBP && buf[12..16] == chunk
  }

  lemma LeIsRead(buf: Bytes, i: nat, n: nat, v: nat)
    requires i + n <= |buf| && v < Power(n) && buf[i..i + n] == LeBytes(v, n)
    ensures Le(buf, i, n) == v
  {
    LeReadsBack(v, n, buf[..i], buf[i + n..]);
    assert buf == buf[..i] + LeBytes(v, n) + buf[i + n..];
  }

  lemma Powers()
    ensures Power(2) == 0x1_0000 && Power(3) == 0x100_0000 && Power(4) == 0x1_0000_0000
  {
    assert Power(1) == 0x100;
    assert Power(2) == 0x100 * Power(1);
  }

  /** An extended file carries both sizes less one in 24 bits. */
  lemma ExtendedWebPDecodes(buf: Bytes, w: nat, h: nat)
    requires WebPBegins(buf, VP8X) && 1 <= w <= 0x100_0000 && 1 <= h <= 0x100_0000
    requires buf[24..27] == LeBytes(w - 1, 3) && buf[27..30] == LeBytes(h - 1, 3)
    ensures SizeOf(buf) == Size(WebP(VP8X), Some(Pair(w, h)))
  {
    Powers();
    LeIsRead(buf, 24, 3, w - 1);
    LeIsRead(buf, 27, 3, h - 1);
    WebPIsNoOther(buf);
  }

  /** Two 14-bit fields come apart again, whatever the four bits above them are: with the highest of them
  set the 32-bit operators see a negative number. */
  lemma FieldsComeApart(low: nat, high: nat, top: nat)
    requires low < 0x4000 && high < 0x4000 && top < 0x10
    ensures var b := low + 0x4000 * high + 0x1000_0000 * top;
            Low14(ToInt32(b)) == low && Low14(ShiftRight14(ToInt32(b))) == high
  {
    var b := low + 0x4000 * high + 0x1000_0000 * top;
    var s := if top < 8 then top else top - 16;
    assert ToInt32(b) == low + 0x4000 * (high + 0x4000 * s);
    QuotientOf(high + 0x4000 * s, low);
    QuotientOf(s, high);
  }

  lemma QuotientOf(q: int, r: nat)
    requires r < 0x4000
    ensures (r + 0x4000 * q) / 0x4000 == q && (r + 0x4000 * q) % 0x4000 == r
  {
  }

  /** A lossless file carries both sizes less one in 14 bits each, below four other bits. */
  lemma LosslessWebPDecodes(buf: Bytes, w: nat, h: nat, top: nat)
    requires WebPBegins(buf, VP8L) && 1 <= w <= 0x4000 && 1 <= h <= 0x4000 && top < 0x10
    requires buf[21..25] == LeBytes((w - 1) + 0x4000 * (h - 1) + 0x1000_0000 * top, 4)
    ensures SizeOf(buf) == Size(WebP(VP8L), Some(Pair(w, h)))
  {
    Powers();
    LeIsRead(buf, 21, 4, (w - 1) + 0x4000 * (h - 1) + 0x1000_0000 * top);
    FieldsComeApart(w - 1, h - 1, top);
    WebPIsNoOther(buf);
    assert VP8L[3] != VP8X[3];
  }

  /** A lossy file carries each size in 14 bits, below two bits of scaling. */
  lemma LossyWebPDecodes(buf: Bytes, w: nat, h: nat, scaleW: nat, scaleH: nat)
    requires WebPBegins(buf, VP8) && w < 0x4000 && h < 0x4000 && scaleW < 4 && scaleH < 4
    requires buf[26..28] == LeBytes(w + 0x4000 * scaleW, 2) && buf[28..30] == LeBytes(h + 0x4000 * scaleH, 2)
    ensures SizeOf(buf) == Size(WebP(VP8), Some(Pair(w, h)))
  {
    Powers();
    LeIsRead(buf, 26, 2, w + 0x4000 * scaleW);
    LeIsRead(buf, 28, 2, h + 0x4000 * scaleH);
    QuotientOf(scaleW, w);
    QuotientOf(scaleH, h);
    WebPIsNoOther(buf);
    assert VP8[3] != VP8X[3] && VP8[3] != VP8L[3];
  }

  /** A WebP file whose first chunk is another has no size. */
  lemma OtherWebPHasNoSize(buf: Bytes, chunk: Bytes)
    requires WebPBegins(buf, chunk) && chunk != Latin1("VP8X") && chunk != Latin1("VP8L") && chunk != Latin1("VP8 ")
    ensures SizeOf(buf) == Size(WebP(chunk), None)
  {
    NamesAreText();
    WebPIsNoOther(buf);
  }

  /** A PNG file's header, byte for byte. */
  lemma APngFile(buf: Bytes)
    requires |buf| == 27 && buf[0] == 0x89 && buf[1..4] == Latin1("PNG")
    requires buf[16..24] == [0, 0, 3, 0, 0, 0, 1, 0x90]
    ensures SizeOf(buf) == Size(Png, Some(Pair(768, 400)))
  {
    NamesAreText();
    forall i | 0 <= i < 8 ensures buf[16 + i] == buf[16..24][i] {
    }
    assert buf[16] == 0 && buf[17] == 0 && buf[18] == 3 && buf[19] == 0;
    assert buf[20] == 0 && buf[21] == 0 && buf[22] == 1 && buf[23] == 0x90;
  }

  /** An extended WebP file's sizes, byte for byte. */
  lemma AnExtendedFile(buf: Bytes)
    requires WebPBegins(buf, VP8X) && buf[24..30] == [0xFF, 2, 0, 0x8F, 1, 0]
    ensures SizeOf(buf) == Size(WebP(VP8X), Some(Pair(768, 400)))
  {
    WebPIsNoOther(buf);
    forall i | 0 <= i < 6 ensures buf[24 + i] == buf[24..30][i] {
    }
    assert buf[24] == 0xFF && buf[25] == 2 && buf[26] == 0 && buf[27] == 0x8F && buf[28] == 1 && buf[29] == 0;
    assert Le(buf, 24, 3) == 0xFF + 0x100 * (2 + 0x100 * 0);
    assert Le(buf, 27, 3) == 0x8F + 0x100 * (1 + 0x100 * 0);
  }

  lemma WebPIsNoOther(buf: Bytes)
    requires |buf| > 30 && buf[..4] == RIFF && buf[8..12] == WEBP
    ensures SizeOf(buf) == Size(WebP(buf[12..16]), WebPSize(buf))
  {
    assert buf[0] == buf[..4][0];
  }
}
