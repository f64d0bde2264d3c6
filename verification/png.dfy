/** What the server reads from a PNG before decoding it, and the size of the thumbnail it makes. */
module Png {
  type Byte = b: int | 0 <= b < 256

  type Bytes = seq<Byte>

  const MAGIC: Bytes := [0x89, 0x50, 0x4E, 0x47, 0x0D, 0x0A, 0x1A, 0x0A]
  const THUMB_MAX_DIM := 320
  const MAX_IMAGE_DIM := 20_000
  const MAX_IMAGE_PIXELS := 40_000_000
  const IHDR_WIDTH_OFFSET := 16
  const IHDR_MIN_BYTES := 24

  datatype Verdict = Valid | NotPng | TooLarge

  predicate IsPng(data: Bytes) {
    |data| >= |MAGIC| && data[..|MAGIC|] == MAGIC
  }

  /** binary.BigEndian.Uint32 */
  function BigEndian32(data: Bytes, at: nat): (v: nat)
    requires at + 4 <= |data|
    ensures v < 0x1_0000_0000
  {
    data[at] as int * 0x100_0000 + data[at + 1] as int * 0x1_0000 + data[at + 2] as int * 0x100 + data[at + 3] as int
  }

  function HeaderWidth(data: Bytes): nat
    requires |data| >= IHDR_MIN_BYTES
  {
    BigEndian32(data, IHDR_WIDTH_OFFSET)
  }

  function HeaderHeight(data: Bytes): nat
    requires |data| >= IHDR_MIN_BYTES
  {
    BigEndian32(data, IHDR_WIDTH_OFFSET + 4)
  }

  function CheckDimensions(data: Bytes): Verdict {
    if |data| < IHDR_MIN_BYTES then NotPng
    else
      var w, h := HeaderWidth(data), HeaderHeight(data);
      if w > MAX_IMAGE_DIM || h > MAX_IMAGE_DIM || w * h > MAX_IMAGE_PIXELS then TooLarge else Valid
  }

  function Validate(data: Bytes): Verdict {
    if !IsPng(data) then NotPng else CheckDimensions(data)
  }

  datatype Size = Size(width: int, height: int)

  function AtLeastOne(n: int): int {
    if n < 1 then 1 else n
  }

  /** The size computation of scaleDown. Both operands of / are positive, so it truncates as the source's does. */
  function ScaledSize(w: int, h: int, maxDim: int): Size
    requires w > 0 && h > 0
  {
    if w <= maxDim && h <= maxDim then Size(w, h)
    else if w >= h then Size(AtLeastOne(maxDim), AtLeastOne((h * maxDim) / w))
    else Size(AtLeastOne((w * maxDim) / h), AtLeastOne(maxDim))
  }

  function Min(a: int, b: int): int {
    if a < b then a else b
  }

  function Max(a: int, b: int): int {
    if a < b then b else a
  }

  lemma Quotient(a: int, b: int)
    requires a >= 0 && b > 0
    ensures a / b >= 0 && (a / b) * b <= a < (a / b + 1) * b
  {
    assert a == (a / b) * b + a % b;
  }

  lemma QuotientAtMost(a: int, b: int, most: int)
    requires a >= 0 && b > 0 && a <= most * b
    ensures a / b <= most
  {
    Quotient(a, b);
  }

  lemma ProductAtMost(a: int, b: int, c: int)
    requires a <= b && c >= 0
    ensures a * c <= b * c && c * a <= c * b
  {
  }

  /** Dividing a side by a longer one and scaling by maxDim keeps it within both. */
  lemma ScaledSide(short: int, long: int, maxDim: int)
    requires 0 < short <= long && 0 < maxDim < long
    ensures 0 <= (short * maxDim) / long <= maxDim
    ensures (short * maxDim) / long <= short
    ensures (short * maxDim) / long * long <= short * maxDim < ((short * maxDim) / long + 1) * long
  {
    ProductAtMost(short, long, maxDim);
    ProductAtMost(maxDim, long, short);
    ProductAtMost(0, short, maxDim);
    var product := short * maxDim;
    assert 0 <= product && product <= maxDim * long && product <= short * long;
    Quotient(product, long);
    QuotientAtMost(product, long, maxDim);
    QuotientAtMost(product, long, short);
  }

  /**
   What the thumbnail keeps of the ratio: the longer side is exactly
   min(maxDim, source), and the shorter one is the exact quotient less a
   fraction of a pixel, or 1 where that would be 0.
   */
  predicate KeepsRatio(short: int, long: int, newShort: int, newLong: int, maxDim: int) {
    && newLong == Min(long, maxDim)
    && (newShort * long <= short * newLong < (newShort + 1) * long || (newShort == 1 && short * newLong < long))
  }

  lemma UnscaledSide(short: int, long: int)
    requires 0 < short <= long
    ensures short * long <= short * long < (short + 1) * long
  {
  }

  /** For every size: within the bound, never larger than the source, ratio kept to less than a pixel. */
  lemma ThumbnailSize(w: int, h: int, maxDim: int)
    requires w > 0 && h > 0 && maxDim > 0
    ensures var s := ScaledSize(w, h, maxDim);
            && 1 <= s.width <= Min(w, maxDim) && 1 <= s.height <= Min(h, maxDim)
            && (if w >= h then KeepsRatio(h, w, s.height, s.width, maxDim)
                else KeepsRatio(w, h, s.width, s.height, maxDim))
  {
    if w <= maxDim && h <= maxDim {
      UnscaledSide(Min(w, h), Max(w, h));
    } else if w >= h {
      ScaledSide(h, w, maxDim);
    } else {
      ScaledSide(w, h, maxDim);
    }
  }

  /** Scaling a thumbnail again changes nothing. */
  lemma ScalingTwice(w: int, h: int, maxDim: int)
    requires w > 0 && h > 0 && maxDim > 0
    ensures var s := ScaledSize(w, h, maxDim); ScaledSize(s.width, s.height, maxDim) == s
  {
    ThumbnailSize(w, h, maxDim);
  }

  /** For an accepted header every intermediate product fits in 32 bits, whatever the platform's int. */
  lemma NoOverflow(data: Bytes)
    requires Validate(data) == Valid
    ensures |data| >= IHDR_MIN_BYTES
    ensures var w, h := HeaderWidth(data), HeaderHeight(data);
            && w <= MAX_IMAGE_DIM && h <= MAX_IMAGE_DIM && w * h <= MAX_IMAGE_PIXELS
            && w * THUMB_MAX_DIM < 0x8000_0000 && h * THUMB_MAX_DIM < 0x8000_0000
            && (w > 0 && h > 0 ==>
                  var s := ScaledSize(w, h, THUMB_MAX_DIM);
                  1 <= s.width <= THUMB_MAX_DIM && 1 <= s.height <= THUMB_MAX_DIM)
  {
    if HeaderWidth(data) > 0 && HeaderHeight(data) > 0 {
      ThumbnailSize(HeaderWidth(data), HeaderHeight(data), THUMB_MAX_DIM);
    }
  }

  // ---- What is accepted ----

  /** A number as PNG writes it, the most significant byte first (section 7.1 of the PNG specification). */
  function FourBytes(v: int): (b: Bytes)
    requires 0 <= v < 0x1_0000_0000
    ensures |b| == 4
  {
    [v / 0x100_0000, v / 0x1_0000 % 256, v / 0x100 % 256, v % 256]
  }

  lemma BytesAddUp(v: int)
    requires 0 <= v < 0x1_0000_0000
    ensures v / 0x100_0000 * 0x100_0000 + v / 0x1_0000 % 256 * 0x1_0000 + v / 0x100 % 256 * 0x100 + v % 256 == v
  {
    var a, b, c := v / 0x100, v / 0x1_0000, v / 0x100_0000;
    assert v == a * 0x100 + v % 256;
    assert a / 256 == b && a == b * 256 + a % 256;
    assert b / 256 == c && b == c * 256 + b % 256;
  }

  /** Reading four bytes gives the number they were written for. */
  lemma BigEndianReads(data: Bytes, at: nat, v: int)
    requires at + 4 <= |data| && 0 <= v < 0x1_0000_0000 && data[at..at + 4] == FourBytes(v)
    ensures BigEndian32(data, at) == v
  {
    var b := data[at..at + 4];
    assert data[at] == b[0] && data[at + 1] == b[1] && data[at + 2] == b[2] && data[at + 3] == b[3];
    BytesAddUp(v);
  }

  /** The header of a PNG of some size: the signature, the chunk's length and type, and the size, then anything. */
  ghost predicate IsHeaderOf(data: Bytes, w: int, h: int) {
    && 0 <= w < 0x1_0000_0000 && 0 <= h < 0x1_0000_0000 && |data| >= 24
    && data[..8] == [0x89, 0x50, 0x4E, 0x47, 0x0D, 0x0A, 0x1A, 0x0A]
    && data[16..20] == FourBytes(w) && data[20..24] == FourBytes(h)
  }

  /** Of data that starts like a PNG, exactly the sizes within the limits are accepted, and all others are too large. */
  lemma AcceptedSizes(data: Bytes, w: int, h: int)
    requires IsHeaderOf(data, w, h)
    ensures Validate(data) == (if w <= 20_000 && h <= 20_000 && w * h <= 40_000_000 then Valid else TooLarge)
    ensures HeaderWidth(data) == w && HeaderHeight(data) == h
  {
    BigEndianReads(data, 16, w);
    BigEndianReads(data, 20, h);
  }

  lemma FourBytesOf(data: Bytes, at: nat)
    requires at + 4 <= |data|
    ensures data[at..at + 4] == FourBytes(BigEndian32(data, at))
  {
    var v := BigEndian32(data, at);
    var p, q, r, s := data[at] as int, data[at + 1] as int, data[at + 2] as int, data[at + 3] as int;
    assert v == ((p * 256 + q) * 256 + r) * 256 + s;
    assert v / 256 == (p * 256 + q) * 256 + r && v % 256 == s;
    assert v / 0x100 / 256 == v / 0x1_0000 && v / 0x1_0000 / 256 == v / 0x100_0000;
    assert v / 0x1_0000 == p * 256 + q;
  }

  /** Everything else, and nothing else, is not taken for a PNG: no signature, or less than 24 bytes. */
  lemma RefusedData(data: Bytes)
    ensures Validate(data) == NotPng
       <==> |data| < 24 || data[..8] != [0x89, 0x50, 0x4E, 0x47, 0x0D, 0x0A, 0x1A, 0x0A]
    ensures Validate(data) != NotPng ==> exists w, h :: IsHeaderOf(data, w, h)
  {
    if Validate(data) != NotPng {
      FourBytesOf(data, 16);
      FourBytesOf(data, 20);
      assert IsHeaderOf(data, HeaderWidth(data), HeaderHeight(data));
    }
  }

  /** Thumbnails are at most 320 pixels wide and high. */
  lemma ThumbnailsAreSmall(w: int, h: int)
    requires w > 0 && h > 0
    ensures var s := ScaledSize(w, h, THUMB_MAX_DIM);
            && 1 <= s.width <= 320 && 1 <= s.height <= 320
            && (w <= 320 && h <= 320 ==> s == Size(w, h))
            && (w > 320 || h > 320 ==> s.width == 320 || s.height == 320)
  {
    ThumbnailSize(w, h, THUMB_MAX_DIM);
  }
}
