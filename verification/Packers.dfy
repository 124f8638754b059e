/**
 The panel packers of the embedded frames (backend/app/api/embedded_device.py:66-177, 241-243): an
 image is written into byte arrays, several pixels to a byte, in nested loops with `|=` and `&=`.
 */
module Packers {
  import opened Options

  datatype Rgb = Rgb(r: int, g: int, b: int)

  // ---- the nearest palette colour ---------------------------------------------------

  const SPECTRA6_PALETTE := [
    Rgb(25, 20, 38), Rgb(178, 193, 192), Rgb(199, 187, 0), Rgb(107, 17, 25), Rgb(999, 999, 999),
    Rgb(24, 83, 154), Rgb(42, 85, 49)]

  function Abs(x: int): nat {
    if x < 0 then -x else x
  }

  function Distance(p: Rgb, q: Rgb): nat {
    Abs(p.r - q.r) + Abs(p.g - q.g) + Abs(p.b - q.b)
  }

  /** `min(range(len(palette)), key=...)`: of the colours at least distance, the first. */
  function NearestPaletteIndex(rgb: Rgb, palette: seq<Rgb>): (index: nat)
    requires palette != []
    ensures index < |palette|
    ensures forall j | 0 <= j < |palette| :: Distance(rgb, palette[index]) <= Distance(rgb, palette[j])
    ensures forall j | 0 <= j < index :: Distance(rgb, palette[index]) < Distance(rgb, palette[j])
  {
    var last := |palette| - 1;
    if last == 0 then 0 else
      var best := NearestPaletteIndex(rgb, palette[..last]);
      assert forall j | 0 <= j < last :: palette[..last][j] == palette[j];
      if Distance(rgb, palette[last]) < Distance(rgb, palette[best]) then last else best
  }

  predicate Displayable(p: Rgb) {
    0 <= p.r <= 255 && 0 <= p.g <= 255 && 0 <= p.b <= 255
  }

  /** The placeholder in slot 4 of the Spectra palette is never the nearest colour. */
  lemma PlaceholderNeverNearest(rgb: Rgb)
    requires Displayable(rgb)
    ensures NearestPaletteIndex(rgb, SPECTRA6_PALETTE) != 4
  {
    assert Distance(rgb, SPECTRA6_PALETTE[0]) < Distance(rgb, SPECTRA6_PALETTE[4]);
  }

  // ---- grey levels ------------------------------------------------------------------

  /** Python's `round(numerator / denominator)`: to the nearest integer, ties to the even one. */
  function Round(numerator: nat, denominator: nat): nat
    requires denominator > 0
  {
    var q, r := numerator / denominator, numerator % denominator;
    if 2 * r < denominator || (2 * r == denominator && q % 2 == 0) then q else q + 1
  }

  function GrayLevel(gray: nat, bits: nat): nat
    requires bits in {2, 4}
  {
    Round(gray * (if bits == 2 then 3 else 15), 255)
  }

  /** A level fits its field, and shown at full scale it is close to the grey it stands for. */
  lemma GrayLevelIsClose(gray: nat, bits: nat)
    requires bits in {2, 4} && gray <= 255
    ensures bits == 2 ==> GrayLevel(gray, 2) <= 3 && Abs(85 * GrayLevel(gray, 2) - gray) <= 42
    ensures bits == 4 ==> GrayLevel(gray, 4) <= 15 && Abs(17 * GrayLevel(gray, 4) - gray) <= 8
  {}

  // ---- fields of 2 or 4 bits --------------------------------------------------------

  function PerByte(bits: nat): nat
    requires bits in {2, 4}
  {
    if bits == 2 then 4 else 2
  }

  /** The byte of a row that holds pixel `x`. */
  function ByteOf(bits: nat, x: nat): nat
    requires bits in {2, 4}
  {
    x / PerByte(bits)
  }

  function Mask(bits: nat): bv8 {
    if bits == 2 then 0x03 else 0x0F
  }

  /** The first pixel of a byte is in its highest bits. */
  function Shift(bits: nat, x: nat): (s: bv8)
    requires bits in {2, 4}
    ensures s <= 6
  {
    if bits == 2 then (match x % 4 case 0 => 6 case 1 => 4 case 2 => 2 case _ => 0)
    else if x % 2 == 0 then 4 else 0
  }

  /** Reading pixel `x` back out of its byte. */
  function Field(b: bv8, bits: nat, x: nat): bv8
    requires bits in {2, 4}
  {
    (b >> Shift(bits, x)) & Mask(bits)
  }

  function WithField(b: bv8, bits: nat, x: nat, value: nat): bv8
    requires bits in {2, 4} && value < 16
  {
    b | (((value as bv8) & Mask(bits)) << Shift(bits, x))
  }

  lemma OrSetsOneField(b: bv8, bits: nat, x: nat, value: nat, z: nat)
    requires bits in {2, 4} && value < 16 && Field(b, bits, x) == 0
    ensures Field(WithField(b, bits, x, value), bits, z)
         == if z % PerByte(bits) == x % PerByte(bits) then (value as bv8) & Mask(bits) else Field(b, bits, z)
  {}

  /** Where the fields of a byte are: four of two bits, or two of four, the first one highest. */
  lemma FieldLayout(b: bv8, x: nat)
    ensures Field(b, 2, x) ==
            if x % 4 == 0 then (b & 0xC0) >> 6 else if x % 4 == 1 then (b & 0x30) >> 4
            else if x % 4 == 2 then (b & 0x0C) >> 2 else b & 0x03
    ensures Field(b, 4, x) == if x % 2 == 0 then (b & 0xF0) >> 4 else b & 0x0F
  {}

  function RowBytes(width: nat, bits: nat): nat
    requires bits in {2, 4}
  {
    (width + PerByte(bits) - 1) / PerByte(bits)
  }

  /** `y * row`, counted row by row: the byte at which row `y` starts. */
  function RowStart(y: nat, row: nat): nat {
    if y == 0 then 0 else RowStart(y - 1, row) + row
  }

  lemma {:induction false} RowStartIsProduct(y: nat, row: nat)
    ensures RowStart(y, row) == y * row
  {
    if y > 0 {
      RowStartIsProduct(y - 1, row);
      assert y * row == (y - 1) * row + row;
    }
  }

  /** Rows follow each other; row `y` lies before the end of the `height` rows. */
  lemma {:induction false} RowFits(y: nat, row: nat, height: nat)
    requires y < height
    ensures RowStart(0, row) == 0 && RowStart(y + 1, row) == RowStart(y, row) + row
    ensures RowStart(y, row) + row <= RowStart(height - 1, row) + row == RowStart(height, row)
    ensures y < height - 1 ==> RowStart(y, row) + row <= RowStart(height - 1, row)
  {
    if y < height - 1 {
      RowFits(y, row, height - 1);
    }
  }

  function Zeros(n: nat): seq<bv8> {
    seq(n, i => 0)
  }

  /** A row after its first `n` pixels. */
  ghost function RowAfter(value: nat -> nat, width: nat, bits: nat, n: nat): (row: seq<bv8>)
    requires bits in {2, 4} && n <= width && forall x: nat :: value(x) < 16
    ensures |row| == RowBytes(width, bits)
  {
    hide WithField, Shift, Mask;
    if n == 0 then Zeros(RowBytes(width, bits)) else
      var before := RowAfter(value, width, bits, n - 1);
      var at := ByteOf(bits, n - 1);
      before[at := WithField(before[at], bits, n - 1, value(n - 1))]
  }

  /** In a row every pixel written reads back, whatever was written after it; the others, padding
      included, read zero. */
  lemma {:induction false} RowReadsBack(value: nat -> nat, width: nat, bits: nat, n: nat, x: nat)
    requires bits in {2, 4} && n <= width && forall z: nat :: value(z) < 16
    requires x < RowBytes(width, bits) * PerByte(bits)
    ensures Field(RowAfter(value, width, bits, n)[ByteOf(bits, x)], bits, x)
         == if x < n then (value(x) as bv8) & Mask(bits) else 0
  {
    hide Field, WithField, RowBytes, RowAfter, Mask, PerByte, ByteOf;
    InsideRow(x, width, bits);
    if n == 0 {
      EmptyRow(value, width, bits);
      ZeroField(bits, x);
    } else {
      var before := RowAfter(value, width, bits, n - 1);
      var at := ByteOf(bits, n - 1);
      RowStep(value, width, bits, n - 1);
      RowReadsBack(value, width, bits, n - 1, x);
      if ByteOf(bits, x) == at {
        InsideRow(n - 1, width, bits);
        RowReadsBack(value, width, bits, n - 1, n - 1);
        FieldAfterOr(before[at], bits, n - 1, value(n - 1), x);
      }
    }
  }

  /** Within one byte the field written changes and the others stay. */
  lemma FieldAfterOr(b: bv8, bits: nat, x: nat, value: nat, z: nat)
    requires bits in {2, 4} && value < 16 && Field(b, bits, x) == 0 && ByteOf(bits, x) == ByteOf(bits, z)
    ensures Field(WithField(b, bits, x, value), bits, z)
         == if z == x then (value as bv8) & Mask(bits) else Field(b, bits, z)
  {
    OrSetsOneField(b, bits, x, value, z);
    SameByteSameField(bits, x, z);
    hide Field, WithField, Mask;
  }

  lemma InsideRow(x: nat, width: nat, bits: nat)
    requires bits in {2, 4}
    ensures width <= RowBytes(width, bits) * PerByte(bits)
    ensures x < RowBytes(width, bits) * PerByte(bits) <==> ByteOf(bits, x) < RowBytes(width, bits)
  {}

  lemma ZeroField(bits: nat, x: nat)
    requires bits in {2, 4}
    ensures Field(0, bits, x) == 0
  {}

  lemma SameByteSameField(bits: nat, x: nat, z: nat)
    requires bits in {2, 4} && ByteOf(bits, x) == ByteOf(bits, z)
    ensures x % PerByte(bits) == z % PerByte(bits) <==> x == z
  {}

  /** The values of one row of pixels. */
  function RowOf(value: (nat, nat) -> nat, y: nat): nat -> nat {
    (x: nat) => value(x, y)
  }

  lemma RowOfFits(value: (nat, nat) -> nat, y: nat)
    requires forall x: nat, z: nat :: value(x, z) < 16
    ensures forall x: nat :: RowOf(value, y)(x) < 16
  {}

  /** The first `h` rows, one after the other. */
  ghost function Rows(value: (nat, nat) -> nat, width: nat, bits: nat, h: nat): (bytes: seq<bv8>)
    requires bits in {2, 4} && forall x: nat, y: nat :: value(x, y) < 16
    ensures |bytes| == RowStart(h, RowBytes(width, bits))
  {
    if h == 0 then [] else Rows(value, width, bits, h - 1) + RowAfter(RowOf(value, h - 1), width, bits, width)
  }

  lemma {:induction false} RowInRows(value: (nat, nat) -> nat, width: nat, bits: nat, h: nat, y: nat, j: nat)
    requires bits in {2, 4} && (forall x: nat, z: nat :: value(x, z) < 16) && y < h && j < RowBytes(width, bits)
    ensures 0 <= RowStart(y, RowBytes(width, bits)) + j < RowStart(h, RowBytes(width, bits))
    ensures Rows(value, width, bits, h)[RowStart(y, RowBytes(width, bits)) + j]
         == RowAfter(RowOf(value, y), width, bits, width)[j]
  {
    hide RowAfter, RowBytes, RowStart;
    RowFits(y, RowBytes(width, bits), h);
    if y < h - 1 {
      RowInRows(value, width, bits, h - 1, y, j);
    }
  }

  /** The nested loops of `_pack_2bpp_gray`, `_pack_4bpp_gray` and `_pack_palette`, which differ in
      the value they give a pixel. */
  method PackFields(width: nat, height: nat, bits: nat, value: (nat, nat) -> nat) returns (bytes: seq<bv8>)
    requires bits in {2, 4} && forall x: nat, y: nat :: value(x, y) < 16
    ensures bytes == Rows(value, width, bits, height)
  {
    hide RowAfter, RowBytes, RowOf, PerByte, RowStart;
    var row := RowBytes(width, bits);
    var out := new bv8[RowStart(height, row)](i => 0);
    var base := 0;
    assert |Rows(value, width, bits, 0)| == 0;
    for y := 0 to height
      invariant 0 <= base == RowStart(y, row) <= out.Length
      invariant out[..base] == Rows(value, width, bits, y)
      invariant forall k | base <= k < out.Length :: out[k] == 0
    {
      RowFits(y, row, height);
      ZeroSlice(out, base, row);
      RowOfFits(value, y);
      PackRow(out, base, width, bits, RowOf(value, y));
      TwoSlices(out, base, base + row);
      base := base + row;
    }
    return out[..];
  }

  lemma ZeroSlice(a: array<bv8>, from: nat, count: nat)
    requires from + count <= a.Length && forall k | from <= k < from + count :: a[k] == 0
    ensures a[from..from + count] == Zeros(count)
  {}

  lemma TwoSlices(a: array<bv8>, i: nat, j: nat)
    requires i <= j <= a.Length
    ensures a[..j] == a[..i] + a[i..j]
  {}

  /** The inner loop: one row, starting at byte `base`. */
  method PackRow(out: array<bv8>, base: nat, width: nat, bits: nat, value: nat -> nat)
    requires bits in {2, 4} && forall x: nat :: value(x) < 16
    requires base + RowBytes(width, bits) <= out.Length
    requires out[base..base + RowBytes(width, bits)] == Zeros(RowBytes(width, bits))
    modifies out
    ensures out[base..base + RowBytes(width, bits)] == RowAfter(value, width, bits, width)
    ensures out[..base] == old(out[..base])
    ensures forall k | base + RowBytes(width, bits) <= k < out.Length :: out[k] == old(out[k])
  {
    hide RowAfter, WithField, RowBytes;
    ghost var row := RowBytes(width, bits);
    EmptyRow(value, width, bits);
    for x := 0 to width
      invariant out[base..base + row] == RowAfter(value, width, bits, x)
      invariant out[..base] == old(out[..base])
      invariant forall k | base + row <= k < out.Length :: out[k] == old(out[k])
    {
      ghost var before := RowAfter(value, width, bits, x);
      var at := ByteOf(bits, x);
      RowStep(value, width, bits, x);
      assert out[base + at] == out[base..base + row][at] == before[at];
      out[base + at] := WithField(out[base + at], bits, x, value(x));
      assert out[base..base + row] == before[at := WithField(before[at], bits, x, value(x))];
    }
  }

  lemma EmptyRow(value: nat -> nat, width: nat, bits: nat)
    requires bits in {2, 4} && forall x: nat :: value(x) < 16
    ensures RowAfter(value, width, bits, 0) == Zeros(RowBytes(width, bits))
  {}

  lemma RowStep(value: nat -> nat, width: nat, bits: nat, x: nat)
    requires bits in {2, 4} && x < width && forall x: nat :: value(x) < 16
    ensures var at := ByteOf(bits, x);
            at < RowBytes(width, bits) &&
            var before := RowAfter(value, width, bits, x);
            RowAfter(value, width, bits, x + 1) == before[at := WithField(before[at], bits, x, value(x))]
  {
    hide WithField;
    InsideRow(x, width, bits);
    hide RowBytes;
  }

  /** What a packed image holds: rows padded to whole bytes, every pixel at its place, zeros in the
      padding. */
  ghost predicate Holds(bytes: seq<bv8>, width: nat, height: nat, bits: nat, value: (nat, nat) -> nat)
    requires bits in {2, 4} && forall x: nat, y: nat :: value(x, y) < 16
  {
    var row := RowBytes(width, bits);
    |bytes| == RowStart(height, row) &&
    forall x: nat, y: nat | y < height && x < row * PerByte(bits) ::
      PixelAt(bytes, width, bits, x, y) == Some(if x < width then (value(x, y) as bv8) & Mask(bits) else 0)
  }

  /** Decoding: the field of pixel (x, y). */
  function PixelAt(bytes: seq<bv8>, width: nat, bits: nat, x: nat, y: nat): Option<bv8>
    requires bits in {2, 4}
  {
    var at := RowStart(y, RowBytes(width, bits)) + ByteOf(bits, x);
    if at < |bytes| then Some(Field(bytes[at], bits, x)) else None
  }

  lemma RowsHold(value: (nat, nat) -> nat, width: nat, height: nat, bits: nat)
    requires bits in {2, 4} && forall x: nat, y: nat :: value(x, y) < 16
    ensures Holds(Rows(value, width, bits, height), width, height, bits, value)
  {
    hide RowAfter, Field, RowBytes, Rows, RowStart, ByteOf, PerByte;
    var bytes, row := Rows(value, width, bits, height), RowBytes(width, bits);
    forall x: nat, y: nat | y < height && x < row * PerByte(bits)
      ensures PixelAt(bytes, width, bits, x, y) == Some(if x < width then (value(x, y) as bv8) & Mask(bits) else 0)
    {
      InsideRow(x, width, bits);
      RowInRows(value, width, bits, height, y, ByteOf(bits, x));
      RowReadsBack(RowOf(value, y), width, bits, width, x);
    }
  }

  /** A pixel of two bits, and one of four, read by masks from the byte at a position. */
  function TwoBits(bytes: seq<bv8>, at: int, x: nat): Option<bv8> {
    if !(0 <= at < |bytes|) then None
    else Some(if x % 4 == 0 then (bytes[at] & 0xC0) >> 6 else if x % 4 == 1 then (bytes[at] & 0x30) >> 4
              else if x % 4 == 2 then (bytes[at] & 0x0C) >> 2 else bytes[at] & 0x03)
  }

  function FourBits(bytes: seq<bv8>, at: int, x: nat): Option<bv8> {
    if !(0 <= at < |bytes|) then None
    else Some(if x % 2 == 0 then (bytes[at] & 0xF0) >> 4 else bytes[at] & 0x0F)
  }

  /** The layout of a whole buffer, in numbers: rows of whole bytes one after the other, and in them
      four or two pixels a byte, the first one highest. */
  lemma BufferLayout(bytes: seq<bv8>, width: nat, height: nat, x: nat, y: nat)
    ensures RowStart(height, RowBytes(width, 2)) == height * ((width + 3) / 4)
    ensures RowStart(height, RowBytes(width, 4)) == height * ((width + 1) / 2)
    ensures PixelAt(bytes, width, 2, x, y) == TwoBits(bytes, y * ((width + 3) / 4) + x / 4, x)
    ensures PixelAt(bytes, width, 4, x, y) == FourBits(bytes, y * ((width + 1) / 2) + x / 2, x)
  {
    hide Field, RowStart;
    RowStartIsProduct(y, RowBytes(width, 2));
    RowStartIsProduct(y, RowBytes(width, 4));
    RowStartIsProduct(height, RowBytes(width, 2));
    RowStartIsProduct(height, RowBytes(width, 4));
    var two, four := RowStart(y, RowBytes(width, 2)) + x / 4, RowStart(y, RowBytes(width, 4)) + x / 2;
    if two < |bytes| { FieldLayout(bytes[two], x); }
    if four < |bytes| { FieldLayout(bytes[four], x); }
  }

  lemma ValueFits(value: nat, bits: nat)
    requires bits in {2, 4} && value < (if bits == 2 then 4 else 16)
    ensures (value as bv8) & Mask(bits) == value as bv8
  {}

  // ---- the packers ------------------------------------------------------------------

  /** An image: its size and what `getpixel` answers. */
  datatype Image<T> = Image(width: nat, height: nat, pixel: (nat, nat) -> T)

  ghost predicate Gray8(image: Image<nat>) {
    forall x: nat, y: nat :: image.pixel(x, y) <= 255
  }

  /** `_pack_2bpp_gray` and `_pack_4bpp_gray`: every pixel decodes to its grey level. */
  method PackGray(image: Image<nat>, bits: nat) returns (bytes: seq<bv8>)
    requires bits in {2, 4} && Gray8(image)
    ensures |bytes| == RowStart(image.height, RowBytes(image.width, bits))
    ensures forall x: nat, y: nat | x < image.width && y < image.height ::
              GrayLevel(image.pixel(x, y), bits) <= 15 &&
              PixelAt(bytes, image.width, bits, x, y) == Some(GrayLevel(image.pixel(x, y), bits) as bv8)
    ensures forall x: nat, y: nat |
              image.width <= x < RowBytes(image.width, bits) * PerByte(bits) && y < image.height ::
              PixelAt(bytes, image.width, bits, x, y) == Some(0)
  {
    hide Round, PixelAt, Rows;
    forall x: nat, y: nat ensures GrayLevel(image.pixel(x, y), bits) < (if bits == 2 then 4 else 16) {
      GrayLevelIsClose(image.pixel(x, y), bits);
    }
    var value := (x: nat, y: nat) => GrayLevel(image.pixel(x, y), bits);
    bytes := PackFields(image.width, image.height, bits, value);
    RowsHold(value, image.width, image.height, bits);
    forall x: nat, y: nat | x < image.width && y < image.height
      ensures PixelAt(bytes, image.width, bits, x, y) == Some(GrayLevel(image.pixel(x, y), bits) as bv8)
    {
      ValueFits(value(x, y), bits);
    }
  }

  /** `_pack_palette`: every pixel decodes to the index of its nearest palette colour. */
  method PackPalette(image: Image<Rgb>, palette: seq<Rgb>, bits: nat) returns (bytes: seq<bv8>)
    requires bits in {2, 4} && 0 < |palette| <= (if bits == 2 then 4 else 16)
    ensures |bytes| == RowStart(image.height, RowBytes(image.width, bits))
    ensures forall x: nat, y: nat | x < image.width && y < image.height ::
              PixelAt(bytes, image.width, bits, x, y) == Some(NearestPaletteIndex(image.pixel(x, y), palette) as bv8)
    ensures forall x: nat, y: nat |
              image.width <= x < RowBytes(image.width, bits) * PerByte(bits) && y < image.height ::
              PixelAt(bytes, image.width, bits, x, y) == Some(0)
  {
    hide PixelAt, Rows;
    forall x: nat, y: nat ensures NearestPaletteIndex(image.pixel(x, y), palette) < |palette| {}
    var value := (x: nat, y: nat) => NearestPaletteIndex(image.pixel(x, y), palette);
    bytes := PackFields(image.width, image.height, bits, value);
    RowsHold(value, image.width, image.height, bits);
    forall x: nat, y: nat | x < image.width && y < image.height
      ensures PixelAt(bytes, image.width, bits, x, y) == Some(NearestPaletteIndex(image.pixel(x, y), palette) as bv8)
    {
      ValueFits(value(x, y), bits);
    }
  }

  /** The distance is the sum over the three channels, so a colour of the palette is shown as itself,
      or as the same colour in an earlier slot. */
  lemma OwnColourIsNearest(palette: seq<Rgb>, i: nat, p: Rgb)
    requires i < |palette|
    ensures var d := Distance(p, palette[i]);
            d == Max(p.r - palette[i].r, palette[i].r - p.r) + Max(p.g - palette[i].g, palette[i].g - p.g)
                 + Max(p.b - palette[i].b, palette[i].b - p.b)
    ensures palette[NearestPaletteIndex(palette[i], palette)] == palette[i]
    ensures NearestPaletteIndex(palette[i], palette) <= i
  {
    hide NearestPaletteIndex;
    var nearest := NearestPaletteIndex(palette[i], palette);
    assert Distance(palette[i], palette[i]) == 0;
    assert Distance(palette[i], palette[nearest]) <= 0;
  }

  function Max(x: int, y: int): int {
    if x < y then y else x
  }

  /** On the Spectra panel every pixel decodes to a colour the panel has. */
  lemma SpectraPixelsAreColours(image: Image<Rgb>, bytes: seq<bv8>, x: nat, y: nat)
    requires Displayable(image.pixel(x, y))
    requires PixelAt(bytes, image.width, 4, x, y) ==
             Some(NearestPaletteIndex(image.pixel(x, y), SPECTRA6_PALETTE) as bv8)
    ensures PixelAt(bytes, image.width, 4, x, y).value in {0, 1, 2, 3, 5, 6}
  {
    hide PixelAt, NearestPaletteIndex;
    PlaceholderNeverNearest(image.pixel(x, y));
    var index := NearestPaletteIndex(image.pixel(x, y), SPECTRA6_PALETTE);
    assert index in {0, 1, 2, 3, 5, 6};
  }

  // ---- two planes of single bits ----------------------------------------------------

  /** `0x80 >> (x & 7)`. */
  function Bit(x: nat): bv8 {
    0x80 >> ((x % 8) as bv8)
  }

  predicate BitIsSet(b: bv8, x: nat) {
    b & Bit(x) != 0
  }

  function ClearBit(b: bv8, x: nat): bv8 {
    b & !Bit(x)
  }

  lemma SingleBits(x: nat, z: nat)
    ensures Bit(x) != 0 && (x % 8 == z % 8 ==> Bit(x) == Bit(z)) && (x % 8 != z % 8 ==> Bit(x) & Bit(z) == 0)
  {
    BitTable(x);
    BitTable(z);
    hide Bit;
    var i, j := x % 8, z % 8;
    assert i in {0, 1, 2, 3, 4, 5, 6, 7} && j in {0, 1, 2, 3, 4, 5, 6, 7};
  }

  lemma BitTable(x: nat)
    ensures Bit(x) == [0x80, 0x40, 0x20, 0x10, 0x08, 0x04, 0x02, 0x01][x % 8]
  {
    assert x % 8 in {0, 1, 2, 3, 4, 5, 6, 7};
  }

  /** Where the bits of a plane are, in numbers: eight pixels a byte, the first one highest. */
  lemma PlaneLayout(plane: seq<bv8>, width: nat, height: nat, x: nat, y: nat)
    requires x < width && y < height && |plane| == height * ((width + 7) / 8)
    ensures RowStart(height, PlaneRowBytes(width)) == height * ((width + 7) / 8)
    ensures var at := y * ((width + 7) / 8) + x / 8;
            at < |plane| && PlaneBit(plane, width, x, y) ==
            Some(plane[at] & [0x80, 0x40, 0x20, 0x10, 0x08, 0x04, 0x02, 0x01][x % 8] != 0)
  {
    hide Bit, RowStart;
    RowStartIsProduct(y, PlaneRowBytes(width));
    RowStartIsProduct(height, PlaneRowBytes(width));
    RowFits(y, PlaneRowBytes(width), height);
    BitTable(x);
  }

  lemma ClearedBits(b: bv8, cleared: bv8, asked: bv8)
    requires asked != 0
    ensures cleared & asked == 0 ==> (b & !cleared) & asked == b & asked
    ensures (b & !asked) & asked == 0
  {}

  lemma ClearBitClearsOne(b: bv8, x: nat, z: nat)
    ensures BitIsSet(ClearBit(b, x), z) <==> BitIsSet(b, z) && z % 8 != x % 8
  {
    SingleBits(x, z);
    SingleBits(z, x);
    ClearedBits(b, Bit(x), Bit(z));
    hide Bit;
  }

  function PlaneRowBytes(width: nat): nat {
    (width + 7) / 8
  }

  /** One row of a plane after the first `n` pixels, the chosen ones of which are cleared. */
  ghost function PlaneRow(chosen: nat -> bool, width: nat, n: nat): (row: seq<bv8>)
    requires n <= width
    ensures |row| == PlaneRowBytes(width)
  {
    if n == 0 then seq(PlaneRowBytes(width), i => 0xFF) else
      var before := PlaneRow(chosen, width, n - 1);
      var at := (n - 1) / 8;
      if chosen(n - 1) then before[at := ClearBit(before[at], n - 1)] else before
  }

  /** A bit of a row is cleared exactly for a chosen pixel; padding keeps its bits. */
  lemma {:induction false} PlaneRowReadsBack(chosen: nat -> bool, width: nat, n: nat, x: nat)
    requires n <= width && x < 8 * PlaneRowBytes(width)
    ensures BitIsSet(PlaneRow(chosen, width, n)[x / 8], x) <==> !(x < n && chosen(x))
  {
    hide BitIsSet, ClearBit;
    if n == 0 {
      ClearBitClearsOne(0xFF, x + 1, x);
      FreshBit(x);
    } else {
      PlaneRowReadsBack(chosen, width, n - 1, x);
      var before := PlaneRow(chosen, width, n - 1);
      if x / 8 == (n - 1) / 8 {
        ClearBitClearsOne(before[x / 8], n - 1, x);
      }
    }
  }

  lemma FreshBit(x: nat)
    ensures BitIsSet(0xFF, x)
  {
    assert x % 8 in {0, 1, 2, 3, 4, 5, 6, 7};
  }

  function ChosenIn(chosen: (nat, nat) -> bool, y: nat): nat -> bool {
    (x: nat) => chosen(x, y)
  }

  ghost function Plane(chosen: (nat, nat) -> bool, width: nat, h: nat): (bytes: seq<bv8>)
    ensures |bytes| == RowStart(h, PlaneRowBytes(width))
  {
    if h == 0 then [] else Plane(chosen, width, h - 1) + PlaneRow(ChosenIn(chosen, h - 1), width, width)
  }

  lemma {:induction false} RowInPlane(chosen: (nat, nat) -> bool, width: nat, h: nat, y: nat, j: nat)
    requires y < h && j < PlaneRowBytes(width)
    ensures 0 <= RowStart(y, PlaneRowBytes(width)) + j < RowStart(h, PlaneRowBytes(width))
    ensures Plane(chosen, width, h)[RowStart(y, PlaneRowBytes(width)) + j] ==
            PlaneRow(ChosenIn(chosen, y), width, width)[j]
  {
    hide PlaneRow, PlaneRowBytes, RowStart;
    RowFits(y, PlaneRowBytes(width), h);
    if y < h - 1 {
      RowInPlane(chosen, width, h - 1, y, j);
    }
  }

  /** The bit of pixel (x, y) in a plane. */
  function PlaneBit(plane: seq<bv8>, width: nat, x: nat, y: nat): Option<bool> {
    var at := RowStart(y, PlaneRowBytes(width)) + x / 8;
    if at < |plane| then Some(BitIsSet(plane[at], x)) else None
  }

  lemma PlaneReadsBack(chosen: (nat, nat) -> bool, width: nat, height: nat, x: nat, y: nat)
    requires y < height && x < 8 * PlaneRowBytes(width)
    ensures PlaneBit(Plane(chosen, width, height), width, x, y) == Some(!(x < width && chosen(x, y)))
  {
    hide PlaneRow, Plane, BitIsSet;
    RowInPlane(chosen, width, height, y, x / 8);
    PlaneRowReadsBack(ChosenIn(chosen, y), width, width, x);
  }

  function DualPalette(accent: Rgb): seq<Rgb> {
    [Rgb(0, 0, 0), accent, Rgb(255, 255, 255)]
  }

  /** Black pixels are in the first plane, pixels of the accent in the second, white ones in neither. */
  lemma DualColours(accent: Rgb)
    requires accent != Rgb(0, 0, 0) && accent != Rgb(255, 255, 255)
    ensures NearestPaletteIndex(Rgb(0, 0, 0), DualPalette(accent)) == 0
    ensures NearestPaletteIndex(accent, DualPalette(accent)) == 1
    ensures NearestPaletteIndex(Rgb(255, 255, 255), DualPalette(accent)) == 2
  {
    hide NearestPaletteIndex, Distance;
    OwnColourIsNearest(DualPalette(accent), 0, accent);
    OwnColourIsNearest(DualPalette(accent), 1, accent);
    OwnColourIsNearest(DualPalette(accent), 2, accent);
  }

  /** `_pack_dual_1bpp`: a plane whose bits are cleared for black pixels, then one for the accent
      colour. No pixel is cleared in both, and padding is cleared in neither. */
  method PackDual(image: Image<Rgb>, accent: Rgb) returns (black: seq<bv8>, color: seq<bv8>, bytes: seq<bv8>)
    ensures bytes == black + color
    ensures |black| == |color| == RowStart(image.height, PlaneRowBytes(image.width))
    ensures forall x: nat, y: nat | x < 8 * PlaneRowBytes(image.width) && y < image.height ::
              PlaneBit(black, image.width, x, y)
              == Some(!(x < image.width && NearestPaletteIndex(image.pixel(x, y), DualPalette(accent)) == 0)) &&
              PlaneBit(color, image.width, x, y)
              == Some(!(x < image.width && NearestPaletteIndex(image.pixel(x, y), DualPalette(accent)) == 1)) &&
              !(PlaneBit(black, image.width, x, y) == PlaneBit(color, image.width, x, y) == Some(false))
  {
    hide PlaneRowBytes, NearestPaletteIndex, Plane, PlaneBit;
    black, color := PackPlanes(image, accent);
    bytes := black + color;
    forall x: nat, y: nat | x < 8 * PlaneRowBytes(image.width) && y < image.height
      ensures PlaneBit(black, image.width, x, y) == Some(!(x < image.width && IndexIs(image, accent, 0)(x, y)))
      ensures PlaneBit(color, image.width, x, y) == Some(!(x < image.width && IndexIs(image, accent, 1)(x, y)))
    {
      PlaneReadsBack(IndexIs(image, accent, 0), image.width, image.height, x, y);
      PlaneReadsBack(IndexIs(image, accent, 1), image.width, image.height, x, y);
    }
  }

  /** The pixels whose nearest colour is the given one. */
  function IndexIs(image: Image<Rgb>, accent: Rgb, index: nat): (nat, nat) -> bool {
    (x: nat, y: nat) => NearestPaletteIndex(image.pixel(x, y), DualPalette(accent)) == index
  }

  method PackPlanes(image: Image<Rgb>, accent: Rgb) returns (black: seq<bv8>, color: seq<bv8>)
    ensures black == Plane(IndexIs(image, accent, 0), image.width, image.height)
    ensures color == Plane(IndexIs(image, accent, 1), image.width, image.height)
  {
    hide *;
    var height, row := image.height, PlaneRowBytes(image.width);
    var blackBits := new bv8[RowStart(height, row)](i => 0xFF);
    var colorBits := new bv8[RowStart(height, row)](i => 0xFF);
    ghost var isBlack, isColor := IndexIs(image, accent, 0), IndexIs(image, accent, 1);
    NoRows(isBlack, image.width);
    NoRows(isColor, image.width);
    UntouchedFrom(blackBits);
    UntouchedFrom(colorBits);
    var base := 0;
    for y := 0 to height
      invariant 0 <= base == RowStart(y, row) <= blackBits.Length == colorBits.Length
      invariant blackBits[..base] == Plane(isBlack, image.width, y)
      invariant colorBits[..base] == Plane(isColor, image.width, y)
      invariant Untouched(blackBits, base) && Untouched(colorBits, base)
    {
      RowFits(y, row, height);
      PackDualRow(image, accent, y, blackBits, colorBits, base);
      PlaneNext(isBlack, image.width, y);
      PlaneNext(isColor, image.width, y);
      TwoSlices(blackBits, base, base + row);
      TwoSlices(colorBits, base, base + row);
      base := base + row;
    }
    return blackBits[..], colorBits[..];
  }

  lemma NoRows(chosen: (nat, nat) -> bool, width: nat)
    ensures Plane(chosen, width, 0) == []
  {}

  lemma PlaneNext(chosen: (nat, nat) -> bool, width: nat, y: nat)
    ensures Plane(chosen, width, y + 1) == Plane(chosen, width, y) + PlaneRow(ChosenIn(chosen, y), width, width)
  {}

  /** Every bit from byte `from` on is still set. */
  ghost predicate Untouched(plane: array<bv8>, from: nat)
    reads plane
  {
    forall k | from <= k < plane.Length :: plane[k] == 0xFF
  }

  lemma UntouchedFrom(plane: array<bv8>)
    requires forall k | 0 <= k < plane.Length :: plane[k] == 0xFF
    ensures Untouched(plane, 0)
  {}

  /** `plane[base + x // 8] &= ...` for a chosen pixel of the row. */
  method ClearPixel(plane: array<bv8>, base: nat, width: nat, x: nat, ghost chosen: nat -> bool)
    requires x < width && chosen(x) && base + PlaneRowBytes(width) <= plane.Length
    requires plane[base..base + PlaneRowBytes(width)] == PlaneRow(chosen, width, x)
    modifies plane
    ensures plane[..base] == old(plane[..base])
    ensures plane[base..base + PlaneRowBytes(width)] == PlaneRow(chosen, width, x + 1)
    ensures forall k | base + PlaneRowBytes(width) <= k < plane.Length :: plane[k] == old(plane[k])
  {
    hide PlaneRow, ClearBit;
    PlaneRowStep(chosen, width, x);
    var offset := base + x / 8;
    assert plane[offset] == plane[base..base + PlaneRowBytes(width)][x / 8];
    plane[offset] := ClearBit(plane[offset], x);
  }

  /** The inner loop: one row of both planes, starting at byte `base`. */
  method PackDualRow(image: Image<Rgb>, accent: Rgb, y: nat, black: array<bv8>, color: array<bv8>, base: nat)
    requires black != color && black.Length == color.Length
    requires base + PlaneRowBytes(image.width) <= black.Length
    requires Untouched(black, base) && Untouched(color, base)
    modifies black, color
    ensures black[..base] == old(black[..base]) && color[..base] == old(color[..base])
    ensures black[base..base + PlaneRowBytes(image.width)]
         == PlaneRow(ChosenIn(IndexIs(image, accent, 0), y), image.width, image.width)
    ensures color[base..base + PlaneRowBytes(image.width)]
         == PlaneRow(ChosenIn(IndexIs(image, accent, 1), y), image.width, image.width)
    ensures Untouched(black, base + PlaneRowBytes(image.width)) && Untouched(color, base + PlaneRowBytes(image.width))
  {
    hide PlaneRow, NearestPaletteIndex, ClearBit, PlaneRowBytes;
    var row := PlaneRowBytes(image.width);
    ghost var isBlack, isColor := ChosenIn(IndexIs(image, accent, 0), y), ChosenIn(IndexIs(image, accent, 1), y);
    PlaneRowStart(isBlack, image.width);
    PlaneRowStart(isColor, image.width);
    for x := 0 to image.width
      invariant black[..base] == old(black[..base]) && color[..base] == old(color[..base])
      invariant black[base..base + row] == PlaneRow(isBlack, image.width, x)
      invariant color[base..base + row] == PlaneRow(isColor, image.width, x)
      invariant Untouched(black, base + row) && Untouched(color, base + row)
    {
      PlaneRowStep(isBlack, image.width, x);
      PlaneRowStep(isColor, image.width, x);
      var index := NearestPaletteIndex(image.pixel(x, y), DualPalette(accent));
      if index == 0 {
        ClearPixel(black, base, image.width, x, isBlack);
      } else if index == 1 {
        ClearPixel(color, base, image.width, x, isColor);
      }
    }
  }

  lemma PlaneRowStart(chosen: nat -> bool, width: nat)
    ensures PlaneRow(chosen, width, 0) == seq(PlaneRowBytes(width), i => 0xFF)
  {}

  lemma PlaneRowStep(chosen: nat -> bool, width: nat, x: nat)
    requires x < width
    ensures x / 8 < PlaneRowBytes(width) &&
            var before := PlaneRow(chosen, width, x);
            PlaneRow(chosen, width, x + 1) == if chosen(x) then before[x / 8 := ClearBit(before[x / 8], x)] else before
  {}
}
