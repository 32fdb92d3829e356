/** One-bit glyph packing for the Unifont bitmaps, read back by the independent
    plain-pixel reader of the font compressor. */
module UnifontGlyph {
  import opened Wrappers
  import opened Division
  import opened Bits
  import opened GlyphCodec

  /** A parsed glyph; the parser guarantees one row value per pixel row. */
  datatype BdfGlyph = BdfGlyph(width: nat, height: nat, rows: seq<nat>) {
    predicate Valid() {
      |rows| == height
    }

    /** The grid that the font generator insists on. */
    predicate Native() {
      (width == 8 || width == 16) && height == 16
    }

    function RowBytes(): nat {
      (width + 7) / 8
    }

    /** One row as 0/255 opacities, left to right. */
    function RowPixels(row: nat): (pixels: seq<nat>)
      requires row < |rows|
      ensures |pixels| == width
    {
      seq(width, column requires 0 <= column < width =>
        if rows[row] / Pow2(width - 1 - column) % 2 == 1 then 255 else 0)
    }

    /** The opacities of the first `n` rows, one after the other. */
    function FlatPixels(n: nat): seq<nat>
      requires n <= |rows|
    {
      if n == 0 then [] else FlatPixels(n - 1) + RowPixels(n - 1)
    }

    /** The bits of the packed glyph: each row padded to whole bytes. */
    ghost function PackedBits(n: nat): (bits: seq<Bit>)
      requires n <= |rows|
      ensures |bits| == n * (8 * RowBytes())
    {
      if n == 0 then [] else PackedBits(n - 1) + (Binary(rows[n - 1], width) + Zeros(8 * RowBytes() - width))
    }
  }

  lemma {:induction false} BinaryAt(value: int, width: nat, k: nat)
    requires k < width
    ensures Binary(value, width)[k] == value / Pow2(width - 1 - k) % 2
    decreases width
  {
    if k < width - 1 {
      BinaryAt(value / 2, width - 1, k);
      DivTwice(value, width - 2 - k);
    }
  }

  lemma DivTwice(v: int, i: nat)
    ensures v / 2 / Pow2(i) == v / Pow2(i + 1)
  {
    var m := Pow2(i);
    var q := v / 2 / m;
    var r := v / 2 % m;
    assert v / 2 == q * m + r;
    assert 2 * (q * m) == q * (2 * m);
    DivModUnique(v, 2 * m, q, 2 * r + v % 2);
  }

  lemma RowPixelBit(g: BdfGlyph, row: nat, column: nat)
    requires row < |g.rows| && column < g.width
    ensures g.RowPixels(row)[column] == 255 * (Binary(g.rows[row], g.width)[column] as int)
  {
    BinaryAt(g.rows[row], g.width, column);
  }

  // ----- setting one bit of a byte

  /** `b | 1 << (7 - k)`. */
  function SetBit(b: Byte, k: nat): (r: Byte)
    requires k < 8
    ensures BitsOf([r]) == BitsOf([b])[k := 1]
  {
    SetBitMeaning(b, k);
    if ByteBit(b, k) == 1 then b else b + Pow2(7 - k)
  }

  lemma ByteIsItsBits(b: Byte, width: nat)
    requires width == 8
    ensures BitsOf([b]) == Binary(b, width)
    ensures Value(BitsOf([b])) == b
  {
    forall k | 0 <= k < 8
      ensures BitsOf([b])[k] == Binary(b, width)[k]
    {
      BinaryAt(b, width, k);
    }
    ValueBinary(b, width);
    assert Pow2(4) == 16;
    assert Pow2(8) == 256;
    DivModUnique(b, Pow2(width), 0, b);
  }

  lemma ValueWithBitSet(high: seq<Bit>, low: seq<Bit>, one: Bit, zero: Bit)
    requires one == 1 && zero == 0
    ensures Value(high + [one] + low) == Value(high + [zero] + low) + Pow2(|low|)
  {
    var h1, h0 := high + [one], high + [zero];
    ValueConcat(h1, low);
    ValueConcat(h0, low);
    ValueSnoc(high, one);
    ValueSnoc(high, zero);
    MulStep(Value(h1), Value(h0), Pow2(|low|));
  }

  lemma ValueOfSetBit(b: Byte, k: nat)
    requires k < 8 && ByteBit(b, k) == 0
    ensures Value(BitsOf([b])[k := 1]) == b + Pow2(7 - k)
  {
    var s := BitsOf([b]);
    assert s[k] == ByteBit(b, k);
    ByteIsItsBits(b, 8);
    SplitAt(s, k);
    ValueWithBitSet(s[..k], s[k + 1..], 1, 0);
  }

  lemma SetBitMeaning(b: Byte, k: nat)
    requires k < 8
    ensures ByteBit(b, k) != 1 ==> b + Pow2(7 - k) < 256 && BitsOf([b + Pow2(7 - k)]) == BitsOf([b])[k := 1]
    ensures ByteBit(b, k) == 1 ==> BitsOf([b]) == BitsOf([b])[k := 1]
  {
    assert BitsOf([b])[k] == ByteBit(b, k);
    if ByteBit(b, k) == 0 {
      ValueOfSetBit(b, k);
      BitsOfByte(BitsOf([b])[k := 1]);
    }
  }

  lemma SplitAt(s: seq<Bit>, k: nat)
    requires k < |s|
    ensures s == s[..k] + [s[k]] + s[k + 1..]
    ensures s[k := 1] == s[..k] + [1] + s[k + 1..]
  {
  }

  lemma BitsOfUpdate(bytes: seq<Byte>, column: nat)
    requires column / 8 < |bytes|
    ensures BitsOf(bytes[column / 8 := SetBit(bytes[column / 8], column % 8)]) == BitsOf(bytes)[column := 1]
  {
    var at := column / 8;
    var b' := SetBit(bytes[at], column % 8);
    var bytes' := bytes[at := b'];
    forall i | 0 <= i < 8 * |bytes|
      ensures BitsOf(bytes')[i] == BitsOf(bytes)[column := 1][i]
    {
      if i / 8 == at {
        assert BitsOf([b'])[i % 8] == ByteBit(b', i % 8);
        assert BitsOf([bytes[at]])[i % 8] == ByteBit(bytes[at], i % 8);
      }
    }
  }

  // ----- the packing loops

  lemma BitsOfBlank(n: nat)
    ensures BitsOf(seq(n, _ => 0)) == Zeros(8 * n)
  {
    forall k: nat | k < 8
      ensures ByteBit(0, k) == 0
    {
    }
  }

  method SetPixel(packed: array<Byte>, column: nat)
    requires column / 8 < packed.Length
    modifies packed
    ensures packed[..] == old(packed[..])[column / 8 := SetBit(old(packed[..])[column / 8], column % 8)]
  {
    packed[column / 8] := SetBit(packed[column / 8], column % 8);
  }

  method PackRow(g: BdfGlyph, row: nat) returns (bytes: seq<Byte>)
    requires row < |g.rows|
    ensures |bytes| == g.RowBytes()
    ensures BitsOf(bytes) == Binary(g.rows[row], g.width) + Zeros(8 * g.RowBytes() - g.width)
  {
    var packed := new Byte[g.RowBytes()](_ => 0);
    ghost var bits := Binary(g.rows[row], g.width);
    var pixels := g.RowPixels(row);
    BitsOfBlank(packed.Length);
    assert packed[..] == seq(packed.Length, _ => 0);
    for column := 0 to g.width
      invariant BitsOf(packed[..]) == PartRow(bits, column, 8 * packed.Length)
    {
      RowPixelBit(g, row, column);
      PartRowStep(packed[..], bits, column);
      if pixels[column] != 0 {
        SetPixel(packed, column);
      }
    }
    assert bits[..g.width] == bits;
    bytes := packed[..];
  }

  /** The row with only its first `n` pixels set. */
  ghost function PartRow(bits: seq<Bit>, n: nat, size: nat): seq<Bit>
    requires n <= |bits| && n <= size
  {
    bits[..n] + Zeros(size - n)
  }

  /** Setting the next pixel, if it is one, or leaving it completes one more. */
  lemma PartRowStep(packed: seq<Byte>, bits: seq<Bit>, column: nat)
    requires column < |bits| <= 8 * |packed|
    requires BitsOf(packed) == PartRow(bits, column, 8 * |packed|)
    ensures BitsOf(if bits[column] == 1 then packed[column / 8 := SetBit(packed[column / 8], column % 8)] else packed)
         == PartRow(bits, column + 1, 8 * |packed|)
  {
    if bits[column] == 1 {
      BitsOfUpdate(packed, column);
    }
  }

  method GlyphBitmapBytes(g: BdfGlyph) returns (result: seq<Byte>)
    requires g.Valid()
    ensures BitsOf(result) == g.PackedBits(g.height)
    ensures |result| == g.height * g.RowBytes()
  {
    result := [];
    for row := 0 to g.height
      invariant BitsOf(result) == g.PackedBits(row)
      invariant |result| == row * g.RowBytes()
    {
      var packed := PackRow(g, row);
      BitsOfConcat(result, packed);
      assert (row + 1) * g.RowBytes() == row * g.RowBytes() + g.RowBytes();
      result := result + packed;
    }
  }

  // ----- agreement with the plain-pixel reader

  /** At any width, pixel (row, column) is the bit `row * stride + column`. */
  lemma {:induction false} PackedBitAt(g: BdfGlyph, n: nat, row: nat, column: nat)
    requires row < n <= |g.rows| && column < g.width
    ensures row * (8 * g.RowBytes()) + column < |g.PackedBits(n)|
    ensures 255 * (g.PackedBits(n)[row * (8 * g.RowBytes()) + column] as int) == g.RowPixels(row)[column]
  {
    var stride := 8 * g.RowBytes();
    assert row * stride + column < (row + 1) * stride;
    assert (n - 1) * stride + stride == n * stride;
    if row == n - 1 {
      RowPixelBit(g, row, column);
    } else {
      assert (row + 1) * stride <= (n - 1) * stride;
      PackedBitAt(g, n - 1, row, column);
    }
  }

  lemma Ordered(a: nat, b: nat, stride: nat)
    requires a <= b
    ensures a * stride <= b * stride
  {
    assert (b - a) * stride == b * stride - a * stride;
  }

  lemma InStride(row: nat, n: nat, stride: nat, column: nat)
    requires row < n && column < stride
    ensures row * stride + column < n * stride
    ensures row < n - 1 ==> row * stride + column < (n - 1) * stride
  {
    StrideSplit(row + 1, stride);
    Ordered(row + 1, n, stride);
    if row < n - 1 {
      Ordered(row + 1, n - 1, stride);
    }
  }

  lemma StrideSplit(n: nat, stride: nat)
    requires n > 0
    ensures n * stride == (n - 1) * stride + stride
  {
  }

  /** Every bit of the packed glyph: the rows from the first on, each in as few whole
      bytes as hold it, and in a row the highest bit of the row value first, and zeros
      behind the last. */
  lemma {:induction false} PackedBitIs(g: BdfGlyph, n: nat, row: nat, column: nat, stride: nat)
    requires row < n <= |g.rows| && column < stride && stride == 8 * ((g.width + 7) / 8)
    ensures row * stride + column < |g.PackedBits(n)|
    ensures g.PackedBits(n)[row * stride + column]
         == if column < g.width then g.rows[row] / Pow2(g.width - 1 - column) % 2 else 0
  {
    InStride(row, n, stride, column);
    StrideSplit(n, stride);
    if row < n - 1 {
      PackedBitIs(g, n - 1, row, column, stride);
    } else if column < g.width {
      BinaryAt(g.rows[row], g.width, column);
    }
  }

  /** The pixels that are read back stand in the same order. */
  lemma {:induction false} FlatPixelIs(g: BdfGlyph, n: nat, row: nat, column: nat)
    requires row < n <= |g.rows| && column < g.width
    ensures row * g.width + column < |g.FlatPixels(n)|
    ensures g.FlatPixels(n)[row * g.width + column]
         == 255 * (g.rows[row] / Pow2(g.width - 1 - column) % 2)
  {
    FlatLength(g, n);
    FlatLength(g, n - 1);
    InStride(row, n, g.width, column);
    StrideSplit(n, g.width);
    if row < n - 1 {
      FlatPixelIs(g, n - 1, row, column);
    }
  }

  function Scaled(bits: seq<nat>): (pixels: seq<nat>)
    ensures |pixels| == |bits|
  {
    seq(|bits|, i requires 0 <= i < |bits| => 255 * bits[i])
  }

  lemma ScaledRow(g: BdfGlyph, row: nat)
    requires row < |g.rows|
    ensures Scaled(Binary(g.rows[row], g.width)) == g.RowPixels(row)
  {
    forall column | 0 <= column < g.width
      ensures Scaled(Binary(g.rows[row], g.width))[column] == g.RowPixels(row)[column]
    {
      RowPixelBit(g, row, column);
    }
  }

  lemma ScaledConcat(a: seq<nat>, b: seq<nat>)
    ensures Scaled(a + b) == Scaled(a) + Scaled(b)
  {
  }

  lemma {:induction false} OneBitPixels(bits: seq<Bit>, n: nat)
    requires n <= |bits|
    ensures PlainPixels(bits, 0, n, 1) == Some(bits[..n])
  {
    if n > 0 {
      OneBitPixels(bits, n - 1);
      FieldAtIs(0, n - 1, 1);
      assert bits[n - 1..n] == [bits[n - 1]];
      assert Value([bits[n - 1]]) == bits[n - 1];
      assert bits[..n] == bits[..n - 1] + [bits[n - 1]];
    }
  }

  lemma {:induction false} FlatLength(g: BdfGlyph, n: nat)
    requires n <= |g.rows|
    ensures |g.FlatPixels(n)| == g.width * n
  {
    if n > 0 {
      FlatLength(g, n - 1);
      assert g.width * n == g.width * (n - 1) + g.width;
    }
  }

  lemma NoPadding(g: BdfGlyph, row: nat)
    requires row < |g.rows| && g.width % 8 == 0
    ensures Binary(g.rows[row], g.width) + Zeros(8 * g.RowBytes() - g.width) == Binary(g.rows[row], g.width)
  {
  }

  lemma {:induction false} FlatEqualsPacked(g: BdfGlyph, n: nat)
    requires n <= |g.rows| && g.width % 8 == 0
    ensures Scaled(g.PackedBits(n)) == g.FlatPixels(n)
  {
    if n > 0 {
      FlatEqualsPacked(g, n - 1);
      NoPadding(g, n - 1);
      ScaledRow(g, n - 1);
      ScaledConcat(g.PackedBits(n - 1), Binary(g.rows[n - 1], g.width));
    }
  }

  /** Reading `bytes` as one-bit pixels gives the glyph's opacities over 255. */
  ghost predicate ReadsBack(g: BdfGlyph, bytes: seq<Byte>)
    requires g.Valid()
  {
    var r := PlainPixels(BitsOf(bytes), 0, g.width * g.height, 1);
    r.Some? && Scaled(r.value) == g.FlatPixels(g.height)
  }

  ghost predicate IsPacked(g: BdfGlyph, bytes: seq<Byte>)
    requires g.Valid()
  {
    BitsOf(bytes) == g.PackedBits(g.height)
  }

  lemma WholeRowsReadBack(g: BdfGlyph, bytes: seq<Byte>)
    requires g.Valid() && IsPacked(g, bytes) && g.width % 8 == 0
    ensures ReadsBack(g, bytes)
  {
    var bits := g.PackedBits(g.height);
    FlatEqualsPacked(g, g.height);
    FlatLength(g, g.height);
    OneBitPixels(bits, |bits|);
    assert bits[..|bits|] == bits;
  }

  lemma SingleRowReadsBack(g: BdfGlyph, bytes: seq<Byte>)
    requires g.Valid() && IsPacked(g, bytes) && g.height == 1
    ensures ReadsBack(g, bytes)
  {
    var row := Binary(g.rows[0], g.width);
    assert g.PackedBits(0) == [] && g.FlatPixels(0) == [];
    assert BitsOf(bytes) == row + Zeros(8 * g.RowBytes() - g.width);
    ScaledRow(g, 0);
    OneBitPixels(BitsOf(bytes), g.width);
    assert BitsOf(bytes)[..g.width] == row;
    assert g.width * g.height == g.width;
  }

  /** Whole-byte rows, or a single row, read back. */
  lemma PackedReadsBack(g: BdfGlyph, bytes: seq<Byte>)
    requires g.Valid() && IsPacked(g, bytes)
    requires g.width % 8 == 0 || g.height <= 1
    ensures ReadsBack(g, bytes)
  {
    if g.width % 8 == 0 {
      WholeRowsReadBack(g, bytes);
    } else if g.height == 1 {
      SingleRowReadsBack(g, bytes);
    } else {
      assert g.FlatPixels(0) == [] && g.width * g.height == 0;
    }
  }

  /** A glyph whose rows have only their leftmost pixel set, from the second
      row on. */
  function LeftEdge(width: nat, height: nat): (g: BdfGlyph)
    requires width > 0 && height >= 2
    ensures g.Valid() && g.width == width && g.height == height
  {
    BdfGlyph(width, height, [0] + seq(height - 1, _ => Pow2(width - 1)))
  }

  lemma {:induction false} FlatAt(g: BdfGlyph, n: nat)
    requires 2 <= n <= |g.rows| && g.width > 0
    ensures g.width < |g.FlatPixels(n)|
    ensures g.FlatPixels(n)[g.width] == g.RowPixels(1)[0]
  {
    if n == 2 {
      assert g.FlatPixels(0) == [];
      assert g.FlatPixels(1) == g.RowPixels(0);
    } else {
      FlatAt(g, n - 1);
    }
  }

  lemma {:induction false} PaddingAt(g: BdfGlyph, n: nat)
    requires 1 <= n <= |g.rows| && g.width % 8 != 0
    ensures g.width < |g.PackedBits(n)|
    ensures g.PackedBits(n)[g.width] == 0
  {
    if n == 1 {
      assert g.PackedBits(0) == [];
    } else {
      PaddingAt(g, n - 1);
    }
  }

  lemma LeftEdgeFails(width: nat, height: nat, bytes: seq<Byte>)
    requires width % 8 != 0 && height >= 2
    requires IsPacked(LeftEdge(width, height), bytes)
    ensures !ReadsBack(LeftEdge(width, height), bytes)
  {
    var g := LeftEdge(width, height);
    FlatAt(g, height);
    LeftEdgePixel(g);
    PaddingAt(g, height);
    FlatLength(g, height);
    StrideCovers(g);
    OneBitPixels(BitsOf(bytes), g.width * g.height);
  }

  lemma LeftEdgePixel(g: BdfGlyph)
    requires g.width > 0 && |g.rows| >= 2 && g.rows[1] == Pow2(g.width - 1)
    ensures g.RowPixels(1)[0] == 255
  {
    DivModUnique(g.rows[1], Pow2(g.width - 1), 1, 0);
  }

  lemma StrideCovers(g: BdfGlyph)
    requires g.Valid()
    ensures g.width * g.height <= |g.PackedBits(g.height)|
  {
    var stride := 8 * g.RowBytes();
    assert g.height * (stride - g.width) >= 0;
    assert g.height * stride == g.height * (stride - g.width) + g.height * g.width;
  }

  /** For which shapes the two tools agree on every glyph: exactly when a row is
      a whole number of bytes or there is at most one row. The native 8x16 and
      16x16 grids are among them. */
  lemma AgreementByShape(width: nat, height: nat)
    ensures (forall g: BdfGlyph, bytes: seq<Byte> ::
               g.Valid() && g.width == width && g.height == height && IsPacked(g, bytes) ==> ReadsBack(g, bytes))
        <==> width % 8 == 0 || height <= 1
  {
    if width % 8 == 0 || height <= 1 {
      forall g: BdfGlyph, bytes: seq<Byte> | g.Valid() && g.width == width && g.height == height && IsPacked(g, bytes)
        ensures ReadsBack(g, bytes)
      {
        PackedReadsBack(g, bytes);
      }
    } else {
      var g := LeftEdge(width, height);
      var bytes := PackedBytes(g, height);
      LeftEdgeFails(width, height, bytes);
    }
  }

  lemma {:induction false} PackedBytes(g: BdfGlyph, n: nat) returns (bytes: seq<Byte>)
    requires n <= |g.rows|
    ensures BitsOf(bytes) == g.PackedBits(n)
  {
    if n == 0 {
      bytes := [];
    } else {
      var before := PackedBytes(g, n - 1);
      var row := Pack(Binary(g.rows[n - 1], g.width));
      RowBits(g, n - 1, row);
      BitsOfConcat(before, row);
      bytes := before + row;
    }
  }

  lemma RowBits(g: BdfGlyph, row: nat, bytes: seq<Byte>)
    requires row < |g.rows| && bytes == Pack(Binary(g.rows[row], g.width))
    ensures BitsOf(bytes) == Binary(g.rows[row], g.width) + Zeros(8 * g.RowBytes() - g.width)
  {
    BitsOfPack(Binary(g.rows[row], g.width));
    PaddingOfRow(g);
  }

  lemma PaddingOfRow(g: BdfGlyph)
    ensures Padding(g.width) == 8 * g.RowBytes() - g.width
  {
  }

  /** The two tools composed: a glyph on the native grid, packed, compressed at
      one bit a pixel and decoded, shows its original opacities. */
  lemma NativeGlyphSurvivesCompression(g: BdfGlyph, bytes: seq<Byte>, trailing: seq<Byte>)
    requires g.Valid() && IsPacked(g, bytes)
    requires g.Native()
    ensures var px := g.width * g.height;
            var plain := PlainPixels(BitsOf(bytes), 0, px, 1);
            && plain.Some?
            && var back := Decode(Encode(plain.value, 1) + trailing, px, 1);
               back.Some? && Scaled(back.value) == g.FlatPixels(g.height)
  {
    PackedReadsBack(g, bytes);
    var px := g.width * g.height;
    var plain := PlainPixels(BitsOf(bytes), 0, px, 1);
    forall k | 0 <= k < px
      ensures plain.value[k] < Pow2(1)
    {
      PlainPixelAt(BitsOf(bytes), 0, px, 1, k);
    }
    RoundTrip(plain.value, 1, trailing);
  }
}
