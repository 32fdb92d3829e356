/** MSB-first bit streams: the bit writer, the bit reader and the plain pixel
    reader, and the algebra that makes them inverse to each other.

    A byte string means the sequence of its bits, `BitsOf`; everything else in
    the font tools is stated on that meaning. */
module Bits {
  import opened Wrappers
  import opened Division

  type Bit = b: nat | b < 2
  type Byte = b: nat | b < 256

  function Pow2(n: nat): (p: nat)
    ensures p >= 1
  {
    if n == 0 then 1 else 2 * Pow2(n - 1)
  }

  /** The number written by `bits`, most significant bit first. */
  function Value(bits: seq<Bit>): nat {
    if bits == [] then 0 else 2 * Value(bits[..|bits| - 1]) + bits[|bits| - 1]
  }

  /** The `width` low bits of `value`, most significant first. */
  function Binary(value: int, width: nat): (bits: seq<Bit>)
    ensures |bits| == width
    decreases width
  {
    if width == 0 then [] else Binary(value / 2, width - 1) + [value % 2]
  }

  /** The value modulo `2^width`: what is left of it in a field of that width. */
  function Low(value: int, width: nat): nat {
    value % Pow2(width)
  }

  /** Bit `k` of a byte, counted from the most significant end. */
  function ByteBit(b: Byte, k: nat): Bit
    requires k < 8
  {
    b / Pow2(7 - k) % 2
  }

  function BitsOf(bytes: seq<Byte>): (bits: seq<Bit>)
    ensures |bits| == 8 * |bytes|
  {
    seq(8 * |bytes|, i requires 0 <= i < 8 * |bytes| => ByteBit(bytes[i / 8], i % 8))
  }

  function Zeros(n: nat): (bits: seq<Bit>)
    ensures |bits| == n
  {
    seq(n, _ => 0)
  }

  /** How many zero bits fill the last byte of a stream of `n` bits. */
  function Padding(n: nat): (p: nat)
    ensures p < 8 && (n + p) % 8 == 0
  {
    (8 - n % 8) % 8
  }

  function Pack(bits: seq<Bit>): seq<Byte> {
    if |bits| == 0 then []
    else if |bits| < 8 then [ByteOf(bits + Zeros(8 - |bits|))]
    else [ByteOf(bits[..8])] + Pack(bits[8..])
  }

  /** The byte with these eight bits. */
  function ByteOf(bits: seq<Bit>): (b: Byte)
    requires |bits| == 8
    ensures b == Value(bits)
  {
    ByteRange(bits);
    Value(bits)
  }

  /** What reading `len` bits at `pos` gives: `None` is the index error of a
      read past the end. */
  function ReadBits(bits: seq<Bit>, pos: nat, len: nat): Option<nat> {
    if len == 0 then Some(0)
    else if pos + len <= |bits| then Some(Value(bits[pos..pos + len]))
    else None
  }

  /** Where field `k` of a run of fields of one width begins. */
  function FieldAt(pos: nat, k: nat, width: nat): nat {
    if k == 0 then pos else FieldAt(pos, k - 1, width) + width
  }

  /** `count` consecutive fields of `bpp` bits. */
  function PlainPixels(bits: seq<Bit>, pos: nat, count: nat, bpp: nat): (r: Option<seq<nat>>)
    ensures r.Some? ==> |r.value| == count
  {
    if count == 0 then Some([]) else
    match PlainPixels(bits, pos, count - 1, bpp)
    case None => None
    case Some(vals) =>
      match ReadBits(bits, FieldAt(pos, count - 1, bpp), bpp)
      case None => None
      case Some(v) => Some(vals + [v])
  }

  // ----- arithmetic

  lemma MulSucc(n: int, c: int)
    ensures (n + 1) * c == n * c + c
  {
  }

  lemma MulStep(a: int, b: int, c: int)
    requires a == b + 1
    ensures a * c == b * c + c
  {
  }

  lemma MulDouble(a: int, b: int)
    ensures 2 * (a * b) == a * (2 * b)
  {
  }

  lemma HalveDiv(v: int, i: nat)
    ensures v / Pow2(i) / 2 == v / Pow2(i + 1)
  {
    var m := Pow2(i);
    var q := v / m;
    var r := v % m;
    var q2 := q / 2;
    var b := q % 2;
    assert v == (2 * q2 + b) * m + r;
    assert (2 * q2 + b) * m == q2 * (2 * m) + b * m;
    assert 0 <= b * m <= m;
    DivModUnique(v, 2 * m, q2, b * m + r);
  }

  lemma HalveMod(v: int, w: nat)
    ensures 2 * (v / 2 % Pow2(w)) + v % 2 == v % Pow2(w + 1)
  {
    var m := Pow2(w);
    var q := v / 2;
    var d := q / m;
    var e := q % m;
    assert q == d * m + e;
    assert v == 2 * q + v % 2;
    assert 2 * (d * m) == d * (2 * m);
    DivModUnique(v, 2 * m, d, 2 * e + v % 2);
  }

  lemma {:induction false} Pow2Add(a: nat, b: nat)
    ensures Pow2(a + b) == Pow2(a) * Pow2(b)
  {
    if b > 0 {
      Pow2Add(a, b - 1);
      assert Pow2(a + b) == 2 * Pow2(a + (b - 1));
      MulDouble(Pow2(a), Pow2(b - 1));
    }
  }

  // ----- values

  lemma {:induction false} ValueBound(bits: seq<Bit>)
    ensures Value(bits) < Pow2(|bits|)
  {
    if bits != [] {
      ValueBound(bits[..|bits| - 1]);
    }
  }

  lemma {:induction false} ValueBinary(value: int, width: nat)
    ensures Value(Binary(value, width)) == value % Pow2(width)
    decreases width
  {
    if width > 0 {
      var bits := Binary(value, width);
      assert bits[..width - 1] == Binary(value / 2, width - 1);
      ValueBinary(value / 2, width - 1);
      HalveMod(value, width - 1);
    }
  }

  lemma ValueAppend(bits: seq<Bit>, a: nat, b: nat)
    requires a <= b < |bits|
    ensures Value(bits[a..b + 1]) == 2 * Value(bits[a..b]) + bits[b]
  {
    assert bits[a..b + 1][..b - a] == bits[a..b];
  }

  lemma ValueSnoc(bits: seq<Bit>, last: Bit)
    ensures Value(bits + [last]) == 2 * Value(bits) + last
  {
    assert (bits + [last])[..|bits|] == bits;
  }

  lemma {:induction false} ValueConcat(a: seq<Bit>, b: seq<Bit>)
    ensures Value(a + b) == Value(a) * Pow2(|b|) + Value(b)
  {
    if b == [] {
      assert a + b == a;
    } else {
      var b', last := b[..|b| - 1], b[|b| - 1];
      ValueConcat(a, b');
      ValueSnoc(a + b', last);
      ValueSnoc(b', last);
      assert a + b == (a + b') + [last] && b == b' + [last];
      MulDouble(Value(a), Pow2(|b'|));
    }
  }

  lemma {:induction false} ValueZeros(n: nat)
    ensures Value(Zeros(n)) == 0
  {
    if n > 0 {
      assert Zeros(n)[..n - 1] == Zeros(n - 1);
      ValueZeros(n - 1);
    }
  }

  // ----- bytes

  lemma LastBit(v: int, w: int, b: Bit)
    requires v == 2 * w + b
    ensures v % 2 == b
  {
  }

  lemma ByteBitOfValue(s: seq<Bit>, k: nat)
    requires |s| == 8 && k < 8
    ensures Value(s) < 256
    ensures ByteBit(Value(s), k) == s[k]
  {
    ByteRange(s);
    var high, low := s[..k + 1], s[k + 1..];
    assert high + low == s && high[..k] == s[..k];
    LastBit(Value(high), Value(s[..k]), s[k]);
    ShiftDropsLow(high, low);
  }

  lemma ByteRange(s: seq<Bit>)
    requires |s| == 8
    ensures Value(s) < 256
  {
    ValueBound(s);
    assert Pow2(4) == 16;
    assert Pow2(8) == 256;
  }

  lemma ShiftDropsLow(high: seq<Bit>, low: seq<Bit>)
    ensures Value(high + low) / Pow2(|low|) == Value(high)
  {
    ValueConcat(high, low);
    ValueBound(low);
    DivModUnique(Value(high + low), Pow2(|low|), Value(high), Value(low));
  }

  lemma TopBit(s: seq<Bit>)
    requires s != []
    ensures Value(s) == s[0] * Pow2(|s| - 1) + Value(s[1..])
  {
    ValueConcat(s[..1], s[1..]);
    assert s[..1] + s[1..] == s && s[..1][..0] == [];
    assert Value(s[..1]) == s[0];
  }

  lemma Halves(b: int)
    ensures b / 4 == b / 2 / 2 && b / 8 == b / 4 / 2 && b / 16 == b / 8 / 2
    ensures b / 32 == b / 16 / 2 && b / 64 == b / 32 / 2 && b / 128 == b / 64 / 2
  {
  }

  lemma HalfIs(q: int, h: int, r: int)
    requires h == q / 2 && r == q % 2
    ensures q == 2 * h + r
  {
  }

  lemma EightHalves(b: int)
    requires 0 <= b < 256
    ensures b == 128 * (b / 128 % 2) + 64 * (b / 64 % 2) + 32 * (b / 32 % 2) + 16 * (b / 16 % 2)
                 + 8 * (b / 8 % 2) + 4 * (b / 4 % 2) + 2 * (b / 2 % 2) + b % 2
  {
    Halves(b);
    HalfIs(b, b / 2, b % 2);
    HalfIs(b / 2, b / 4, b / 2 % 2);
    HalfIs(b / 4, b / 8, b / 4 % 2);
    HalfIs(b / 8, b / 16, b / 8 % 2);
    HalfIs(b / 16, b / 32, b / 16 % 2);
    HalfIs(b / 32, b / 64, b / 32 % 2);
    HalfIs(b / 64, b / 128, b / 64 % 2);
    LastHalf(b);
    Doubled(b, b / 2, b / 4, b / 8, b / 16, b / 32, b / 64, b / 128,
            b % 2, b / 2 % 2, b / 4 % 2, b / 8 % 2, b / 16 % 2, b / 32 % 2, b / 64 % 2, b / 128 % 2);
  }

  lemma LastHalf(b: int)
    requires 0 <= b < 256
    ensures b / 128 == b / 128 % 2
  {
  }

  lemma Doubled(b: int, q1: int, q2: int, q3: int, q4: int, q5: int, q6: int, q7: int,
                r0: int, r1: int, r2: int, r3: int, r4: int, r5: int, r6: int, r7: int)
    requires b == 2 * q1 + r0 && q1 == 2 * q2 + r1 && q2 == 2 * q3 + r2 && q3 == 2 * q4 + r3
    requires q4 == 2 * q5 + r4 && q5 == 2 * q6 + r5 && q6 == 2 * q7 + r6 && q7 == r7
    ensures b == 128 * r7 + 64 * r6 + 32 * r5 + 16 * r4 + 8 * r3 + 4 * r2 + 2 * r1 + r0
  {
  }

  lemma ByteBitIs(b: Byte)
    ensures ByteBit(b, 0) == b / 128 % 2 && ByteBit(b, 1) == b / 64 % 2
    ensures ByteBit(b, 2) == b / 32 % 2 && ByteBit(b, 3) == b / 16 % 2
    ensures ByteBit(b, 4) == b / 8 % 2 && ByteBit(b, 5) == b / 4 % 2
    ensures ByteBit(b, 6) == b / 2 % 2 && ByteBit(b, 7) == b % 2
  {
    assert Pow2(0) == 1 && Pow2(1) == 2 && Pow2(2) == 4 && Pow2(3) == 8;
    assert Pow2(4) == 16 && Pow2(5) == 32 && Pow2(6) == 64 && Pow2(7) == 128;
  }

  /** The bits of a byte, the most significant one first. */
  lemma ByteIsSum(b: Byte, s: seq<int>)
    requires s == BitsOf([b])
    ensures |s| == 8
    ensures b == 128 * s[0] + 64 * s[1] + 32 * s[2] + 16 * s[3] + 8 * s[4] + 4 * s[5] + 2 * s[6] + s[7]
  {
    ByteBitIs(b);
    EightHalves(b);
  }

  lemma BitsOfByte(s: seq<Bit>)
    requires |s| == 8
    ensures Value(s) < 256 && BitsOf([Value(s)]) == s
  {
    ByteBitOfValue(s, 0);
    forall k | 0 <= k < 8
      ensures BitsOf([Value(s)])[k] == s[k]
    {
      ByteBitOfValue(s, k);
    }
  }

  lemma BitsOfConcat(a: seq<Byte>, b: seq<Byte>)
    ensures BitsOf(a + b) == BitsOf(a) + BitsOf(b)
  {
    forall i | 0 <= i < 8 * |a + b|
      ensures BitsOf(a + b)[i] == (BitsOf(a) + BitsOf(b))[i]
    {
      if i >= 8 * |a| {
        assert (i - 8 * |a|) / 8 == i / 8 - |a|;
        assert (i - 8 * |a|) % 8 == i % 8;
      }
    }
  }

  /** Packing keeps every bit and adds fewer than eight zero bits. */
  lemma {:induction false} BitsOfPack(bits: seq<Bit>)
    ensures BitsOf(Pack(bits)) == bits + Zeros(Padding(|bits|))
  {
    if |bits| == 0 {
    } else if |bits| < 8 {
      BitsOfByte(bits + Zeros(8 - |bits|));
    } else {
      var first, rest := bits[..8], bits[8..];
      BitsOfPack(rest);
      BitsOfByte(first);
      BitsOfConcat([Value(first)], Pack(rest));
      AppendPadding(first, rest);
      assert bits == first + rest;
    }
  }

  lemma PackLength(bits: seq<Bit>)
    ensures 8 * |Pack(bits)| == |bits| + Padding(|bits|)
  {
    BitsOfPack(bits);
  }

  lemma AppendPadding(first: seq<Bit>, rest: seq<Bit>)
    requires |first| == 8
    ensures first + (rest + Zeros(Padding(|rest|))) == (first + rest) + Zeros(Padding(|first + rest|))
  {
    assert Padding(|first + rest|) == Padding(|rest|);
  }

  // ----- reading back what was put

  lemma ReadBinary(bits: seq<Bit>, pos: nat, value: int, width: nat)
    requires pos + width <= |bits| && bits[pos..pos + width] == Binary(value, width)
    ensures ReadBits(bits, pos, width) == Some(Low(value, width))
  {
    ValueBinary(value, width);
  }

  datatype Field = Field(value: int, width: nat)

  /** The bits a writer holds after these puts, in order. */
  function PutAll(fields: seq<Field>): seq<Bit> {
    if fields == [] then []
    else PutAll(fields[..|fields| - 1]) + Binary(fields[|fields| - 1].value, fields[|fields| - 1].width)
  }

  lemma {:induction false} PutAllPrefix(fields: seq<Field>, k: nat)
    requires k <= |fields|
    ensures PutAll(fields[..k]) <= PutAll(fields)
  {
    if k == |fields| {
      assert fields[..k] == fields;
    } else {
      PutAllPrefix(fields[..|fields| - 1], k);
      assert fields[..|fields| - 1][..k] == fields[..k];
    }
  }

  lemma SliceOfPrefix(a: seq<Bit>, b: seq<Bit>, pos: nat, end: nat)
    requires a <= b && pos <= end <= |a|
    ensures b[pos..end] == a[pos..end]
  {
  }

  lemma StreamBegins(bits: seq<Bit>, trailing: seq<Byte>)
    ensures bits <= BitsOf(Pack(bits) + trailing)
  {
    BitsOfPack(bits);
    BitsOfConcat(Pack(bits), trailing);
  }

  /** Field `k` stands after the fields before it. */
  lemma FieldSlice(fields: seq<Field>, k: nat)
    requires k < |fields|
    ensures var upto, pos := PutAll(fields[..k + 1]), |PutAll(fields[..k])|;
            && |upto| == pos + fields[k].width
            && upto[pos..pos + fields[k].width] == Binary(fields[k].value, fields[k].width)
  {
    assert fields[..k + 1][..k] == fields[..k];
  }

  /** Whatever sequence of fields was put, and whatever bytes follow, reading
      at the offset where field `k` was put gives its value back, modulo the
      width of the field. */
  lemma PutThenGet(fields: seq<Field>, k: nat, trailing: seq<Byte>)
    requires k < |fields|
    ensures ReadBits(BitsOf(Pack(PutAll(fields)) + trailing), |PutAll(fields[..k])|, fields[k].width)
         == Some(Low(fields[k].value, fields[k].width))
  {
    var bits := PutAll(fields);
    var stream := BitsOf(Pack(bits) + trailing);
    StreamBegins(bits, trailing);
    PutAllPrefix(fields, k + 1);
    FieldSlice(fields, k);
    var pos, w := |PutAll(fields[..k])|, fields[k].width;
    SliceOfPrefix(PutAll(fields[..k + 1]), bits, pos, pos + w);
    SliceOfPrefix(bits, stream, pos, pos + w);
    ReadBinary(stream, pos, fields[k].value, w);
  }

  function Fixed(vals: seq<int>, width: nat): (fields: seq<Field>)
    ensures |fields| == |vals|
  {
    seq(|vals|, i requires 0 <= i < |vals| => Field(vals[i], width))
  }

  lemma {:induction false} FixedLength(vals: seq<int>, width: nat)
    ensures |PutAll(Fixed(vals, width))| == FieldAt(0, |vals|, width)
  {
    if vals != [] {
      var n := |vals| - 1;
      assert Fixed(vals, width)[..n] == Fixed(vals[..n], width);
      FixedLength(vals[..n], width);
    }
  }

  function Masked(vals: seq<int>, width: nat): (r: seq<nat>)
    ensures |r| == |vals|
  {
    seq(|vals|, i requires 0 <= i < |vals| => Low(vals[i], width))
  }

  lemma {:induction false} FieldAtIs(pos: nat, k: nat, width: nat)
    ensures FieldAt(pos, k, width) == pos + k * width
  {
    if k > 0 {
      FieldAtIs(pos, k - 1, width);
      MulSucc(k - 1, width);
    }
  }

  lemma FixedFieldRead(vals: seq<int>, width: nat, k: nat, trailing: seq<Byte>)
    requires k < |vals|
    ensures ReadBits(BitsOf(Pack(PutAll(Fixed(vals, width))) + trailing), FieldAt(0, k, width), width)
         == Some(Low(vals[k], width))
  {
    var fields := Fixed(vals, width);
    assert fields[..k] == Fixed(vals[..k], width);
    assert fields[k] == Field(vals[k], width);
    FixedLength(vals[..k], width);
    PutThenGet(fields, k, trailing);
  }

  lemma PlainPixelsAppend(bits: seq<Bit>, pos: nat, n: nat, width: nat, init: seq<nat>, last: nat)
    requires PlainPixels(bits, pos, n, width) == Some(init)
    requires ReadBits(bits, FieldAt(pos, n, width), width) == Some(last)
    ensures PlainPixels(bits, pos, n + 1, width) == Some(init + [last])
  {
  }

  lemma MaskedSnoc(vals: seq<int>, width: nat, n: nat)
    requires 1 <= n <= |vals|
    ensures Masked(vals[..n], width) == Masked(vals[..n - 1], width) + [Low(vals[n - 1], width)]
  {
  }

  /** Field `k` of the bits is the masked value `k`. */
  ghost predicate HoldsField(bits: seq<Bit>, vals: seq<int>, width: nat, k: nat)
    requires k < |vals|
  {
    ReadBits(bits, FieldAt(0, k, width), width) == Some(Low(vals[k], width))
  }

  lemma {:induction false} PlainPixelsOfFields(bits: seq<Bit>, vals: seq<int>, width: nat, n: nat)
    requires n <= |vals| && forall k :: 0 <= k < n ==> HoldsField(bits, vals, width, k)
    ensures PlainPixels(bits, 0, n, width) == Some(Masked(vals[..n], width))
  {
    if n > 0 {
      PlainPixelsOfFields(bits, vals, width, n - 1);
      assert HoldsField(bits, vals, width, n - 1);
      MaskedSnoc(vals, width, n);
      PlainPixelsAppend(bits, 0, n - 1, width, Masked(vals[..n - 1], width), Low(vals[n - 1], width));
    }
  }

  /** The plain pixel reader inverts a run of puts of one fixed width. */
  lemma PlainPixelsOfFixed(vals: seq<int>, width: nat, n: nat, trailing: seq<Byte>)
    requires n <= |vals|
    ensures PlainPixels(BitsOf(Pack(PutAll(Fixed(vals, width))) + trailing), 0, n, width)
         == Some(Masked(vals[..n], width))
  {
    var bits := BitsOf(Pack(PutAll(Fixed(vals, width))) + trailing);
    forall k | 0 <= k < n
      ensures HoldsField(bits, vals, width, k)
    {
      FixedFieldRead(vals, width, k, trailing);
    }
    PlainPixelsOfFields(bits, vals, width, n);
  }

  // ----- pixels that can be read

  lemma {:induction false} PlainPixelsReach(bits: seq<Bit>, pos: nat, count: nat, bpp: nat)
    ensures PlainPixels(bits, pos, count, bpp).Some? <==>
              count == 0 || bpp == 0 || FieldAt(pos, count, bpp) <= |bits|
  {
    if count > 0 {
      PlainPixelsReach(bits, pos, count - 1, bpp);
    }
  }

  /** Plain pixels can be read exactly when the last of them lies inside the
      buffer. */
  lemma PlainPixelsDefined(bits: seq<Bit>, pos: nat, count: nat, bpp: nat)
    ensures PlainPixels(bits, pos, count, bpp).Some? <==> count * bpp == 0 || pos + count * bpp <= |bits|
  {
    PlainPixelsReach(bits, pos, count, bpp);
    FieldAtIs(pos, count, bpp);
    ProductZero(count, bpp);
  }

  lemma ProductZero(a: nat, b: nat)
    ensures a * b == 0 <==> a == 0 || b == 0
  {
  }

  lemma ReadInRange(bits: seq<Bit>, pos: nat, len: nat)
    ensures ReadBits(bits, pos, len).Some? ==> ReadBits(bits, pos, len).value < Pow2(len)
  {
    if len > 0 && pos + len <= |bits| {
      ValueBound(bits[pos..pos + len]);
    }
  }

  /** Each plain pixel is the value of its own field, and so is below `2^bpp`. */
  lemma {:induction false} PlainPixelAt(bits: seq<Bit>, pos: nat, count: nat, bpp: nat, k: nat)
    requires k < count && PlainPixels(bits, pos, count, bpp).Some?
    ensures Some(PlainPixels(bits, pos, count, bpp).value[k]) == ReadBits(bits, FieldAt(pos, k, bpp), bpp)
    ensures PlainPixels(bits, pos, count, bpp).value[k] < Pow2(bpp)
  {
    ReadInRange(bits, FieldAt(pos, k, bpp), bpp);
    if k < count - 1 {
      PlainPixelAt(bits, pos, count - 1, bpp, k);
    }
  }

  // ----- the imperative reader and writer

  /** Reads `bitLen` bits of `buf` from `bitPos`; `None` is the index error. */
  method GetBits(buf: seq<Byte>, bitPos: nat, bitLen: nat) returns (r: Option<nat>)
    ensures r == ReadBits(BitsOf(buf), bitPos, bitLen)
  {
    var out: nat, pos: nat := 0, bitPos;
    ghost var bits := BitsOf(buf);
    for n := 0 to bitLen
      invariant pos == bitPos + n
      invariant n == 0 ==> out == 0
      invariant n > 0 ==> pos <= |bits| && out == Value(bits[bitPos..pos])
    {
      if pos / 8 >= |buf| {
        return None;
      }
      var bit := ByteBit(buf[pos / 8], pos % 8);
      ValueAppend(bits, bitPos, pos);
      out := out * 2 + bit;
      pos := pos + 1;
    }
    r := Some(out);
  }

  method ReadPlainPixels(raw: seq<Byte>, startByte: nat, pxCount: nat, bpp: nat)
    returns (r: Option<seq<nat>>)
    ensures r == PlainPixels(BitsOf(raw), startByte * 8, pxCount, bpp)
  {
    var vals: seq<nat> := [];
    var bitPos := startByte * 8;
    for n := 0 to pxCount
      invariant bitPos == FieldAt(startByte * 8, n, bpp)
      invariant PlainPixels(BitsOf(raw), startByte * 8, n, bpp) == Some(vals)
    {
      var v := GetBits(raw, bitPos, bpp);
      if v.None? {
        PlainPixelsNone(BitsOf(raw), startByte * 8, n + 1, pxCount, bpp);
        return None;
      }
      vals := vals + [v.value];
      bitPos := bitPos + bpp;
    }
    r := Some(vals);
  }

  lemma {:induction false} PlainPixelsNone(bits: seq<Bit>, pos: nat, n: nat, count: nat, bpp: nat)
    requires n <= count && PlainPixels(bits, pos, n, bpp).None?
    ensures PlainPixels(bits, pos, count, bpp).None?
    decreases count
  {
    if n < count {
      PlainPixelsNone(bits, pos, n, count - 1, bpp);
    }
  }

  class BitWriter {
    var bits: seq<Bit>

    constructor ()
      ensures bits == []
    {
      bits := [];
    }

    method Put(value: int, width: nat)
      modifies this
      ensures bits == old(bits) + Binary(value, width)
    {
      var i := width;
      while i > 0
        invariant 0 <= i <= width
        invariant bits == old(bits) + Binary(value / Pow2(i), width - i)
      {
        i := i - 1;
        HalveDiv(value, i);
        bits := bits + [value / Pow2(i) % 2];
      }
    }

    method ToBytes() returns (out: seq<Byte>)
      ensures out == Pack(bits)
    {
      out := [];
      var i := 0;
      while i < |bits|
        invariant 0 <= i
        invariant out + Pack(From(bits, i)) == Pack(bits)
      {
        var chunk := if i + 8 <= |bits| then bits[i..i + 8] else bits[i..];
        var b := ChunkByte(chunk);
        PackChunk(bits, i, chunk, b);
        MoveByte(out, b, Pack(From(bits, i + 8)));
        out := out + [b];
        i := i + 8;
      }
    }
  }

  /** One byte of output: the chunk as a number, shifted up when it is short. */
  method ChunkByte(chunk: seq<Bit>) returns (b: Byte)
    requires |chunk| <= 8
    ensures b == Value(chunk + Zeros(8 - |chunk|))
  {
    var acc: nat := 0;
    for k := 0 to |chunk|
      invariant acc == Value(chunk[..k])
    {
      assert chunk[..k + 1][..k] == chunk[..k];
      acc := acc * 2 + chunk[k];
    }
    assert chunk[..|chunk|] == chunk;
    if |chunk| < 8 {
      acc := acc * Pow2(8 - |chunk|);
    }
    ValueConcat(chunk, Zeros(8 - |chunk|));
    ValueZeros(8 - |chunk|);
    assert |chunk| == 8 ==> Pow2(8 - |chunk|) == 1;
    ByteRange(chunk + Zeros(8 - |chunk|));
    b := acc;
  }

  function From(bits: seq<Bit>, i: nat): seq<Bit> {
    if i < |bits| then bits[i..] else []
  }

  lemma MoveByte(out: seq<Byte>, b: Byte, rest: seq<Byte>)
    ensures out + ([b] + rest) == (out + [b]) + rest
  {
  }

  lemma PackChunk(all: seq<Bit>, i: nat, chunk: seq<Bit>, b: Byte)
    requires i < |all|
    requires chunk == if i + 8 <= |all| then all[i..i + 8] else all[i..]
    requires b == Value(chunk + Zeros(8 - |chunk|))
    ensures Pack(From(all, i)) == [b] + Pack(From(all, i + 8))
  {
    if |chunk| == 8 {
      assert chunk + Zeros(0) == chunk;
      assert From(all, i)[..8] == chunk;
      assert From(all, i)[8..] == From(all, i + 8);
    }
  }
}
