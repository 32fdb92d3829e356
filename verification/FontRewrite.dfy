/** Rewriting a plain bitmap font into a compressed one: every glyph's stream is
    appended to one byte array and every glyph gets a new start index. */
module FontRewrite {
  import opened Wrappers
  import opened Bits
  import opened GlyphCodec

  datatype Glyph = Glyph(bitmapIndex: nat, boxW: nat, boxH: nat) {
    function Pixels(): nat {
      boxW * boxH
    }
  }

  datatype FontError =
    | NoEntries
    | NotPlain(format: nat)
    | InvalidOrder(glyph: nat)
    | IndexOutOfRange(glyph: nat)
    | ValidationFailed(glyph: nat)

  datatype Rewritten = Rewritten(bitmap: seq<Byte>, indexes: seq<nat>)

  /** Where the raw bytes of glyph `i` end: at the next glyph, or at the end. */
  function OldEnd(raw: seq<Byte>, glyphs: seq<Glyph>, i: nat): nat
    requires i < |glyphs|
  {
    if i + 1 < |glyphs| then glyphs[i + 1].bitmapIndex else |raw|
  }

  /** The pixels the plain font holds for a glyph. */
  function OldPixels(raw: seq<Byte>, g: Glyph, bpp: nat): Option<seq<nat>> {
    PlainPixels(BitsOf(raw), g.bitmapIndex * 8, g.Pixels(), bpp)
  }

  function GlyphError(raw: seq<Byte>, glyphs: seq<Glyph>, i: nat, bpp: nat): Option<FontError>
    requires i < |glyphs|
  {
    if OldEnd(raw, glyphs, i) < glyphs[i].bitmapIndex then Some(InvalidOrder(i))
    else if OldPixels(raw, glyphs[i], bpp).None? then Some(IndexOutOfRange(i))
    else None
  }

  /** The font after the first `n` glyphs; no validation step, so no
      `ValidationFailed`. */
  function Rewrite(raw: seq<Byte>, glyphs: seq<Glyph>, bpp: nat, n: nat): (r: Result<Rewritten, FontError>)
    requires n <= |glyphs|
    ensures r.Ok? ==> |r.value.indexes| == n
  {
    if n == 0 then Ok(Rewritten([], [])) else
    match Rewrite(raw, glyphs, bpp, n - 1)
    case Err(e) => Err(e)
    case Ok(f) =>
      match GlyphError(raw, glyphs, n - 1, bpp)
      case Some(e) => Err(e)
      case None =>
        Ok(Rewritten(f.bitmap + Encode(OldPixels(raw, glyphs[n - 1], bpp).value, bpp),
                     f.indexes + [|f.bitmap|]))
  }

  function CompressSpec(raw: seq<Byte>, glyphs: seq<Glyph>, bpp: nat, format: nat): Result<Rewritten, FontError> {
    if glyphs == [] then Err(NoEntries)
    else if format != 0 then Err(NotPlain(format))
    else Rewrite(raw, glyphs, bpp, |glyphs|)
  }

  /** The glyph loop with its strict round-trip validation. The result never
      depends on the validation: that branch is proved dead. */
  method CompressFont(raw: seq<Byte>, glyphs: seq<Glyph>, bpp: nat, format: nat)
    returns (r: Result<Rewritten, FontError>)
    ensures r == CompressSpec(raw, glyphs, bpp, format)
  {
    if glyphs == [] {
      return Err(NoEntries);
    }
    if format != 0 {
      return Err(NotPlain(format));
    }
    var newBitmap: seq<Byte> := [];
    var newIndexes: seq<nat> := [];
    for i := 0 to |glyphs|
      invariant Rewrite(raw, glyphs, bpp, i) == Ok(Rewritten(newBitmap, newIndexes))
    {
      RewriteStep(raw, glyphs, bpp, i, newBitmap, newIndexes);
      var oldStart := glyphs[i].bitmapIndex;
      var oldEnd := if i + 1 < |glyphs| then glyphs[i + 1].bitmapIndex else |raw|;
      if oldEnd < oldStart {
        RewriteErr(raw, glyphs, bpp, i + 1, |glyphs|);
        return Err(InvalidOrder(i));
      }
      newIndexes := newIndexes + [|newBitmap|];
      if glyphs[i].boxW * glyphs[i].boxH == 0 {
        continue;
      }
      var comp := CompressGlyph(raw, glyphs[i], i, bpp);
      if comp.Err? {
        RewriteErr(raw, glyphs, bpp, i + 1, |glyphs|);
        return Err(comp.error);
      }
      newBitmap := newBitmap + comp.value;
    }
    r := Ok(Rewritten(newBitmap, newIndexes));
  }

  /** What one turn of the glyph loop does: it fails, or appends one stream. A
      glyph without pixels has an empty stream. */
  lemma RewriteStep(raw: seq<Byte>, glyphs: seq<Glyph>, bpp: nat, i: nat, bitmap: seq<Byte>, indexes: seq<nat>)
    requires i < |glyphs| && Rewrite(raw, glyphs, bpp, i) == Ok(Rewritten(bitmap, indexes))
    ensures var g := glyphs[i];
            var next := Rewrite(raw, glyphs, bpp, i + 1);
            if OldEnd(raw, glyphs, i) < g.bitmapIndex then next == Err(InvalidOrder(i))
            else if g.Pixels() == 0 then next == Ok(Rewritten(bitmap, indexes + [|bitmap|]))
            else if OldPixels(raw, g, bpp).None? then next == Err(IndexOutOfRange(i))
            else next == Ok(Rewritten(bitmap + Encode(OldPixels(raw, g, bpp).value, bpp), indexes + [|bitmap|]))
  {
    assert bitmap + Encode([], bpp) == bitmap;
  }

  /** Reads, encodes and validates one glyph; the failed validation is dead. */
  method CompressGlyph(raw: seq<Byte>, g: Glyph, i: nat, bpp: nat) returns (r: Result<seq<Byte>, FontError>)
    ensures r == match OldPixels(raw, g, bpp)
                 case None => Err(IndexOutOfRange(i))
                 case Some(vals) => Ok(Encode(vals, bpp))
  {
    var pxCount := g.boxW * g.boxH;
    var plain := ReadPlainPixels(raw, g.bitmapIndex, pxCount, bpp);
    if plain.None? {
      return Err(IndexOutOfRange(i));
    }
    var comp := EncodeNoCounter(plain.value, bpp);
    var back := DecodeLvglStream(comp, pxCount, bpp);
    OldPixelsInRange(raw, g, bpp);
    RoundTripExactly(plain.value, bpp);
    if back != plain {
      return Err(ValidationFailed(i));
    }
    r := Ok(comp);
  }

  lemma {:induction false} RewriteErr(raw: seq<Byte>, glyphs: seq<Glyph>, bpp: nat, n: nat, m: nat)
    requires n <= m <= |glyphs| && Rewrite(raw, glyphs, bpp, n).Err?
    ensures Rewrite(raw, glyphs, bpp, m) == Rewrite(raw, glyphs, bpp, n)
    decreases m
  {
    if n < m {
      RewriteErr(raw, glyphs, bpp, n, m - 1);
    }
  }

  lemma OldPixelsInRange(raw: seq<Byte>, g: Glyph, bpp: nat)
    requires OldPixels(raw, g, bpp).Some?
    ensures InRange(OldPixels(raw, g, bpp).value, bpp)
  {
    forall k | 0 <= k < g.Pixels()
      ensures OldPixels(raw, g, bpp).value[k] < Pow2(bpp)
    {
      PlainPixelAt(BitsOf(raw), g.bitmapIndex * 8, g.Pixels(), bpp, k);
    }
  }

  /** Glyph `i` decodes, from its new index and with all later bytes still
      following, to the pixels the plain font held at its old index. */
  ghost predicate GlyphPreserved(raw: seq<Byte>, g: Glyph, bpp: nat, bitmap: seq<Byte>, index: nat) {
    && index <= |bitmap|
    && OldPixels(raw, g, bpp).Some?
    && Decode(bitmap[index..], g.Pixels(), bpp) == OldPixels(raw, g, bpp)
  }

  lemma {:induction false} IndexOfGlyph(raw: seq<Byte>, glyphs: seq<Glyph>, bpp: nat, n: nat, i: nat)
    requires i < n <= |glyphs| && Rewrite(raw, glyphs, bpp, n).Ok?
    ensures var f := Rewrite(raw, glyphs, bpp, n).value;
            && OldPixels(raw, glyphs[i], bpp).Some?
            && f.indexes[i] <= |f.bitmap|
            && Encode(OldPixels(raw, glyphs[i], bpp).value, bpp) <= f.bitmap[f.indexes[i]..]
    ensures Rewrite(raw, glyphs, bpp, i).Ok?
    ensures Rewrite(raw, glyphs, bpp, n).value.indexes[i] == |Rewrite(raw, glyphs, bpp, i).value.bitmap|
  {
    var f := Rewrite(raw, glyphs, bpp, n).value;
    var f' := Rewrite(raw, glyphs, bpp, n - 1).value;
    if i < n - 1 {
      IndexOfGlyph(raw, glyphs, bpp, n - 1, i);
      var at := f'.indexes[i];
      assert f'.bitmap[at..] <= f.bitmap[at..];
    } else {
      assert f.bitmap[|f'.bitmap|..] == Encode(OldPixels(raw, glyphs[i], bpp).value, bpp);
    }
  }

  /** Whole-font preservation: for every font the rewriter accepts, every glyph
      keeps its pixels. */
  lemma FontPreserved(raw: seq<Byte>, glyphs: seq<Glyph>, bpp: nat, format: nat)
    requires CompressSpec(raw, glyphs, bpp, format).Ok?
    ensures var f := CompressSpec(raw, glyphs, bpp, format).value;
            && |f.indexes| == |glyphs|
            && forall i :: 0 <= i < |glyphs| ==> GlyphPreserved(raw, glyphs[i], bpp, f.bitmap, f.indexes[i])
  {
    var f := CompressSpec(raw, glyphs, bpp, format).value;
    forall i | 0 <= i < |glyphs|
      ensures GlyphPreserved(raw, glyphs[i], bpp, f.bitmap, f.indexes[i])
    {
      IndexOfGlyph(raw, glyphs, bpp, |glyphs|, i);
      var vals := OldPixels(raw, glyphs[i], bpp).value;
      var tail := f.bitmap[f.indexes[i]..][|Encode(vals, bpp)|..];
      OldPixelsInRange(raw, glyphs[i], bpp);
      RoundTrip(vals, bpp, tail);
      assert f.bitmap[f.indexes[i]..] == Encode(vals, bpp) + tail;
    }
  }

  lemma RowColumn(row: nat, column: nat, width: nat, height: nat)
    requires row < height && column < width
    ensures row * width + column < width * height
  {
    assert (height - 1 - row) * width >= 0;
    assert (height - 1 - row) * width == width * height - width - row * width;
  }

  /** One plain pixel, by the bits of its place. */
  lemma OldPixelAt(raw: seq<Byte>, g: Glyph, bpp: nat, n: nat, p: nat, at: nat)
    requires n == g.boxW * g.boxH && p < n && at == g.bitmapIndex * 8 + p * bpp
    requires OldPixels(raw, g, bpp).Some?
    ensures |OldPixels(raw, g, bpp).value| == n
    ensures Some(OldPixels(raw, g, bpp).value[p]) == ReadBits(BitsOf(raw), at, bpp)
  {
    PlainPixelAt(BitsOf(raw), g.bitmapIndex * 8, n, bpp, p);
    FieldAtIs(g.bitmapIndex * 8, p, bpp);
  }

  /** Preservation of every pixel: at row and column of a glyph, what is decoded from
      the new index is the number that the `bpp` bits of the raw bitmap at that pixel's
      place spell, rows one after the other without padding. */
  lemma PixelsPreserved(raw: seq<Byte>, glyphs: seq<Glyph>, bpp: nat, format: nat, f: Rewritten,
                        i: nat, row: nat, column: nat, n: nat, p: nat, at: nat)
    requires CompressSpec(raw, glyphs, bpp, format) == Ok(f)
    requires i < |glyphs| && row < glyphs[i].boxH && column < glyphs[i].boxW
    requires n == glyphs[i].boxW * glyphs[i].boxH && p == row * glyphs[i].boxW + column
    requires at == glyphs[i].bitmapIndex * 8 + p * bpp
    ensures p < n && (bpp > 0 ==> at + bpp <= 8 * |raw|)
    ensures |f.indexes| == |glyphs| && f.indexes[i] <= |f.bitmap|
    ensures var decoded := Decode(f.bitmap[f.indexes[i]..], n, bpp);
            && decoded.Some? && |decoded.value| == n
            && decoded.value[p] == if bpp > 0 then Value(BitsOf(raw)[at..at + bpp]) else 0
  {
    FontPreserved(raw, glyphs, bpp, format);
    assert GlyphPreserved(raw, glyphs[i], bpp, f.bitmap, f.indexes[i]);
    RowColumn(row, column, glyphs[i].boxW, glyphs[i].boxH);
    OldPixelAt(raw, glyphs[i], bpp, n, p, at);
  }

  lemma {:induction false} BitmapGrows(raw: seq<Byte>, glyphs: seq<Glyph>, bpp: nat, k: nat, n: nat)
    requires k <= n <= |glyphs| && Rewrite(raw, glyphs, bpp, n).Ok?
    ensures Rewrite(raw, glyphs, bpp, k).Ok?
    ensures Rewrite(raw, glyphs, bpp, k).value.bitmap <= Rewrite(raw, glyphs, bpp, n).value.bitmap
  {
    if k < n {
      BitmapGrows(raw, glyphs, bpp, k, n - 1);
    }
  }

  lemma MiddleSlice(a: seq<Byte>, b: seq<Byte>, c: seq<Byte>, stream: seq<Byte>)
    requires b == a + stream && b <= c
    ensures c[|a|..|b|] == stream
  {
  }

  /** The streams stand one behind the other from the first byte to the last. */
  lemma StreamsAdjacent(raw: seq<Byte>, glyphs: seq<Glyph>, bpp: nat, f: Rewritten, n: nat, i: nat)
    requires i < n <= |glyphs| && Rewrite(raw, glyphs, bpp, n) == Ok(f)
    ensures OldPixels(raw, glyphs[i], bpp).Some?
    ensures var end := if i + 1 < n then f.indexes[i + 1] else |f.bitmap|;
            && f.indexes[0] == 0 && f.indexes[i] <= end <= |f.bitmap|
            && f.bitmap[f.indexes[i]..end] == Encode(OldPixels(raw, glyphs[i], bpp).value, bpp)
  {
    BitmapGrows(raw, glyphs, bpp, i, n);
    BitmapGrows(raw, glyphs, bpp, i + 1, n);
    IndexOfGlyph(raw, glyphs, bpp, n, 0);
    IndexOfGlyph(raw, glyphs, bpp, n, i);
    if i + 1 < n {
      IndexOfGlyph(raw, glyphs, bpp, n, i + 1);
    }
    var a, b := Rewrite(raw, glyphs, bpp, i).value.bitmap, Rewrite(raw, glyphs, bpp, i + 1).value.bitmap;
    MiddleSlice(a, b, f.bitmap, Encode(OldPixels(raw, glyphs[i], bpp).value, bpp));
  }

  lemma {:induction false} RewriteOutcome(raw: seq<Byte>, glyphs: seq<Glyph>, bpp: nat, n: nat)
    requires n <= |glyphs|
    ensures Rewrite(raw, glyphs, bpp, n).Ok? <==> forall i :: 0 <= i < n ==> GlyphError(raw, glyphs, i, bpp).None?
    ensures Rewrite(raw, glyphs, bpp, n).Err? ==>
              exists i :: 0 <= i < n && GlyphError(raw, glyphs, i, bpp) == Some(Rewrite(raw, glyphs, bpp, n).error)
                       && forall j :: 0 <= j < i ==> GlyphError(raw, glyphs, j, bpp).None?
  {
    if n > 0 {
      RewriteOutcome(raw, glyphs, bpp, n - 1);
      if Rewrite(raw, glyphs, bpp, n - 1).Ok? && GlyphError(raw, glyphs, n - 1, bpp).Some? {
        assert GlyphError(raw, glyphs, n - 1, bpp) == Some(Rewrite(raw, glyphs, bpp, n).error);
      }
    }
  }

  /** What a glyph is refused for: a start after the next one's, or the last one's after
      the end of the bitmap; or else a pixel that ends outside the bitmap. */
  lemma GlyphErrorIs(raw: seq<Byte>, glyphs: seq<Glyph>, i: nat, bpp: nat)
    requires i < |glyphs|
    ensures var g := glyphs[i];
            GlyphError(raw, glyphs, i, bpp) ==
              if i + 1 < |glyphs| && glyphs[i + 1].bitmapIndex < g.bitmapIndex then Some(InvalidOrder(i))
              else if i + 1 == |glyphs| && |raw| < g.bitmapIndex then Some(InvalidOrder(i))
              else if g.boxW * g.boxH * bpp > 0 && g.bitmapIndex * 8 + g.boxW * g.boxH * bpp > 8 * |raw| then
                Some(IndexOutOfRange(i))
              else None
  {
    var needed: nat := glyphs[i].Pixels() * bpp;
    PlainPixelsDefined(BitsOf(raw), glyphs[i].bitmapIndex * 8, glyphs[i].Pixels(), bpp);
  }

  lemma Refused(raw: seq<Byte>, glyphs: seq<Glyph>, bpp: nat)
    requires glyphs != [] && exists i :: 0 <= i < |glyphs| && GlyphError(raw, glyphs, i, bpp).Some?
    ensures !(&& (forall i, j :: 0 <= i && i + 1 == j < |glyphs| ==> glyphs[i].bitmapIndex <= glyphs[j].bitmapIndex)
              && glyphs[|glyphs| - 1].bitmapIndex <= |raw|
              && forall i :: 0 <= i < |glyphs| ==>
                   || glyphs[i].boxW * glyphs[i].boxH * bpp == 0
                   || glyphs[i].bitmapIndex * 8 + glyphs[i].boxW * glyphs[i].boxH * bpp <= 8 * |raw|)
  {
    var i :| 0 <= i < |glyphs| && GlyphError(raw, glyphs, i, bpp).Some?;
    GlyphErrorIs(raw, glyphs, i, bpp);
    if i + 1 < |glyphs| {
      assert glyphs[i + 1] == glyphs[i + 1];
    }
  }

  /** Acceptance: exactly the plain fonts whose glyphs are in order and inside
      the bitmap. The error of a refused font is that of its first bad glyph,
      and it is never a failed validation. */
  lemma FontAccepted(raw: seq<Byte>, glyphs: seq<Glyph>, bpp: nat, format: nat)
    ensures CompressSpec(raw, glyphs, bpp, format).Ok? <==>
              && glyphs != [] && format == 0
              && (forall i, j :: 0 <= i && i + 1 == j < |glyphs| ==> glyphs[i].bitmapIndex <= glyphs[j].bitmapIndex)
              && glyphs[|glyphs| - 1].bitmapIndex <= |raw|
              && forall i :: 0 <= i < |glyphs| ==>
                   || glyphs[i].boxW * glyphs[i].boxH * bpp == 0
                   || glyphs[i].bitmapIndex * 8 + glyphs[i].boxW * glyphs[i].boxH * bpp <= 8 * |raw|
    ensures CompressSpec(raw, glyphs, bpp, format).Err? ==>
              var e := CompressSpec(raw, glyphs, bpp, format).error;
              if glyphs == [] then e == NoEntries
              else if format != 0 then e == NotPlain(format)
              else
                exists i :: 0 <= i < |glyphs| && GlyphError(raw, glyphs, i, bpp) == Some(e)
                         && forall j :: 0 <= j < i ==> GlyphError(raw, glyphs, j, bpp).None?
    ensures CompressSpec(raw, glyphs, bpp, format).Err? ==>
              !CompressSpec(raw, glyphs, bpp, format).error.ValidationFailed?
  {
    RewriteOutcome(raw, glyphs, bpp, |glyphs|);
    if CompressSpec(raw, glyphs, bpp, format).Ok? {
      NoErrorThenFits(raw, glyphs, bpp);
    } else if glyphs != [] && format == 0 {
      Refused(raw, glyphs, bpp);
    }
  }

  lemma NoErrorThenFits(raw: seq<Byte>, glyphs: seq<Glyph>, bpp: nat)
    requires glyphs != [] && forall i :: 0 <= i < |glyphs| ==> GlyphError(raw, glyphs, i, bpp).None?
    ensures forall i, j :: 0 <= i && i + 1 == j < |glyphs| ==> glyphs[i].bitmapIndex <= glyphs[j].bitmapIndex
    ensures glyphs[|glyphs| - 1].bitmapIndex <= |raw|
    ensures forall i :: 0 <= i < |glyphs| ==>
              || glyphs[i].boxW * glyphs[i].boxH * bpp == 0
              || glyphs[i].bitmapIndex * 8 + glyphs[i].boxW * glyphs[i].boxH * bpp <= 8 * |raw|
  {
    forall i | 0 <= i < |glyphs|
      ensures i + 1 < |glyphs| ==> glyphs[i].bitmapIndex <= glyphs[i + 1].bitmapIndex
      ensures i + 1 == |glyphs| ==> glyphs[i].bitmapIndex <= |raw|
      ensures || glyphs[i].boxW * glyphs[i].boxH * bpp == 0
              || glyphs[i].bitmapIndex * 8 + glyphs[i].boxW * glyphs[i].boxH * bpp <= 8 * |raw|
    {
      GlyphErrorIs(raw, glyphs, i, bpp);
    }
  }

  /** Bytes the streams of the first `n` glyphs may take. */
  function SizeBudget(glyphs: seq<Glyph>, bpp: nat, n: nat): nat
    requires n <= |glyphs|
  {
    if n == 0 then 0 else
    var px := glyphs[n - 1].boxW * glyphs[n - 1].boxH;
    SizeBudget(glyphs, bpp, n - 1) + (if px == 0 then 0 else (px * bpp + (px - 1) / 2 + 7) / 8)
  }

  /** The rewritten bitmap never exceeds the sum of the per-glyph budgets. */
  lemma {:induction false} FontSize(raw: seq<Byte>, glyphs: seq<Glyph>, bpp: nat, n: nat)
    requires bpp >= 1 && n <= |glyphs| && Rewrite(raw, glyphs, bpp, n).Ok?
    ensures |Rewrite(raw, glyphs, bpp, n).value.bitmap| <= SizeBudget(glyphs, bpp, n)
  {
    if n > 0 {
      FontSize(raw, glyphs, bpp, n - 1);
      var vals := OldPixels(raw, glyphs[n - 1], bpp).value;
      if vals != [] {
        StreamSize(vals, bpp);
      }
    }
  }
}
