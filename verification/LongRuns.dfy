/** The counter form of the compressed stream, which the encoder never writes and the
    decoder reads: eleven repeat flags, a six-bit count, and the next literal. */
module LongRuns {
  import opened Wrappers
  import opened Bits
  import opened GlyphCodec

  function Ones(n: nat): (bits: seq<Bit>)
    ensures |bits| == n
  {
    seq(n, _ => 1)
  }

  lemma SixBits(n: nat)
    requires n < 64
    ensures n < Pow2(6)
  {
    assert Pow2(3) == 8;
    assert Pow2(6) == 64;
  }

  /** The eleventh flag and the count. */
  lemma CounterRead(bits: seq<Bit>, before: seq<Bit>, n: nat)
    requires n < 64 && before + [1] + Binary(n, 6) <= bits
    ensures ReadBits(bits, |before|, 1) == Some(1) && ReadBits(bits, |before| + 1, 6) == Some(n)
  {
    SixBits(n);
    assert Binary(1, 1) == [1];
    assert Pow2(1) == 2;
    assert before + [1] <= bits;
    ReadAt(bits, before, 1, 1);
    ReadAt(bits, before + [1], n, 6);
  }

  /** The decoder has made `out` of the first `m` pixels, and stands behind ten flags of
      the value `v`. */
  ghost predicate TenFlags(bits: seq<Bit>, m: nat, bpp: nat, out: seq<nat>, rdp: nat, v: nat) {
    DecodeRun(bits, m, bpp) == Some(DecodeTrace(DecState(rdp, v, Repeated, 10), out))
  }

  lemma RunNext(bits: seq<Bit>, m: nat, bpp: nat, s: DecState, out: seq<nat>, d: Decoded)
    requires DecodeRun(bits, m, bpp) == Some(DecodeTrace(s, out)) && DecodeStep(bits, s, bpp) == Some(d)
    ensures DecodeRun(bits, m + 1, bpp) == Some(DecodeTrace(d.state, out + [d.ret]))
  {
    DecodeRunNext(bits, m, bpp);
  }

  lemma FlagStep(bits: seq<Bit>, rdp: nat, v: nat, n: nat, bpp: nat)
    requires ReadBits(bits, rdp, 1) == Some(1) && ReadBits(bits, rdp + 1, 6) == Some(n)
    ensures DecodeStep(bits, DecState(rdp, v, Repeated, 10), bpp)
         == if n > 0 then Some(Decoded(DecState(rdp + 7, v, Counter, n), v)) else Literal(bits, rdp + 7, 0, bpp)
  {
  }

  lemma CountStep(bits: seq<Bit>, rdp: nat, v: nat, c: nat, bpp: nat)
    requires c >= 1
    ensures DecodeStep(bits, DecState(rdp, v, Counter, c), bpp)
         == if c > 1 then Some(Decoded(DecState(rdp, v, Counter, c - 1), v)) else Literal(bits, rdp, 0, bpp)
  {
  }

  lemma CountFirst(bits: seq<Bit>, m: nat, bpp: nat, out: seq<nat>, rdp: nat, v: nat, n: nat)
    requires TenFlags(bits, m, bpp, out, rdp, v) && n > 0
    requires ReadBits(bits, rdp, 1) == Some(1) && ReadBits(bits, rdp + 1, 6) == Some(n)
    ensures DecodeRun(bits, m + 1, bpp) == Some(DecodeTrace(DecState(rdp + 7, v, Counter, n), out + [v]))
  {
    FlagStep(bits, rdp, v, n, bpp);
    RunNext(bits, m, bpp, DecState(rdp, v, Repeated, 10), out, Decoded(DecState(rdp + 7, v, Counter, n), v));
  }

  lemma CountNext(bits: seq<Bit>, k: nat, bpp: nat, out: seq<nat>, rdp: nat, v: nat, c: nat)
    requires DecodeRun(bits, k, bpp) == Some(DecodeTrace(DecState(rdp, v, Counter, c), out)) && c > 1
    ensures DecodeRun(bits, k + 1, bpp) == Some(DecodeTrace(DecState(rdp, v, Counter, c - 1), out + [v]))
  {
    CountStep(bits, rdp, v, c, bpp);
    RunNext(bits, k, bpp, DecState(rdp, v, Counter, c), out, Decoded(DecState(rdp, v, Counter, c - 1), v));
  }

  /** While it counts, the decoder repeats the value and reads nothing. */
  lemma {:induction false} Counting(bits: seq<Bit>, k: nat, bpp: nat, out: seq<nat>, rdp: nat, v: nat, c: nat,
                                    end: nat, all: seq<nat>)
    requires DecodeRun(bits, k, bpp) == Some(DecodeTrace(DecState(rdp, v, Counter, c), out))
    requires c >= 1 && end == k + (c - 1) && all == out + Constant(v, c - 1)
    ensures DecodeRun(bits, end, bpp) == Some(DecodeTrace(DecState(rdp, v, Counter, 1), all))
    decreases c
  {
    if c > 1 {
      assert all == out + [v] + Constant(v, c - 2);
      CountNext(bits, k, bpp, out, rdp, v, c);
      Counting(bits, k + 1, bpp, out + [v], rdp, v, c - 1, end, all);
    } else {
      assert all == out;
    }
  }

  /** A count of `n` stands for `n` more pixels of the value and a new literal, from
      wherever the decoder has read ten flags. */
  lemma CounterRun(bits: seq<Bit>, m: nat, bpp: nat, out: seq<nat>, rdp: nat, v: nat, n: nat, w: nat, k: nat)
    requires TenFlags(bits, m, bpp, out, rdp, v) && k == m + n
    requires ReadBits(bits, rdp, 1) == Some(1) && ReadBits(bits, rdp + 1, 6) == Some(n)
    requires ReadBits(bits, rdp + 7, bpp) == Some(w)
    ensures DecodeRun(bits, k + 1, bpp)
         == Some(DecodeTrace(DecState(rdp + 7 + bpp, w, Single, 0), out + Constant(v, n) + [w]))
  {
    if n == 0 {
      FlagStep(bits, rdp, v, n, bpp);
      assert out + Constant(v, 0) == out;
      CounterEnd(bits, k, bpp, DecState(rdp, v, Repeated, 10), out, rdp + 7, w);
    } else {
      CountFirst(bits, m, bpp, out, rdp, v, n);
      assert out + [v] + Constant(v, n - 1) == out + Constant(v, n);
      Counting(bits, m + 1, bpp, out + [v], rdp + 7, v, n, k, out + Constant(v, n));
      CountStep(bits, rdp + 7, v, 1, bpp);
      CounterEnd(bits, k, bpp, DecState(rdp + 7, v, Counter, 1), out + Constant(v, n), rdp + 7, w);
    }
  }

  lemma CounterEnd(bits: seq<Bit>, m: nat, bpp: nat, s: DecState, out: seq<nat>, at: nat, w: nat)
    requires DecodeRun(bits, m, bpp) == Some(DecodeTrace(s, out))
    requires DecodeStep(bits, s, bpp) == Literal(bits, at, 0, bpp) && ReadBits(bits, at, bpp) == Some(w)
    ensures DecodeRun(bits, m + 1, bpp) == Some(DecodeTrace(DecState(at + bpp, w, Single, 0), out + [w]))
  {
    RunNext(bits, m, bpp, s, out, Decoded(DecState(at + bpp, w, Single, 0), w));
  }

  lemma CounterReads(bits: seq<Bit>, before: seq<Bit>, n: nat, w: nat, bpp: nat)
    requires n < 64 && w < Pow2(bpp) && before + [1] + Binary(n, 6) + Binary(w, bpp) <= bits
    ensures ReadBits(bits, |before|, 1) == Some(1) && ReadBits(bits, |before| + 1, 6) == Some(n)
    ensures ReadBits(bits, |before| + 7, bpp) == Some(w)
  {
    var written := before + [1] + Binary(n, 6);
    assert written <= bits;
    CounterRead(bits, before, n);
    ReadAt(bits, written, w, bpp);
  }

  // ----- a stream with a counter

  lemma EncodeStart(v: nat, bpp: nat)
    ensures EncodeRun(Constant(v, 2), bpp) == Encoded(EncState(false, v, true, 0), Binary(v, bpp) + Binary(v, bpp))
  {
    assert EncodeRun(Constant(v, 0), bpp) == Encoded(ENC_START, []);
    ConstantStep(v, 1, bpp);
    ConstantStep(v, 2, bpp);
    assert EncodeRun(Constant(v, 1), bpp).bits == Binary(v, bpp);
  }

  lemma FlagWritten(v: nat, j: nat, bpp: nat)
    requires j < 10
    ensures EncodeStep(EncState(false, v, true, j), v, bpp) == Encoded(EncState(false, v, true, j + 1), [1])
  {
    assert Binary(1, 1) == [1];
  }

  lemma {:induction false} EncodeFlags(v: nat, bpp: nat, j: nat, head: seq<Bit>)
    requires j <= 10 && head == Binary(v, bpp) + Binary(v, bpp)
    ensures EncodeRun(Constant(v, 2 + j), bpp) == Encoded(EncState(false, v, true, j), head + Ones(j))
  {
    if j == 0 {
      EncodeStart(v, bpp);
      assert head + Ones(0) == head;
    } else {
      EncodeFlags(v, bpp, j - 1, head);
      FlagWritten(v, j - 1, bpp);
      ConstantStep(v, 2 + j, bpp);
      assert head + Ones(j - 1) + [1] == head + Ones(j);
    }
  }

  /** Two literals of a value and ten flags are twelve pixels. */
  lemma TwelvePixels(bits: seq<Bit>, v: nat, bpp: nat, m: nat, vals: seq<nat>, before: seq<Bit>)
    requires bpp >= 1 && v < Pow2(bpp) && m == 12 && vals == Constant(v, m) && before <= bits
    requires before == Binary(v, bpp) + Binary(v, bpp) + Ones(10)
    ensures TenFlags(bits, m, bpp, vals, |before|, v)
  {
    EncodeFlags(v, bpp, m - 2, Binary(v, bpp) + Binary(v, bpp));
    assert EncodeRun(vals, bpp) == Encoded(EncState(false, v, true, 10), before);
    LockstepRun(vals, bpp, bits, m);
    assert vals[..m] == vals;
  }

  /** The value twice, eleven flags, a count of six bits and a literal. */
  function WithCounter(v: nat, n: nat, w: nat, bpp: nat): seq<Bit> {
    Binary(v, bpp) + Binary(v, bpp) + Ones(11) + Binary(n, 6) + Binary(w, bpp)
  }

  lemma WithCounterIs(bits: seq<Bit>, v: nat, n: nat, w: nat, bpp: nat, before: seq<Bit>)
    requires before == Binary(v, bpp) + Binary(v, bpp) + Ones(10) && WithCounter(v, n, w, bpp) <= bits
    ensures before <= bits && before + [1] + Binary(n, 6) + Binary(w, bpp) <= bits
  {
    assert Ones(11) == Ones(10) + [1];
    assert WithCounter(v, n, w, bpp) == before + [1] + Binary(n, 6) + Binary(w, bpp);
  }

  lemma Repeats(v: nat, m: nat, n: nat, vals: seq<nat>)
    requires vals == Constant(v, m + n)
    ensures Constant(v, m) + Constant(v, n) == vals
  {
  }

  /** That is the value `12 + n` times and the literal, for every count and whatever
      follows. */
  lemma CounterStream(bits: seq<Bit>, v: nat, n: nat, w: nat, bpp: nat, m: nat, vals: seq<nat>, rdp: nat)
    requires bpp >= 1 && v < Pow2(bpp) && w < Pow2(bpp) && n < 64 && WithCounter(v, n, w, bpp) <= bits
    requires m == 12 && vals == Constant(v, m + n) && rdp == 2 * bpp + 10
    ensures DecodeRun(bits, m + n + 1, bpp) == Some(DecodeTrace(DecState(rdp + 7 + bpp, w, Single, 0), vals + [w]))
  {
    var before := Binary(v, bpp) + Binary(v, bpp) + Ones(10);
    WithCounterIs(bits, v, n, w, bpp, before);
    TwelvePixels(bits, v, bpp, m, Constant(v, m), before);
    CounterReads(bits, before, n, w, bpp);
    Repeats(v, m, n, vals);
    CounterRun(bits, m, bpp, Constant(v, m), rdp, v, n, w, m + n);
  }
}
