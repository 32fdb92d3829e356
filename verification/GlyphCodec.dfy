/** The run-length glyph stream: the encoder that never uses the long counter,
    and the independent three-state reference decoder.

    Encoder and decoder are specified as runs of a one-pixel step, so that the
    loops of the two methods, and the lockstep relation between the two
    machines, are all statements about prefixes. */
module GlyphCodec {
  import opened Wrappers
  import opened Division
  import opened Bits

  const MAX_REPEAT_FLAGS := 10
  const COUNTER_TRIGGER := 11
  const COUNTER_BITS := 6

  // ----- encoder

  datatype EncState = EncState(single: bool, prev: nat, seen: bool, repeats: nat)

  datatype Encoded = Encoded(state: EncState, bits: seq<Bit>)

  const ENC_START := EncState(true, 0, false, 0)

  /** The state after pixel `v`, and the bits written for it. */
  function EncodeStep(s: EncState, v: nat, bpp: nat): Encoded {
    if s.single then
      if s.seen && v == s.prev then
        Encoded(EncState(false, v, true, 0), Binary(v, bpp))
      else
        Encoded(EncState(true, v, true, s.repeats), Binary(v, bpp))
    else if v == s.prev && s.repeats < MAX_REPEAT_FLAGS then
      Encoded(s.(repeats := s.repeats + 1), Binary(1, 1))
    else
      Encoded(s.(single := true, prev := v), Binary(0, 1) + Binary(v, bpp))
  }

  function EncodeRun(vals: seq<nat>, bpp: nat): Encoded {
    if vals == [] then Encoded(ENC_START, [])
    else
      var before := EncodeRun(vals[..|vals| - 1], bpp);
      var step := EncodeStep(before.state, vals[|vals| - 1], bpp);
      Encoded(step.state, before.bits + step.bits)
  }

  function Encode(vals: seq<nat>, bpp: nat): seq<Byte> {
    Pack(EncodeRun(vals, bpp).bits)
  }

  method EncodeNoCounter(vals: seq<nat>, bpp: nat) returns (r: seq<Byte>)
    ensures r == Encode(vals, bpp)
  {
    if vals == [] {
      return [];
    }
    var w := new BitWriter();
    var single, prev, seen, repeats: nat := true, 0, false, 0;
    for i := 0 to |vals|
      invariant EncodeRun(vals[..i], bpp) == Encoded(EncState(single, prev, seen, repeats), w.bits)
    {
      var v := vals[i];
      assert vals[..i + 1][..i] == vals[..i];
      if single {
        w.Put(v, bpp);
        if seen && v == prev {
          single := false;
          repeats := 0;
        }
        prev := v;
        seen := true;
      } else if v == prev && repeats < MAX_REPEAT_FLAGS {
        w.Put(1, 1);
        repeats := repeats + 1;
      } else {
        w.Put(0, 1);
        w.Put(v, bpp);
        prev := v;
        single := true;
      }
    }
    assert vals[..|vals|] == vals;
    r := w.ToBytes();
  }

  // ----- decoder

  datatype Mode = Single | Repeated | Counter

  datatype DecState = DecState(rdp: nat, prev: nat, mode: Mode, count: int)

  datatype Decoded = Decoded(state: DecState, ret: nat)

  datatype DecodeTrace = DecodeTrace(state: DecState, out: seq<nat>)

  const DEC_START := DecState(0, 0, Single, 0)

  /** Reads a literal pixel at bit `pos` and returns to the SINGLE state. */
  function Literal(bits: seq<Bit>, pos: nat, count: int, bpp: nat): Option<Decoded> {
    match ReadBits(bits, pos, bpp)
    case None => None
    case Some(v) => Some(Decoded(DecState(pos + bpp, v, Single, count), v))
  }

  /** One decoded pixel; `None` is a read past the end of the stream. */
  function DecodeStep(bits: seq<Bit>, s: DecState, bpp: nat): Option<Decoded> {
    match s.mode
    case Single => (
      match ReadBits(bits, s.rdp, bpp)
      case None => None
      case Some(v) =>
        var rdp := s.rdp + bpp;
        if rdp != bpp && s.prev == v then Some(Decoded(DecState(rdp, v, Repeated, 0), v))
        else Some(Decoded(DecState(rdp, v, Single, s.count), v)))
    case Repeated => (
      match ReadBits(bits, s.rdp, 1)
      case None => None
      case Some(flag) =>
        if flag != 1 then Literal(bits, s.rdp + 1, s.count + 1, bpp)
        else if s.count + 1 != COUNTER_TRIGGER then
          Some(Decoded(s.(rdp := s.rdp + 1, count := s.count + 1), s.prev))
        else
          match ReadBits(bits, s.rdp + 1, COUNTER_BITS)
          case None => None
          case Some(n) =>
            if n != 0 then Some(Decoded(DecState(s.rdp + 1 + COUNTER_BITS, s.prev, Counter, n), s.prev))
            else Literal(bits, s.rdp + 1 + COUNTER_BITS, n, bpp))
    case Counter =>
      if s.count - 1 == 0 then Literal(bits, s.rdp, 0, bpp)
      else Some(Decoded(s.(count := s.count - 1), s.prev))
  }

  function DecodeRun(bits: seq<Bit>, n: nat, bpp: nat): (r: Option<DecodeTrace>)
    ensures r.Some? ==> |r.value.out| == n
  {
    if n == 0 then Some(DecodeTrace(DEC_START, [])) else
    match DecodeRun(bits, n - 1, bpp)
    case None => None
    case Some(t) =>
      match DecodeStep(bits, t.state, bpp)
      case None => None
      case Some(d) => Some(DecodeTrace(d.state, t.out + [d.ret]))
  }

  function Decode(stream: seq<Byte>, n: nat, bpp: nat): Option<seq<nat>> {
    match DecodeRun(BitsOf(stream), n, bpp)
    case None => None
    case Some(t) => Some(t.out)
  }

  /** One turn of the decoder's loop: what it reads depends on what it has read. */
  method DecodePixel(stream: seq<Byte>, s: DecState, bpp: nat) returns (r: Option<Decoded>)
    ensures r == DecodeStep(BitsOf(stream), s, bpp)
  {
    var rdp, prev, mode, count := s.rdp, s.prev, s.mode, s.count;
    match mode {
      case Single =>
        var v := GetBits(stream, rdp, bpp);
        if v.None? {
          return None;
        }
        rdp := rdp + bpp;
        if rdp != bpp && prev == v.value {
          mode := Repeated;
          count := 0;
        }
        prev := v.value;
        return Some(Decoded(DecState(rdp, prev, mode, count), prev));
      case Repeated =>
        var flag := GetBits(stream, rdp, 1);
        if flag.None? {
          return None;
        }
        rdp := rdp + 1;
        count := count + 1;
        if flag.value == 1 {
          if count != COUNTER_TRIGGER {
            return Some(Decoded(DecState(rdp, prev, mode, count), prev));
          }
          var n := GetBits(stream, rdp, COUNTER_BITS);
          if n.None? {
            return None;
          }
          rdp := rdp + COUNTER_BITS;
          count := n.value;
          if count != 0 {
            mode := Counter;
            return Some(Decoded(DecState(rdp, prev, mode, count), prev));
          }
        }
      case Counter =>
        count := count - 1;
        if count != 0 {
          return Some(Decoded(DecState(rdp, prev, mode, count), prev));
        }
    }
    assert DecodeStep(BitsOf(stream), s, bpp) == Literal(BitsOf(stream), rdp, count, bpp);
    r := ReadLiteral(stream, rdp, count, bpp);
  }

  method ReadLiteral(stream: seq<Byte>, pos: nat, count: int, bpp: nat) returns (r: Option<Decoded>)
    ensures r == Literal(BitsOf(stream), pos, count, bpp)
  {
    var v := GetBits(stream, pos, bpp);
    if v.None? {
      return None;
    }
    r := Some(Decoded(DecState(pos + bpp, v.value, Single, count), v.value));
  }

  method DecodeLvglStream(stream: seq<Byte>, pxCount: nat, bpp: nat) returns (r: Option<seq<nat>>)
    ensures r == Decode(stream, pxCount, bpp)
  {
    var s := DEC_START;
    var out: seq<nat> := [];
    for i := 0 to pxCount
      invariant DecodeRun(BitsOf(stream), i, bpp) == Some(DecodeTrace(s, out))
    {
      var d := DecodePixel(stream, s, bpp);
      if d.None? {
        DecodeRunNone(BitsOf(stream), i + 1, pxCount, bpp);
        return None;
      }
      s := d.value.state;
      out := out + [d.value.ret];
    }
    r := Some(out);
  }

  lemma {:induction false} DecodeRunNone(bits: seq<Bit>, n: nat, count: nat, bpp: nat)
    requires n <= count && DecodeRun(bits, n, bpp).None?
    ensures DecodeRun(bits, count, bpp).None?
    decreases count
  {
    if n < count {
      DecodeRunNone(bits, n, count - 1, bpp);
    }
  }

  // ----- lockstep

  /** What holds between the two machines after the same number of pixels. */
  ghost predicate Lockstep(e: EncState, d: DecState, bpp: nat) {
    && d.prev == e.prev
    && d.mode == (if e.single then Single else Repeated)
    && (!e.single ==> d.count == e.repeats <= MAX_REPEAT_FLAGS && e.seen)
    && (e.seen <==> d.rdp >= bpp && d.rdp > 0)
    && (!e.seen ==> d.rdp == 0)
  }

  ghost predicate InRange(vals: seq<nat>, bpp: nat) {
    forall i :: 0 <= i < |vals| ==> vals[i] < Pow2(bpp)
  }

  lemma {:induction false} EncodeRunPrefix(vals: seq<nat>, k: nat, bpp: nat)
    requires k <= |vals|
    ensures EncodeRun(vals[..k], bpp).bits <= EncodeRun(vals, bpp).bits
  {
    if k == |vals| {
      assert vals[..k] == vals;
    } else {
      EncodeRunPrefix(vals[..|vals| - 1], k, bpp);
      assert vals[..|vals| - 1][..k] == vals[..k];
    }
  }

  lemma ReadAt(bits: seq<Bit>, written: seq<Bit>, value: nat, width: nat)
    requires written + Binary(value, width) <= bits && value < Pow2(width)
    ensures ReadBits(bits, |written|, width) == Some(value)
  {
    assert (written + Binary(value, width))[|written|..] == Binary(value, width);
    assert bits[|written|..|written| + width] == Binary(value, width);
    ReadBinary(bits, |written|, value, width);
    DivModUnique(value, Pow2(width), 0, value);
  }

  lemma LockstepStep(bits: seq<Bit>, written: seq<Bit>, e: EncState, d: DecState, v: nat, bpp: nat)
    requires bpp >= 1 && v < Pow2(bpp) && Lockstep(e, d, bpp) && d.rdp == |written|
    requires written + EncodeStep(e, v, bpp).bits <= bits
    ensures var r := DecodeStep(bits, d, bpp);
            && r.Some?
            && r.value.ret == v
            && Lockstep(EncodeStep(e, v, bpp).state, r.value.state, bpp)
            && r.value.state.rdp == |written + EncodeStep(e, v, bpp).bits|
    ensures !ReadsCounter(bits, d)
  {
    assert Pow2(1) == 2;
    if e.single {
      ReadAt(bits, written, v, bpp);
    } else if v == e.prev && e.repeats < MAX_REPEAT_FLAGS {
      ReadAt(bits, written, 1, 1);
    } else {
      var flag := Binary(0, 1);
      assert written + (flag + Binary(v, bpp)) == (written + flag) + Binary(v, bpp);
      assert written + flag <= bits;
      ReadAt(bits, written, 0, 1);
      ReadAt(bits, written + flag, v, bpp);
    }
  }

  /** The decoder is about to read a six-bit counter. */
  ghost predicate ReadsCounter(bits: seq<Bit>, s: DecState) {
    s.mode == Repeated && s.count + 1 == COUNTER_TRIGGER && ReadBits(bits, s.rdp, 1) == Some(1)
  }

  ghost predicate InLockstep(vals: seq<nat>, bpp: nat, bits: seq<Bit>, k: nat)
    requires k <= |vals|
  {
    var e := EncodeRun(vals[..k], bpp);
    var r := DecodeRun(bits, k, bpp);
    && r.Some?
    && r.value.out == vals[..k]
    && Lockstep(e.state, r.value.state, bpp)
    && r.value.state.rdp == |e.bits|
  }

  lemma EncodeRunNext(vals: seq<nat>, k: nat, bpp: nat)
    requires k < |vals|
    ensures var e := EncodeRun(vals[..k], bpp);
            var r := EncodeStep(e.state, vals[k], bpp);
            EncodeRun(vals[..k + 1], bpp) == Encoded(r.state, e.bits + r.bits)
  {
    assert vals[..k + 1][..k] == vals[..k];
  }

  lemma DecodeRunNext(bits: seq<Bit>, k: nat, bpp: nat)
    requires DecodeRun(bits, k, bpp).Some? && DecodeStep(bits, DecodeRun(bits, k, bpp).value.state, bpp).Some?
    ensures var t := DecodeRun(bits, k, bpp).value;
            var r := DecodeStep(bits, t.state, bpp).value;
            DecodeRun(bits, k + 1, bpp) == Some(DecodeTrace(r.state, t.out + [r.ret]))
  {
  }

  lemma LockstepAdvance(vals: seq<nat>, bpp: nat, bits: seq<Bit>, k: nat)
    requires bpp >= 1 && InRange(vals, bpp) && k < |vals|
    requires EncodeRun(vals, bpp).bits <= bits
    requires InLockstep(vals, bpp, bits, k)
    ensures InLockstep(vals, bpp, bits, k + 1)
    ensures !ReadsCounter(bits, DecodeRun(bits, k, bpp).value.state)
  {
    assert vals[..k + 1] == vals[..k] + [vals[k]];
    EncodeRunPrefix(vals, k + 1, bpp);
    EncodeRunNext(vals, k, bpp);
    var e, d := EncodeRun(vals[..k], bpp), DecodeRun(bits, k, bpp).value.state;
    LockstepStep(bits, e.bits, e.state, d, vals[k], bpp);
    DecodeRunNext(bits, k, bpp);
  }

  /** On any stream that begins with the encoder's bits, the decoder follows
      the encoder pixel by pixel: same values, same number of bits. */
  lemma {:induction false} LockstepRun(vals: seq<nat>, bpp: nat, bits: seq<Bit>, k: nat)
    requires bpp >= 1 && InRange(vals, bpp) && k <= |vals|
    requires EncodeRun(vals, bpp).bits <= bits
    ensures InLockstep(vals, bpp, bits, k)
  {
    if k > 0 {
      LockstepRun(vals, bpp, bits, k - 1);
      LockstepAdvance(vals, bpp, bits, k - 1);
    }
  }

  lemma StreamBits(vals: seq<nat>, bpp: nat, trailing: seq<Byte>)
    ensures EncodeRun(vals, bpp).bits + Zeros(Padding(|EncodeRun(vals, bpp).bits|))
         == BitsOf(Encode(vals, bpp) + trailing)[..8 * |Encode(vals, bpp)|]
    ensures EncodeRun(vals, bpp).bits <= BitsOf(Encode(vals, bpp) + trailing)
  {
    BitsOfPack(EncodeRun(vals, bpp).bits);
    BitsOfConcat(Encode(vals, bpp), trailing);
  }

  /** With no bits per pixel the decoder never leaves SINGLE: every pixel is 0. */
  lemma {:induction false} DecodeZeroWidth(bits: seq<Bit>, n: nat)
    ensures DecodeRun(bits, n, 0) == Some(DecodeTrace(DEC_START, Constant(0, n)))
  {
    if n > 0 {
      DecodeZeroWidth(bits, n - 1);
      assert Constant(0, n) == Constant(0, n - 1) + [0];
    }
  }

  // ----- round trip

  /** Decoding gives the pixels back, whatever bytes follow the stream. */
  lemma RoundTrip(vals: seq<nat>, bpp: nat, trailing: seq<Byte>)
    requires InRange(vals, bpp)
    ensures Decode(Encode(vals, bpp) + trailing, |vals|, bpp) == Some(vals)
  {
    var bits := BitsOf(Encode(vals, bpp) + trailing);
    if bpp == 0 {
      DecodeZeroWidth(bits, |vals|);
      assert Constant(0, |vals|) == vals;
    } else {
      StreamBits(vals, bpp, trailing);
      LockstepRun(vals, bpp, bits, |vals|);
      assert vals[..|vals|] == vals;
    }
  }

  /** Every decoded pixel is below `2^bpp`, on any stream. */
  lemma {:induction false} DecodedInRange(bits: seq<Bit>, n: nat, bpp: nat)
    requires DecodeRun(bits, n, bpp).Some?
    ensures InRange(DecodeRun(bits, n, bpp).value.out, bpp)
    ensures DecodeRun(bits, n, bpp).value.state.prev < Pow2(bpp)
  {
    if n > 0 {
      DecodedInRange(bits, n - 1, bpp);
      var s := DecodeRun(bits, n - 1, bpp).value.state;
      ReadInRange(bits, s.rdp, bpp);
      ReadInRange(bits, s.rdp + 1, bpp);
      ReadInRange(bits, s.rdp + 1 + COUNTER_BITS, bpp);
    }
  }

  /** The round trip holds exactly for the pixel lists the width can hold. */
  lemma RoundTripExactly(vals: seq<nat>, bpp: nat)
    ensures Decode(Encode(vals, bpp), |vals|, bpp) == Some(vals) <==> InRange(vals, bpp)
  {
    if InRange(vals, bpp) {
      RoundTrip(vals, bpp, []);
      assert Encode(vals, bpp) + [] == Encode(vals, bpp);
    }
    var bits := BitsOf(Encode(vals, bpp));
    if DecodeRun(bits, |vals|, bpp).Some? {
      DecodedInRange(bits, |vals|, bpp);
    }
  }

  /** The encoder's streams never take the decoder into COUNTER nor to a six-bit
      read, at any pixel and whatever follows the stream. */
  lemma EncoderAvoidsCounter(vals: seq<nat>, bpp: nat, bits: seq<Bit>, k: nat)
    requires bpp >= 1 && InRange(vals, bpp) && k <= |vals| && EncodeRun(vals, bpp).bits <= bits
    ensures DecodeRun(bits, k, bpp).Some? && DecodeRun(bits, k, bpp).value.state.mode != Counter
    ensures k < |vals| ==> !ReadsCounter(bits, DecodeRun(bits, k, bpp).value.state)
  {
    LockstepRun(vals, bpp, bits, k);
    if k < |vals| {
      LockstepAdvance(vals, bpp, bits, k);
    }
  }

  /** The decoder stops exactly where the encoder stopped: fewer than eight bits
      of the stream are left, all of them zero. */
  lemma DecoderStopsWithEncoder(vals: seq<nat>, bpp: nat)
    requires bpp >= 1 && InRange(vals, bpp)
    ensures var bits := BitsOf(Encode(vals, bpp));
            && DecodeRun(bits, |vals|, bpp).Some?
            && var rdp := DecodeRun(bits, |vals|, bpp).value.state.rdp;
               rdp <= |bits| < rdp + 8 && bits[rdp..] == Zeros(|bits| - rdp)
  {
    var bits := BitsOf(Encode(vals, bpp));
    BitsOfPack(EncodeRun(vals, bpp).bits);
    LockstepRun(vals, bpp, bits, |vals|);
    assert vals[..|vals|] == vals;
  }

  // ----- size

  /** Each flag-0 exit from the repeated state is paid for by its own literal
      that is not the first: the run costs at most half a bit a pixel more than
      the plain pixels. */
  lemma SizeBound(vals: seq<nat>, bpp: nat)
    requires bpp >= 1 && vals != []
    ensures |EncodeRun(vals, bpp).bits| <= |vals| * bpp + (|vals| - 1) / 2
  {
    SizePotential(vals, bpp);
  }

  /** What one more pixel adds to twice the size, with an open repeated state
      counted as one. */
  lemma SizeStep(e: EncState, v: nat, bpp: nat)
    requires bpp >= 1 && e.seen
    ensures var r := EncodeStep(e, v, bpp);
            && r.state.seen
            && 2 * |r.bits| + (if r.state.single then 0 else 1) <= 2 * bpp + 1 + (if e.single then 0 else 1)
  {
  }

  lemma {:induction false} SizePotential(vals: seq<nat>, bpp: nat)
    requires bpp >= 1 && vals != []
    ensures var e := EncodeRun(vals, bpp);
            && e.state.seen
            && 2 * |e.bits| + (if e.state.single then 0 else 1) <= 2 * (|vals| * bpp) + |vals| - 1
  {
    var n := |vals| - 1;
    MulSucc(n, bpp);
    if n == 0 {
      assert EncodeRun(vals[..n], bpp) == Encoded(ENC_START, []);
    } else {
      SizePotential(vals[..n], bpp);
      SizeStep(EncodeRun(vals[..n], bpp).state, vals[n], bpp);
    }
  }

  /** The bound in bytes. */
  lemma StreamSize(vals: seq<nat>, bpp: nat)
    requires bpp >= 1 && vals != []
    ensures |Encode(vals, bpp)| <= (|vals| * bpp + (|vals| - 1) / 2 + 7) / 8
  {
    SizeBound(vals, bpp);
    PackLength(EncodeRun(vals, bpp).bits);
  }

  /** The value at position `i` of 0 0 1 1 0 0 1 1 ... */
  function PairAt(i: nat): nat {
    i / 2 % 2
  }

  function Pairs(n: nat): (vals: seq<nat>)
    ensures |vals| == n
  {
    seq(n, i requires 0 <= i < n => PairAt(i))
  }

  /** From the third value on, an even position leaves the repeated state and an
      odd one enters it again. */
  lemma PairStep(n: nat, bpp: nat)
    requires bpp >= 1 && n >= 1
    ensures var r := EncodeStep(EncState(n % 2 == 1, PairAt(n - 1), true, 0), PairAt(n), bpp);
            && r.state == EncState(n % 2 == 0, PairAt(n), true, 0)
            && |r.bits| == bpp + (1 - n % 2)
  {
  }

  lemma PairsAppend(n: nat, bpp: nat)
    requires n >= 1
    ensures var before := EncodeRun(Pairs(n - 1), bpp);
            var step := EncodeStep(before.state, PairAt(n - 1), bpp);
            EncodeRun(Pairs(n), bpp) == Encoded(step.state, before.bits + step.bits)
  {
    assert Pairs(n)[..n - 1] == Pairs(n - 1);
  }

  /** The bound is attained at every length. */
  lemma {:induction false} SizeBoundAttained(n: nat, bpp: nat)
    requires bpp >= 1 && n >= 1
    ensures |EncodeRun(Pairs(n), bpp).bits| == n * bpp + (n - 1) / 2
    ensures EncodeRun(Pairs(n), bpp).state == EncState(n % 2 == 1, PairAt(n - 1), true, 0)
  {
    MulSucc(n - 1, bpp);
    PairsAppend(n, bpp);
    if n == 1 {
      assert EncodeRun(Pairs(0), bpp) == Encoded(ENC_START, []);
    } else {
      SizeBoundAttained(n - 1, bpp);
      PairStep(n - 1, bpp);
    }
  }

  function Constant(v: nat, n: nat): (vals: seq<nat>)
    ensures |vals| == n
  {
    seq(n, _ => v)
  }

  lemma ConstantStep(v: nat, n: nat, bpp: nat)
    requires n >= 1
    ensures var before := EncodeRun(Constant(v, n - 1), bpp);
            var step := EncodeStep(before.state, v, bpp);
            EncodeRun(Constant(v, n), bpp) == Encoded(step.state, before.bits + step.bits)
  {
    assert Constant(v, n)[..n - 1] == Constant(v, n - 1);
  }

  lemma RepeatFlag(v: nat, m: nat, j: nat, bpp: nat)
    requires j < MAX_REPEAT_FLAGS && EncodeRun(Constant(v, m), bpp).state == EncState(false, v, true, j)
    ensures EncodeRun(Constant(v, m + 1), bpp).state == EncState(false, v, true, j + 1)
    ensures |EncodeRun(Constant(v, m + 1), bpp).bits| == |EncodeRun(Constant(v, m), bpp).bits| + 1
  {
    ConstantStep(v, m + 1, bpp);
    assert |Binary(1, 1)| == 1;
  }

  /** Ten repeat flags after entering the repeated state. */
  lemma {:induction false} ConstantFlags(v: nat, n: nat, j: nat, bpp: nat)
    requires j <= MAX_REPEAT_FLAGS
    requires EncodeRun(Constant(v, n), bpp).state == EncState(false, v, true, 0)
    ensures EncodeRun(Constant(v, n + j), bpp).state == EncState(false, v, true, j)
    ensures |EncodeRun(Constant(v, n + j), bpp).bits| == |EncodeRun(Constant(v, n), bpp).bits| + j
  {
    if j > 0 {
      ConstantFlags(v, n, j - 1, bpp);
      RepeatFlag(v, n + (j - 1), j - 1, bpp);
    }
  }

  /** From one entry into the repeated state to the next: ten flags, the eleventh
      flag, and a literal. */
  lemma ConstantRound(v: nat, n: nat, bpp: nat)
    requires EncodeRun(Constant(v, n), bpp).state == EncState(false, v, true, 0)
    ensures EncodeRun(Constant(v, n + 12), bpp).state == EncState(false, v, true, 0)
    ensures |EncodeRun(Constant(v, n + 12), bpp).bits| == |EncodeRun(Constant(v, n), bpp).bits| + (2 * bpp + 11)
  {
    ConstantFlags(v, n, 10, bpp);
    ConstantStep(v, n + 11, bpp);
    ConstantStep(v, n + 12, bpp);
  }

  /** A constant run of 2 + 12k pixels: twelve pixels in 2 * bpp + 11 bits. */
  lemma {:induction false} ConstantRunSize(v: nat, k: nat, bpp: nat)
    ensures EncodeRun(Constant(v, 2 + 12 * k), bpp).state == EncState(false, v, true, 0)
    ensures |EncodeRun(Constant(v, 2 + 12 * k), bpp).bits| == 2 * bpp + k * (2 * bpp + 11)
  {
    if k == 0 {
      ConstantStart(v, bpp);
    } else {
      var n := 2 + 12 * (k - 1);
      ConstantRunSize(v, k - 1, bpp);
      ConstantRound(v, n, bpp);
      assert k * (2 * bpp + 11) == (k - 1) * (2 * bpp + 11) + (2 * bpp + 11);
    }
  }

  lemma ConstantStart(v: nat, bpp: nat)
    ensures EncodeRun(Constant(v, 2), bpp).state == EncState(false, v, true, 0)
    ensures |EncodeRun(Constant(v, 2), bpp).bits| == 2 * bpp
  {
    assert EncodeRun(Constant(v, 0), bpp) == Encoded(ENC_START, []);
    ConstantStep(v, 1, bpp);
    ConstantStep(v, 2, bpp);
  }

  // ----- the decoder on arbitrary streams

  /** Bits that decoding `n` pixels can consume at most. */
  function ConsumptionBound(n: nat, bpp: nat): nat {
    n * (bpp + 1) + (if n == 0 then 0 else COUNTER_BITS * ((n - 1) / 12))
  }

  /** Pixels already spent on the way to the next six-bit read. */
  function Spent(s: DecState): int {
    if s.mode == Repeated then s.count + 1 else 0
  }

  ghost predicate DecoderInvariant(s: DecState, n: nat, bpp: nat) {
    && (s.mode == Repeated ==> 0 <= s.count <= 10)
    && (s.mode == Counter ==> 1 <= s.count <= 63)
    && (n == 0 ==> s == DEC_START)
    && (n > 0 ==> Spent(s) <= n - 1 && s.rdp <= n * (bpp + 1) + COUNTER_BITS * ((n - 1 - Spent(s)) / 12))
    && (bpp == 0 ==> s.rdp == 0 && s.mode == Single)
  }

  lemma CounterRange(bits: seq<Bit>, pos: nat)
    ensures ReadBits(bits, pos, COUNTER_BITS).Some? ==> ReadBits(bits, pos, COUNTER_BITS).value <= 63
  {
    ReadInRange(bits, pos, COUNTER_BITS);
    assert Pow2(3) == 8;
    assert Pow2(6) == 64;
  }

  /** How one pixel changes the mode and the count. */
  lemma StepShape(bits: seq<Bit>, s: DecState, bpp: nat)
    requires DecodeStep(bits, s, bpp).Some?
    ensures var t := DecodeStep(bits, s, bpp).value.state;
            && (t.mode == Repeated ==>
                  || (s.mode == Repeated && t.count == s.count + 1 != COUNTER_TRIGGER)
                  || (s.mode == Single && t.count == 0 && s.rdp != 0))
            && (t.mode == Counter ==> 1 <= t.count <= 63 || (s.mode == Counter && t.count == s.count - 1 != 0))
            && (s.rdp == 0 && s.mode == Single && bpp == 0 ==> t.rdp == 0 && t.mode == Single)
  {
    CounterRange(bits, s.rdp + 1);
  }

  /** The bound on the bits consumed survives one more pixel. */
  lemma ConsumptionStep(s: DecState, t: DecState, n: nat, bpp: nat)
    requires DecoderInvariant(s, n, bpp)
    requires t.mode == Repeated ==>
               || (s.mode == Repeated && t.count == s.count + 1 != COUNTER_TRIGGER)
               || (s.mode == Single && t.count == 0 && s.rdp != 0)
    requires t.rdp <= s.rdp + bpp + 1 + (if s.mode == Repeated && s.count == 10 then COUNTER_BITS else 0)
    ensures Spent(t) <= n && t.rdp <= (n + 1) * (bpp + 1) + COUNTER_BITS * ((n - Spent(t)) / 12)
  {
    MulSucc(n, bpp + 1);
    if s.mode == Repeated && n > 0 && s.count == 10 {
      assert (n - 12) / 12 == n / 12 - 1;
    }
  }

  lemma DecoderInvariantStep(bits: seq<Bit>, s: DecState, n: nat, bpp: nat)
    requires DecoderInvariant(s, n, bpp)
    requires DecodeStep(bits, s, bpp).Some?
    ensures DecoderInvariant(DecodeStep(bits, s, bpp).value.state, n + 1, bpp)
  {
    StepShape(bits, s, bpp);
    StepCost(bits, s, bpp);
    ConsumptionStep(s, DecodeStep(bits, s, bpp).value.state, n, bpp);
  }

  /** What one pixel can cost. */
  lemma StepCost(bits: seq<Bit>, s: DecState, bpp: nat)
    requires DecodeStep(bits, s, bpp).Some?
    ensures DecodeStep(bits, s, bpp).value.state.rdp
         <= s.rdp + bpp + 1 + (if s.mode == Repeated && s.count == 10 then COUNTER_BITS else 0)
    ensures s.mode != Repeated ==> DecodeStep(bits, s, bpp).value.state.rdp <= s.rdp + bpp
  {
  }

  lemma LongEnoughStep(bits: seq<Bit>, s: DecState, n: nat, bpp: nat)
    requires DecoderInvariant(s, n, bpp)
    requires |bits| >= ConsumptionBound(n + 1, bpp)
    ensures DecodeStep(bits, s, bpp).Some?
  {
    MulSucc(n, bpp + 1);
    if s.mode == Repeated && n > 0 && s.count == 10 {
      assert (n - 12) / 12 == n / 12 - 1;
    }
  }

  lemma ConsumptionGrows(n: nat, bpp: nat)
    ensures ConsumptionBound(n, bpp) <= ConsumptionBound(n + 1, bpp)
  {
    MulSucc(n, bpp + 1);
  }

  /** One more pixel of a decodable run. */
  lemma DecodeRunStep(bits: seq<Bit>, n: nat, bpp: nat)
    requires DecodeRun(bits, n + 1, bpp).Some?
    ensures DecodeRun(bits, n, bpp).Some?
    ensures var r := DecodeStep(bits, DecodeRun(bits, n, bpp).value.state, bpp);
            r.Some? && DecodeRun(bits, n + 1, bpp).value.state == r.value.state
  {
  }

  /** On any stream: the repeat count stays in 0..10, the long counter in 1..63,
      and `n` pixels consume at most `ConsumptionBound(n)` bits. */
  lemma {:induction false} DecoderBounds(bits: seq<Bit>, n: nat, bpp: nat)
    requires DecodeRun(bits, n, bpp).Some?
    ensures DecoderInvariant(DecodeRun(bits, n, bpp).value.state, n, bpp)
  {
    if n > 0 {
      var m := n - 1;
      DecodeRunStep(bits, m, bpp);
      DecoderBounds(bits, m, bpp);
      DecoderInvariantStep(bits, DecodeRun(bits, m, bpp).value.state, m, bpp);
    }
  }

  /** A stream that long is never read past its end. */
  lemma {:induction false} LongStreamDecodes(bits: seq<Bit>, n: nat, bpp: nat)
    requires |bits| >= ConsumptionBound(n, bpp)
    ensures DecodeRun(bits, n, bpp).Some?
  {
    if n > 0 {
      var m := n - 1;
      ConsumptionGrows(m, bpp);
      LongStreamDecodes(bits, m, bpp);
      DecoderBounds(bits, m, bpp);
      LongEnoughStep(bits, DecodeRun(bits, m, bpp).value.state, m, bpp);
      DecodeRunNext(bits, m, bpp);
    }
  }

  lemma ReadIgnoresTail(bits: seq<Bit>, tail: seq<Bit>, pos: nat, len: nat)
    requires ReadBits(bits, pos, len).Some?
    ensures ReadBits(bits + tail, pos, len) == ReadBits(bits, pos, len)
  {
    if len > 0 {
      assert (bits + tail)[pos..pos + len] == bits[pos..pos + len];
    }
  }

  /** Any decoding that succeeds is unchanged by bits appended to the stream. */
  lemma {:induction false} DecodeIgnoresTail(bits: seq<Bit>, tail: seq<Bit>, n: nat, bpp: nat)
    requires DecodeRun(bits, n, bpp).Some?
    ensures DecodeRun(bits + tail, n, bpp) == DecodeRun(bits, n, bpp)
  {
    if n > 0 {
      DecodeIgnoresTail(bits, tail, n - 1, bpp);
      StepIgnoresTail(bits, tail, DecodeRun(bits, n - 1, bpp).value.state, bpp);
    }
  }

  lemma StepIgnoresTail(bits: seq<Bit>, tail: seq<Bit>, s: DecState, bpp: nat)
    requires DecodeStep(bits, s, bpp).Some?
    ensures DecodeStep(bits + tail, s, bpp) == DecodeStep(bits, s, bpp)
  {
    forall pos: nat, len: nat | ReadBits(bits, pos, len).Some?
      ensures ReadBits(bits + tail, pos, len) == ReadBits(bits, pos, len)
    {
      ReadIgnoresTail(bits, tail, pos, len);
    }
  }
}
