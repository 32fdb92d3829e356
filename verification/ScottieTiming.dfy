/** Which way the timing scale goes: it multiplies the lengths of the phases, but it
    is set to, and drawn towards, the expected line over the measured one. */
module ScottieTiming {
  import opened Sstv
  import opened ScottieModel
  import opened ScottieRuns

  /** The line length `Adapt` measures. */
  function Measured(s: State): int {
    if s.lineSamples - s.offset < 1 then 1 else s.lineSamples - s.offset
  }

  /** Whether `Adapt` uses it: within 12 percent of the expected length. */
  predicate Plausible(s: State) {
    s.lineSamples > 0 && 16616 <= Measured(s) <= 21147
  }

  /** What the scale is drawn towards after a line of this length. */
  function Target(line: int): (r: real)
    requires line > 0
    ensures MIN_SCALE <= r <= MAX_SCALE
  {
    ClampScale(EXPECTED as real / line as real)
  }

  lemma ExpectedValue()
    ensures EXPECTED == 18882
    ensures (EXPECTED as real * (1.0 - 0.12)).Floor == 16616 && (EXPECTED as real * (1.0 + 0.12)).Floor == 21147
  {
    BaseTimings();
  }

  /** A plausible line moves the scale a fiftieth of the way to the target; any other
      changes nothing. */
  lemma AdaptMoves(s: State)
    ensures if Plausible(s)
            then Adapt(s).scale - Target(Measured(s)) == 0.98 * (s.scale - Target(Measured(s)))
            else Adapt(s) == s
  {
    ExpectedValue();
  }

  lemma CompareQuotient(a: real, b: real, x: real)
    requires b > 0.0
    ensures a / b < x <==> a < x * b
    ensures x < a / b <==> x * b < a
  {
    var q := a / b;
    assert q * b == a;
    if q < x {
      Positive(x - q, b);
    } else if q > x {
      Positive(q - x, b);
    }
  }

  lemma Positive(a: real, b: real)
    requires a > 0.0 && b > 0.0
    ensures a * b > 0.0
  {
  }

  /** The exact direction: the scale, and with it every phase, shrinks when the
      measured line times the scale exceeds the expected line, and grows when it falls
      short of it, up to the ends of the range. */
  lemma AdaptDirection(s: State, m: real)
    requires Plausible(s) && MIN_SCALE <= s.scale <= MAX_SCALE && m == Measured(s) as real
    ensures Adapt(s).scale < s.scale <==> s.scale > 0.95 && s.scale * m > 18882.0
    ensures Adapt(s).scale > s.scale <==> s.scale < 1.05 && s.scale * m < 18882.0
  {
    ExpectedValue();
    AdaptMoves(s);
    CompareQuotient(18882.0, m, s.scale);
  }

  // ----- lengths follow the scale

  lemma RescaleMonotone(base: int, a: real, b: real)
    requires base >= 0 && a <= b
    ensures Rescale(base, a) <= Rescale(base, b)
  {
    assert base as real * (b - a) >= 0.0;
  }

  lemma LineMonotone(a: real, b: real)
    requires a <= b
    ensures TimingAt(a).LineLength() <= TimingAt(b).LineLength()
  {
    BaseTimings();
    RescaleMonotone(BASE_PORCH, a, b);
    RescaleMonotone(BASE_SYNC, a, b);
    RescaleMonotone(BASE_COLOR, a, b);
  }

  lemma AdaptTiming(s: State)
    requires Ready(s)
    ensures Adapt(s).timing == TimingAt(Adapt(s).scale)
  {
    AdaptReady(s);
  }

  lemma Sides(scale: real, m: real, e: real)
    requires m > 0.0 && e > 0.0
    ensures scale >= 1.0 && m > e ==> scale * m > e
    ensures scale <= 1.0 && m < e ==> scale * m < e
  {
    if scale >= 1.0 {
      assert (scale - 1.0) * m >= 0.0;
    } else {
      assert (1.0 - scale) * m >= 0.0;
    }
  }

  lemma ScaleAfterLine(s: State)
    requires Plausible(s) && MIN_SCALE <= s.scale <= MAX_SCALE
    ensures s.scale >= 1.0 && Measured(s) > EXPECTED ==> Adapt(s).scale < s.scale
    ensures s.scale <= 1.0 && Measured(s) < EXPECTED ==> Adapt(s).scale > s.scale
  {
    var m := Measured(s) as real;
    ExpectedValue();
    AdaptDirection(s, m);
    Sides(s.scale, m, 18882.0);
    assert (m > 18882.0 <==> Measured(s) > EXPECTED) && (m < 18882.0 <==> Measured(s) < EXPECTED);
  }

  /** So a decoder at least as slow as nominal gets faster after a line that was longer
      than nominal, and one at most as slow gets slower after a shorter one. */
  lemma LongLinesShorten(s: State)
    requires Ready(s) && Plausible(s)
    ensures s.scale >= 1.0 && Measured(s) > EXPECTED ==>
              Adapt(s).scale < s.scale && Adapt(s).timing.LineLength() <= s.timing.LineLength()
    ensures s.scale <= 1.0 && Measured(s) < EXPECTED ==>
              Adapt(s).scale > s.scale && Adapt(s).timing.LineLength() >= s.timing.LineLength()
  {
    ScaleAfterLine(s);
    AdaptTiming(s);
    if Adapt(s).scale < s.scale {
      LineMonotone(Adapt(s).scale, s.scale);
    } else {
      LineMonotone(s.scale, Adapt(s).scale);
    }
  }

  /** The state after `k` lines of the same measured length. */
  function AdaptTimes(s: State, k: nat): State {
    if k == 0 then s else Adapt(AdaptTimes(s, k - 1))
  }

  /** `d` times the k-th power of 0.98. */
  function Shrunk(d: real, k: nat): real {
    if k == 0 then d else 0.98 * Shrunk(d, k - 1)
  }

  lemma AdaptKeepsMeasure(s: State)
    ensures Adapt(s).lineSamples == s.lineSamples && Adapt(s).offset == s.offset
  {
  }

  lemma AdaptAgain(s: State, target: real)
    requires Plausible(s) && target == Target(Measured(s))
    ensures Adapt(s).lineSamples == s.lineSamples && Adapt(s).offset == s.offset
    ensures Adapt(s).scale - target == 0.98 * (s.scale - target)
  {
    AdaptMoves(s);
    AdaptKeepsMeasure(s);
  }

  /** The distance from the target shrinks geometrically. */
  lemma {:induction false} ApproachesTarget(s: State, k: nat, target: real, d: real)
    requires Plausible(s) && target == Target(Measured(s)) && d == s.scale - target
    ensures var t := AdaptTimes(s, k);
            t.lineSamples == s.lineSamples && t.offset == s.offset && t.scale - target == Shrunk(d, k)
  {
    if k > 0 {
      ApproachesTarget(s, k - 1, target, d);
      AdaptAgain(AdaptTimes(s, k - 1), target);
    }
  }

  // ----- the scale at set-up

  lemma SetUpTiming(ratio: real, offset: int)
    requires offset >= 0
    ensures SetUp(ratio, offset).timing == TimingAt(ClampScale(ratio))
  {
    SetUpReady(ratio, offset);
  }

  /** The scale at set-up is the ratio, within its range. */
  lemma SetUpScale(ratio: real, offset: int)
    requires offset >= 0
    ensures var s := SetUp(ratio, offset);
            && s.offset == offset && s.timing == TimingAt(s.scale)
            && (ratio < 0.95 ==> s.scale == 0.95) && (ratio > 1.05 ==> s.scale == 1.05)
            && (0.95 <= ratio <= 1.05 ==> s.scale == ratio)
  {
    SetUpReady(ratio, offset);
  }

  function Distance(a: int, b: int): nat {
    if a < b then b - a else a - b
  }

  /** The decoder's line at scale 1. */
  lemma NominalLength()
    ensures TimingAt(1.0).LineLength() == EXPECTED == 18882
  {
    BaseTimings();
  }

  lemma RatioSide(line: int, ratio: real)
    requires line > 0 && ratio == LINE_SAMPLES as real / line as real
    ensures line >= 18884 ==> ClampScale(ratio) <= 1.0
    ensures line <= 18884 ==> ClampScale(ratio) >= 1.0
    ensures line == 18883 ==> ClampScale(ratio) <= 1.00006
  {
    CompareQuotient(LINE_SAMPLES as real, line as real, 1.0);
    CompareQuotient(LINE_SAMPLES as real, line as real, 1.00006);
  }

  lemma WrongSide(line: int, scale: real)
    requires line >= 18884 ==> scale <= 1.0
    requires line <= 18882 ==> scale >= 1.0
    requires line == 18883 ==> TimingAt(scale).LineLength() == 18882
    ensures Distance(TimingAt(scale).LineLength(), line) >= Distance(18882, line)
  {
    NominalLength();
    if line > 18883 {
      LineMonotone(scale, 1.0);
    } else if line < 18883 {
      LineMonotone(1.0, scale);
    }
  }

  /** The set-up never brings the decoder's line closer to the line it measured than
      its line at scale 1, whatever length was measured. */
  lemma SetUpNeverHelps(line: int, offset: int)
    requires line > 0 && offset >= 0
    ensures var t := SetUp(LINE_SAMPLES as real / line as real, offset).timing;
            Distance(t.LineLength(), line) >= Distance(EXPECTED, line)
  {
    var ratio := LINE_SAMPLES as real / line as real;
    SetUpTiming(ratio, offset);
    ExpectedValue();
    RatioSide(line, ratio);
    if line == 18883 {
      AlmostNominal(ClampScale(ratio));
    }
    WrongSide(line, ClampScale(ratio));
  }

  lemma AlmostNominal(scale: real)
    requires 1.0 <= scale <= 1.00006
    ensures TimingAt(scale).LineLength() == 18882
  {
    BaseTimings();
  }

  lemma RescaleClose(base: int, scale: real)
    ensures base as real * scale - 0.5 <= Rescale(base, scale) as real <= base as real * scale + 0.5
  {
  }

  /** The lengths at a scale add up to the scaled line, but for the roundings. */
  lemma LineClose(scale: real)
    ensures 18882.0 * scale - 3.5 <= TimingAt(scale).LineLength() as real <= 18882.0 * scale + 3.5
  {
    BaseTimings();
    RescaleClose(66, scale);
    RescaleClose(396, scale);
    RescaleClose(6096, scale);
  }

  lemma InverseScale(line: int, scale: real)
    requires 17940 <= line <= 19828 && scale == line as real / LINE_SAMPLES as real
    ensures ClampScale(scale) == scale <= 1.05 && 18884.0 * scale == line as real
  {
    assert LINE_SAMPLES == 18884;
    assert scale == line as real / 18884.0;
  }

  lemma NearLine(scale: real, line: int, length: int)
    requires 0.0 <= scale <= 1.05 && 18884.0 * scale == line as real
    requires 18882.0 * scale - 3.5 <= length as real <= 18882.0 * scale + 3.5
    ensures Distance(length, line) <= 6
  {
    assert line as real - 5.6 <= length as real <= line as real + 3.5;
  }

  /** The inverse ratio would: it gives every line in range to within 6 samples. */
  lemma InverseRatioFits(line: int)
    requires 17940 <= line <= 19828
    ensures Distance(TimingAt(ClampScale(line as real / LINE_SAMPLES as real)).LineLength(), line) <= 6
  {
    var scale := line as real / LINE_SAMPLES as real;
    InverseScale(line, scale);
    LineClose(scale);
    NearLine(scale, line, TimingAt(scale).LineLength());
  }
}
