/** The sync line tracker: an incremental straight-line fit over the first
    accepted sync positions, then gated tracking of the line length. Float
    arithmetic is modelled over the reals. */
module SyncLineTracker {
  import opened PyNumber

  datatype Config = Config(expected: int, pct: real, maxFit: int) {
    /** Python's truncation of `expected * (1 - pct)`. */
    function MinWindow(): int {
      Trunc(MinSlope())
    }

    function MaxWindow(): int {
      Trunc(MaxSlope())
    }

    function MinSlope(): real {
      expected as real * (1.0 - pct)
    }

    function MaxSlope(): real {
      expected as real * (1.0 + pct)
    }

    function Window(): real {
      expected as real * pct
    }

    predicate Sensible() {
      expected > 0 && 0.0 <= pct <= 1.0
    }
  }

  datatype State = State(
    count: nat, fitCount: nat,
    sumX: real, sumY: real, sumXX: real, sumXY: real,
    slope: real, intercept: real, fitReady: bool,
    last: int, miss: int)

  const START := State(0, 0, 0.0, 0.0, 0.0, 0.0, 0.0, 0.0, false, -1, 0)

  function Clamp(x: real, lo: real, hi: real): real {
    var y := if x < lo then lo else x;
    if y > hi then hi else y
  }

  function LineDenom(n: real, sumX: real, sumXX: real): real {
    n * sumXX - sumX * sumX
  }

  function LineSlope(n: real, sumX: real, sumY: real, sumXX: real, sumXY: real): real
    requires LineDenom(n, sumX, sumXX) != 0.0
  {
    (n * sumXY - sumX * sumY) / LineDenom(n, sumX, sumXX)
  }

  function LineIntercept(n: real, sumX: real, sumY: real, slope: real): real
    requires n != 0.0
  {
    (sumY - slope * sumX) / n
  }

  function LineAt(slope: real, intercept: real, x: real): real {
    slope * x + intercept
  }

  /** The exponential update of the slope, with weight 0.02. */
  function Blend(slope: real, delta: real): real {
    slope * (1.0 - 0.02) + delta * 0.02
  }

  /** Takes one more point into the sums. */
  function AddPoint(s: State, x: real, y: real): State {
    s.(sumX := s.sumX + x, sumY := s.sumY + y, sumXX := s.sumXX + x * x, sumXY := s.sumXY + x * y,
       fitCount := s.fitCount + 1)
  }

  /** Fits when there are enough points. */
  function Solve(c: Config, s: State): State
    requires s.fitCount >= 1
  {
    var n := s.fitCount as real;
    if s.fitCount >= c.maxFit && LineDenom(n, s.sumX, s.sumXX) != 0.0 then
      var raw := LineSlope(n, s.sumX, s.sumY, s.sumXX, s.sumXY);
      s.(slope := Clamp(raw, c.MinSlope(), c.MaxSlope()),
         intercept := LineIntercept(n, s.sumX, s.sumY, raw),
         fitReady := true)
    else s
  }

  function Fit(c: Config, s: State, x: real, y: real): State {
    Solve(c, AddPoint(s, x, y))
  }

  datatype Outcome = Outcome(state: State, accepted: bool)

  function Next(c: Config, s: State, sample: int): Outcome {
    if c.expected <= 0 then
      Outcome(s.(last := sample, count := s.count + 1), true)
    else if s.count == 0 || s.last < 0 then
      Outcome(s.(last := sample, fitCount := s.fitCount + 1, count := 1), true)
    else
      var delta := sample - s.last;
      if delta < c.MinWindow() || (s.fitReady && delta > c.MaxWindow()) then
        Outcome(s.(miss := s.miss + 1), false)
      else
        var x, y := s.count as real, sample as real;
        if !s.fitReady then
          Outcome(Fit(c, s, x, y).(last := sample, count := s.count + 1), true)
        else
          var err := y - LineAt(s.slope, s.intercept, x);
          var window := c.Window();
          if window > 0.0 && (err < -window || err > window) then
            Outcome(if s.miss + 1 > 3 then START else s.(miss := s.miss + 1), false)
          else
            var slope := Blend(s.slope, delta as real);
            var intercept := y - LineAt(slope, 0.0, x);
            Outcome(s.(slope := slope, intercept := intercept, miss := 0, last := sample, count := s.count + 1), true)
  }

  // ----- the imperative tracker

  class Tracker {
    const config: Config
    var count: nat
    var fitCount: nat
    var sumX: real
    var sumY: real
    var sumXX: real
    var sumXY: real
    var slope: real
    var intercept: real
    var fitReady: bool
    var last: int
    var miss: int

    ghost function Snapshot(): State
      reads this
    {
      State(count, fitCount, sumX, sumY, sumXX, sumXY, slope, intercept, fitReady, last, miss)
    }

    constructor (config: Config)
      ensures Snapshot() == START && this.config == config
    {
      this.config := config;
      count, fitCount, sumX, sumY, sumXX, sumXY := 0, 0, 0.0, 0.0, 0.0, 0.0;
      slope, intercept, fitReady, last, miss := 0.0, 0.0, false, -1, 0;
    }

    method Reset()
      modifies this
      ensures Snapshot() == START
    {
      count, fitCount, sumX, sumY, sumXX, sumXY := 0, 0, 0.0, 0.0, 0.0, 0.0;
      slope, intercept, fitReady, last, miss := 0.0, 0.0, false, -1, 0;
    }

    method Accept(sampleIndex: int) returns (accepted: bool)
      modifies this
      ensures Outcome(Snapshot(), accepted) == Next(config, old(Snapshot()), sampleIndex)
    {
      if config.expected <= 0 {
        last := sampleIndex;
        count := count + 1;
        return true;
      }
      if count == 0 || last < 0 {
        last := sampleIndex;
        fitCount := fitCount + 1;
        count := 1;
        return true;
      }
      var delta := sampleIndex - last;
      if !fitReady {
        if delta < config.MinWindow() {
          miss := miss + 1;
          return false;
        }
      } else if delta < config.MinWindow() || delta > config.MaxWindow() {
        miss := miss + 1;
        return false;
      }
      var x, y := count as real, sampleIndex as real;
      if !fitReady {
        AddToFit(x, y);
      } else {
        var err := y - LineAt(slope, intercept, x);
        var window := config.Window();
        if window > 0.0 && (err < -window || err > window) {
          miss := miss + 1;
          if miss > 3 {
            Reset();
          }
          return false;
        }
        slope := Blend(slope, delta as real);
        intercept := y - LineAt(slope, 0.0, x);
        miss := 0;
      }
      last := sampleIndex;
      count := count + 1;
      accepted := true;
    }

    method AddToFit(x: real, y: real)
      modifies this`sumX, this`sumY, this`sumXX, this`sumXY, this`fitCount
      modifies this`slope, this`intercept, this`fitReady
      ensures Snapshot() == Fit(config, old(Snapshot()), x, y)
    {
      sumX := sumX + x;
      sumY := sumY + y;
      sumXX := sumXX + x * x;
      sumXY := sumXY + x * y;
      fitCount := fitCount + 1;
      assert Snapshot() == AddPoint(old(Snapshot()), x, y);
      if fitCount >= config.maxFit {
        SolveFit();
      }
    }

    method SolveFit()
      requires fitCount >= 1 && fitCount >= config.maxFit
      modifies this`slope, this`intercept, this`fitReady
      ensures Snapshot() == Solve(config, old(Snapshot()))
    {
      var n := fitCount as real;
      if LineDenom(n, sumX, sumXX) != 0.0 {
        slope := LineSlope(n, sumX, sumY, sumXX, sumXY);
        intercept := LineIntercept(n, sumX, sumY, slope);
        if slope < config.MinSlope() {
          slope := config.MinSlope();
        }
        if slope > config.MaxSlope() {
          slope := config.MaxSlope();
        }
        fitReady := true;
      }
    }
  }

  // ----- what is accepted

  /** The first sample, and every sample of a tracker that expects nothing. */
  lemma AcceptedAtOnce(c: Config, s: State, sample: int)
    requires c.expected <= 0 || s.count == 0 || s.last < 0
    ensures Next(c, s, sample).accepted && Next(c, s, sample).state.last == sample
    ensures Next(c, s, sample).state.count == if c.expected <= 0 then s.count + 1 else 1
  {
  }

  /** While fitting, a sample is accepted exactly when a minimum line has passed; there is
      no maximum. */
  lemma FittingIff(c: Config, s: State, sample: int)
    requires c.expected > 0 && s.count > 0 && s.last >= 0 && !s.fitReady
    ensures var o := Next(c, s, sample);
            && (o.accepted <==> sample - s.last >= c.MinWindow())
            && (o.accepted ==> o.state.last == sample && o.state.count == s.count + 1 && o.state.miss == s.miss)
            && (!o.accepted ==> o.state == s.(miss := s.miss + 1))
  {
  }

  /** A rejected sample resets the tracker exactly when it is at a plausible distance but
      off the line and three were missed before it; otherwise it is only counted. */
  lemma ResetIff(c: Config, s: State, sample: int)
    requires c.expected > 0 && s.count > 0 && s.last >= 0 && s.fitReady && !Next(c, s, sample).accepted
    ensures var inWindow := c.MinWindow() <= sample - s.last <= c.MaxWindow();
            Next(c, s, sample).state == if inWindow && s.miss >= 3 then START else s.(miss := s.miss + 1)
  {
  }

  // ----- whole runs

  /** The tracker after a sequence of candidate positions. */
  function Run(c: Config, samples: seq<int>): State {
    if samples == [] then START
    else Next(c, Run(c, samples[..|samples| - 1]), samples[|samples| - 1]).state
  }

  /** The positions accepted since the last reset. */
  function Kept(c: Config, samples: seq<int>): seq<int> {
    if samples == [] then [] else
    var n := |samples| - 1;
    Keep(Kept(c, samples[..n]), Next(c, Run(c, samples[..n]), samples[n]), samples[n])
  }

  function Keep(ys: seq<int>, o: Outcome, sample: int): seq<int> {
    if o.accepted then ys + [sample] else if o.state == START then [] else ys
  }

  /** Sum of `ys[i]` for `i >= 1`: the first accepted sample is never added. */
  function SumY(ys: seq<int>): real {
    if |ys| <= 1 then 0.0 else SumY(ys[..|ys| - 1]) + ys[|ys| - 1] as real
  }

  function SumXY(ys: seq<int>): real {
    if |ys| <= 1 then 0.0 else SumXY(ys[..|ys| - 1]) + (|ys| - 1) as real * ys[|ys| - 1] as real
  }

  /** Sum of 0, 1, ..., n - 1. */
  function SumX(n: real): real {
    n * (n - 1.0) / 2.0
  }

  function SumXX(n: real): real {
    n * (n - 1.0) * (2.0 * n - 1.0) / 6.0
  }

  lemma SumXGrows(n: real)
    ensures SumX(n + 1.0) == SumX(n) + n
  {
  }

  lemma SumXXGrows(n: real)
    ensures SumXX(n + 1.0) == SumXX(n) + n * n
  {
  }

  /** With how many points the fit is made. */
  function FitPoint(c: Config): nat {
    if c.maxFit < 2 then 2 else c.maxFit
  }

  /** The sums are those of the accepted samples at x = 0, 1, ... */
  ghost predicate SumsOf(s: State, ys: seq<int>) {
    && s.sumX == SumX(|ys| as real)
    && s.sumXX == SumXX(|ys| as real)
    && s.sumY == SumY(ys)
    && s.sumXY == SumXY(ys)
  }

  /** What every run keeps, with `ys` the samples accepted since the reset. */
  ghost predicate Invariant(c: Config, s: State, ys: seq<int>) {
    && s.count == |ys|
    && (ys == [] ==> s == START)
    && (ys != [] ==> s.last == ys[|ys| - 1] >= 0)
    && (s.fitReady <==> |ys| >= FitPoint(c))
    && (!s.fitReady ==> s.fitCount == |ys| && (ys != [] ==> SumsOf(s, ys)))
    && (s.fitReady ==> c.MinWindow() as real <= s.slope <= c.MaxSlope())
    && Spaced(c, ys)
  }

  /** Accepted positions are a minimum line apart, and those accepted after the
      fit at most a maximum line. */
  ghost predicate Spaced(c: Config, ys: seq<int>) {
    && (forall i, j :: 0 <= i && i + 1 == j < |ys| ==> ys[j] - ys[i] >= c.MinWindow())
    && (forall i, j :: 0 <= i && i + 1 == j && FitPoint(c) <= j < |ys| ==> ys[j] - ys[i] <= c.MaxWindow())
  }

  lemma SpacedExtend(c: Config, ys: seq<int>, sample: int)
    requires Spaced(c, ys)
    requires ys != [] ==> sample - ys[|ys| - 1] >= c.MinWindow()
    requires |ys| >= FitPoint(c) ==> sample - ys[|ys| - 1] <= c.MaxWindow()
    ensures Spaced(c, ys + [sample])
  {
  }

  lemma Windows(c: Config)
    requires c.Sensible()
    ensures 0.0 <= c.MinSlope() <= c.MaxSlope()
    ensures 0 <= c.MinWindow() && c.MinWindow() as real <= c.MinSlope()
    ensures c.MaxWindow() as real <= c.MaxSlope()
  {
    var e := c.expected as real;
    Product(e, 1.0 - c.pct);
    Product(e, c.pct);
    assert c.MaxSlope() == c.MinSlope() + 2.0 * (e * c.pct);
    TruncBounds(c.MinSlope());
    TruncBounds(c.MaxSlope());
  }

  lemma Product(a: real, b: real)
    ensures a >= 0.0 && b >= 0.0 ==> a * b >= 0.0
    ensures a > 0.0 && b > 0.0 ==> a * b > 0.0
  {
  }

  /** The denominator of the fit is the closed form `n^2 (n^2 - 1) / 12`, so it
      never vanishes. */
  lemma DenomClosedForm(n: real)
    ensures LineDenom(n, SumX(n), SumXX(n)) == n * n * (n * n - 1.0) / 12.0
    ensures n >= 2.0 ==> LineDenom(n, SumX(n), SumXX(n)) > 0.0
  {
    if n >= 2.0 {
      Product(n, n - 1.0);
      Product(n, n);
      assert n * n > n;
      Product(n * n, n * n - 1.0);
    }
  }

  lemma BlendBounds(slope: real, delta: real, lo: real, hi: real)
    requires lo <= slope <= hi && lo <= delta <= hi
    ensures lo <= Blend(slope, delta) <= hi
  {
  }

  lemma PointKeepsSums(s: State, ys: seq<int>, sample: int)
    requires SumsOf(s, ys) && ys != []
    ensures SumsOf(AddPoint(s, |ys| as real, sample as real), ys + [sample])
  {
    var n := |ys| as real;
    var zs := ys + [sample];
    assert zs[..|zs| - 1] == ys;
    assert |zs| as real == n + 1.0;
    SumXGrows(n);
    SumXXGrows(n);
  }

  lemma SolveFits(c: Config, s: State, n: nat)
    requires n >= 2 && s.fitCount == n && !s.fitReady
    requires s.sumX == SumX(n as real) && s.sumXX == SumXX(n as real)
    requires c.MinSlope() <= c.MaxSlope()
    ensures var t := Solve(c, s);
            && (t.fitReady <==> n >= c.maxFit)
            && (t.fitReady ==> c.MinSlope() <= t.slope <= c.MaxSlope())
  {
    DenomClosedForm(n as real);
  }

  /** Adding a point keeps the sums, and fits exactly at the fit point. */
  lemma FitKeepsSums(c: Config, s: State, ys: seq<int>, sample: int)
    requires c.Sensible() && Invariant(c, s, ys) && ys != [] && !s.fitReady
    ensures var t := Fit(c, s, |ys| as real, sample as real);
            && SumsOf(t, ys + [sample])
            && t.fitCount == |ys| + 1
            && (t.fitReady <==> |ys| + 1 >= FitPoint(c))
            && (t.fitReady ==> c.MinSlope() <= t.slope <= c.MaxSlope())
  {
    PointKeepsSums(s, ys, sample);
    Windows(c);
    SolveFits(c, AddPoint(s, |ys| as real, sample as real), |ys| + 1);
  }

  lemma InvariantWhileFitting(c: Config, s: State, ys: seq<int>, sample: int)
    requires c.Sensible() && Invariant(c, s, ys) && sample >= 0 && !s.fitReady
    ensures var o := Next(c, s, sample); Invariant(c, o.state, Keep(ys, o, sample))
  {
    if ys == [] {
      SpacedExtend(c, ys, sample);
    } else if c.MinWindow() <= sample - s.last {
      Windows(c);
      FitKeepsSums(c, s, ys, sample);
      SpacedExtend(c, ys, sample);
    }
  }

  lemma InvariantWhileTracking(c: Config, s: State, ys: seq<int>, sample: int)
    requires c.Sensible() && Invariant(c, s, ys) && sample >= 0 && s.fitReady
    ensures var o := Next(c, s, sample); Invariant(c, o.state, Keep(ys, o, sample))
  {
    var delta := sample - s.last;
    if c.MinWindow() <= delta <= c.MaxWindow() {
      Windows(c);
      BlendBounds(s.slope, delta as real, c.MinWindow() as real, c.MaxSlope());
      SpacedExtend(c, ys, sample);
    }
  }

  lemma InvariantStep(c: Config, s: State, ys: seq<int>, sample: int)
    requires c.Sensible() && Invariant(c, s, ys) && sample >= 0
    ensures var o := Next(c, s, sample); Invariant(c, o.state, Keep(ys, o, sample))
  {
    if s.fitReady {
      InvariantWhileTracking(c, s, ys, sample);
    } else {
      InvariantWhileFitting(c, s, ys, sample);
    }
  }

  /** Every run keeps the invariant: while fitting, the sums are the closed
      forms; the fit is made at exactly the fit point, never fails, and from
      then on the slope stays in the window; accepted positions are at least a
      minimum line apart, and once the fit is made at most a maximum line. */
  lemma {:induction false} RunKeepsInvariant(c: Config, samples: seq<int>)
    requires c.Sensible() && forall i :: 0 <= i < |samples| ==> samples[i] >= 0
    ensures Invariant(c, Run(c, samples), Kept(c, samples))
  {
    if samples != [] {
      var n := |samples| - 1;
      RunKeepsInvariant(c, samples[..n]);
      InvariantStep(c, Run(c, samples[..n]), Kept(c, samples[..n]), samples[n]);
    }
  }

  // ----- how far the fit is from the least-squares line

  function TotalY(ys: seq<int>): real {
    if ys == [] then 0.0 else TotalY(ys[..|ys| - 1]) + ys[|ys| - 1] as real
  }

  /** The least-squares slope of the points (i, ys[i]). */
  function LeastSquaresSlope(ys: seq<int>): real
    requires |ys| >= 2
  {
    DenomClosedForm(|ys| as real);
    LineSlope(|ys| as real, SumX(|ys| as real), TotalY(ys), SumXX(|ys| as real), SumXY(ys))
  }

  /** The slope the tracker computes from the same points, before clamping. */
  function FittedSlope(ys: seq<int>): real
    requires |ys| >= 2
  {
    DenomClosedForm(|ys| as real);
    LineSlope(|ys| as real, SumX(|ys| as real), SumY(ys), SumXX(|ys| as real), SumXY(ys))
  }

  lemma {:induction false} SumYMissesFirst(ys: seq<int>)
    requires ys != []
    ensures SumY(ys) == TotalY(ys) - ys[0] as real
  {
    if |ys| == 1 {
      assert TotalY(ys[..0]) == 0.0;
    } else {
      SumYMissesFirst(ys[..|ys| - 1]);
    }
  }

  /** By how much the tracker overestimates a line length fitted on `n` points. */
  function Excess(y0: int, n: nat): real
    requires n >= 1
  {
    Product(n as real, n as real + 1.0);
    6.0 * y0 as real / (n as real * (n as real + 1.0))
  }

  /** Leaving `y0` out of the sum of y adds `s1 * y0 / denominator` to the slope. */
  lemma MissingPoint(n: real, s1: real, total: real, y0: real, s2: real, sxy: real)
    requires LineDenom(n, s1, s2) != 0.0
    ensures LineSlope(n, s1, total - y0, s2, sxy)
         == LineSlope(n, s1, total, s2, sxy) + s1 * y0 / LineDenom(n, s1, s2)
  {
    assert s1 * (total - y0) == s1 * total - s1 * y0;
    QuotientSum(n * sxy - s1 * total, s1 * y0, LineDenom(n, s1, s2));
  }

  /** Because the first accepted sample is left out of the sum, the fitted slope
      exceeds the least-squares slope by `6 y0 / (n (n + 1))`. */
  lemma FitDeviation(ys: seq<int>)
    requires |ys| >= 2
    ensures FittedSlope(ys) == LeastSquaresSlope(ys) + Excess(ys[0], |ys|)
  {
    var n := |ys| as real;
    SumYMissesFirst(ys);
    DenomClosedForm(n);
    MissingPoint(n, SumX(n), TotalY(ys), ys[0] as real, SumXX(n), SumXY(ys));
    Deviation(n, ys[0] as real, LineDenom(n, SumX(n), SumXX(n)));
  }

  lemma QuotientSum(a: real, b: real, d: real)
    requires d != 0.0
    ensures (a + b) / d == a / d + b / d
  {
  }

  lemma Quotient(a: real, d: real, q: real)
    requires d != 0.0 && q * d == a
    ensures a / d == q
  {
  }

  lemma Deviation(n: real, y0: real, d: real)
    requires n >= 2.0 && d == n * n * (n * n - 1.0) / 12.0 && d > 0.0
    ensures SumX(n) * y0 / d == 6.0 * y0 / (n * (n + 1.0))
  {
    var m := n * (n + 1.0);
    Product(n, n + 1.0);
    var q := 6.0 * y0 / m;
    assert q * m == 6.0 * y0;
    assert d == m * (n * (n - 1.0) / 12.0);
    assert q * d == (q * m) * (n * (n - 1.0) / 12.0);
    assert q * d == SumX(n) * y0;
    Quotient(SumX(n) * y0, d, q);
  }

  lemma ExcessSign(y0: int, n: nat)
    requires n >= 1 && y0 >= 0
    ensures Excess(y0, n) >= 0.0 && (Excess(y0, n) == 0.0 <==> y0 == 0)
  {
    Product(n as real, n as real + 1.0);
    var m := n as real * (n as real + 1.0);
    var q := Excess(y0, n);
    assert q * m == 6.0 * y0 as real;
    if q < 0.0 {
      Product(-q, m);
    } else if q > 0.0 {
      Product(q, m);
    }
  }

  /** The intercept the tracker computes with the slope before the clamp. */
  function FittedIntercept(ys: seq<int>): real
    requires |ys| >= 2
  {
    LineIntercept(|ys| as real, SumX(|ys| as real), SumY(ys), FittedSlope(ys))
  }

  /** Where the least-squares line of the points (i, ys[i]) puts the next point. */
  function LeastSquaresNext(ys: seq<int>): real
    requires |ys| >= 2
  {
    var n := |ys| as real;
    var slope := LeastSquaresSlope(ys);
    LineAt(slope, LineIntercept(n, SumX(n), TotalY(ys), slope), n)
  }

  lemma TimesQuotient(a: real, m: real)
    requires m != 0.0
    ensures a / m * m == a
  {
  }

  lemma ExcessTimes(e: real, n: real, y0: real)
    requires e * (n * (n + 1.0)) == 6.0 * y0
    ensures e * n * n - e * SumX(n) == 3.0 * y0
  {
    assert e * n * n - e * SumX(n) == e * (n * (n + 1.0)) / 2.0;
  }

  /** Raising the slope by `e` and leaving `y0` out of the sum moves the next point
      of the line by `2 y0 / n`. */
  lemma MissingPointNext(n: real, s1: real, total: real, y0: real, a: real, e: real)
    requires n >= 2.0 && e * n * n - e * s1 == 3.0 * y0
    ensures LineAt(a + e, LineIntercept(n, s1, total - y0, a + e), n)
         == LineAt(a, LineIntercept(n, s1, total, a), n) + 2.0 * y0 / n
  {
    var moved := e * n - 2.0 * y0 / n;
    assert moved * n == e * n * n - 2.0 * y0;
    assert total - a * s1 == (total - y0 - (a + e) * s1) + (y0 + e * s1);
    QuotientSum(total - y0 - (a + e) * s1, y0 + e * s1, n);
    Quotient(y0 + e * s1, n, moved);
  }

  lemma ExcessOf(y0: int, k: nat, n: real, y: real, e: real)
    requires k >= 2 && n == k as real && y == y0 as real && e == Excess(y0, k)
    ensures e * n * n - e * SumX(n) == 3.0 * y
  {
    Product(n, n + 1.0);
    TimesQuotient(6.0 * y, n * (n + 1.0));
    ExcessTimes(e, n, y);
  }

  /** The fitted line, before the clamp, puts the next point `2 y0 / n` further than
      the least-squares line does. */
  lemma FittedNext(ys: seq<int>)
    requires |ys| >= 2
    ensures LineAt(FittedSlope(ys), FittedIntercept(ys), |ys| as real)
         == LeastSquaresNext(ys) + 2.0 * ys[0] as real / |ys| as real
  {
    var n, e := |ys| as real, Excess(ys[0], |ys|);
    FitDeviation(ys);
    SumYMissesFirst(ys);
    ExcessOf(ys[0], |ys|, n, ys[0] as real, e);
    MissingPointNext(n, SumX(n), TotalY(ys), ys[0] as real, LeastSquaresSlope(ys), e);
  }

  // ----- the fit of a run

  /** At the fit point the slope is the clamped fitted slope of what was kept, and
      the intercept that of the slope before the clamp. */
  lemma FitMoment(c: Config, s: State, ys: seq<int>, sample: int)
    requires c.Sensible() && Invariant(c, s, ys) && ys != []
    requires |ys| + 1 == FitPoint(c) && sample - s.last >= c.MinWindow()
    ensures var o, n := Next(c, s, sample), (|ys| + 1) as real;
            && o.accepted && o.state.fitReady
            && o.state.slope == Clamp(FittedSlope(ys + [sample]), c.MinSlope(), c.MaxSlope())
            && o.state.intercept == LineIntercept(n, SumX(n), SumY(ys + [sample]), FittedSlope(ys + [sample]))
  {
    FitKeepsSums(c, s, ys, sample);
  }

  /** The last sample of this run makes the fit. */
  ghost predicate MakesFit(c: Config, samples: seq<int>) {
    samples != [] && !Run(c, samples[..|samples| - 1]).fitReady && Run(c, samples).fitReady
  }

  lemma FitStep(c: Config, s: State, ys: seq<int>, sample: int)
    requires c.Sensible() && Invariant(c, s, ys) && sample >= 0
    requires !s.fitReady && Next(c, s, sample).state.fitReady
    ensures ys != [] && |ys| + 1 == FitPoint(c) && sample - s.last >= c.MinWindow()
    ensures Next(c, s, sample).accepted
  {
    InvariantStep(c, s, ys, sample);
  }

  /** What the tracker holds once these positions are fitted. */
  ghost predicate FittedTo(c: Config, s: State, ys: seq<int>)
    requires |ys| >= 2
  {
    && s.fitReady && s.count == |ys| && s.last == ys[|ys| - 1]
    && s.slope == Clamp(FittedSlope(ys), c.MinSlope(), c.MaxSlope())
    && s.intercept == FittedIntercept(ys)
  }

  lemma FitAt(c: Config, s: State, ys: seq<int>, sample: int, zs: seq<int>, t: State)
    requires c.Sensible() && Invariant(c, s, ys) && sample >= 0 && zs == ys + [sample]
    requires t == Next(c, s, sample).state && !s.fitReady && t.fitReady
    ensures |zs| == FitPoint(c) && FittedTo(c, t, zs)
  {
    FitStep(c, s, ys, sample);
    FitMoment(c, s, ys, sample);
  }

  lemma KeptNext(c: Config, samples: seq<int>)
    requires samples != []
    ensures var n := |samples| - 1;
            var o := Next(c, Run(c, samples[..n]), samples[n]);
            && Run(c, samples) == o.state
            && (o.accepted ==> Kept(c, samples) == Kept(c, samples[..n]) + [samples[n]])
  {
  }

  lemma FitIsMade(c: Config, samples: seq<int>)
    requires c.Sensible() && forall i :: 0 <= i < |samples| ==> samples[i] >= 0
    requires MakesFit(c, samples)
    ensures |Kept(c, samples)| == FitPoint(c) && FittedTo(c, Run(c, samples), Kept(c, samples))
  {
    var n := |samples| - 1;
    RunKeepsInvariant(c, samples[..n]);
    KeptNext(c, samples);
    FitStep(c, Run(c, samples[..n]), Kept(c, samples[..n]), samples[n]);
    FitAt(c, Run(c, samples[..n]), Kept(c, samples[..n]), samples[n], Kept(c, samples), Run(c, samples));
  }

  /** In every run, at the sample that makes the fit: as many positions are kept as
      the fit takes, and the slope is their least-squares slope plus the deviation,
      clamped. */
  lemma FitOfRun(c: Config, samples: seq<int>)
    requires c.Sensible() && forall i :: 0 <= i < |samples| ==> samples[i] >= 0
    requires MakesFit(c, samples)
    ensures var ys := Kept(c, samples);
            && |ys| == FitPoint(c)
            && Run(c, samples).slope
            == Clamp(LeastSquaresSlope(ys) + Excess(ys[0], |ys|), c.MinSlope(), c.MaxSlope())
  {
    FitIsMade(c, samples);
    FitDeviation(Kept(c, samples));
  }

  /** By how much the line the tracker holds after fitting `ys` misses the next
      sample: the least-squares line misses it by `sample - LeastSquaresNext(ys)`, the
      missing point adds `2 y0 / n`, and the clamp bends the line. */
  function NextMiss(c: Config, ys: seq<int>, sample: int): real
    requires |ys| >= 2
  {
    var n, slope := |ys| as real, FittedSlope(ys);
    var bend := (Clamp(slope, c.MinSlope(), c.MaxSlope()) - slope) * n;
    sample as real - LeastSquaresNext(ys) - 2.0 * ys[0] as real / n - bend
  }

  predicate NextIsOnLine(c: Config, ys: seq<int>, sample: int)
    requires |ys| >= 2
  {
    c.Window() > 0.0 ==> -c.Window() <= NextMiss(c, ys, sample) <= c.Window()
  }

  lemma BentLine(slope: real, clamped: real, intercept: real, n: real)
    ensures LineAt(clamped, intercept, n) == LineAt(slope, intercept, n) + (clamped - slope) * n
  {
  }

  lemma NextMissIs(c: Config, s: State, ys: seq<int>, sample: int)
    requires |ys| >= 2 && FittedTo(c, s, ys)
    ensures sample as real - LineAt(s.slope, s.intercept, s.count as real) == NextMiss(c, ys, sample)
  {
    FittedNext(ys);
    NextMissOf(c, ys, sample, |ys| as real, FittedSlope(ys), s.slope, s.intercept);
  }

  lemma NextMissOf(c: Config, ys: seq<int>, sample: int, n: real, slope: real, clamped: real, intercept: real)
    requires |ys| >= 2 && n == |ys| as real
    requires slope == FittedSlope(ys) && clamped == Clamp(slope, c.MinSlope(), c.MaxSlope())
    requires LineAt(slope, intercept, n) == LeastSquaresNext(ys) + 2.0 * ys[0] as real / n
    ensures sample as real - LineAt(clamped, intercept, n) == NextMiss(c, ys, sample)
  {
    BentLine(slope, clamped, intercept, n);
  }

  /** What happens to a sample while tracking. */
  lemma TrackingIff(c: Config, s: State, sample: int)
    requires c.expected > 0 && s.fitReady && s.count > 0 && s.last >= 0
    ensures var miss := sample as real - LineAt(s.slope, s.intercept, s.count as real);
            Next(c, s, sample).accepted <==>
              && c.MinWindow() <= sample - s.last <= c.MaxWindow()
              && (c.Window() > 0.0 ==> -c.Window() <= miss <= c.Window())
  {
  }

  /** In every run, the sample after the one that makes the fit is accepted exactly
      when its distance from the last is in the window, and it is, up to that
      deviation and the bend of the clamp, on the least-squares line. */
  lemma NextAfterFit(c: Config, samples: seq<int>, sample: int)
    requires c.Sensible() && forall i :: 0 <= i < |samples| ==> samples[i] >= 0
    requires MakesFit(c, samples)
    ensures |Kept(c, samples)| >= 2
    ensures var ys, s := Kept(c, samples), Run(c, samples);
            Next(c, s, sample).accepted <==>
              c.MinWindow() <= sample - ys[|ys| - 1] <= c.MaxWindow() && NextIsOnLine(c, ys, sample)
  {
    FitIsMade(c, samples);
    KeptFrom(c, samples, 0);
    NextMissIs(c, Run(c, samples), Kept(c, samples), sample);
    TrackingIff(c, Run(c, samples), sample);
  }

  // ----- after the fit

  /** The line goes through the last position, with a slope in this band. */
  ghost predicate OnBand(s: State, lo: real, hi: real) {
    && s.fitReady && s.count > 0 && s.last >= 0
    && lo <= s.slope <= hi
    && s.intercept == s.last as real - LineAt(s.slope, 0.0, (s.count - 1) as real)
  }

  lemma ThroughLast(slope: real, last: real, x: real)
    ensures LineAt(slope, last - LineAt(slope, 0.0, x - 1.0), x) == last + slope
  {
  }

  /** An accepted sample after the fit is on the new line, whose slope has moved a
      fiftieth of the way to the last distance. */
  lemma AcceptedIsOnLine(c: Config, s: State, sample: int)
    requires c.expected > 0 && s.fitReady && s.count > 0 && s.last >= 0 && sample >= 0
    requires Next(c, s, sample).accepted
    ensures var t, delta := Next(c, s, sample).state, (sample - s.last) as real;
            && OnBand(t, t.slope, t.slope) && t.last == sample && t.count == s.count + 1 && t.miss == 0
            && t.slope == Blend(s.slope, delta) && t.slope - delta == 0.98 * (s.slope - delta)
  {
  }

  /** On the line, a sample is missed by what its distance differs from the slope. */
  lemma OnBandIff(c: Config, s: State, lo: real, hi: real, sample: int)
    requires c.expected > 0 && OnBand(s, lo, hi) && sample >= 0
    ensures var miss := (sample - s.last) as real - s.slope;
            Next(c, s, sample).accepted <==>
              && c.MinWindow() <= sample - s.last <= c.MaxWindow()
              && (c.Window() > 0.0 ==> -c.Window() <= miss <= c.Window())
  {
    TrackingIff(c, s, sample);
    ThroughLast(s.slope, s.last as real, s.count as real);
  }

  /** Once on the line, the tracker accepts every sample at a distance in a range
      that is inside the band and never a window away from its edges, and stays. */
  lemma BandStep(c: Config, s: State, lo: real, hi: real, near: int, far: int, sample: int)
    requires c.expected > 0 && OnBand(s, lo, hi) && sample >= 0
    requires near <= sample - s.last <= far && c.MinWindow() <= near && far <= c.MaxWindow()
    requires lo <= near as real && far as real <= hi
    requires hi - near as real <= c.Window() && far as real - lo <= c.Window()
    ensures Next(c, s, sample).accepted && OnBand(Next(c, s, sample).state, lo, hi)
    ensures Next(c, s, sample).state.last == sample
  {
    OnBandIff(c, s, lo, hi, sample);
    AcceptedIsOnLine(c, s, sample);
    BlendBounds(s.slope, (sample - s.last) as real, lo, hi);
  }

  /** Kept positions are samples, so they keep every lower bound. */
  lemma {:induction false} KeptFrom(c: Config, samples: seq<int>, lo: int)
    requires forall i :: 0 <= i < |samples| ==> samples[i] >= lo
    ensures forall i :: 0 <= i < |Kept(c, samples)| ==> Kept(c, samples)[i] >= lo
  {
    if samples != [] {
      KeptFrom(c, samples[..|samples| - 1], lo);
    }
  }

  lemma ClampIs(v: real, e: real, lo: real, hi: real)
    requires e >= 0.0 && lo <= hi
    ensures Clamp(v + e, lo, hi) == v <==> lo <= v <= hi && (e == 0.0 || v == hi)
  {
  }

  /** So in every run the fit is the least-squares fit of what was kept exactly
      when that lies in the window and either the first position is 0, or it is
      the upper edge of the window, where the clamp cuts the deviation off. */
  lemma FitIsLeastSquaresIff(c: Config, samples: seq<int>)
    requires c.Sensible() && forall i :: 0 <= i < |samples| ==> samples[i] >= 0
    requires MakesFit(c, samples)
    ensures |Kept(c, samples)| >= 2
    ensures var ys := Kept(c, samples);
            var best := LeastSquaresSlope(ys);
            Run(c, samples).slope == best <==>
              c.MinSlope() <= best <= c.MaxSlope() && (ys[0] == 0 || best == c.MaxSlope())
  {
    FitOfRun(c, samples);
    KeptFrom(c, samples, 0);
    var ys := Kept(c, samples);
    ExcessSign(ys[0], |ys|);
    Windows(c);
    ClampIs(LeastSquaresSlope(ys), Excess(ys[0], |ys|), c.MinSlope(), c.MaxSlope());
  }

  // ----- what the fit makes of evenly spaced lines

  function Even(y0: nat, d: nat, n: nat): (ys: seq<int>)
    ensures |ys| == n
  {
    seq(n, i requires 0 <= i < n => y0 + i * d)
  }

  lemma EvenPrefix(y0: nat, d: nat, n: nat)
    requires n >= 1
    ensures Even(y0, d, n)[..n - 1] == Even(y0, d, n - 1)
    ensures Even(y0, d, n)[n - 1] as real == y0 as real + (n - 1) as real * d as real
  {
    RealProduct(n - 1, d);
  }

  lemma {:induction false} RealProduct(a: nat, b: nat)
    ensures (a * b) as real == a as real * b as real
  {
    if a > 0 {
      RealProduct(a - 1, b);
      assert a * b == (a - 1) * b + b;
    }
  }

  /** One more evenly spaced position adds `p` to one sum and `q` to the other. */
  lemma EvenRecurrence(y0: nat, d: nat, n: nat, m: real, p: real, q: real)
    requires n >= 2 && m == (n - 1) as real && p == Even(y0, d, n)[n - 1] as real && q == m * p
    ensures TotalY(Even(y0, d, n)) == TotalY(Even(y0, d, n - 1)) + p
    ensures SumXY(Even(y0, d, n)) == SumXY(Even(y0, d, n - 1)) + q
  {
    EvenPrefix(y0, d, n);
  }

  /** The closed forms of the two sums on evenly spaced positions. */
  function EvenTotal(n: real, y: real, d: real): real {
    n * y + d * SumX(n)
  }

  function EvenXY(n: real, y: real, d: real): real {
    y * SumX(n) + d * SumXX(n)
  }

  /** One more position in both closed forms. */
  lemma EvenClosed(m: real, x: real, y: real, e: real, p: real, q: real, total: real, xy: real)
    requires x == m + 1.0 && p == y + m * e && q == m * p
    requires total == EvenTotal(m, y, e) && xy == EvenXY(m, y, e)
    ensures total + p == EvenTotal(x, y, e) && xy + q == EvenXY(x, y, e)
  {
    assert x == m + 1.0;
    SumXGrows(m);
    SumXXGrows(m);
  }

  lemma EvenLast(y0: nat, d: nat, n: nat, m: real, y: real, e: real, p: real)
    requires n >= 1 && m == (n - 1) as real && y == y0 as real && e == d as real
    requires p == Even(y0, d, n)[n - 1] as real
    ensures p == y + m * e
  {
    RealProduct(n - 1, d);
  }

  lemma EvenBase(y0: nat, d: nat)
    ensures TotalY(Even(y0, d, 1)) == EvenTotal(1.0, y0 as real, d as real)
    ensures SumXY(Even(y0, d, 1)) == EvenXY(1.0, y0 as real, d as real)
  {
    var ys := Even(y0, d, 1);
    assert ys[..0] == [] && ys[0] == y0;
    assert SumX(1.0) == 0.0 && SumXX(1.0) == 0.0;
  }

  /** The sums of evenly spaced positions, with every number a parameter. */
  lemma {:induction false} EvenSums(y0: nat, d: nat, n: nat, x: real, y: real, e: real)
    requires n >= 1 && x == n as real && y == y0 as real && e == d as real
    ensures TotalY(Even(y0, d, n)) == EvenTotal(x, y, e)
    ensures SumXY(Even(y0, d, n)) == EvenXY(x, y, e)
  {
    if n == 1 {
      EvenBase(y0, d);
    } else {
      var m, p := x - 1.0, Even(y0, d, n)[n - 1] as real;
      EvenSums(y0, d, n - 1, m, y, e);
      EvenLast(y0, d, n, m, y, e, p);
      EvenGrow(y0, d, n, m, x, y, e, p, m * p);
    }
  }

  lemma EvenGrow(y0: nat, d: nat, n: nat, m: real, x: real, y: real, e: real, p: real, q: real)
    requires n >= 2 && m == (n - 1) as real && x == m + 1.0
    requires p == Even(y0, d, n)[n - 1] as real == y + m * e && q == m * p
    requires TotalY(Even(y0, d, n - 1)) == EvenTotal(m, y, e) && SumXY(Even(y0, d, n - 1)) == EvenXY(m, y, e)
    ensures TotalY(Even(y0, d, n)) == EvenTotal(x, y, e)
    ensures SumXY(Even(y0, d, n)) == EvenXY(x, y, e)
  {
    EvenRecurrence(y0, d, n, m, p, q);
    EvenClosed(m, x, y, e, p, q, TotalY(Even(y0, d, n - 1)), SumXY(Even(y0, d, n - 1)));
  }

  lemma Cancel(n: real, y: real, d: real, s1: real, s2: real)
    ensures n * (y * s1 + d * s2) - s1 * (n * y + d * s1) == d * (n * s2 - s1 * s1)
  {
  }

  /** The slope that the closed forms give. */
  lemma EvenQuotient(n: real, y: real, d: real, s1: real, s2: real, total: real, xy: real)
    requires LineDenom(n, s1, s2) != 0.0 && s1 == SumX(n) && s2 == SumXX(n)
    requires total == EvenTotal(n, y, d) && xy == EvenXY(n, y, d)
    ensures LineSlope(n, s1, total, s2, xy) == d
  {
    assert total == n * y + d * s1 && xy == y * s1 + d * s2;
    SlopeOfSums(n, y, d, s1, s2, total, xy);
  }

  lemma SlopeOfSums(n: real, y: real, d: real, s1: real, s2: real, total: real, xy: real)
    requires LineDenom(n, s1, s2) != 0.0
    requires total == n * y + d * s1 && xy == y * s1 + d * s2
    ensures LineSlope(n, s1, total, s2, xy) == d
  {
    Cancel(n, y, d, s1, s2);
    Quotient(n * (y * s1 + d * s2) - s1 * (n * y + d * s1), LineDenom(n, s1, s2), d);
  }

  lemma EvenLeastSquares(y0: nat, d: nat, n: nat, x: real)
    requires n >= 2 && x == n as real
    ensures LeastSquaresSlope(Even(y0, d, n)) == d as real
  {
    var ys := Even(y0, d, n);
    EvenSums(y0, d, n, x, y0 as real, d as real);
    DenomClosedForm(x);
    EvenQuotient(x, y0 as real, d as real, SumX(x), SumXX(x), TotalY(ys), SumXY(ys));
  }

  /** On evenly spaced lines least squares finds the spacing, and the tracker
      finds the spacing plus the deviation. */
  lemma EvenSlope(y0: nat, d: nat, n: nat)
    requires n >= 2
    ensures LeastSquaresSlope(Even(y0, d, n)) == d as real
    ensures FittedSlope(Even(y0, d, n)) == d as real + Excess(y0, n)
  {
    EvenLeastSquares(y0, d, n, n as real);
    FitDeviation(Even(y0, d, n));
    assert Even(y0, d, n)[0] == y0;
  }

  lemma {:induction false} EvenLinesKept(c: Config, y0: nat, d: nat, n: nat)
    requires c.Sensible() && d >= c.MinWindow() && n < FitPoint(c)
    ensures Invariant(c, Run(c, Even(y0, d, n)), Even(y0, d, n))
  {
    if n > 0 {
      EvenLinesKept(c, y0, d, n - 1);
      EvenPrefix(y0, d, n);
      EvenStep(y0, d, n);
      InvariantStep(c, Run(c, Even(y0, d, n - 1)), Even(y0, d, n - 1), Even(y0, d, n)[n - 1]);
    }
  }

  lemma EvenStep(y0: nat, d: nat, n: nat)
    requires n >= 1
    ensures Even(y0, d, n) == Even(y0, d, n - 1) + [Even(y0, d, n)[n - 1]]
    ensures n >= 2 ==> Even(y0, d, n)[n - 1] - Even(y0, d, n - 1)[n - 2] == d
  {
    assert (n - 1) * d == (n - 2) * d + d;
  }

  lemma EvenRun(c: Config, y0: nat, d: nat, n: nat)
    requires n >= 1
    ensures Run(c, Even(y0, d, n)) == Next(c, Run(c, Even(y0, d, n - 1)), Even(y0, d, n)[n - 1]).state
  {
    EvenPrefix(y0, d, n);
  }

  /** A recording whose lines are exactly `d` apart is fitted to the clamp of
      `d + 6 y0 / (n (n + 1))`: exact only if the first sync is at position 0 or
      the clamp cuts the deviation off. The intercept is that of the unclamped line. */
  lemma EvenLinesFit(c: Config, y0: nat, d: nat, n: nat)
    requires c.Sensible() && d >= c.MinWindow() && n == FitPoint(c)
    ensures var s := Run(c, Even(y0, d, n));
            && s.fitReady && s.slope == Clamp(d as real + Excess(y0, n), c.MinSlope(), c.MaxSlope())
            && s.intercept == LineIntercept(n as real, SumX(n as real), SumY(Even(y0, d, n)), d as real + Excess(y0, n))
  {
    EvenLinesKept(c, y0, d, n - 1);
    EvenStep(y0, d, n);
    FitMoment(c, Run(c, Even(y0, d, n - 1)), Even(y0, d, n - 1), Even(y0, d, n)[n - 1]);
    EvenRun(c, y0, d, n);
    EvenSlope(y0, d, n);
  }
}
