/** How many sync positions the receiver finds in recordings without noise or gaps:
    lines a whole number of samples apart, and lines at the nominal rate as the
    detector's hops hear them. */
module SyncRecordings {
  import opened RingWindow
  import opened Sstv
  import opened SyncPositions
  import D = SyncDetector
  import T = SyncLineTracker

  // ----- lines any number of samples apart

  lemma EvenGaps(y0: nat, d: nat, n: nat)
    ensures Between(T.Even(y0, d, n), d, d)
  {
    var ys := T.Even(y0, d, n);
    forall i, j | 0 <= i && i + 1 == j < n
      ensures ys[j] - ys[i] == d
    {
      assert j * d == i * d + d;
    }
  }

  /** Distances that the gate passes. */
  predicate LineLike(d: int) {
    MIN_SYNC_GAP < d <= 21150
  }

  lemma BetweenIsGated(hits: seq<int>, near: int, far: int)
    requires LineLike(near) && LineLike(far) && Between(hits, near, far)
    requires forall i :: 0 <= i < |hits| ==> hits[i] >= 0
    ensures Gated(GATE, hits)
  {
    ReceiverValues();
  }

  lemma TrackerValues()
    ensures TRACKER.Window() == 2266.08 && TRACKER.MinSlope() == 16617.92 && TRACKER.MaxSlope() == 21150.08
    ensures TRACKER.MinWindow() == 16617 && TRACKER.MaxWindow() == 21150 && T.FitPoint(TRACKER) == 24
  {
    ReceiverValues();
  }

  /** Where the clamp puts the slope fitted to lines `d` apart, above `d`. */
  function Overshoot(y0: nat, d: nat): real {
    var raised := y0 as real / 100.0;
    if d as real + raised > 21150.08 then 21150.08 - d as real else raised
  }

  /** How far past the 25th position the line through the first 24 goes. */
  function EvenMiss(y0: nat, d: nat): real {
    y0 as real / 12.0 + 24.0 * (Overshoot(y0, d) - y0 as real / 100.0)
  }

  predicate FindsNext(y0: nat, d: nat) {
    -2266.08 <= EvenMiss(y0, d) <= 2266.08
  }

  /** Whether the line through the 25th position, with the new slope, finds the 26th. */
  predicate Settles(y0: nat, d: nat) {
    0.98 * Overshoot(y0, d) <= 2266.08
  }

  function FoundLines(y0: nat, d: nat, n: nat): nat {
    if n <= 24 then n
    else if !FindsNext(y0, d) then 24
    else if n == 25 || Settles(y0, d) then n
    else 25
  }

  lemma EvenFit(y0: nat, d: nat)
    requires LineLike(d)
    ensures T.LeastSquaresNext(T.Even(y0, d, 24)) == (y0 + 24 * d) as real
    ensures T.FittedSlope(T.Even(y0, d, 24)) == d as real + y0 as real / 100.0
    ensures T.Clamp(T.FittedSlope(T.Even(y0, d, 24)), TRACKER.MinSlope(), TRACKER.MaxSlope())
         == d as real + Overshoot(y0, d)
  {
    ReceiverValues();
    var y, e := y0 as real, d as real;
    T.EvenSums(y0, d, 24, 24.0, y, e);
    T.EvenSlope(y0, d, 24);
    assert T.Excess(y0, 24) == y / 100.0;
    assert T.SumX(24.0) == 276.0;
    TrackerValues();
  }

  lemma MissOfFit(c: T.Config, ys: seq<int>, sample: int, next: real, slope: real, clamped: real, first: real)
    requires |ys| == 24 && first == ys[0] as real
    requires next == T.LeastSquaresNext(ys) && slope == T.FittedSlope(ys)
    requires clamped == T.Clamp(slope, c.MinSlope(), c.MaxSlope())
    ensures T.NextMiss(c, ys, sample) == sample as real - next - first / 12.0 - (clamped - slope) * 24.0
  {
  }

  lemma Bend(sample: real, d: real, y: real, over: real)
    ensures sample - sample - y / 12.0 - ((d + over) - (d + y / 100.0)) * 24.0
         == -(y / 12.0 + 24.0 * (over - y / 100.0))
  {
  }

  lemma NextEvenMiss(y0: nat, d: nat)
    requires LineLike(d)
    ensures T.NextMiss(TRACKER, T.Even(y0, d, 24), y0 + 24 * d) == -EvenMiss(y0, d)
  {
    EvenFit(y0, d);
    var ys, y, over, sample := T.Even(y0, d, 24), y0 as real, Overshoot(y0, d), y0 + 24 * d;
    assert ys[0] == y0;
    MissOfFit(TRACKER, ys, sample, sample as real, d as real + y / 100.0, d as real + over, y);
    Bend(sample as real, d as real, y, over);
  }

  lemma NextEvenLine(y0: nat, d: nat)
    requires LineLike(d)
    ensures T.NextIsOnLine(TRACKER, T.Even(y0, d, 24), y0 + 24 * d) <==> FindsNext(y0, d)
  {
    NextEvenMiss(y0, d);
    TrackerValues();
  }

  lemma EvenIsGated(y0: nat, d: nat, n: nat)
    requires LineLike(d)
    ensures Gated(GATE, T.Even(y0, d, n)) && Between(T.Even(y0, d, n), d, d)
  {
    EvenGaps(y0, d, n);
    BetweenIsGated(T.Even(y0, d, n), d, d);
  }

  lemma EvenTake(y0: nat, d: nat, n: nat, m: nat)
    requires m <= n
    ensures T.Even(y0, d, n)[..m] == T.Even(y0, d, m)
    ensures m < n ==> T.Even(y0, d, m + 1) == T.Even(y0, d, m) + [y0 + m * d]
  {
  }

  /** The tracker on the 25th hit, if it accepts it. */
  lemma AfterTheNext(hits: seq<int>, hit: int, clamped: real)
    requires Gated(GATE, hits + [hit]) && |hits| == 24
    requires Locked(TRACKER, hits) && T.Next(TRACKER, T.Run(TRACKER, hits), hit).accepted
    requires clamped == T.Clamp(T.FittedSlope(hits), TRACKER.MinSlope(), TRACKER.MaxSlope())
    ensures var slope := T.Blend(clamped, (hit - hits[23]) as real);
            var s := T.Run(TRACKER, hits + [hit]);
            T.OnBand(s, slope, slope) && s.last == hit
  {
    ReceiverValues();
    assert (hits + [hit])[..24] == hits;
    assert (hits + [hit])[24] == hit;
    FitIsMadeAt(GATE, TRACKER, hits);
    AppendHit(TRACKER, hits, hit);
    T.AcceptedIsOnLine(TRACKER, T.Run(TRACKER, hits), hit);
  }

  lemma BlendOvershoot(d: real, over: real)
    ensures T.Blend(d + over, d) == d + 0.98 * over
  {
  }

  /** The first line after the fit, among hits of any spacing. */
  lemma LineAfterFit(hits: seq<int>, fit: seq<int>, hit: int, clamped: real)
    requires hits == fit + [hit] && Gated(GATE, hits) && |fit| == 24 && T.NextIsOnLine(TRACKER, fit, hit)
    requires clamped == T.Clamp(T.FittedSlope(fit), TRACKER.MinSlope(), TRACKER.MaxSlope())
    ensures var slope := T.Blend(clamped, (hit - fit[23]) as real);
            var s := T.Run(TRACKER, hits);
            && Locked(TRACKER, hits)
            && T.OnBand(s, slope, slope) && s.last == hit
  {
    ReceiverValues();
    assert hits[..24] == fit && hits[..25] == hits;
    FitDecides(GATE, TRACKER, hits);
    AppendHit(TRACKER, fit, hit);
    AfterTheNext(fit, hit, clamped);
  }

  /** The slope after 25 even lines. */
  lemma LineAfterEven(y0: nat, d: nat)
    requires LineLike(d) && FindsNext(y0, d)
    ensures var slope := d as real + 0.98 * Overshoot(y0, d);
            var s := T.Run(TRACKER, T.Even(y0, d, 25));
            && Locked(TRACKER, T.Even(y0, d, 25))
            && T.OnBand(s, slope, slope) && s.last == y0 + 24 * d
  {
    EvenIsGated(y0, d, 25);
    EvenTake(y0, d, 25, 24);
    NextEvenLine(y0, d);
    EvenFit(y0, d);
    LineAfterFit(T.Even(y0, d, 25), T.Even(y0, d, 24), y0 + 24 * d, d as real + Overshoot(y0, d));
    BlendOvershoot(d as real, Overshoot(y0, d));
  }

  /** The 26th even line. */
  lemma SettlesIff(y0: nat, d: nat)
    requires LineLike(d) && FindsNext(y0, d)
    ensures T.Next(TRACKER, T.Run(TRACKER, T.Even(y0, d, 25)), y0 + 25 * d).accepted <==> Settles(y0, d)
  {
    ReceiverValues();
    LineAfterEven(y0, d);
    var slope := d as real + 0.98 * Overshoot(y0, d);
    T.OnBandIff(TRACKER, T.Run(TRACKER, T.Even(y0, d, 25)), slope, slope, y0 + 25 * d);
    TrackerValues();
  }

  lemma EvenSettled(y0: nat, d: nat, n: nat)
    requires LineLike(d) && FindsNext(y0, d) && n >= 25 && (n == 25 || Settles(y0, d))
    ensures Accepted(TRACKER, T.Even(y0, d, n)) == T.Even(y0, d, n)
  {
    ReceiverValues();
    LineAfterEven(y0, d);
    if n > 25 {
      EvenIsGated(y0, d, n);
      EvenTake(y0, d, n, 25);
      TrackerValues();
      StaysOnBand(GATE, TRACKER, T.Even(y0, d, n), 25, d as real, d as real + 0.98 * Overshoot(y0, d), d, d);
    }
  }

  lemma EvenUnsettled(y0: nat, d: nat, n: nat)
    requires LineLike(d) && FindsNext(y0, d) && n > 25 && !Settles(y0, d)
    ensures Accepted(TRACKER, T.Even(y0, d, n)) == T.Even(y0, d, 25)
  {
    ReceiverValues();
    LineAfterEven(y0, d);
    SettlesIff(y0, d);
    EvenIsGated(y0, d, n);
    EvenTake(y0, d, n, 25);
    EvenTake(y0, d, n, 26);
    AppendHit(TRACKER, T.Even(y0, d, 25), y0 + 25 * d);
    assert Accepted(TRACKER, T.Even(y0, d, 26)) == T.Even(y0, d, 25);
    RejectionIsPermanent(GATE, TRACKER, T.Even(y0, d, n), 26);
  }

  /** Exactly how many lines of a recording with even lines are found, for every
      spacing that the gate passes, every first position and every length. */
  lemma EvenLinesFound(y0: nat, d: nat, n: nat)
    requires LineLike(d) && y0 > 0
    ensures FoundLines(y0, d, n) <= n
    ensures Accepted(TRACKER, D.GateRun(GATE, T.Even(y0, d, n), -MIN_SYNC_GAP)) == T.Even(y0, d, FoundLines(y0, d, n))
  {
    ReceiverValues();
    EvenIsGated(y0, d, n);
    GatedPass(GATE, T.Even(y0, d, n));
    if n <= 24 {
      LockedToTheFit(GATE, TRACKER, T.Even(y0, d, n));
    } else if FindsNext(y0, d) {
      if n == 25 || Settles(y0, d) {
        EvenSettled(y0, d, n);
      } else {
        EvenUnsettled(y0, d, n);
      }
    } else {
      EvenTake(y0, d, n, 24);
      NextEvenLine(y0, d);
      FitDecides(GATE, TRACKER, T.Even(y0, d, n));
    }
  }

  /** First positions from which lines 18880 samples apart, a whole number of hops,
      are all found: early ones, and a stretch where the clamp bends the line back. */
  predicate StaysLocked(y0: nat) {
    y0 <= 27192 || 333293 <= y0 <= 362221
  }

  lemma HopLines(y0: nat)
    ensures FindsNext(y0, 18880) <==> StaysLocked(y0)
    ensures StaysLocked(y0) ==> Settles(y0, 18880)
  {
  }

  /** So such a recording is found in full exactly when it has at most 24 lines or
      starts at one of those positions. */
  lemma AllLinesFoundIff(y0: nat, n: nat)
    requires y0 > 0
    ensures Accepted(TRACKER, D.GateRun(GATE, T.Even(y0, 18880, n), -MIN_SYNC_GAP)) == T.Even(y0, 18880, n)
       <==> n <= 24 || StaysLocked(y0)
  {
    ReceiverValues();
    EvenLinesFound(y0, 18880, n);
    HopLines(y0);
    assert |T.Even(y0, 18880, FoundLines(y0, 18880, n))| == FoundLines(y0, 18880, n);
  }

  /** One missed pulse ends the hits of an otherwise perfect recording: of `n` lines,
      a missing one and `k` more, only the first `n` are hits. */
  lemma MissedPulseEndsRun(y0: nat, d: nat, n: nat, k: nat)
    requires LineLike(d) && y0 > 0 && n >= 1
    ensures D.GateRun(GATE, T.Even(y0, d, n) + T.Even(y0 + (n + 1) * d, d, k), -MIN_SYNC_GAP) == T.Even(y0, d, n)
  {
    ReceiverValues();
    EvenIsGated(y0, d, n);
    GatedPass(GATE, T.Even(y0, d, n));
    var later := T.Even(y0 + (n + 1) * d, d, k);
    forall i | 0 <= i < k
      ensures later[i] > y0 + (n - 1) * d + GATE.MaxWindow()
    {
      AfterTheGap(y0, d, n, i);
    }
    D.GapEndsRun(GATE, T.Even(y0, d, n), later, -MIN_SYNC_GAP);
  }

  lemma AfterTheGap(y0: nat, d: nat, n: nat, i: nat)
    requires n >= 1 && d > 18522
    ensures y0 + (n + 1) * d + i * d > y0 + (n - 1) * d + 21150
  {
    assert (n + 1) * d == (n - 1) * d + 2 * d;
  }

  // ----- lines at the nominal rate

  const HOP := D.HOP_SAMPLES

  /** The hop at which line `k` is heard, at 18884.502 samples a line: the last one not
      after it, if line 0 comes `phase` thousandths of a sample after its own hop. */
  function NominalAt(y0: nat, phase: nat, k: nat): nat {
    y0 + HOP * ((k * 18884502 + phase) / (1000 * HOP))
  }

  function Nominal(y0: nat, phase: nat, n: nat): (ys: seq<int>)
    ensures |ys| == n
  {
    seq(n, k requires 0 <= k < n => NominalAt(y0, phase, k))
  }

  /** A line is 236 hops and 4.502 samples: the hops that line `k` has drifted. */
  function Drift(phase: nat, k: nat): nat {
    (k * 4502 + phase) / 80000
  }

  lemma WholeDivisors(a: nat, q: nat)
    ensures (80000 * q + a) / 80000 == q + a / 80000
  {
  }

  lemma DriftStep(a: nat)
    ensures a / 80000 <= (a + 4502) / 80000 <= a / 80000 + 1
  {
  }

  lemma HopsOf(y0: nat, phase: nat, k: nat, x: nat)
    requires x == k * 18884502 + phase
    ensures NominalAt(y0, phase, k) == y0 + 80 * (x / 80000)
  {
  }

  lemma NominalDrifts(y0: nat, phase: nat, k: nat)
    ensures NominalAt(y0, phase, k) == y0 + 18880 * k + 80 * Drift(phase, k)
    ensures Drift(phase, k) <= Drift(phase, k + 1) <= Drift(phase, k) + 1
  {
    var a := k * 4502 + phase;
    HopsOf(y0, phase, k, 80000 * (236 * k) + a);
    WholeDivisors(a, 236 * k);
    DriftStep(a);
  }

  lemma NominalGaps(y0: nat, phase: nat, n: nat)
    ensures Between(Nominal(y0, phase, n), 18880, 18960)
  {
    forall i, j | 0 <= i && i + 1 == j < n
      ensures 18880 <= Nominal(y0, phase, n)[j] - Nominal(y0, phase, n)[i] <= 18960
    {
      NominalDrifts(y0, phase, i);
      NominalDrifts(y0, phase, j);
    }
  }

  lemma NominalIsGated(y0: nat, phase: nat, n: nat)
    ensures Gated(GATE, Nominal(y0, phase, n)) && Between(Nominal(y0, phase, n), 18880, 18960)
  {
    ReceiverValues();
    NominalGaps(y0, phase, n);
    BetweenIsGated(Nominal(y0, phase, n), 18880, 18960);
  }

  lemma NominalTake(y0: nat, phase: nat, n: nat, m: nat)
    requires m <= n
    ensures Nominal(y0, phase, n)[..m] == Nominal(y0, phase, m)
    ensures m < n ==> Nominal(y0, phase, m + 1) == Nominal(y0, phase, m) + [NominalAt(y0, phase, m)]
  {
  }

  function DriftSeq(phase: nat, n: nat): (ds: seq<int>)
    ensures |ds| == n
  {
    seq(n, k requires 0 <= k < n => Drift(phase, k))
  }

  /** One more position in both sums. */
  lemma SumsStep(ys: seq<int>, before: seq<int>, m: real, p: real, q: real)
    requires |ys| >= 2 && before == ys[..|ys| - 1]
    requires m == (|ys| - 1) as real && p == ys[|ys| - 1] as real && q == m * p
    ensures T.TotalY(ys) == T.TotalY(before) + p && T.SumXY(ys) == T.SumXY(before) + q
  {
  }

  lemma ScaledSum(m: real, y: real, z: real, d: real)
    requires y == z + 80.0 * d
    ensures m * y == m * z + 80.0 * (m * d)
  {
  }

  /** Both sums are linear. */
  lemma {:induction false} SumsAdd(ys: seq<int>, zs: seq<int>, ds: seq<int>)
    requires |ys| == |zs| == |ds| >= 1 && forall i :: 0 <= i < |ys| ==> ys[i] == zs[i] + 80 * ds[i]
    ensures T.TotalY(ys) == T.TotalY(zs) + 80.0 * T.TotalY(ds)
    ensures T.SumXY(ys) == T.SumXY(zs) + 80.0 * T.SumXY(ds)
  {
    var n := |ys| - 1;
    if n == 0 {
      assert ys[..0] == zs[..0] == ds[..0] == [];
    } else {
      var m, y, z, d := n as real, ys[n] as real, zs[n] as real, ds[n] as real;
      SumsAdd(ys[..n], zs[..n], ds[..n]);
      SumsStep(ys, ys[..n], m, y, m * y);
      SumsStep(zs, zs[..n], m, z, m * z);
      SumsStep(ds, ds[..n], m, d, m * d);
      ScaledSum(m, y, z, d);
    }
  }

  /** The sums of nominal lines: those of even lines, and 80 for each hop. */
  lemma NominalSums(y0: nat, phase: nat, n: nat)
    requires n >= 1
    ensures T.TotalY(Nominal(y0, phase, n)) == T.TotalY(T.Even(y0, 18880, n)) + 80.0 * T.TotalY(DriftSeq(phase, n))
    ensures T.SumXY(Nominal(y0, phase, n)) == T.SumXY(T.Even(y0, 18880, n)) + 80.0 * T.SumXY(DriftSeq(phase, n))
  {
    forall k | 0 <= k < n
      ensures Nominal(y0, phase, n)[k] == T.Even(y0, 18880, n)[k] + 80 * DriftSeq(phase, n)[k]
    {
      NominalDrifts(y0, phase, k);
    }
    SumsAdd(Nominal(y0, phase, n), T.Even(y0, 18880, n), DriftSeq(phase, n));
  }

  lemma SmallProduct(m: real, d: real)
    requires 0.0 <= m <= 23.0 && 0.0 <= d <= 2.0
    ensures 0.0 <= m * d <= 46.0
  {
    T.Product(m, d);
    T.Product(23.0 - m, d);
    assert (23.0 - m) * d == 23.0 * d - m * d;
  }

  /** The sums of a few drifts of at most two hops. */
  lemma {:induction false} FewDrifts(ds: seq<int>)
    requires 1 <= |ds| <= 24 && forall i :: 0 <= i < |ds| ==> 0 <= ds[i] <= 2
    ensures 0.0 <= T.TotalY(ds) <= 2.0 * |ds| as real && 0.0 <= T.SumXY(ds) <= 46.0 * |ds| as real
  {
    var n := |ds| - 1;
    if n == 0 {
      assert ds[..0] == [];
    } else {
      var m, d := n as real, ds[n] as real;
      FewDrifts(ds[..n]);
      SmallProduct(m, d);
      SumsStep(ds, ds[..n], m, d, m * d);
      assert |ds| as real == m + 1.0;
    }
  }

  /** By how much the least-squares slope of 24 nominal lines exceeds 18880. */
  function DriftSlope(phase: nat): real {
    (1920.0 * T.SumXY(DriftSeq(phase, 24)) - 22080.0 * T.TotalY(DriftSeq(phase, 24))) / 27600.0
  }

  /** How far past their least-squares line the next one is heard. */
  function DriftRest(phase: nat): real {
    80.0 * Drift(phase, 24) as real - 10.0 * T.TotalY(DriftSeq(phase, 24)) / 3.0 - 12.5 * DriftSlope(phase)
  }

  lemma SmallDrift(phase: nat, k: nat)
    requires phase < 80000 && k <= 24
    ensures Drift(phase, k) <= 2
  {
  }

  lemma DriftBounds(phase: nat)
    requires phase < 80000
    ensures -40.0 <= DriftSlope(phase) <= 80.0 && -1200.0 <= DriftRest(phase) <= 700.0
  {
    forall k | 0 <= k < 24
      ensures DriftSeq(phase, 24)[k] <= 2
    {
      SmallDrift(phase, k);
    }
    SmallDrift(phase, 24);
    FewDrifts(DriftSeq(phase, 24));
  }

  lemma NominalLeastSquares(y: real, drifts: real, moment: real, total: real, xy: real, slope: real)
    requires total == T.EvenTotal(24.0, y, 18880.0) + 80.0 * drifts
    requires xy == T.EvenXY(24.0, y, 18880.0) + 80.0 * moment
    requires slope == 18880.0 + (1920.0 * moment - 22080.0 * drifts) / 27600.0
    ensures T.LineDenom(24.0, T.SumX(24.0), T.SumXX(24.0)) == 27600.0
    ensures T.LineSlope(24.0, T.SumX(24.0), total, T.SumXX(24.0), xy) == slope
    ensures T.LineAt(slope, T.LineIntercept(24.0, T.SumX(24.0), total, slope), 24.0)
         == y + 453120.0 + 10.0 * drifts / 3.0 + 12.5 * (slope - 18880.0)
  {
    assert T.SumX(24.0) == 276.0 && T.SumXX(24.0) == 4324.0;
    assert total == 24.0 * y + 18880.0 * 276.0 + 80.0 * drifts;
    assert xy == y * 276.0 + 18880.0 * 4324.0 + 80.0 * moment;
  }

  lemma NominalFirst(y0: nat, phase: nat)
    requires phase < 80000
    ensures NominalAt(y0, phase, 0) == y0
  {
  }

  /** The least-squares line of the first 24 nominal lines, and the tracker's. */
  lemma NominalFit(y0: nat, phase: nat)
    requires phase < 80000
    ensures T.FittedSlope(Nominal(y0, phase, 24)) == 18880.0 + DriftSlope(phase) + y0 as real / 100.0
    ensures T.LeastSquaresNext(Nominal(y0, phase, 24)) == NominalAt(y0, phase, 24) as real - DriftRest(phase)
  {
    var y, ys, slope := y0 as real, Nominal(y0, phase, 24), 18880.0 + DriftSlope(phase);
    var ds := DriftSeq(phase, 24);
    NominalSums(y0, phase, 24);
    T.EvenSums(y0, 18880, 24, 24.0, y, 18880.0);
    NominalLeastSquares(y, T.TotalY(ds), T.SumXY(ds), T.TotalY(ys), T.SumXY(ys), slope);
    NominalDrifts(y0, phase, 24);
    NominalFirst(y0, phase);
    T.FitDeviation(ys);
    assert T.Excess(y0, 24) == y / 100.0;
  }

  /** The slope fitted to nominal lines, before and after the clamp. */
  function NominalSlope(y0: nat, phase: nat): real {
    18880.0 + DriftSlope(phase) + y0 as real / 100.0
  }

  function NominalClamped(y0: nat, phase: nat): real {
    if NominalSlope(y0, phase) > 21150.08 then 21150.08 else NominalSlope(y0, phase)
  }

  /** By how much the line through 24 nominal positions misses the 25th. */
  function NominalMiss(y0: nat, phase: nat): real {
    DriftRest(phase) - y0 as real / 12.0 + 24.0 * (NominalSlope(y0, phase) - NominalClamped(y0, phase))
  }

  /** Whether a recording at the nominal rate is found in full. */
  predicate NominalStaysLocked(y0: nat, phase: nat) {
    -2266.08 <= NominalMiss(y0, phase) <= 2266.08
  }

  lemma NominalClamp(y0: nat, phase: nat)
    requires phase < 80000
    ensures 18840.0 <= NominalClamped(y0, phase) <= 21150.08
    ensures T.Clamp(NominalSlope(y0, phase), TRACKER.MinSlope(), TRACKER.MaxSlope()) == NominalClamped(y0, phase)
  {
    ReceiverValues();
    DriftBounds(phase);
    TrackerValues();
  }

  lemma NextNominalMiss(y0: nat, phase: nat)
    requires phase < 80000
    ensures T.NextMiss(TRACKER, Nominal(y0, phase, 24), NominalAt(y0, phase, 24)) == NominalMiss(y0, phase)
  {
    var ys, at := Nominal(y0, phase, 24), NominalAt(y0, phase, 24);
    NominalFit(y0, phase);
    NominalClamp(y0, phase);
    NominalFirst(y0, phase);
    MissOfFit(TRACKER, ys, at, at as real - DriftRest(phase),
              NominalSlope(y0, phase), NominalClamped(y0, phase), y0 as real);
  }

  lemma NextNominalLine(y0: nat, phase: nat)
    requires phase < 80000
    ensures T.NextIsOnLine(TRACKER, Nominal(y0, phase, 24), NominalAt(y0, phase, 24))
       <==> NominalStaysLocked(y0, phase)
  {
    NextNominalMiss(y0, phase);
    TrackerValues();
  }

  lemma BlendNominal(clamped: real, gap: real)
    requires 18840.0 <= clamped <= 21150.08 && 18880.0 <= gap <= 18960.0
    ensures 18840.0 <= T.Blend(clamped, gap) <= 21107.0
  {
  }

  lemma LineAfterNominal(y0: nat, phase: nat)
    requires phase < 80000 && NominalStaysLocked(y0, phase)
    ensures Locked(TRACKER, Nominal(y0, phase, 25))
    ensures T.OnBand(T.Run(TRACKER, Nominal(y0, phase, 25)), 18840.0, 21107.0)
  {
    var fit, hit := Nominal(y0, phase, 24), NominalAt(y0, phase, 24);
    NominalIsGated(y0, phase, 25);
    NominalTake(y0, phase, 25, 24);
    NextNominalLine(y0, phase);
    NominalFit(y0, phase);
    NominalClamp(y0, phase);
    NominalDrifts(y0, phase, 23);
    NominalDrifts(y0, phase, 24);
    LineAfterFit(Nominal(y0, phase, 25), fit, hit, NominalClamped(y0, phase));
    BlendNominal(NominalClamped(y0, phase), (hit - fit[23]) as real);
  }

  /** How many lines of a recording at the nominal rate are found, whatever its phase:
      all of at most 24, or if the 25th is on the line; otherwise exactly 24, however
      long it goes on. */
  lemma NominalLinesFound(y0: nat, phase: nat, n: nat)
    requires phase < 80000 && y0 > 0
    ensures D.GateRun(GATE, Nominal(y0, phase, n), -MIN_SYNC_GAP) == Nominal(y0, phase, n)
    ensures Accepted(TRACKER, Nominal(y0, phase, n))
         == Nominal(y0, phase, if n <= 24 || NominalStaysLocked(y0, phase) then n else 24)
  {
    ReceiverValues();
    NominalIsGated(y0, phase, n);
    GatedPass(GATE, Nominal(y0, phase, n));
    if n <= 24 {
      LockedToTheFit(GATE, TRACKER, Nominal(y0, phase, n));
    } else if NominalStaysLocked(y0, phase) {
      LineAfterNominal(y0, phase);
      NominalTake(y0, phase, n, 25);
      TrackerValues();
      StaysOnBand(GATE, TRACKER, Nominal(y0, phase, n), 25, 18840.0, 21107.0, 18880, 18960);
    } else {
      NominalTake(y0, phase, n, 24);
      NextNominalLine(y0, phase);
      FitDecides(GATE, TRACKER, Nominal(y0, phase, n));
    }
  }

  lemma {:induction false} NoDriftsYet(ds: seq<int>, n: nat)
    requires 1 <= n <= 18 && ds == DriftSeq(0, n)
    ensures T.TotalY(ds) == 0.0 && T.SumXY(ds) == 0.0
    decreases n
  {
    if n == 1 {
      assert ds[..0] == [];
    } else {
      NoDriftsYet(ds[..n - 1], n - 1);
      SumsStep(ds, ds[..n - 1], (n - 1) as real, 0.0, 0.0);
    }
  }

  function Moment(x: real): real {
    (x - 18.0) * (x + 17.0) / 2.0
  }

  lemma MomentStep(x: real)
    ensures Moment(x + 1.0) == Moment(x) + x
  {
  }

  lemma {:induction false} DriftsOfPhase0(ds: seq<int>, n: nat, x: real)
    requires 18 <= n <= 24 && x == n as real && ds == DriftSeq(0, n)
    ensures T.TotalY(ds) == x - 18.0 && T.SumXY(ds) == Moment(x)
    decreases n
  {
    if n == 18 {
      NoDriftsYet(ds, n);
    } else {
      DriftsOfPhase0(ds[..n - 1], n - 1, x - 1.0);
      MomentStep(x - 1.0);
      SumsStep(ds, ds[..n - 1], x - 1.0, 1.0, x - 1.0);
    }
  }

  lemma RestOfPhase0()
    ensures DriftSlope(0) == 432.0 / 115.0 && DriftRest(0) == 300.0 / 23.0
  {
    DriftsOfPhase0(DriftSeq(0, 24), 24, 24.0);
    assert Drift(0, 24) == 1;
  }

  /** In phase 0 those are early first positions, and a stretch where the clamp bends
      the line back. */
  lemma NominalPhase0(y0: nat)
    ensures NominalStaysLocked(y0, 0) <==> y0 <= 27349 || 332634 <= y0 <= 361562
  {
    RestOfPhase0();
  }

  /** In every phase a recording that begins one to five seconds in is lost. */
  lemma NominalIsLost(y0: nat, phase: nat)
    requires phase < 80000 && 44100 <= y0 <= 220500
    ensures !NominalStaysLocked(y0, phase)
  {
    DriftBounds(phase);
  }

  // ----- the samples of such a recording

  /** A recording with sample 1 at these indices and 0 elsewhere. */
  function Pulses(at: seq<int>, total: nat): (samples: seq<int>)
    ensures |samples| == total && forall i :: 0 <= i < total ==> samples[i] == 0 || samples[i] == 1
  {
    seq(total, i requires 0 <= i < total => if i in at then 1 else 0)
  }

  /** The score that finds a pulse in every window whose last sample is 1. */
  const PULSE_ENDS: D.Score := w => |w| > 0 && w[|w| - 1] == 1

  function Shift(at: seq<int>, start: int): (ys: seq<int>)
    ensures |ys| == |at|
  {
    seq(|at|, i requires 0 <= i < |at| => start + at[i])
  }

  /** Increasing indices that end a hop. */
  ghost predicate OnHops(at: seq<int>) {
    && (forall i :: 0 <= i < |at| ==> at[i] >= 478 && (at[i] - 478) % 80 == 0)
    && (forall i, j :: 0 <= i < j < |at| ==> at[i] < at[j])
  }

  lemma PulseHit(at: seq<int>, total: nat, n: nat)
    requires OnHops(at) && n < total
    ensures D.HitAt(PULSE_ENDS, Pulses(at, total), n + 1) <==> n in at
  {
    if n + 1 >= D.WINDOW_SAMPLES {
      var w := Last(Pulses(at, total)[..n + 1], D.WINDOW_SAMPLES);
      assert w[|w| - 1] == Pulses(at, total)[n];
    }
  }

  /** The candidates are the indices before `n`, the first `k` of them. */
  lemma {:induction false} PulseCandidates(at: seq<int>, total: nat, start: int, n: nat, k: nat)
    requires OnHops(at) && n <= total && k <= |at|
    requires (forall i :: 0 <= i < k ==> at[i] < n) && (forall i :: k <= i < |at| ==> at[i] >= n)
    ensures D.Candidates(PULSE_ENDS, Pulses(at, total), start, n) == Shift(at[..k], start)
  {
    if n > 0 {
      PulseHit(at, total, n - 1);
      if k > 0 && at[k - 1] == n - 1 {
        PulseCandidates(at, total, start, n - 1, k - 1);
        assert Shift(at[..k], start) == Shift(at[..k - 1], start) + [start + n - 1];
      } else {
        PulseCandidates(at, total, start, n - 1, k);
        assert n - 1 !in at;
      }
    }
  }

  lemma PulseHits(at: seq<int>, total: nat, start: int)
    requires OnHops(at) && (at != [] ==> at[|at| - 1] < total)
    ensures D.Candidates(PULSE_ENDS, Pulses(at, total), start, total) == Shift(at, start)
  {
    assert at[..|at|] == at;
    PulseCandidates(at, total, start, total, |at|);
  }

  lemma WholeHops(a: nat, m: nat)
    ensures (a + 80 * m) % 80 == a % 80
  {
  }

  lemma NominalOnHop(first: nat, phase: nat, k: nat)
    requires first >= 478 && (first - 478) % 80 == 0
    ensures NominalAt(first, phase, k) >= 478 && (NominalAt(first, phase, k) - 478) % 80 == 0
  {
    WholeHops(first - 478, (k * 18884502 + phase) / 80000);
  }

  lemma NominalOnHops(first: nat, phase: nat, n: nat)
    requires first >= 478 && (first - 478) % 80 == 0
    ensures OnHops(Nominal(first, phase, n))
  {
    forall i | 0 <= i < n
      ensures Nominal(first, phase, n)[i] >= 478 && (Nominal(first, phase, n)[i] - 478) % 80 == 0
    {
      NominalOnHop(first, phase, i);
    }
    forall i, j | 0 <= i < j < n
      ensures Nominal(first, phase, n)[i] < Nominal(first, phase, n)[j]
    {
      NominalDrifts(first, phase, i);
      NominalDrifts(first, phase, j);
      DriftMonotone(phase, i, j);
    }
  }

  lemma DriftMonotone(phase: nat, i: nat, j: nat)
    requires i <= j
    ensures Drift(phase, i) <= Drift(phase, j)
  {
  }

  lemma NominalShifts(first: nat, start: nat, phase: nat, n: nat)
    ensures Shift(Nominal(first, phase, n), start) == Nominal(start + first, phase, n)
  {
  }

  /** The loop on a recording of pulses at the nominal rate: unless the 25th line is on
      the line, it finds at most 24 positions. */
  lemma NominalRecording(first: nat, start: nat, phase: nat, n: nat, total: nat)
    requires first >= 478 && (first - 478) % 80 == 0 && phase < 80000
    requires n > 0 ==> NominalAt(first, phase, n - 1) < total
    ensures var y0 := start + first;
            var found := if n <= 24 || NominalStaysLocked(y0, phase) then n else 24;
            var hits := D.Hits(PULSE_ENDS, Pulses(Nominal(first, phase, n), total), start, GATE, total);
            Accepted(TRACKER, hits) == Nominal(y0, phase, found)
  {
    NominalOnHops(first, phase, n);
    PulseHits(Nominal(first, phase, n), total, start);
    NominalShifts(first, start, phase, n);
    NominalLinesFound(start + first, phase, n);
  }
}
