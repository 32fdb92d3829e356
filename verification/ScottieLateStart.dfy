/** The first row of a frame whose phase offset falls into the first Red phase: the
    columns whose windows fill after the entry point. */
module ScottieLateStart {
  import opened Division
  import opened ScottieModel
  import opened ScottieRuns
  import opened ScottieFrame
  import opened ScottieQuiet
  import opened ScottiePicture
  import opened ScottieWindows
  import Image = ScottieImage

  /** How far into Red the frame begins. */
  function Entry(s: State): int {
    var k := s.offset - s.timing.sync - s.timing.porch;
    if k > s.timing.color then s.timing.color else k
  }

  /** The samples left of that phase: at the very end, one more. */
  function RedLeft(s: State): int {
    if Entry(s) < s.timing.color then s.timing.color - Entry(s) else 1
  }

  ghost predicate LateStart(s: State) {
    Ready(s) && s.offset >= s.timing.sync + s.timing.porch
  }

  /** The decoder within that phase. */
  ghost predicate InRed(s: State, u: State, i: nat) {
    && Ready(u) && u.phase == Red && u.lineIndex == 0 && u.lastOutputY == -1
    && u.phaseSamples == Entry(s) + i && u.timing == s.timing
  }

  lemma LateBegin(s: State)
    requires LateStart(s)
    ensures Ready(OnSync(s, false)) && InRed(s, OnSync(s, false), 0)
    ensures 0 <= Entry(s) <= s.timing.color && RedLeft(s) >= 1
  {
    StartReady(s);
    TimingReady(s);
  }

  lemma InRedStep(est: Estimator, s: State, u: State, mono: int, i: nat)
    requires LateStart(s) && InRed(s, u, i) && i + 1 < RedLeft(s)
    ensures InRed(s, Step(est, u, mono), i + 1)
  {
    ApplyReady(est, u, Tick(mono));
    ColorStepIs(est, u, mono, u.(lineSamples := u.lineSamples + 1));
  }

  /** The last sample of the phase ends the line. */
  lemma InRedEnd(est: Estimator, s: State, u: State, mono: int, i: nat)
    requires LateStart(s) && InRed(s, u, i) && i + 1 == RedLeft(s)
    ensures Step(est, u, mono).lineIndex == 1
  {
    ColorStepIs(est, u, mono, u.(lineSamples := u.lineSamples + 1));
  }

  lemma {:induction false} WithinRed(est: Estimator, s: State, m: seq<int>)
    requires LateStart(s) && Ready(OnSync(s, false)) && |m| < RedLeft(s)
    ensures InRed(s, Run(est, OnSync(s, false), TickAll(m)), |m|)
  {
    LateBegin(s);
    if m != [] {
      var n := |m| - 1;
      WithinRed(est, s, m[..n]);
      RunOneMore(est, OnSync(s, false), m);
      InRedStep(est, s, Run(est, OnSync(s, false), TickAll(m[..n])), m[n], n);
    }
  }

  lemma {:induction false} AllTicks(m: seq<int>)
    ensures Samples(TickAll(m)) == m
  {
    if m != [] {
      AllTicks(m[..|m| - 1]);
      assert TickAll(m)[..|m| - 1] == TickAll(m[..|m| - 1]);
    }
  }

  function PlaceInRed(s: State, q: int): Place
    requires s.timing.color > 0
  {
    Place(Red, 0, ColumnAt(s.timing.color, Entry(s) + q), s.timing.window)
  }

  function RedPlaces(s: State, n: nat): (places: seq<Place>)
    requires s.timing.color > 0
    ensures |places| == n
  {
    seq(n, q => PlaceInRed(s, q))
  }

  /** One more sample of the phase. */
  lemma PlacesStep(est: Estimator, s: State, m: seq<int>, n: nat)
    requires LateStart(s) && Ready(OnSync(s, false)) && |m| == n + 1 <= RedLeft(s)
    ensures s.timing.color > 0
    ensures Places(est, OnSync(s, false), TickAll(m))
         == Places(est, OnSync(s, false), TickAll(m[..n])) + [PlaceInRed(s, n)]
  {
    var first := OnSync(s, false);
    WithinRed(est, s, m[..n]);
    assert TickAll(m) == TickAll(m[..n]) + [Tick(m[n])];
    TrackAppend(est, first, TickAll(m[..n]), Tick(m[n]));
    assert PlaceOf(Run(est, first, TickAll(m[..n]))) == PlaceInRed(s, n);
  }

  /** The places of the samples of the phase. */
  lemma {:induction false} LatePlaces(est: Estimator, s: State, m: seq<int>)
    requires LateStart(s) && Ready(OnSync(s, false)) && |m| <= RedLeft(s)
    ensures s.timing.color > 0
    ensures Places(est, OnSync(s, false), TickAll(m)) == RedPlaces(s, |m|)
  {
    if m != [] {
      var n := |m| - 1;
      LatePlaces(est, s, m[..n]);
      PlacesStep(est, s, m, n);
      assert RedPlaces(s, n + 1) == RedPlaces(s, n) + [PlaceInRed(s, n)];
    }
  }

  // ----- the columns of such a phase

  /** The sample of the phase that records a column: the first one in it for which the
      window has filled since the entry. */
  function LateRecordedAt(k: int, color: int, w: int, x: int): int {
    if FirstAt(color, x) < k + w - 1 then k + w - 1 else FirstAt(color, x)
  }

  /** The intensity of a column: 0 if the phase leaves it before the window fills. */
  function LateIntensity(est: Estimator, m: seq<int>, k: int, color: int, w: int, x: int): int
    requires 0 <= k && 0 < w && 0 < color <= k + |m| && x < IN_WIDTH
  {
    var r := LateRecordedAt(k, color, w, x);
    if ColumnAt(color, r) != x then 0 else
    ColumnReached(color, r, IN_WIDTH);
    FullColumns(color, r);
    FreqToIntensity(est(m[r - k + 1 - w..r - k + 1]))
  }

  lemma FullColumns(color: int, r: int)
    requires color > 0 && ColumnAt(color, r) < IN_WIDTH
    ensures r < color
  {
    FloorDiv(r * IN_WIDTH, color, IN_WIDTH);
  }

  /** The track of the phase. */
  ghost predicate RedTrack(t: Track, m: seq<int>, k: int, color: int, w: int)
    requires color > 0
  {
    && t.samples == m && |t.places| == |m|
    && forall q :: 0 <= q < |m| ==> t.places[q] == Place(Red, 0, ColumnAt(color, k + q), w)
  }

  /** Every window of a column ends at the recording sample or later, and if that
      sample is in the column, it ends one. */
  lemma LateWindows(t: Track, m: seq<int>, k: int, color: int, w: int, x: int, i: int, j: int)
    requires 0 <= k && 0 < w && 0 < color <= k + |m| && x < IN_WIDTH && RedTrack(t, m, k, color, w)
    ensures var r := LateRecordedAt(k, color, w, x);
            && (OwnWindow(t, Red, 0, x, i, j) ==> ColumnAt(color, r) == x && r - k + 1 <= j)
            && (ColumnAt(color, r) == x ==> r < color && OwnWindow(t, Red, 0, x, r - k + 1 - w, r - k + 1))
  {
    var r := LateRecordedAt(k, color, w, x);
    ColumnReached(color, r, x);
    ColumnReached(color, r, x + 1);
    if OwnWindow(t, Red, 0, x, i, j) {
      ColumnReached(color, k + j - 1, x);
      ColumnReached(color, k + j - 1, x + 1);
    }
    if ColumnAt(color, r) == x {
      FullColumns(color, r);
    }
  }

  /** So what is heard of a column is its late intensity. */
  lemma LateHeard(est: Estimator, t: Track, m: seq<int>, k: int, color: int, w: int, x: int, v: int)
    requires 0 <= k && 0 < w && 0 < color <= k + |m| && x < IN_WIDTH && RedTrack(t, m, k, color, w)
    requires ComponentHeard(est, t, Red, 0, x, v)
    ensures v == LateIntensity(est, m, k, color, w, x)
  {
    var r := LateRecordedAt(k, color, w, x);
    LateWindows(t, m, k, color, w, x, 0, 0);
    if Heard(est, t, Red, 0, x, v) {
      var i, j :| Shows(est, t, Red, 0, x, v, i, j);
      LateWindows(t, m, k, color, w, x, i, j);
    }
  }

  // ----- the row

  ghost predicate LateRow(est: Estimator, m: seq<int>, k: int, color: int, w: int, row: seq<Rgb>)
    requires 0 <= k && 0 < w && 0 < color <= k + |m|
  {
    && |row| == OUT_WIDTH
    && forall x :: 0 <= x < OUT_IMAGE_WIDTH ==>
         row[PAD_X + x] == Rgb(LateIntensity(est, m, k, color, w, InColumn(x)), 0, 0)
  }

  lemma OnlyRedHeard(t: Track, m: seq<int>, k: int, color: int, w: int, phase: Phase, x: int)
    requires color > 0 && RedTrack(t, m, k, color, w) && phase != Red
    ensures NoWindow(t, phase, 0, x)
  {
    forall i, j
      ensures !OwnWindow(t, phase, 0, x, i, j)
    {
      if 0 <= i < j <= |t.samples| {
        assert t.places[i].phase == Red;
      }
    }
  }

  lemma LateRowHeard(est: Estimator, t: Track, m: seq<int>, k: int, color: int, w: int, row: seq<Rgb>)
    requires 0 <= k && 0 < w && 0 < color <= k + |m| && RedTrack(t, m, k, color, w)
    requires RowHeard(est, t, 0, row)
    ensures LateRow(est, m, k, color, w, row)
  {
    forall x | 0 <= x < OUT_IMAGE_WIDTH
      ensures row[PAD_X + x] == Rgb(LateIntensity(est, m, k, color, w, InColumn(x)), 0, 0)
    {
      assert PixelHeard(est, t, 0, InColumn(x), row[PAD_X + x]);
      LateHeard(est, t, m, k, color, w, InColumn(x), row[PAD_X + x].r);
      OnlyRedHeard(t, m, k, color, w, Green, InColumn(x));
      OnlyRedHeard(t, m, k, color, w, Blue, InColumn(x));
    }
  }

  lemma LateEnd(est: Estimator, s: State, m: seq<int>)
    requires LateStart(s) && Ready(OnSync(s, false)) && |m| == RedLeft(s)
    ensures Run(est, OnSync(s, false), TickAll(m)).lineIndex == 1
  {
    LateBegin(s);
    var n, first := |m| - 1, OnSync(s, false);
    WithinRed(est, s, m[..n]);
    RunOneMore(est, first, m);
    InRedEnd(est, s, Run(est, first, TickAll(m[..n])), m[n], n);
  }

  lemma LateTrack(est: Estimator, s: State, m: seq<int>)
    requires LateStart(s) && Ready(OnSync(s, false)) && |m| == RedLeft(s)
    ensures s.timing.color > 0
    ensures RedTrack(TrackOf(est, OnSync(s, false), TickAll(m)), m, Entry(s), s.timing.color, s.timing.window)
  {
    LatePlaces(est, s, m);
    AllTicks(m);
  }

  /** The row once the phase is over. */
  lemma LateRowPainted(est: Estimator, s: State, m: seq<int>)
    requires LateStart(s) && |m| == RedLeft(s)
    ensures Ready(OnSync(s, false)) && 0 <= Entry(s) && 0 < s.timing.window && 0 < s.timing.color <= Entry(s) + |m|
    ensures var v := Run(est, OnSync(s, false), TickAll(m));
            && v.lineIndex == 1 && |v.image| == OUT_HEIGHT
            && LateRow(est, m, Entry(s), s.timing.color, s.timing.window, v.image[0])
  {
    LateBegin(s);
    LateEnd(est, s, m);
    LateTrack(est, s, m);
    PixelsAreHeard(est, s, TickAll(m));
    var v, t := Run(est, OnSync(s, false), TickAll(m)), TrackOf(est, OnSync(s, false), TickAll(m));
    assert RowHeard(est, t, SourceLine(0), v.image[0]);
    LateRowHeard(est, t, m, Entry(s), s.timing.color, s.timing.window, v.image[0]);
  }

  /** Row 0 when the phase offset falls into the first Red phase: red only, each column
      from the first window that is full after the entry and ends in that column, and
      black if the phase has left the column by then. */
  lemma LateFirstRow(est: Estimator, s: State, events: seq<Event>)
    requires LateStart(s) && Ready(OnSync(s, false)) && Quiet(est, OnSync(s, false), events)
    requires RedLeft(s) <= Ticks(events)
    ensures 0 <= Entry(s) && 0 < s.timing.window && 1 <= RedLeft(s) && 0 < s.timing.color <= Entry(s) + RedLeft(s)
    ensures var v := Run(est, OnSync(s, false), events);
            && |v.image| == OUT_HEIGHT
            && LateRow(est, Samples(events)[..RedLeft(s)], Entry(s), s.timing.color, s.timing.window, v.image[0])
  {
    var m, n := Samples(events), RedLeft(s);
    LateBegin(s);
    LateRowPainted(est, s, m[..n]);
    Image.StartPainting(s);
    Image.RowKept(est, OnSync(s, false), m, n, 0);
    QuietIsTicks(est, OnSync(s, false), events);
  }
}
