/** What the picture looks like: the scale from frequencies to intensities, which
    column and which channel a pixel shows, the margins, and the picture that a
    recording of given tones is decoded to. */
module ScottieLevels {
  import opened Division
  import opened RingWindow
  import opened ScottieModel
  import opened ScottieRuns
  import opened ScottieFrame
  import opened ScottieQuiet
  import opened ScottiePicture
  import opened ScottieLine
  import opened ScottieImage
  import opened ScottieWindows

  // ----- the scale

  /** Black up to 1500 Hz, white from 2300 Hz on. */
  lemma ScaleEnds(freq: real)
    ensures freq <= 1500.0 ==> FreqToIntensity(freq) == 0
    ensures freq >= 2300.0 ==> FreqToIntensity(freq) == 255
  {
  }

  /** A higher tone is never darker. */
  lemma ScaleMonotone(a: real, b: real)
    requires a <= b
    ensures FreqToIntensity(a) <= FreqToIntensity(b)
  {
  }

  /** In between the intensity is the nearest to the linear scale. */
  lemma ScaleIsNearest(freq: real)
    requires 1500.0 <= freq <= 2300.0
    ensures var exact := (freq - 1500.0) * 255.0 / 800.0;
            exact - 0.5 <= FreqToIntensity(freq) as real <= exact + 0.5
  {
  }

  /** Every level comes back from its tone, and from every tone less than half a level
      away. */
  lemma LevelReadsBack(v: int, freq: real)
    requires 0 <= v <= 255
    requires -400.0 / 255.0 < freq - (1500.0 + 800.0 * v as real / 255.0) < 400.0 / 255.0
    ensures FreqToIntensity(freq) == v
  {
  }

  // ----- a row

  /** Output column `x` shows source column `4 x / 3`, rounded down; left and right of
      the picture is the panel. */
  lemma RowLayout(accum: seq<seq<int>>, count: seq<seq<int>>, x: nat)
    requires Grid(accum) && Grid(count) && x < 288
    ensures |RenderRow(accum, count)| == 288
    ensures x < 24 || x >= 264 ==> RenderRow(accum, count)[x] == Rgb(250, 240, 216)
    ensures 24 <= x < 264 ==>
              var c := (4 * (x - 24)) / 3;
              && 0 <= c < 320
              && RenderRow(accum, count)[x]
              == Rgb(Mean(accum, count, 2, c), Mean(accum, count, 0, c), Mean(accum, count, 1, c))
  {
  }

  ghost predicate Margins(row: seq<Rgb>) {
    |row| == 288 && forall x :: 0 <= x < 24 || 264 <= x < 288 ==> row[x] == Rgb(250, 240, 216)
  }

  // ----- pixels of known tones

  /** A tone that stands for level `v`. */
  ghost predicate IsTone(freq: real, v: int) {
    0 <= v <= 255 && -400.0 / 255.0 < freq - (1500.0 + 800.0 * v as real / 255.0) < 400.0 / 255.0
  }

  /** In every run: where the estimator hears the tone of a level in the windows of a
      cell, the pixel has that level. */
  lemma PixelOfTone(est: Estimator, t: Track, phase: Phase, line: int, column: int, w: int, v: int)
    requires ComponentHeard(est, t, phase, line, column, w) && !NoWindow(t, phase, line, column)
    requires forall i, j :: OwnWindow(t, phase, line, column, i, j) ==> IsTone(est(t.samples[i..j]), v)
    ensures w == v
  {
    var i, j :| Shows(est, t, phase, line, column, w, i, j);
    LevelReadsBack(v, est(t.samples[i..j]));
  }

  /** Sample `n` of a phase is the first in the column whose window is full. */
  predicate Records(color: int, column: int, n: int) {
    var w := 3 * color / 320;
    n + 1 >= w && 320 * n >= column * color && (n + 1 == w || 320 * (n - 1) < column * color)
  }

  lemma RecordsIs(color: int, column: int, n: int)
    requires color >= 958 && 2 <= column < IN_WIDTH && Records(color, column, n)
    ensures n == RecordedAt(color, column)
  {
    FirstAtOrder(color, 2);
    FirstAtIs(color, column, n);
    if column >= 3 {
      FirstAtMonotone(color, 3, column);
    }
  }

  lemma FirstAtIs(color: int, column: int, n: int)
    requires color > 0
    ensures 320 * n >= column * color <==> n >= FirstAt(color, column)
    ensures 320 * (n - 1) < column * color <==> n - 1 < FirstAt(color, column)
  {
  }

  /** The window of a column in the phase that begins at `at`. */
  ghost predicate Hears(est: Estimator, m: seq<int>, at: int, color: int, n: int, v: int) {
    var w := 3 * color / 320;
    0 <= at + n + 1 - w && w >= 0 && at + n + 1 <= |m| && IsTone(est(m[at + n + 1 - w..at + n + 1]), v)
  }

  lemma SliceOfSlice(m: seq<int>, a: int, b: int, i: int, j: int)
    requires 0 <= a <= b <= |m| && 0 <= i <= j <= b - a
    ensures m[a..b][i..j] == m[a + i..a + j]
  {
    forall k | 0 <= k < j - i
      ensures m[a..b][i..j][k] == m[a + i..a + j][k]
    {
      assert m[a..b][i + k] == m[a + (i + k)];
    }
  }

  lemma IntensityOfTone(est: Estimator, m: seq<int>, phase: seq<int>, at: int, color: int, column: int, n: int, v: int)
    requires color >= 958 && 2 <= column < IN_WIDTH && Records(color, column, n)
    requires 0 <= at && at + color <= |m| && phase == m[at..at + color]
    requires Hears(est, m, at, color, n, v)
    ensures Intensity(est, phase, color, column) == v
  {
    var w := 3 * color / IN_WIDTH;
    RecordsIs(color, column, n);
    RecordedInPhase(color, column);
    SliceOfSlice(m, at, at + color, n + 1 - w, n + 1);
    LevelReadsBack(v, est(m[at + n + 1 - w..at + n + 1]));
  }

  /** The samples of output line `y` begin here, if it shows `line`: after what is left of
      the line that the frame begins in, and the lines between. */
  ghost predicate BeginsLine(s: State, y: nat, line: int, start: int) {
    var t := s.timing;
    && 1 <= y < 192 && 4 * y <= 3 * line < 4 * y + 3
    && start == (if s.offset < t.sync + t.porch + t.color then t.sync + t.porch + t.color - s.offset else 1)
                + (line - 1) * (3 * t.porch + 3 * t.color + t.sync)
  }

  /** The tones of a colour, in the window of column `column` of the three colour phases
      of a line that begins at `start`. */
  ghost predicate HearsColour(est: Estimator, m: seq<int>, t: Timing, start: int, column: int, n: int, p: Rgb) {
    && 2 <= column < 320 && Records(t.color, column, n)
    && Hears(est, m, start + t.porch, t.color, n, p.g)
    && Hears(est, m, start + 2 * t.porch + t.color, t.color, n, p.b)
    && Hears(est, m, start + 3 * t.porch + 2 * t.color + t.sync, t.color, n, p.r)
  }

  ghost predicate StandsAt(m: seq<int>, row: seq<int>, start: int) {
    0 <= start && start + |row| <= |m| && row == m[start..start + |row|]
  }

  lemma PhasesOfLine(t: Timing)
    requires Long(t)
    ensures BeginsAt(t, Green) == t.porch && BeginsAt(t, Blue) == 2 * t.porch + t.color
    ensures BeginsAt(t, Red) == 3 * t.porch + 2 * t.color + t.sync
    ensures t.LineLength() == 3 * t.porch + 3 * t.color + t.sync
  {
  }

  /** A row of tones. */
  lemma PixelOfLine(est: Estimator, t: Timing, m: seq<int>, row: seq<int>, start: int, x: nat, column: int, n: int,
                    p: Rgb)
    requires Long(t) && x < OUT_IMAGE_WIDTH && column == InColumn(x) && |row| == t.LineLength()
    requires StandsAt(m, row, start)
    requires HearsColour(est, m, t, start, column, n, p)
    ensures LineRow(est, t, row)[24 + x] == p
  {
    PhasesOfLine(t);
    PhaseOfTone(est, t, m, row, start, BeginsAt(t, Green), start + t.porch, column, n, p.g);
    PhaseOfTone(est, t, m, row, start, BeginsAt(t, Blue), start + 2 * t.porch + t.color, column, n, p.b);
    PhaseOfTone(est, t, m, row, start, BeginsAt(t, Red), start + 3 * t.porch + 2 * t.color + t.sync, column, n, p.r);
    PixelOfPhases(est, t, row, x, column, p);
  }

  lemma PixelOfPhases(est: Estimator, t: Timing, row: seq<int>, x: nat, column: int, p: Rgb)
    requires Long(t) && |row| == t.LineLength() && x < OUT_IMAGE_WIDTH && column == InColumn(x) && 0 <= column < IN_WIDTH
    requires Intensity(est, PhaseAt(t, row, BeginsAt(t, Green)), t.color, column) == p.g
    requires Intensity(est, PhaseAt(t, row, BeginsAt(t, Blue)), t.color, column) == p.b
    requires Intensity(est, PhaseAt(t, row, BeginsAt(t, Red)), t.color, column) == p.r
    ensures LineRow(est, t, row)[24 + x] == p
  {
    LinePixels(est, t, row, x);
  }

  lemma PhaseOfTone(est: Estimator, t: Timing, m: seq<int>, row: seq<int>, start: int, begin: int, at: int,
                    column: int, n: int, v: int)
    requires Long(t) && 2 <= column < IN_WIDTH && Records(t.color, column, n)
    requires StandsAt(m, row, start) && 0 <= begin && begin + t.color <= |row| && at == start + begin
    requires Hears(est, m, at, t.color, n, v)
    ensures Intensity(est, PhaseAt(t, row, begin), t.color, column) == v
  {
    SliceOfSlice(m, start, start + |row|, begin, begin + t.color);
    IntensityOfTone(est, m, PhaseAt(t, row, begin), at, t.color, column, n, v);
  }

  /** Where the row of an output line begins, in samples of the frame. */
  lemma RowStart(s: State, m: seq<int>, y: nat, line: int, start: int)
    requires Ready(s) && |m| >= FrameLength(s) && BeginsLine(s, y, line, start)
    ensures Long(s.timing) && |RowSamples(s, m, y)| == s.timing.LineLength()
    ensures 0 <= start && start + s.timing.LineLength() <= |m|
    ensures RowSamples(s, m, y) == m[start..start + s.timing.LineLength()]
  {
    RowInFrame(s, y);
    assert line == SourceLine(y) && start == SamplesBefore(s, line - 1);
  }

  lemma PixelOfRow(est: Estimator, s: State, m: seq<int>, y: nat, x: nat, line: int, start: int, column: int, n: int,
                   p: Rgb)
    requires Ready(s) && |m| >= FrameLength(s) && BeginsLine(s, y, line, start)
    requires x < 240 && 3 * column <= 4 * x < 3 * column + 3 && HearsColour(est, m, s.timing, start, column, n, p)
    ensures Long(s.timing) && LineRow(est, s.timing, RowSamples(s, m, y))[24 + x] == p
  {
    RowStart(s, m, y, line, start);
    ColumnOf(x, column);
    var row := RowSamples(s, m, y);
    PixelOfLine(est, s.timing, m, row, start, x, column, n, p);
  }

  /** The picture a recording of tones is decoded to, when no pulse resynchronises it:
      if the windows of source column `column = 4 x / 3` in the line that `y` shows hold
      the tones of a colour, then that is the pixel at `x`, `y`. */
  lemma PictureOfTones(est: Estimator, s: State, events: seq<Event>, m: seq<int>, image: seq<seq<Rgb>>, y: nat, x: nat,
                       line: int, start: int, column: int, n: int, p: Rgb)
    requires Ready(s) && Ready(OnSync(s, false)) && Quiet(est, OnSync(s, false), events)
    requires m == Samples(events) && |m| >= FrameLength(s) && image == Run(est, OnSync(s, false), events).image
    requires BeginsLine(s, y, line, start)
    requires x < 240 && 3 * column <= 4 * x < 3 * column + 3 && HearsColour(est, m, s.timing, start, column, n, p)
    ensures |image| == 192 && |image[y]| == 288 && image[y][24 + x] == p
  {
    PixelOfRow(est, s, m, y, x, line, start, column, n, p);
    RowInPicture(est, s, events, m, y, LineRow(est, s.timing, RowSamples(s, m, y)));
  }

  lemma RowInPicture(est: Estimator, s: State, events: seq<Event>, m: seq<int>, y: nat, row: seq<Rgb>)
    requires Ready(s) && Ready(OnSync(s, false)) && Quiet(est, OnSync(s, false), events)
    requires m == Samples(events) && |m| >= FrameLength(s) && 1 <= y < OUT_HEIGHT
    requires Long(s.timing) && row == LineRow(est, s.timing, RowSamples(s, m, y))
    ensures |Run(est, OnSync(s, false), events).image| == OUT_HEIGHT
    ensures Run(est, OnSync(s, false), events).image[y] == row
  {
    FramePicture(est, s, events, m, y);
  }

  lemma ColumnOf(x: nat, column: int)
    requires x < 240 && 3 * column <= 4 * x < 3 * column + 3
    ensures column == InColumn(x) && 0 <= column < IN_WIDTH
  {
  }

  /** Every row painted has the margins, in every run; and every row not yet painted is
      panel throughout. */
  lemma MarginsOf(accum: seq<seq<int>>, count: seq<seq<int>>)
    requires Grid(accum) && Grid(count)
    ensures Margins(RenderRow(accum, count))
  {
    forall x | 0 <= x < 24 || 264 <= x < 288
      ensures RenderRow(accum, count)[x] == Rgb(250, 240, 216)
    {
      RowLayout(accum, count, x);
    }
  }

  ghost predicate AllMargins(s: State) {
    |s.image| == OUT_HEIGHT && forall y :: 0 <= y < OUT_HEIGHT ==> Margins(s.image[y])
  }

  lemma MarginsApply(est: Estimator, s: State, e: Event)
    requires Invariant(s) && AllMargins(s)
    ensures AllMargins(Apply(est, s, e))
  {
    if e.Tick? && s.phase == Red && s.phaseSamples + 1 >= s.timing.color {
      RowOfLine(s.lineIndex);
      LineEndPaints(est, s, e.mono);
      var t := TakeSample(est, s, e.mono);
      MarginsOf(t.accum, t.count);
    } else {
      PictureKept(est, s, e);
    }
  }

  /** In every run of a frame, left and right of the picture is the panel. */
  lemma {:induction false} MarginsStay(est: Estimator, s: State, events: seq<Event>)
    requires Ready(s) && Ready(OnSync(s, false))
    ensures AllMargins(Run(est, OnSync(s, false), events))
  {
    StartInvariant(s);
    if events != [] {
      var n := |events| - 1;
      MarginsStay(est, s, events[..n]);
      RunInvariant(est, OnSync(s, false), events[..n]);
      MarginsApply(est, Run(est, OnSync(s, false), events[..n]), events[n]);
    }
  }
}
