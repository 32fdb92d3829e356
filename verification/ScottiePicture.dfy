/** An undisturbed colour phase: which columns it records, and the intensities
    of which samples it leaves in them. */
module ScottiePicture {
  import opened RingWindow
  import opened Division
  import opened ScottieModel
  import opened ScottieRuns
  import opened ScottieFrame

  // ----- which sample records which column

  /** The first sample of a colour phase that falls on column `x` or later. */
  function FirstAt(color: int, x: int): int {
    (x * color + IN_WIDTH - 1) / IN_WIDTH
  }

  function ColumnAt(color: int, n: int): int
    requires color > 0
  {
    n * IN_WIDTH / color
  }

  lemma ColumnReached(color: int, n: int, x: int)
    requires color > 0
    ensures ColumnAt(color, n) >= x <==> n >= FirstAt(color, x)
  {
    FloorDiv(n * IN_WIDTH, color, x);
  }

  /** The sample at which column `x` is recorded: the pixel window is first full
      in column 2, and every later column is recorded when it is reached. */
  function RecordedAt(color: int, x: int): int {
    if x == 2 then 3 * color / IN_WIDTH - 1 else FirstAt(color, x)
  }

  lemma FirstAtOrder(color: int, x: int)
    requires color >= 958
    ensures FirstAt(color, x) < FirstAt(color, x + 1)
    ensures FirstAt(color, IN_WIDTH) == color
    ensures FirstAt(color, 2) <= 3 * color / IN_WIDTH - 1 < FirstAt(color, 3)
  {
    assert (x + 1) * color == x * color + color;
  }

  lemma {:induction false} FirstAtMonotone(color: int, x: int, y: int)
    requires color >= 958 && x <= y
    ensures FirstAt(color, x) <= FirstAt(color, y)
    decreases y - x
  {
    if x < y {
      FirstAtMonotone(color, x, y - 1);
      FirstAtOrder(color, y - 1);
    }
  }

  /** Every column from 2 on is recorded within the phase, once the window is
      full. */
  lemma RecordedInPhase(color: int, x: int)
    requires color >= 958 && 2 <= x < IN_WIDTH
    ensures 3 * color / IN_WIDTH - 1 <= RecordedAt(color, x) < color
  {
    FirstAtOrder(color, x);
    FirstAtMonotone(color, x + 1, IN_WIDTH);
    if x >= 3 {
      FirstAtOrder(color, 2);
      FirstAtMonotone(color, 3, x);
    }
  }

  /** The last recorded column after `n` samples. */
  function LastColumn(color: int, n: int): int
    requires color > 0
  {
    if n < 3 * color / IN_WIDTH then -1 else ColumnAt(color, n - 1)
  }

  /** A sample records exactly the column whose turn it is. */
  lemma RecordsItsColumn(color: int, n: int, x: int)
    requires color >= 958 && 0 <= n < color && 2 <= x < IN_WIDTH
    ensures RecordedAt(color, x) == n <==>
              n + 1 >= 3 * color / IN_WIDTH && ColumnAt(color, n) == x && LastColumn(color, n) != x
  {
    var w := 3 * color / IN_WIDTH;
    FirstAtOrder(color, x);
    FirstAtOrder(color, 2);
    ColumnReached(color, n, x);
    ColumnReached(color, n, x + 1);
    ColumnReached(color, n - 1, x);
    ColumnReached(color, n - 1, x + 1);
    if x >= 3 {
      FirstAtMonotone(color, 3, x);
    }
  }

  lemma ColumnInRange(color: int, n: int)
    requires color >= 958 && 0 <= n < color
    ensures 0 <= ColumnAt(color, n) < IN_WIDTH
    ensures n + 1 >= 3 * color / IN_WIDTH ==> ColumnAt(color, n) >= 2
  {
    FirstAtOrder(color, 2);
    ColumnReached(color, n, 0);
    ColumnReached(color, n, 2);
    ColumnReached(color, n, IN_WIDTH);
  }

  // ----- the intensities of a colour phase

  /** The intensity of column `x`: that of the window of samples ending with the
      sample that records it; 0 for columns that are never recorded. */
  function Intensity(est: Estimator, m: seq<int>, color: int, x: int): int
    requires 958 <= color <= |m| && 0 <= x < IN_WIDTH
  {
    if x < 2 then 0 else
    RecordedInPhase(color, x);
    var n := RecordedAt(color, x) + 1;
    FreqToIntensity(est(m[n - 3 * color / IN_WIDTH..n]))
  }

  /** The cells of a channel after the first `n` samples of its phase. */
  function PhaseAccum(est: Estimator, m: seq<int>, color: int, n: int): (r: seq<int>)
    requires 958 <= color <= |m|
    ensures |r| == IN_WIDTH
  {
    seq(IN_WIDTH, x requires 0 <= x < IN_WIDTH =>
      if x >= 2 && RecordedAt(color, x) < n then Intensity(est, m, color, x) else 0)
  }

  function PhaseCount(color: int, n: int): (r: seq<int>)
    ensures |r| == IN_WIDTH
  {
    seq(IN_WIDTH, x requires 0 <= x < IN_WIDTH => if x >= 2 && RecordedAt(color, x) < n then 1 else 0)
  }

  /** The state after the sampling half of `n` steps of a colour phase that was
      entered in state `s`. */
  function Sampled(est: Estimator, s: State, m: seq<int>, n: int): (r: State)
    requires Ready(s) && IsColor(s.phase) && 0 <= n <= s.timing.color <= |m|
    ensures Shaped(r)
  {
    TimingReady(s);
    var c := Channel(s.phase);
    s.(lineSamples := s.lineSamples + n, recent := m[..n], lastPixel := LastColumn(s.timing.color, n),
       accum := s.accum[c := PhaseAccum(est, m, s.timing.color, n)],
       count := s.count[c := PhaseCount(s.timing.color, n)])
  }

  lemma PhaseCellsStep(est: Estimator, m: seq<int>, color: int, n: int)
    requires 958 <= color <= |m| && 0 <= n < color
    ensures var x := ColumnAt(color, n);
            var records := n + 1 >= 3 * color / IN_WIDTH && LastColumn(color, n) != x;
            && 0 <= x < IN_WIDTH
            && LastColumn(color, n + 1) == (if records then x else LastColumn(color, n))
            && (records ==>
                  && x >= 2
                  && PhaseAccum(est, m, color, n)[x] == PhaseCount(color, n)[x] == 0
                  && PhaseAccum(est, m, color, n + 1) == PhaseAccum(est, m, color, n)[x := Intensity(est, m, color, x)]
                  && PhaseCount(color, n + 1) == PhaseCount(color, n)[x := 1]
                  && RecordedAt(color, x) == n)
            && (!records ==>
                  && PhaseAccum(est, m, color, n + 1) == PhaseAccum(est, m, color, n)
                  && PhaseCount(color, n + 1) == PhaseCount(color, n))
  {
    ColumnInRange(color, n);
    forall y | 2 <= y < IN_WIDTH
      ensures RecordedAt(color, y) < n + 1 <==> RecordedAt(color, y) < n || RecordedAt(color, y) == n
      ensures RecordedAt(color, y) == n <==>
                n + 1 >= 3 * color / IN_WIDTH && ColumnAt(color, n) == y && LastColumn(color, n) != y
    {
      RecordsItsColumn(color, n, y);
    }
  }

  lemma AddToRow(cells: seq<seq<int>>, c: nat, row: seq<int>, x: int, v: int)
    requires Grid(cells) && c < 3 && |row| == IN_WIDTH && 0 <= x < IN_WIDTH
    ensures Grid(cells[c := row]) && Add(cells[c := row], c, x, v) == cells[c := row[x := row[x] + v]]
  {
  }

  /** In the middle of the phase: `n` samples taken, and one more line sample
      counted. */
  function Counted(est: Estimator, s: State, m: seq<int>, n: int): (r: State)
    requires Ready(s) && IsColor(s.phase) && 0 <= n < s.timing.color <= |m|
    ensures Shaped(r)
  {
    Sampled(est, s, m, n).(phaseSamples := n, lineSamples := s.lineSamples + n + 1)
  }

  lemma WindowOf(m: seq<int>, n: nat, w: nat)
    requires n < |m| && w <= n + 1
    ensures m[..n + 1] == m[..n] + [m[n]]
    ensures Last(m[..n] + [m[n]], w) == m[n + 1 - w..n + 1]
  {
    assert m[..n + 1] == m[..n] + [m[n]];
  }

  /** The cells and the pixel ring after a recording sample. */
  lemma RecordedState(est: Estimator, s: State, m: seq<int>, n: int, x: int, v: int)
    requires Ready(s) && IsColor(s.phase) && 0 <= n < s.timing.color <= |m| && s.timing.color >= 958
    requires 0 <= x < IN_WIDTH && LastColumn(s.timing.color, n + 1) == x
    requires PhaseAccum(est, m, s.timing.color, n)[x] == PhaseCount(s.timing.color, n)[x] == 0
    requires PhaseAccum(est, m, s.timing.color, n + 1) == PhaseAccum(est, m, s.timing.color, n)[x := v]
    requires PhaseCount(s.timing.color, n + 1) == PhaseCount(s.timing.color, n)[x := 1]
    ensures Recorded(Counted(est, s, m, n), m[n], x, v) == Sampled(est, s, m, n + 1).(phaseSamples := n)
  {
    WindowOf(m, n, 0);
    AddToRow(s.accum, Channel(s.phase), PhaseAccum(est, m, s.timing.color, n), x, v);
    AddToRow(s.count, Channel(s.phase), PhaseCount(s.timing.color, n), x, 1);
  }

  /** The intensity of a column is that of the window its sample completes. */
  lemma IntensityOfWindow(est: Estimator, m: seq<int>, color: int, n: nat, x: int)
    requires 958 <= color <= |m| && n < color && 2 <= x < IN_WIDTH
    requires RecordedAt(color, x) == n && n + 1 >= 3 * color / IN_WIDTH
    ensures Intensity(est, m, color, x) == FreqToIntensity(est(Last(m[..n] + [m[n]], 3 * color / IN_WIDTH)))
  {
    WindowOf(m, n, 3 * color / IN_WIDTH);
  }

  lemma RecordStep(est: Estimator, s: State, m: seq<int>, n: int)
    requires Ready(s) && IsColor(s.phase) && 0 <= n < s.timing.color <= |m|
    requires n + 1 >= s.timing.window && LastColumn(s.timing.color, n) != ColumnAt(s.timing.color, n)
    ensures TakeSample(est, Counted(est, s, m, n), m[n]) == Sampled(est, s, m, n + 1).(phaseSamples := n)
  {
    TimingReady(s);
    var color := s.timing.color;
    var x := ColumnAt(color, n);
    PhaseCellsStep(est, m, color, n);
    IntensityOfWindow(est, m, color, n, x);
    TakeSampleRecords(est, Counted(est, s, m, n), m[n], Intensity(est, m, color, x));
    RecordedState(est, s, m, n, x, Intensity(est, m, color, x));
  }

  lemma NoRecordStep(est: Estimator, s: State, m: seq<int>, n: int)
    requires Ready(s) && IsColor(s.phase) && 0 <= n < s.timing.color <= |m|
    requires !(n + 1 >= s.timing.window && LastColumn(s.timing.color, n) != ColumnAt(s.timing.color, n))
    ensures TakeSample(est, Counted(est, s, m, n), m[n]) == Sampled(est, s, m, n + 1).(phaseSamples := n)
  {
    TimingReady(s);
    PhaseCellsStep(est, m, s.timing.color, n);
    assert m[..n + 1] == m[..n] + [m[n]];
  }

  lemma SampleStep(est: Estimator, s: State, m: seq<int>, n: int)
    requires Ready(s) && IsColor(s.phase) && 0 <= n < s.timing.color <= |m|
    ensures TakeSample(est, Counted(est, s, m, n), m[n]) == Sampled(est, s, m, n + 1).(phaseSamples := n)
  {
    if n + 1 >= s.timing.window && LastColumn(s.timing.color, n) != ColumnAt(s.timing.color, n) {
      RecordStep(est, s, m, n);
    } else {
      NoRecordStep(est, s, m, n);
    }
  }

  lemma ColorStepIs(est: Estimator, s: State, mono: int, counted: State)
    requires Shaped(s) && IsColor(s.phase) && counted == s.(lineSamples := s.lineSamples + 1)
    ensures Step(est, s, mono) == AdvanceColor(TakeSample(est, counted, mono))
  {
  }

  /** One sample of a colour phase. */
  lemma ColorStep(est: Estimator, s: State, m: seq<int>, n: int)
    requires Ready(s) && IsColor(s.phase) && 0 <= n < s.timing.color <= |m|
    ensures Step(est, Sampled(est, s, m, n).(phaseSamples := n), m[n])
         == AdvanceColor(Sampled(est, s, m, n + 1).(phaseSamples := n))
  {
    SampleStep(est, s, m, n);
    ColorStepIs(est, Sampled(est, s, m, n).(phaseSamples := n), m[n], Counted(est, s, m, n));
  }

  /** A colour phase about to begin. */
  ghost predicate PhaseStart(s: State) {
    && Ready(s) && IsColor(s.phase) && s.phaseSamples == 0
    && s.recent == [] && s.lastPixel == -1
    && s.accum[Channel(s.phase)] == seq(IN_WIDTH, _ => 0)
    && s.count[Channel(s.phase)] == seq(IN_WIDTH, _ => 0)
  }

  lemma SampledStart(est: Estimator, s: State, m: seq<int>)
    requires PhaseStart(s) && s.timing.color <= |m|
    ensures Sampled(est, s, m, 0) == s
  {
    TimingReady(s);
    var color := s.timing.color;
    forall x | 2 <= x < IN_WIDTH
      ensures RecordedAt(color, x) >= 0
    {
      RecordedInPhase(color, x);
    }
    assert PhaseAccum(est, m, color, 0) == seq(IN_WIDTH, _ => 0);
    assert PhaseCount(color, 0) == seq(IN_WIDTH, _ => 0);
  }

  lemma {:induction false} WithinPhase(est: Estimator, s: State, m: seq<int>, n: int)
    requires PhaseStart(s) && 0 <= n < s.timing.color <= |m|
    ensures Run(est, s, TickAll(m[..n])) == Sampled(est, s, m, n).(phaseSamples := n)
  {
    if n == 0 {
      SampledStart(est, s, m);
    } else {
      WithinPhase(est, s, m, n - 1);
      ColorStep(est, s, m, n - 1);
      RunOneMore(est, s, m[..n]);
      assert m[..n][..n - 1] == m[..n - 1];
    }
  }

  /** A whole colour phase from its first sample: columns 2 to 319 hold the
      intensity of their window, once each, columns 0 and 1 nothing. */
  lemma ColorPhase(est: Estimator, s: State, m: seq<int>)
    requires PhaseStart(s) && |m| == s.timing.color
    ensures Run(est, s, TickAll(m)) == AdvanceColor(Sampled(est, s, m, |m|).(phaseSamples := |m| - 1))
  {
    var n := |m| - 1;
    WithinPhase(est, s, m, n);
    ColorStep(est, s, m, n);
    RunOneMore(est, s, m);
  }

  lemma FullPhase(est: Estimator, m: seq<int>, x: int)
    requires 958 <= |m| && 0 <= x < IN_WIDTH
    ensures PhaseCount(|m|, |m|)[x] == if x >= 2 then 1 else 0
    ensures PhaseAccum(est, m, |m|, |m|)[x] == Intensity(est, m, |m|, x)
  {
    if x >= 2 {
      RecordedInPhase(|m|, x);
    }
  }
}
