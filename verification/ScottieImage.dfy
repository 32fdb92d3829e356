/** The picture of a frame that no pulse resynchronises, as a function of its
    samples. */
module ScottieImage {
  import opened ScottieModel
  import opened ScottieRuns
  import opened ScottieFrame
  import opened ScottieQuiet
  import opened ScottiePicture
  import opened ScottieLine

  // ----- where lines begin

  /** The samples left say where the frame is: a whole number of lines are left
      only at the start of a line. */
  lemma LineStart(u: State, k: nat)
    requires Placed(u) && k < LINE_COUNT - 1
    requires Remaining(u.timing, u) == LinesLeft(u.timing, LINE_COUNT - 1 - k)
    ensures u.phase == Porch1 && u.phaseSamples == 0 && u.lineIndex == k + 1
  {
    TimingReady(u);
    RemainingPositive(u, u.timing);
    var n := u.timing.LineLength();
    LinesSplit(u.timing, k);
    WithinOneLine(u);
    SameLine(LINE_COUNT - 1 - u.lineIndex, LINE_COUNT - 1 - k, n,
             InPhase(u.timing, u.phase, u.phaseSamples) + AfterPhase(u.timing, u.phase));
  }

  lemma SameLine(a: int, b: int, n: int, rest: int)
    requires rest + a * n == b * n && 1 <= rest <= n
    ensures a == b - 1 && rest == n
  {
    ProductSplit(b, a, n);
    Multiples(b - a, n);
  }

  lemma WithinOneLine(u: State)
    requires Placed(u) && u.phase != Idle
    ensures var rest := InPhase(u.timing, u.phase, u.phaseSamples) + AfterPhase(u.timing, u.phase);
            1 <= rest <= u.timing.LineLength()
            && (rest == u.timing.LineLength() ==> u.phase == Porch1 && u.phaseSamples == 0)
  {
    TimingReady(u);
  }

  lemma Multiples(d: int, n: int)
    requires n >= 1
    ensures d <= 0 ==> d * n <= 0
    ensures d >= 2 ==> d * n >= 2 * n
  {
  }

  lemma BlankAtLineStart(u: State)
    requires Invariant(u) && u.phase == Porch1
    ensures u.accum == Blank() && u.count == Blank()
  {
    forall c, x | 0 <= c < 3 && 0 <= x < IN_WIDTH
      ensures u.count[c][x] == 0 && u.accum[c][x] == 0
    {
    }
    assert forall c :: 0 <= c < 3 ==> u.count[c] == Blank()[c];
    assert forall c :: 0 <= c < 3 ==> u.accum[c] == Blank()[c];
  }

  /** How many samples of the frame come before line `k + 1`. */
  function SamplesBefore(s: State, k: nat): int {
    FirstLine(s.timing, s.offset) + k * s.timing.LineLength()
  }

  /** The state at the start of line `k + 1`. */
  lemma AtLineStart(est: Estimator, s: State, m: seq<int>, k: nat) returns (u: State)
    requires Ready(s) && k < LINE_COUNT - 1 && |m| == SamplesBefore(s, k)
    ensures Ready(OnSync(s, false)) && u == Run(est, OnSync(s, false), TickAll(m))
    ensures Invariant(u) && u.timing == s.timing && u.lineIndex == k + 1
    ensures At(u, u, Porch1, Blank(), Blank())
  {
    StartInvariant(s);
    TimingReady(s);
    var first := OnSync(s, false);
    u := Run(est, first, TickAll(m));
    StartRemaining(s, s.timing);
    TicksRemaining(est, first, m);
    RunInvariant(est, first, TickAll(m));
    LinesSplit(s.timing, k);
    LineStart(u, k);
    BlankAtLineStart(u);
  }

  lemma LinesSplit(t: Timing, k: nat)
    requires k < LINE_COUNT - 1 && t.LineLength() >= 1
    ensures (LINE_COUNT - 1) * t.LineLength() == k * t.LineLength() + LinesLeft(t, LINE_COUNT - 1 - k)
    ensures LinesLeft(t, LINE_COUNT - 1 - k) >= 1
  {
    ProductSplit(LINE_COUNT - 1, k, t.LineLength());
  }

  lemma ProductSplit(lines: int, k: int, n: int)
    ensures lines * n == k * n + (lines - k) * n
    ensures 0 <= k && 0 <= n ==> k * n >= 0
    ensures k < lines && 0 <= n ==> (lines - k) * n >= n
  {
    Distribute(lines, k, n);
    NonNegative(k, n);
    NonNegative(lines - k - 1, n);
    Distribute(lines - k, lines - k - 1, n);
  }

  lemma Distribute(a: int, b: int, n: int)
    ensures a * n == b * n + (a - b) * n
  {
  }

  lemma NonNegative(a: int, n: int)
    ensures 0 <= a && 0 <= n ==> a * n >= 0
  {
  }

  // ----- rows stay as painted

  lemma {:induction false} LogGrows(est: Estimator, s: State, events: seq<Event>, n: nat)
    requires Ready(s) && n <= |events|
    ensures Log(est, s, events[..n]) <= Log(est, s, events)
  {
    if n == |events| {
      assert events[..n] == events;
    } else {
      LogGrows(est, s, events[..|events| - 1], n);
      assert events[..|events| - 1][..n] == events[..n];
    }
  }

  /** A row that has been painted is still there at the end. */
  lemma RowKept(est: Estimator, s: State, m: seq<int>, n: nat, y: nat)
    requires Invariant(s) && Painting(s, []) && n <= |m|
    requires y < RowsDone(Run(est, s, TickAll(m[..n])).lineIndex)
    ensures y < OUT_HEIGHT
    ensures Run(est, s, TickAll(m)).image[y] == Run(est, s, TickAll(m[..n])).image[y]
  {
    RunPaints(est, s, TickAll(m));
    RunPaints(est, s, TickAll(m[..n]));
    assert TickAll(m)[..n] == TickAll(m[..n]);
    LogGrows(est, s, TickAll(m), n);
  }

  lemma StartPainting(s: State)
    requires Ready(s)
    ensures Invariant(OnSync(s, false)) && Painting(OnSync(s, false), [])
  {
    StartInvariant(s);
  }

  lemma RowLine(y: int)
    requires 1 <= y < OUT_HEIGHT
    ensures 2 <= SourceLine(y) < LINE_COUNT
    ensures OutY(SourceLine(y)) == y && OutY(SourceLine(y) - 1) == y - 1
    ensures RowsDone(SourceLine(y) + 1) == y + 1
  {
  }

  // ----- the picture

  lemma RowPainted(est: Estimator, s: State, m: seq<int>, y: nat, a: int, b: int)
    requires Ready(s) && Long(s.timing) && 1 <= y < OUT_HEIGHT
    requires a == SamplesBefore(s, SourceLine(y) - 1) && b == a + s.timing.LineLength() && 0 <= a && b <= |m|
    ensures Ready(OnSync(s, false))
    ensures var v := Run(est, OnSync(s, false), TickAll(m[..b]));
            && v.lineIndex == SourceLine(y) + 1
            && v.image[y] == LineRow(est, s.timing, m[a..b])
  {
    RowLine(y);
    var u := AtLineStart(est, s, m[..a], SourceLine(y) - 1);
    RunFurther(est, OnSync(s, false), m, a, b);
    WholeLine(est, u, m[a..b]);
  }

  /** The samples of a row's line lie inside the frame. */
  lemma RowInFrame(s: State, y: nat)
    requires Ready(s) && 1 <= y < OUT_HEIGHT
    ensures Long(s.timing)
    ensures var a := SamplesBefore(s, SourceLine(y) - 1);
            0 <= a && a + s.timing.LineLength() <= FrameLength(s)
  {
    TimingReady(s);
    RowLine(y);
    ProductSplit(LINE_COUNT - 1, SourceLine(y) - 1, s.timing.LineLength());
  }

  /** The samples of the line that row `y` shows, line ceil(4y / 3), of a frame
      that `m` is played into. */
  function RowSamples(s: State, m: seq<int>, y: nat): (row: seq<int>)
    requires Ready(s) && 1 <= y < OUT_HEIGHT && |m| >= FrameLength(s)
    ensures Long(s.timing) && |row| == s.timing.LineLength()
  {
    RowInFrame(s, y);
    var a := SamplesBefore(s, SourceLine(y) - 1);
    m[a..a + s.timing.LineLength()]
  }

  lemma TickPicture(est: Estimator, s: State, m: seq<int>, y: nat)
    requires Ready(s) && Ready(OnSync(s, false)) && 1 <= y < OUT_HEIGHT && |m| >= FrameLength(s)
    ensures Run(est, OnSync(s, false), TickAll(m)).image[y] == LineRow(est, s.timing, RowSamples(s, m, y))
  {
    RowInFrame(s, y);
    var a := SamplesBefore(s, SourceLine(y) - 1);
    var b := a + s.timing.LineLength();
    RowPainted(est, s, m, y, a, b);
    StartPainting(s);
    RowKept(est, OnSync(s, false), m, b, y);
  }

  /** When no pulse resynchronises it, the picture is a function of the samples:
      output row y, for every y but the first, shows line ceil(4y / 3), which is
      decoded from its own samples only, at a fixed place in the recording. */
  lemma FramePicture(est: Estimator, s: State, events: seq<Event>, m: seq<int>, y: nat)
    requires Ready(s) && Ready(OnSync(s, false)) && Quiet(est, OnSync(s, false), events)
    requires m == Samples(events) && |m| >= FrameLength(s) && 1 <= y < OUT_HEIGHT
    ensures Run(est, OnSync(s, false), events).frameDone
    ensures Run(est, OnSync(s, false), events).image[y] == LineRow(est, s.timing, RowSamples(s, m, y))
  {
    TickPicture(est, s, m, y);
    QuietIsTicks(est, OnSync(s, false), events);
    ExactFrameLength(est, s, events);
  }

  /** Every pixel of a row is the intensity of its own window of samples; columns
      0 and 1 of the source, and so output columns 0 and 1, stay black. */
  lemma LinePixels(est: Estimator, t: Timing, m: seq<int>, x: nat)
    requires Long(t) && |m| == t.LineLength() && x < OUT_IMAGE_WIDTH
    ensures 0 <= InColumn(x) < IN_WIDTH
    ensures LineRow(est, t, m)[PAD_X + x] ==
              Rgb(Intensity(est, PhaseAt(t, m, BeginsAt(t, Red)), t.color, InColumn(x)),
                  Intensity(est, PhaseAt(t, m, BeginsAt(t, Green)), t.color, InColumn(x)),
                  Intensity(est, PhaseAt(t, m, BeginsAt(t, Blue)), t.color, InColumn(x)))
  {
    FullPhase(est, PhaseAt(t, m, BeginsAt(t, Red)), InColumn(x));
    FullPhase(est, PhaseAt(t, m, BeginsAt(t, Green)), InColumn(x));
    FullPhase(est, PhaseAt(t, m, BeginsAt(t, Blue)), InColumn(x));
  }

  // ----- the first row

  lemma PorchToRed(est: Estimator, u: State, m: seq<int>)
    requires Ready(u) && u.phase == Porch3 && m != [] && u.phaseSamples + |m| == u.timing.porch
    requires u.accum == Blank() && u.count == Blank()
    ensures var v := Run(est, u, TickAll(m));
            && At(v, v, Red, Blank(), Blank())
            && v.timing == u.timing && v.lineIndex == u.lineIndex && v.lastOutputY == u.lastOutputY
  {
    WaitRest(est, u, m, Run(est, u, TickAll(m)));
  }

  lemma SyncToRed(est: Estimator, u: State, m: seq<int>)
    requires Ready(u) && u.phase == Sync && u.phaseSamples < u.timing.sync
    requires u.phaseSamples + |m| == u.timing.sync + u.timing.porch && u.accum == Blank() && u.count == Blank()
    ensures var v := Run(est, u, TickAll(m));
            && At(v, v, Red, Blank(), Blank())
            && v.timing == u.timing && v.lineIndex == u.lineIndex && v.lastOutputY == u.lastOutputY
  {
    TimingReady(u);
    var k := u.timing.sync - u.phaseSamples;
    WaitRest(est, u, m[..k], Run(est, u, TickAll(m[..k])));
    PorchToRed(est, Run(est, u, TickAll(m[..k])), m[k..]);
    RunFurther(est, u, m, k, |m|);
    assert m[..|m|] == m && m[k..|m|] == m[k..];
  }

  /** The Red phase of the line a frame begins in, when it is still to come. */
  lemma FirstRed(est: Estimator, s: State, m: seq<int>)
    requires Ready(s) && s.offset < s.timing.sync + s.timing.porch
    requires |m| == s.timing.sync + s.timing.porch - s.offset
    ensures Ready(OnSync(s, false))
    ensures var u := Run(est, OnSync(s, false), TickAll(m));
            At(u, u, Red, Blank(), Blank()) && u.timing == s.timing && u.lineIndex == 0 && u.lastOutputY == -1
  {
    StartInvariant(s);
    TimingReady(s);
    if s.offset < s.timing.sync {
      SyncToRed(est, OnSync(s, false), m);
    } else {
      PorchToRed(est, OnSync(s, false), m);
    }
  }

  /** The first row of an undisturbed frame: red only, from the samples of the
      first Red phase. */
  function FirstRow(est: Estimator, red: seq<int>): (row: seq<Rgb>)
    requires |red| >= 958
    ensures |row| == OUT_WIDTH
  {
    var n := |red|;
    RenderRow(Blank()[2 := PhaseAccum(est, red, n, n)], Blank()[2 := PhaseCount(n, n)])
  }

  lemma FirstRowPixel(est: Estimator, red: seq<int>, x: nat)
    requires |red| >= 958 && x < OUT_IMAGE_WIDTH
    ensures 0 <= InColumn(x) < IN_WIDTH
    ensures FirstRow(est, red)[PAD_X + x] == Rgb(Intensity(est, red, |red|, InColumn(x)), 0, 0)
  {
    FullPhase(est, red, InColumn(x));
  }

  lemma FirstRowPainted(est: Estimator, s: State, m: seq<int>, a: int, b: int)
    requires Ready(s) && s.offset < s.timing.sync + s.timing.porch && s.timing.color >= 958
    requires a == s.timing.sync + s.timing.porch - s.offset && b == a + s.timing.color <= |m|
    ensures Ready(OnSync(s, false))
    ensures var v := Run(est, OnSync(s, false), TickAll(m[..b]));
            v.lineIndex == 1 && v.image[0] == FirstRow(est, m[a..b])
  {
    FirstRed(est, s, m[..a]);
    var u := Run(est, OnSync(s, false), TickAll(m[..a]));
    RunFurther(est, OnSync(s, false), m, a, b);
    RedPhase(est, u, u, m[a..b], Blank(), Blank());
  }

  lemma TickFirstRow(est: Estimator, s: State, m: seq<int>, a: int, b: int)
    requires Ready(s) && s.offset < s.timing.sync + s.timing.porch && s.timing.color >= 958
    requires a == s.timing.sync + s.timing.porch - s.offset && b == a + s.timing.color <= |m|
    ensures Ready(OnSync(s, false))
    ensures Run(est, OnSync(s, false), TickAll(m)).image[0] == FirstRow(est, m[a..b])
  {
    FirstRowPainted(est, s, m, a, b);
    StartPainting(s);
    RowKept(est, OnSync(s, false), m, b, 0);
  }

  /** Row 0, when the phase offset leaves the whole first Red phase to come: its
      red channel shows the samples of that phase. */
  lemma FirstRowPicture(est: Estimator, s: State, events: seq<Event>, a: int, b: int)
    requires Ready(s) && Ready(OnSync(s, false)) && Quiet(est, OnSync(s, false), events)
    requires s.offset < s.timing.sync + s.timing.porch
    requires a == s.timing.sync + s.timing.porch - s.offset && b == a + s.timing.color <= Ticks(events)
    ensures s.timing.color >= 958
    ensures Run(est, OnSync(s, false), events).image[0] == FirstRow(est, Samples(events)[a..b])
  {
    TimingReady(s);
    TickFirstRow(est, s, Samples(events), a, b);
    QuietIsTicks(est, OnSync(s, false), events);
  }
}
