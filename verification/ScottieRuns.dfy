/** What the Scottie-1 machine keeps under every interleaving of samples and sync
    pulses. */
module ScottieRuns {
  import opened Division
  import opened RingWindow
  import opened ScottieModel

  /** A state the program can be in: lengths that belong to a scale in range. */
  ghost predicate Ready(s: State) {
    && Shaped(s)
    && MIN_SCALE <= s.scale <= MAX_SCALE
    && s.timing == TimingAt(s.scale)
    && s.offset >= 0
  }

  lemma TimingReady(s: State)
    requires Ready(s)
    ensures s.timing.porch >= 63 && s.timing.sync >= 376 && 5791 <= s.timing.color <= 6401
    ensures s.timing.window == 3 * s.timing.color / IN_WIDTH
  {
    PositiveTiming(s.scale);
  }

  lemma ApplyScaleReady(s: State)
    requires Grid(s.accum) && Grid(s.count) && |s.image| == OUT_HEIGHT && s.phaseSamples >= 0 && s.lineIndex >= 0
    requires MIN_SCALE <= s.scale <= MAX_SCALE && s.offset >= 0
    ensures Ready(ApplyScale(s))
  {
    PositiveTiming(s.scale);
  }

  /** The decoder before reception: fresh, with the phase offset found, and the
      scale of the line length found, clamped to its range. */
  function SetUp(ratio: real, offset: int): State {
    ApplyScale(Start().(scale := ClampScale(ratio), offset := offset))
  }

  /** So every reception begins ready, whatever line length was found. */
  lemma SetUpReady(ratio: real, offset: int)
    requires offset >= 0
    ensures Ready(SetUp(ratio, offset)) && Ready(Start().(offset := offset))
    ensures SetUp(ratio, offset).phase == Idle && SetUp(ratio, offset).offset == offset
  {
    PositiveTiming(1.0);
    ApplyScaleReady(Start().(scale := ClampScale(ratio), offset := offset));
  }

  lemma AdaptReady(s: State)
    requires Ready(s)
    ensures Ready(Adapt(s))
    ensures Adapt(s) == s.(scale := Adapt(s).scale, timing := Adapt(s).timing,
                           recent := Adapt(s).recent, lastPixel := Adapt(s).lastPixel)
    ensures Adapt(s).lastPixel == s.lastPixel || Adapt(s).lastPixel == -1
  {
    var a := s.lineSamples - s.offset;
    var adjusted := if a < 1 then 1 else a;
    var ratio := ClampScale(EXPECTED as real / adjusted as real);
    var scale := s.scale * 0.98 + ratio * 0.02;
    assert MIN_SCALE <= scale <= MAX_SCALE;
    ApplyScaleReady(s.(scale := scale));
  }

  lemma ResyncReady(s: State)
    requires Ready(s)
    ensures Ready(Resync(s))
  {
    AdaptReady(s);
    PositiveTiming(Adapt(s).scale);
  }

  /** Starting a frame from any state with a scale in range. */
  lemma StartReady(s: State)
    requires Ready(s)
    ensures Ready(OnSync(s, false))
  {
    ApplyScaleReady(s.(lineIndex := 0, phase := Porch1, phaseSamples := 0, lineSamples := 0));
    PositiveTiming(s.scale);
  }

  lemma ApplyReady(est: Estimator, s: State, e: Event)
    requires Ready(s)
    ensures Ready(Apply(est, s, e))
  {
    match e
    case Tick(mono) =>
    case Pulse => ResyncReady(s);
  }

  /** The state after a sequence of events. */
  function Run(est: Estimator, s: State, events: seq<Event>): (r: State)
    requires Ready(s)
    ensures Ready(r)
  {
    if events == [] then s else
    var before := Run(est, s, events[..|events| - 1]);
    ApplyReady(est, before, events[|events| - 1]);
    Apply(est, before, events[|events| - 1])
  }

  lemma RunAppendEvent(est: Estimator, s: State, events: seq<Event>, e: Event)
    requires Ready(s)
    ensures Run(est, s, events + [e]) == Apply(est, Run(est, s, events), e)
  {
    assert (events + [e])[..|events|] == events;
  }

  /** Runs compose. */
  lemma {:induction false} RunConcat(est: Estimator, s: State, a: seq<Event>, b: seq<Event>)
    requires Ready(s)
    ensures Run(est, s, a + b) == Run(est, Run(est, s, a), b)
  {
    if b == [] {
      assert a + b == a;
    } else {
      var n := |b| - 1;
      assert (a + b)[..|a + b| - 1] == a + b[..n];
      RunConcat(est, s, a, b[..n]);
    }
  }

  // ----- what every run keeps

  /** From which phase on a channel may hold pixels of the current line. */
  function Entered(c: nat): nat {
    if c == 0 then 1 else if c == 1 then 3 else 6
  }

  function Rank(p: Phase): nat {
    match p
    case Idle => 0
    case Porch1 => 0
    case Green => 1
    case Porch2 => 2
    case Blue => 3
    case Sync => 4
    case Porch3 => 5
    case Red => 6
  }

  /** At most one intensity is in every cell. */
  ghost predicate OnePixelPerCell(s: State)
    requires Shaped(s)
  {
    forall c, x :: 0 <= c < 3 && 0 <= x < IN_WIDTH ==>
      0 <= s.count[c][x] <= 1 && 0 <= s.accum[c][x] <= 255 * s.count[c][x]
  }

  /** Channels of later phases are still empty. */
  ghost predicate LaterEmpty(s: State)
    requires Shaped(s)
  {
    forall c, x :: 0 <= c < 3 && 0 <= x < IN_WIDTH && Rank(s.phase) < Entered(c) ==> s.count[c][x] == 0
  }

  /** Within a colour phase no column beyond the last recorded one is filled, and
      the last recorded one is not beyond the samples taken. */
  ghost predicate ColumnsInOrder(s: State)
    requires Shaped(s)
  {
    IsColor(s.phase) ==>
      && -1 <= s.lastPixel < IN_WIDTH
      && (s.lastPixel >= 0 ==> s.lastPixel * s.timing.color <= (s.phaseSamples - 1) * IN_WIDTH)
      && forall x :: s.lastPixel < x < IN_WIDTH ==> s.count[Channel(s.phase)][x] == 0
  }

  /** The first two columns of every channel are never filled: the pixel window
      is three columns long, and holds samples of the current phase only. */
  ghost predicate EdgesEmpty(s: State)
    requires Shaped(s)
  {
    && (forall c :: 0 <= c < 3 ==> s.count[c][0] == 0 && s.count[c][1] == 0)
    && (IsColor(s.phase) ==> |s.recent| <= s.phaseSamples)
  }

  ghost predicate Cells(s: State)
    requires Shaped(s)
  {
    OnePixelPerCell(s) && LaterEmpty(s) && ColumnsInOrder(s) && EdgesEmpty(s)
  }

  /** Of the cells, what does not depend on where in a phase the decoder is. */
  ghost predicate Filled(s: State)
    requires Shaped(s)
  {
    && OnePixelPerCell(s) && LaterEmpty(s)
    && forall c :: 0 <= c < 3 ==> s.count[c][0] == 0 && s.count[c][1] == 0
  }

  lemma PixelMonotone(s: State)
    requires Shaped(s)
    requires s.lastPixel >= 0 ==> s.lastPixel * s.timing.color <= (s.phaseSamples - 1) * IN_WIDTH
    ensures Pixel(s) >= 0 && s.lastPixel <= Pixel(s)
    ensures Pixel(s) * s.timing.color <= s.phaseSamples * IN_WIDTH
  {
    var n, d := s.phaseSamples * IN_WIDTH, s.timing.color;
    FloorDiv(n, d, 0);
    FloorDiv(n, d, s.lastPixel);
    FloorDiv(n, d, n / d);
  }

  /** A full window means that the phase has reached column 2. */
  lemma FullWindowPastEdges(s: State)
    requires Ready(s) && |s.recent| <= s.phaseSamples && |s.recent| + 1 >= s.timing.window
    ensures Pixel(s) >= 2
  {
    TimingReady(s);
    FloorDiv(s.phaseSamples * IN_WIDTH, s.timing.color, 2);
  }

  lemma TakeSampleEdges(est: Estimator, s: State, mono: int)
    requires Ready(s) && EdgesEmpty(s) && IsColor(s.phase)
    ensures var t := TakeSample(est, s, mono);
            && (forall c :: 0 <= c < 3 ==> t.count[c][0] == 0 && t.count[c][1] == 0)
            && |t.recent| <= t.phaseSamples + 1
  {
    if |s.recent| + 1 >= s.timing.window {
      FullWindowPastEdges(s);
    }
  }

  /** Recording the next column keeps the cells in order. */
  lemma RecordedCells(s: State, mono: int, x: int, v: int)
    requires Shaped(s) && Cells(s) && IsColor(s.phase) && s.lastPixel < x < IN_WIDTH && 0 <= x && 0 <= v <= 255
    ensures var t := Recorded(s, mono, x, v);
            && OnePixelPerCell(t) && LaterEmpty(t)
            && forall y :: x < y < IN_WIDTH ==> t.count[Channel(s.phase)][y] == 0
  {
  }

  lemma TakeSampleCells(est: Estimator, s: State, mono: int)
    requires Ready(s) && Cells(s) && IsColor(s.phase)
    ensures var t := TakeSample(est, s, mono);
            && Shaped(t) && OnePixelPerCell(t) && LaterEmpty(t)
            && -1 <= t.lastPixel < IN_WIDTH
            && (t.lastPixel >= 0 ==> t.lastPixel * t.timing.color <= t.phaseSamples * IN_WIDTH)
            && forall x :: t.lastPixel < x < IN_WIDTH ==> t.count[Channel(t.phase)][x] == 0
  {
    PixelMonotone(s);
    if Pixel(s) < IN_WIDTH && Pixel(s) != s.lastPixel && |s.recent| + 1 >= s.timing.window {
      var v := FreqToIntensity(est(Last(s.recent + [mono], s.timing.window)));
      TakeSampleRecords(est, s, mono, v);
      RecordedCells(s, mono, Pixel(s), v);
    }
  }

  lemma BlankCells(s: State)
    requires Shaped(s) && s.accum == Blank() && s.count == Blank()
    ensures Filled(s)
  {
  }

  lemma AdvanceColorCells(s: State)
    requires Shaped(s) && Filled(s) && IsColor(s.phase)
    requires -1 <= s.lastPixel < IN_WIDTH
    requires s.lastPixel >= 0 ==> s.lastPixel * s.timing.color <= s.phaseSamples * IN_WIDTH
    requires forall x :: s.lastPixel < x < IN_WIDTH ==> s.count[Channel(s.phase)][x] == 0
    requires |s.recent| <= s.phaseSamples + 1
    ensures Cells(AdvanceColor(s))
  {
    var t := AdvanceColor(s);
    if s.phaseSamples + 1 >= s.timing.color && s.phase == Red {
      BlankCells(t);
    }
  }

  lemma WaitCells(s: State, len: int, next: Phase)
    requires Ready(s) && Cells(s)
    requires s.phase in {Porch1, Porch2, Sync, Porch3} && next == NextPhase(s.phase)
    ensures Cells(Wait(s, len, next))
  {
  }

  lemma StepColorCells(est: Estimator, s: State, mono: int)
    requires Ready(s) && Cells(s) && IsColor(s.phase)
    ensures Cells(StepColor(est, s, mono))
  {
    TakeSampleCells(est, s, mono);
    TakeSampleEdges(est, s, mono);
    AdvanceColorCells(TakeSample(est, s, mono));
  }

  lemma LineSamplesIrrelevant(s: State, n: int)
    requires Ready(s) && Cells(s)
    ensures Ready(s.(lineSamples := n)) && Cells(s.(lineSamples := n))
  {
  }

  lemma WaitStepCells(est: Estimator, s: State, mono: int)
    requires Ready(s) && Cells(s) && s.phase in {Porch1, Porch2, Sync, Porch3}
    ensures Cells(Step(est, s, mono))
  {
    var t := s.(lineSamples := s.lineSamples + 1);
    var next := NextPhase(s.phase);
    LineSamplesIrrelevant(s, s.lineSamples + 1);
    WaitCells(t, PhaseLength(t.timing, t.phase), next);
    assert Step(est, s, mono) == Wait(t, PhaseLength(t.timing, t.phase), next);
  }

  lemma StepCells(est: Estimator, s: State, mono: int)
    requires Ready(s) && Cells(s)
    ensures Cells(Step(est, s, mono))
  {
    if IsColor(s.phase) {
      var t := s.(lineSamples := s.lineSamples + 1);
      LineSamplesIrrelevant(s, s.lineSamples + 1);
      StepColorCells(est, t, mono);
      assert Step(est, s, mono) == StepColor(est, t, mono);
    } else if s.phase != Idle {
      WaitStepCells(est, s, mono);
    }
  }

  lemma AdaptCells(s: State)
    requires Ready(s) && Cells(s)
    ensures Ready(Adapt(s)) && Filled(Adapt(s)) && Adapt(s).phase == s.phase
  {
    AdaptReady(s);
  }

  /** Red is entered with an empty channel, an empty ring and no column taken. */
  lemma JumpCells(s: State)
    requires Ready(s) && Filled(s) && s.phase == Blue
    ensures Shaped(JumpToSync(s)) && Cells(JumpToSync(s))
  {
    TimingReady(s);
  }

  lemma ResyncCells(s: State)
    requires Ready(s) && Cells(s)
    ensures Shaped(Resync(s)) && Cells(Resync(s))
  {
    if SyncCounts(s) {
      var t := Adapt(s).(lineSamples := 0);
      AdaptCells(s);
      JumpCells(t);
      assert Resync(s) == JumpToSync(t);
    }
  }

  lemma StartCells(s: State)
    requires Ready(s)
    ensures Shaped(OnSync(s, false)) && Cells(OnSync(s, false))
  {
    StartReady(s);
    BlankCells(OnSync(s, false));
  }

  /** Where the frame is: the phase, the line and the last painted row. */
  ghost predicate Placed(s: State) {
    && Ready(s)
    && (s.frameDone <==> s.phase == Idle)
    && (s.phase == Idle <==> s.lineIndex == LINE_COUNT)
    && s.lineIndex <= LINE_COUNT
    && s.phaseSamples <= PhaseLength(s.timing, s.phase)
    && (s.phase == Idle || s.phase == Red || s.phaseSamples < PhaseLength(s.timing, s.phase))
    && s.lastOutputY == (if s.lineIndex == 0 then -1 else OutY(s.lineIndex - 1))
  }

  /** Everything a frame keeps between two events. */
  ghost predicate Invariant(s: State) {
    Placed(s) && Cells(s)
  }

  lemma FinishLinePlaced(s: State)
    requires Placed(s) && s.phase == Red
    ensures Placed(FinishLine(s))
  {
    TimingReady(s);
  }

  lemma WaitPlaced(s: State)
    requires Placed(s) && s.phase in {Porch1, Porch2, Sync, Porch3}
    ensures Placed(Wait(s, PhaseLength(s.timing, s.phase), NextPhase(s.phase)))
  {
    TimingReady(s);
  }

  lemma AdvanceColorPlaced(s: State)
    requires Placed(s) && IsColor(s.phase)
    ensures Placed(AdvanceColor(s))
  {
    TimingReady(s);
    if s.phase == Red {
      FinishLinePlaced(s);
    }
  }

  lemma StepPlaced(est: Estimator, s: State, mono: int)
    requires Placed(s)
    ensures Placed(Step(est, s, mono))
  {
    var t := s.(lineSamples := s.lineSamples + 1);
    if IsColor(s.phase) {
      AdvanceColorPlaced(TakeSample(est, t, mono));
      assert Step(est, s, mono) == StepColor(est, t, mono);
    } else if s.phase != Idle {
      WaitPlaced(t);
      assert Step(est, s, mono) == Wait(t, PhaseLength(t.timing, t.phase), NextPhase(t.phase));
    }
  }

  lemma StepInvariant(est: Estimator, s: State, mono: int)
    requires Invariant(s)
    ensures Invariant(Step(est, s, mono))
  {
    StepCells(est, s, mono);
    StepPlaced(est, s, mono);
  }

  lemma ResyncInvariant(s: State)
    requires Invariant(s)
    ensures Invariant(Resync(s))
  {
    ResyncCells(s);
    ResyncReady(s);
    AdaptReady(s);
    TimingReady(s);
    PositiveTiming(Adapt(s).scale);
  }

  /** A frame begins inside the invariant, whatever state it is begun from. */
  lemma StartInvariant(s: State)
    requires Ready(s)
    ensures Invariant(OnSync(s, false))
  {
    StartReady(s);
    StartCells(s);
    PositiveTiming(s.scale);
  }

  /** Under every interleaving of samples and sync pulses: every cell holds at
      most one intensity in 0..255, later channels are still empty, columns 0
      and 1 are never filled, the decoder is idle exactly when the frame is done,
      and the last painted row is the one of the last finished line. */
  lemma {:induction false} RunInvariant(est: Estimator, s: State, events: seq<Event>)
    requires Invariant(s)
    ensures Invariant(Run(est, s, events))
  {
    if events != [] {
      var before := Run(est, s, events[..|events| - 1]);
      RunInvariant(est, s, events[..|events| - 1]);
      match events[|events| - 1]
      case Tick(mono) => StepInvariant(est, before, mono);
      case Pulse => ResyncInvariant(before);
    }
  }

  /** The pixels a line is rendered from are intensities. */
  lemma RenderedInRange(s: State, x: nat)
    requires Invariant(s) && x < OUT_IMAGE_WIDTH
    ensures var p := RenderRow(s.accum, s.count)[PAD_X + x];
            0 <= p.r <= 255 && 0 <= p.g <= 255 && 0 <= p.b <= 255
    ensures 0 <= InColumn(x) < IN_WIDTH
  {
  }
}
