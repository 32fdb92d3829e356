/** How long a frame takes, and which output rows it paints. */
module ScottieFrame {
  import opened ScottieModel
  import opened ScottieRuns

  // ----- the samples left

  /** Samples of the current line after the current phase. */
  function AfterPhase(t: Timing, p: Phase): int {
    match p
    case Idle => 0
    case Porch1 => t.color + t.porch + t.color + t.sync + t.porch + t.color
    case Green => t.porch + t.color + t.sync + t.porch + t.color
    case Porch2 => t.color + t.sync + t.porch + t.color
    case Blue => t.sync + t.porch + t.color
    case Sync => t.porch + t.color
    case Porch3 => t.color
    case Red => 0
  }

  /** Samples left in the current phase, which is never left without one. */
  function InPhase(t: Timing, p: Phase, n: int): int {
    if PhaseLength(t, p) - n < 1 then 1 else PhaseLength(t, p) - n
  }

  /** Samples left in the frame if every phase still to come had length `t`. */
  function Remaining(t: Timing, s: State): int {
    if s.phase == Idle then 0
    else InPhase(t, s.phase, s.phaseSamples) + AfterPhase(t, s.phase) + LinesLeft(t, LINE_COUNT - 1 - s.lineIndex)
  }

  function LinesLeft(t: Timing, lines: int): int {
    lines * t.LineLength()
  }

  ghost predicate Covers(t: Timing, u: Timing) {
    t.porch >= u.porch >= 1 && t.sync >= u.sync >= 1 && t.color >= u.color >= 1
  }

  lemma LinesLeftStep(t: Timing, lines: int)
    ensures LinesLeft(t, lines) == LinesLeft(t, lines - 1) + t.LineLength()
  {
  }

  lemma WaitRemaining(s: State, t: Timing)
    requires Placed(s) && s.phase in {Porch1, Porch2, Sync, Porch3} && Covers(t, s.timing)
    ensures var u := Wait(s, PhaseLength(s.timing, s.phase), NextPhase(s.phase));
            && Remaining(t, u) <= Remaining(t, s) - 1
            && (t == s.timing ==> Remaining(t, u) == Remaining(t, s) - 1)
  {
  }

  lemma FinishLineRemaining(s: State, t: Timing)
    requires Placed(s) && s.phase == Red && s.phaseSamples + 1 >= s.timing.color && Covers(t, s.timing)
    ensures var u := FinishLine(s);
            && Remaining(t, u) <= Remaining(t, s) - 1
            && (t == s.timing ==> Remaining(t, u) == Remaining(t, s) - 1)
  {
    LinesLeftStep(t, LINE_COUNT - 1 - s.lineIndex);
    assert LinesLeft(t, 0) == 0;
  }

  lemma AdvanceColorRemaining(s: State, t: Timing)
    requires Placed(s) && IsColor(s.phase) && Covers(t, s.timing)
    ensures var u := AdvanceColor(s);
            && Remaining(t, u) <= Remaining(t, s) - 1
            && (t == s.timing ==> Remaining(t, u) == Remaining(t, s) - 1)
  {
    if s.phase == Red && s.phaseSamples + 1 >= s.timing.color {
      FinishLineRemaining(s, t);
    }
  }

  /** A sample leaves at least one less, and exactly one less when the lengths
      are the current ones. */
  lemma StepRemaining(est: Estimator, s: State, mono: int, t: Timing)
    requires Placed(s) && s.phase != Idle && Covers(t, s.timing)
    ensures var u := Step(est, s, mono);
            && Remaining(t, u) <= Remaining(t, s) - 1
            && (t == s.timing ==> Remaining(t, u) == Remaining(t, s) - 1)
  {
    var v := s.(lineSamples := s.lineSamples + 1);
    if IsColor(s.phase) {
      AdvanceColorRemaining(TakeSample(est, v, mono), t);
      assert Step(est, s, mono) == StepColor(est, v, mono);
    } else {
      WaitRemaining(v, t);
      assert Step(est, s, mono) == Wait(v, PhaseLength(v.timing, v.phase), NextPhase(v.phase));
    }
  }

  /** A sync pulse never leaves more. */
  lemma ResyncRemaining(s: State, t: Timing)
    requires Placed(s) && Covers(t, s.timing) && Covers(t, Resync(s).timing)
    ensures Remaining(t, Resync(s)) <= Remaining(t, s)
  {
    AdaptReady(s);
  }

  lemma RemainingPositive(s: State, t: Timing)
    requires Placed(s) && Covers(t, s.timing)
    ensures Remaining(t, s) >= 0 && (Remaining(t, s) == 0 <==> s.phase == Idle)
  {
    if s.phase != Idle {
      LinesLeftPositive(t, LINE_COUNT - 1 - s.lineIndex);
    }
  }

  lemma LinesLeftPositive(t: Timing, lines: int)
    requires lines >= 0 && t.LineLength() >= 0
    ensures LinesLeft(t, lines) >= 0
  {
  }

  function Ticks(events: seq<Event>): nat {
    if events == [] then 0
    else Ticks(events[..|events| - 1]) + (if events[|events| - 1].Tick? then 1 else 0)
  }

  /** The longest lengths any run can use. */
  function Longest(): Timing {
    TimingAt(MAX_SCALE)
  }

  lemma LongestCovers(s: State)
    requires Ready(s)
    ensures Covers(Longest(), s.timing)
  {
    PositiveTiming(s.scale);
    PositiveTiming(MAX_SCALE);
    BaseTimings();
    assert BASE_PORCH as real * s.scale <= BASE_PORCH as real * MAX_SCALE;
    assert BASE_SYNC as real * s.scale <= BASE_SYNC as real * MAX_SCALE;
    assert BASE_COLOR as real * s.scale <= BASE_COLOR as real * MAX_SCALE;
  }

  lemma {:induction false} RunRemaining(est: Estimator, s: State, events: seq<Event>)
    requires Invariant(s)
    ensures Run(est, s, events).phase == Idle
         || Remaining(Longest(), Run(est, s, events)) <= Remaining(Longest(), s) - Ticks(events)
  {
    if events != [] {
      var before := Run(est, s, events[..|events| - 1]);
      RunRemaining(est, s, events[..|events| - 1]);
      RunInvariant(est, s, events[..|events| - 1]);
      LongestCovers(before);
      match events[|events| - 1]
      case Tick(mono) =>
        if before.phase != Idle {
          StepRemaining(est, before, mono, Longest());
        }
      case Pulse =>
        ResyncReady(before);
        LongestCovers(Resync(before));
        ResyncRemaining(before, Longest());
    }
  }

  /** The most samples a frame can take. */
  function FrameBound(): int {
    Longest().sync + Longest().porch + Longest().color + (LINE_COUNT - 1) * Longest().LineLength()
  }

  /** Samples of the line the frame is begun in, `offset` samples into its sync. */
  function FirstLine(t: Timing, offset: int): int {
    if t.sync + t.porch + t.color - offset < 1 then 1 else t.sync + t.porch + t.color - offset
  }

  lemma StartRemaining(s: State, t: Timing)
    requires Ready(s) && Covers(t, s.timing)
    ensures Remaining(t, OnSync(s, false)) <= t.sync + t.porch + t.color + (LINE_COUNT - 1) * t.LineLength()
    ensures t == s.timing ==>
              Remaining(t, OnSync(s, false)) == FirstLine(t, s.offset) + (LINE_COUNT - 1) * t.LineLength()
  {
    assert OnSync(s, false).timing == s.timing;
  }

  /** Every frame ends: whatever the samples and however sync pulses are
      interleaved, a frame is done within the bound, and stays done. */
  lemma FrameEnds(est: Estimator, s: State, events: seq<Event>)
    requires Ready(s) && Ticks(events) >= FrameBound()
    ensures Ready(OnSync(s, false)) && Run(est, OnSync(s, false), events).frameDone
  {
    StartInvariant(s);
    var first := OnSync(s, false);
    LongestCovers(s);
    StartRemaining(s, Longest());
    RunRemaining(est, first, events);
    RunInvariant(est, first, events);
    LongestCovers(Run(est, first, events));
    RemainingPositive(Run(est, first, events), Longest());
  }

  /** The bound in samples. */
  lemma FrameBoundValue()
    ensures Longest() == Timing(69, 416, 6401, 60)
    ensures FrameBound() == 5062516
  {
    BaseTimings();
    PositiveTiming(MAX_SCALE);
  }

  /** A finished frame is never left by samples or sync pulses. */
  lemma {:induction false} DoneIsAbsorbing(est: Estimator, s: State, events: seq<Event>)
    requires Ready(s) && s.phase == Idle
    ensures Run(est, s, events) == s
  {
    if events != [] {
      DoneIsAbsorbing(est, s, events[..|events| - 1]);
    }
  }

  // ----- the exact length without sync pulses

  function TickAll(samples: seq<int>): (events: seq<Event>)
    ensures |events| == |samples|
  {
    seq(|samples|, i requires 0 <= i < |samples| => Tick(samples[i]))
  }

  lemma RunOneMore(est: Estimator, s: State, samples: seq<int>)
    requires Ready(s) && samples != []
    ensures var n := |samples| - 1;
            Run(est, s, TickAll(samples)) == Step(est, Run(est, s, TickAll(samples[..n])), samples[n])
  {
    assert TickAll(samples)[..|samples| - 1] == TickAll(samples[..|samples| - 1]);
  }

  /** The samples left after one more, counting down to 0. */
  lemma CountDown(est: Estimator, s: State, mono: int)
    requires Placed(s)
    ensures Remaining(s.timing, Step(est, s, mono)) == if Remaining(s.timing, s) > 0 then Remaining(s.timing, s) - 1 else 0
  {
    TimingReady(s);
    RemainingPositive(s, s.timing);
    if s.phase != Idle {
      StepRemaining(est, s, mono, s.timing);
    }
  }

  lemma {:induction false} TicksRemaining(est: Estimator, s: State, samples: seq<int>)
    requires Invariant(s)
    ensures Run(est, s, TickAll(samples)).timing == s.timing
    ensures Remaining(s.timing, Run(est, s, TickAll(samples)))
         == if |samples| < Remaining(s.timing, s) then Remaining(s.timing, s) - |samples| else 0
  {
    if samples == [] {
      TimingReady(s);
      RemainingPositive(s, s.timing);
    } else {
      var n := |samples| - 1;
      TicksRemaining(est, s, samples[..n]);
      RunInvariant(est, s, TickAll(samples[..n]));
      RunOneMore(est, s, samples);
      CountDown(est, Run(est, s, TickAll(samples[..n])), samples[n]);
    }
  }

  /** The samples of a frame without resynchronisation. */
  function FrameLength(s: State): int {
    FirstLine(s.timing, s.offset) + (LINE_COUNT - 1) * s.timing.LineLength()
  }

  /** After the start of a frame and some samples, the samples left say whether
      it is done. */
  lemma TicksLeft(est: Estimator, s: State, samples: seq<int>)
    requires Ready(s)
    ensures Invariant(OnSync(s, false))
    ensures var r := Run(est, OnSync(s, false), TickAll(samples));
            && Invariant(r) && r.timing == s.timing
            && Remaining(s.timing, r) == (if |samples| < FrameLength(s) then FrameLength(s) - |samples| else 0)
            && (r.phase == Idle <==> |samples| >= FrameLength(s))
  {
    StartInvariant(s);
    TimingReady(s);
    var first := OnSync(s, false);
    StartRemaining(s, s.timing);
    TicksRemaining(est, first, samples);
    RunInvariant(est, first, TickAll(samples));
    RemainingPositive(Run(est, first, TickAll(samples)), s.timing);
  }

  // ----- sync pulses move forward only

  /** A pulse keeps the line and everything recorded, and moves out of late Blue
      to a later phase or not at all. */
  lemma PulseMovesForward(s: State)
    requires Placed(s)
    ensures var t := Resync(s);
            && t.lineIndex == s.lineIndex && t.accum == s.accum && t.count == s.count
            && t.image == s.image && t.lastOutputY == s.lastOutputY && t.frameDone == s.frameDone
            && (t != s ==> s.phase == Blue && 4 * s.phaseSamples >= 3 * s.timing.color
                           && t.phase in {Sync, Porch3, Red} && t.lineSamples == 0)
  {
    AdaptReady(s);
    TimingReady(s);
  }

  // ----- painted rows

  datatype Painted = Painted(y: int, line: int, row: seq<Rgb>)

  /** The row an event paints, if any. */
  function PaintedBy(est: Estimator, s: State, e: Event): seq<Painted>
    requires Shaped(s)
  {
    if e.Tick? && s.phase == Red && s.phaseSamples + 1 >= s.timing.color && Paints(s) then
      var t := TakeSample(est, s, e.mono);
      [Painted(OutY(s.lineIndex), s.lineIndex, RenderRow(t.accum, t.count))]
    else []
  }

  function Log(est: Estimator, s: State, events: seq<Event>): seq<Painted>
    requires Ready(s)
  {
    if events == [] then [] else
    var n := |events| - 1;
    Log(est, s, events[..n]) + PaintedBy(est, Run(est, s, events[..n]), events[n])
  }

  /** The line output row `y` shows: the ceiling of 4y / 3. */
  function SourceLine(y: int): int {
    (4 * y + 2) / 3
  }

  function RowsDone(line: int): int {
    if line == 0 then 0 else OutY(line - 1) + 1
  }

  /** The rows painted so far are 0, 1, 2, ..., each from its source line, and
      the image holds exactly them. */
  ghost predicate Painting(s: State, log: seq<Painted>) {
    && |s.image| == OUT_HEIGHT
    && |log| == RowsDone(s.lineIndex) <= OUT_HEIGHT
    && (forall y :: 0 <= y < |log| ==>
          log[y].y == y && log[y].line == SourceLine(y) && s.image[y] == log[y].row)
    && (forall y :: |log| <= y < OUT_HEIGHT ==> s.image[y] == BlankImage()[y])
  }

  lemma RowOfLine(line: int)
    requires 0 <= line < LINE_COUNT
    ensures var last := if line == 0 then -1 else OutY(line - 1);
            && 0 <= OutY(line) < OUT_HEIGHT
            && RowsDone(line) == last + 1
            && (OutY(line) != last <==> OutY(line) == RowsDone(line))
            && (OutY(line) != last ==> SourceLine(OutY(line)) == line && RowsDone(line + 1) == RowsDone(line) + 1)
            && (OutY(line) == last ==> RowsDone(line + 1) == RowsDone(line))
  {
  }

  /** Anything but the end of a Red phase leaves the picture alone. */
  lemma PictureKept(est: Estimator, s: State, e: Event)
    requires Placed(s) && !(e.Tick? && s.phase == Red && s.phaseSamples + 1 >= s.timing.color)
    ensures Shaped(Apply(est, s, e))
    ensures Apply(est, s, e).image == s.image && Apply(est, s, e).lineIndex == s.lineIndex
  {
    match e
    case Pulse =>
      ResyncReady(s);
      PulseMovesForward(s);
    case Tick(mono) =>
      if IsColor(s.phase) {
        var t := TakeSample(est, s.(lineSamples := s.lineSamples + 1), mono);
        assert t.image == s.image && t.lineIndex == s.lineIndex && t.phaseSamples == s.phaseSamples;
      }
  }

  /** The end of a Red phase paints the row of its line, or nothing. */
  lemma LineEndPaints(est: Estimator, s: State, mono: int)
    requires Placed(s) && s.phase == Red && s.phaseSamples + 1 >= s.timing.color
    ensures var t := Step(est, s, mono);
            var p := PaintedBy(est, s, Tick(mono));
            && t.lineIndex == s.lineIndex + 1
            && if Paints(s) then
                 |p| == 1 && p[0].y == OutY(s.lineIndex) && p[0].line == s.lineIndex
                 && t.image == s.image[OutY(s.lineIndex) := p[0].row]
               else p == [] && t.image == s.image
  {
    var u := s.(lineSamples := s.lineSamples + 1);
    assert Step(est, s, mono) == FinishLine(TakeSample(est, u, mono));
  }

  lemma ApplyPaints(est: Estimator, s: State, e: Event, log: seq<Painted>)
    requires Placed(s) && Painting(s, log)
    ensures Painting(Apply(est, s, e), log + PaintedBy(est, s, e))
  {
    if e.Tick? && s.phase == Red && s.phaseSamples + 1 >= s.timing.color {
      RowOfLine(s.lineIndex);
      LineEndPaints(est, s, e.mono);
    } else {
      PictureKept(est, s, e);
      assert log + PaintedBy(est, s, e) == log;
    }
  }

  lemma {:induction false} RunPaints(est: Estimator, s: State, events: seq<Event>)
    requires Invariant(s) && Painting(s, [])
    ensures Painting(Run(est, s, events), Log(est, s, events))
  {
    if events != [] {
      var n := |events| - 1;
      RunPaints(est, s, events[..n]);
      RunInvariant(est, s, events[..n]);
      ApplyPaints(est, Run(est, s, events[..n]), events[n], Log(est, s, events[..n]));
    }
  }

  /** Over a complete frame, under any interleaving of samples and sync pulses,
      the rows 0..191 are painted once each, in order, row y from line
      ceil(4y / 3), and the image is what was painted. */
  lemma FramePaintsEachRowOnce(est: Estimator, s: State, events: seq<Event>)
    requires Ready(s) && Ready(OnSync(s, false)) && Run(est, OnSync(s, false), events).frameDone
    ensures var first := OnSync(s, false);
            var log := Log(est, first, events);
            && |log| == OUT_HEIGHT
            && forall y :: 0 <= y < OUT_HEIGHT ==>
                 && log[y].y == y && log[y].line == SourceLine(y)
                 && Run(est, first, events).image[y] == log[y].row
  {
    StartInvariant(s);
    RunPaints(est, OnSync(s, false), events);
    RunInvariant(est, OnSync(s, false), events);
  }
}
