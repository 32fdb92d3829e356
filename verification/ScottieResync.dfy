/** What a sync pulse that counts does to the decoder: when it counts, where it puts the
    decoder, how it changes the lengths of the phases; and the same over runs with any
    number of such pulses. */
module ScottieResync {
  import opened ScottieModel
  import opened ScottieRuns
  import opened ScottieFrame
  import opened ScottieQuiet
  import opened ScottieTiming

  // ----- one pulse

  /** A pulse while receiving counts exactly when at most a quarter of Blue is left, and
      otherwise changes nothing. */
  lemma PulseCounts(s: State)
    requires Ready(s)
    ensures SyncCounts(s) <==> s.phase == Blue && 4 * (s.timing.color - s.phaseSamples) <= s.timing.color
    ensures !SyncCounts(s) ==> OnSync(s, true) == s
  {
    TimingReady(s);
  }

  /** The lengths at a scale: the nominal ones of 66, 396 and 6096 samples times the scale,
      rounded to the nearest, and a pixel window of three columns. */
  lemma LengthsFollow(scale: real)
    requires MIN_SCALE <= scale <= MAX_SCALE
    ensures var t := TimingAt(scale);
            && 66.0 * scale - 0.5 < t.porch as real <= 66.0 * scale + 0.5
            && 396.0 * scale - 0.5 < t.sync as real <= 396.0 * scale + 0.5
            && 6096.0 * scale - 0.5 < t.color as real <= 6096.0 * scale + 0.5
            && t.window == 3 * t.color / 320
  {
    BaseTimings();
    PositiveTiming(scale);
  }

  /** What a pulse that counts does. The lengths become those of a scale that has moved
      a fiftieth of the way to the expected line of 18882 samples over the measured one,
      clamped, if that is plausible; the line is measured anew. */
  lemma CountedPulse(s: State, r: State, line: int)
    requires Ready(s) && SyncCounts(s) && r == OnSync(s, true)
    requires line == if s.lineSamples - s.offset < 1 then 1 else s.lineSamples - s.offset
    ensures Ready(r) && r.timing == TimingAt(r.scale) && r.lineSamples == 0
    ensures !(16616 <= line <= 21147) ==> r.scale == s.scale
    ensures 16616 <= line <= 21147 ==>
              var ratio := 18882.0 / line as real;
              && (ratio < 0.95 ==> r.scale == 0.98 * s.scale + 0.02 * 0.95)
              && (ratio > 1.05 ==> r.scale == 0.98 * s.scale + 0.02 * 1.05)
              && (0.95 <= ratio <= 1.05 ==> r.scale == 0.98 * s.scale + 0.02 * ratio)
  {
    ResyncReady(s);
    AdaptMoves(s);
    ExpectedValue();
    AdaptReady(s);
  }

  lemma PulseAdapts(s: State)
    requires Ready(s) && SyncCounts(s)
    ensures OnSync(s, true).scale == Adapt(s).scale && OnSync(s, true).timing == Adapt(s).timing
  {
  }

  lemma MeasuredIs(s: State, line: int)
    requires Ready(s) && line == s.lineSamples - s.offset && 16616 <= line <= 21147
    ensures Plausible(s) && Measured(s) == line
  {
  }

  /** Which way the lengths go: the scale shrinks exactly when the measured line times the
      scale exceeds the expected line, grows when it falls short, and the decoder's line
      with it. */
  lemma CountedPulseDirection(s: State, r: State, line: int, m: real)
    requires Ready(s) && SyncCounts(s) && r == OnSync(s, true)
    requires line == s.lineSamples - s.offset && 16616 <= line <= 21147 && m == line as real
    ensures r.scale < s.scale <==> s.scale > 0.95 && s.scale * m > 18882.0
    ensures r.scale > s.scale <==> s.scale < 1.05 && s.scale * m < 18882.0
    ensures r.scale <= s.scale ==> r.timing.LineLength() <= s.timing.LineLength()
    ensures r.scale >= s.scale ==> r.timing.LineLength() >= s.timing.LineLength()
  {
    PulseAdapts(s);
    MeasuredIs(s, line);
    AdaptDirection(s, m);
    AdaptTiming(s);
    LengthsOrder(s.scale, r.scale);
  }

  /** So a decoder at least as slow as nominal gets faster after a line that was longer
      than nominal, and one at most as slow gets slower after a shorter one. */
  lemma CountedPulseAfterLine(s: State, r: State, line: int)
    requires Ready(s) && SyncCounts(s) && r == OnSync(s, true)
    requires line == s.lineSamples - s.offset && 16616 <= line <= 21147
    ensures s.scale >= 1.0 && line > 18882 ==>
              r.scale < s.scale && r.timing.LineLength() <= s.timing.LineLength()
    ensures s.scale <= 1.0 && line < 18882 ==>
              r.scale > s.scale && r.timing.LineLength() >= s.timing.LineLength()
  {
    PulseAdapts(s);
    MeasuredIs(s, line);
    ExpectedValue();
    LongLinesShorten(s);
  }

  lemma LengthsOrder(a: real, b: real)
    ensures b <= a ==> TimingAt(b).LineLength() <= TimingAt(a).LineLength()
    ensures b >= a ==> TimingAt(b).LineLength() >= TimingAt(a).LineLength()
  {
    if b <= a {
      LineMonotone(b, a);
    }
    if b >= a {
      LineMonotone(a, b);
    }
  }

  /** Where it puts the decoder: `offset` samples into the sync pulse of the same line,
      by the new lengths, or as far as the end of Red. */
  lemma CountedPulsePlace(s: State, r: State)
    requires Placed(s) && SyncCounts(s) && r == OnSync(s, true)
    ensures r.lineIndex == s.lineIndex && r.offset == s.offset && r.frameDone == s.frameDone
    ensures r.accum == s.accum && r.count == s.count && r.image == s.image && r.lastOutputY == s.lastOutputY
    ensures var t, o := r.timing, s.offset;
            if o < t.sync then r.phase == Sync && r.phaseSamples == o
            else if o < t.sync + t.porch then r.phase == Porch3 && r.phaseSamples == o - t.sync
            else
              && r.phase == Red && r.recent == [] && r.lastPixel == -1
              && r.phaseSamples == if o < t.sync + t.porch + t.color then o - t.sync - t.porch else t.color
    ensures var t, o := r.timing, s.offset;
            var first := if o < t.sync + t.porch + t.color then t.sync + t.porch + t.color - o else 1;
            Remaining(t, r) == first + (255 - s.lineIndex) * (3 * t.porch + 3 * t.color + t.sync)
  {
    PulseMovesForward(s);
    AdaptReady(s);
    ResyncReady(s);
    TimingReady(r);
  }

  // ----- after a pulse

  /** With no further pulse that counts, the frame ends exactly when what was left of the
      line, and the lines after it, have been played at the new lengths. */
  lemma ResyncedFrameLength(est: Estimator, s: State, r: State, events: seq<Event>)
    requires Invariant(s) && SyncCounts(s) && r == OnSync(s, true) && Ready(r) && Quiet(est, r, events)
    ensures var t, o := r.timing, s.offset;
            var first := if o < t.sync + t.porch + t.color then t.sync + t.porch + t.color - o else 1;
            Run(est, r, events).frameDone <==>
              Ticks(events) >= first + (255 - s.lineIndex) * (3 * t.porch + 3 * t.color + t.sync)
  {
    CountedPulsePlace(s, r);
    ResyncInvariant(s);
    QuietIsTicks(est, r, events);
    DoneByTicks(est, r, Samples(events));
  }

  lemma DoneByTicks(est: Estimator, r: State, samples: seq<int>)
    requires Invariant(r)
    ensures Run(est, r, TickAll(samples)).frameDone <==> |samples| >= Remaining(r.timing, r)
  {
    var u := Run(est, r, TickAll(samples));
    TicksRemaining(est, r, samples);
    RunInvariant(est, r, TickAll(samples));
    TimingReady(u);
    RemainingPositive(u, u.timing);
  }

  // ----- any number of pulses

  /** The samples since the last pulse that counted, or since the start. */
  function Since(est: Estimator, s: State, events: seq<Event>): nat
    requires Ready(s)
  {
    if events == [] then 0 else
    var n := |events| - 1;
    if events[n].Tick? then Since(est, s, events[..n]) + 1
    else if SyncCounts(Run(est, s, events[..n])) then 0
    else Since(est, s, events[..n])
  }

  /** The samples before each pulse that counts, from the one before it. */
  function Measures(est: Estimator, s: State, events: seq<Event>): seq<int>
    requires Ready(s)
  {
    if events == [] then [] else
    var n := |events| - 1;
    if events[n].Pulse? && SyncCounts(Run(est, s, events[..n])) then
      Measures(est, s, events[..n]) + [Since(est, s, events[..n])]
    else Measures(est, s, events[..n])
  }

  function Sum(lines: seq<int>): int {
    if lines == [] then 0 else Sum(lines[..|lines| - 1]) + lines[|lines| - 1]
  }

  /** The measures divide up the samples of the run. */
  lemma {:induction false} MeasuresAddUp(est: Estimator, s: State, events: seq<Event>)
    requires Ready(s)
    ensures Sum(Measures(est, s, events)) + Since(est, s, events) == Ticks(events)
  {
    if events != [] {
      MeasuresAddUp(est, s, events[..|events| - 1]);
    }
  }

  /** The scale after one measured line. */
  function NewScale(scale: real, line: int): real {
    if 16616 <= line <= 21147 then 0.98 * scale + 0.02 * Target(line) else scale
  }

  /** The scale after several. */
  function ScaleAfter(scale: real, offset: int, lines: seq<int>): real {
    if lines == [] then scale
    else NewScale(ScaleAfter(scale, offset, lines[..|lines| - 1]), lines[|lines| - 1] - offset)
  }

  /** What a run keeps about its lengths. */
  ghost predicate Timed(s: State, u: State, since: nat, lines: seq<int>) {
    && Ready(u) && u.offset == s.offset
    && (u.phase != Idle ==> u.lineSamples == since)
    && u.scale == ScaleAfter(s.scale, s.offset, lines)
  }

  lemma TakeKeepsLine(est: Estimator, s: State, mono: int)
    requires Shaped(s)
    ensures TakeSample(est, s, mono).lineSamples == s.lineSamples
  {
  }

  lemma StepCountsLine(est: Estimator, s: State, mono: int)
    requires Shaped(s)
    ensures s.phase == Idle ==> Step(est, s, mono) == s
    ensures s.phase != Idle ==> Step(est, s, mono).lineSamples == s.lineSamples + 1
  {
    TakeKeepsLine(est, s.(lineSamples := s.lineSamples + 1), mono);
  }

  lemma TimedTick(est: Estimator, s: State, u: State, since: nat, lines: seq<int>, mono: int)
    requires Timed(s, u, since, lines)
    ensures Timed(s, Step(est, u, mono), since + 1, lines)
  {
    ApplyReady(est, u, Tick(mono));
    StepCountsLine(est, u, mono);
  }

  lemma TimedPulse(s: State, u: State, since: nat, lines: seq<int>)
    requires Timed(s, u, since, lines)
    ensures if SyncCounts(u) then Timed(s, Resync(u), 0, lines + [since]) else Resync(u) == u
  {
    if SyncCounts(u) {
      ResyncReady(u);
      PulseAdapts(u);
      AdaptReady(u);
      AdaptMoves(u);
      assert (lines + [since])[..|lines|] == lines;
    }
  }

  /** Over every run of a frame, with any number of pulses that count: the scale is that
      of the measured lines, one after the other, and the lengths are those of the scale. */
  lemma {:induction false} RunScale(est: Estimator, s: State, events: seq<Event>)
    requires Ready(s) && s.lineSamples == 0
    ensures Timed(s, Run(est, s, events), Since(est, s, events), Measures(est, s, events))
    ensures Run(est, s, events).timing == TimingAt(Run(est, s, events).scale)
  {
    if events != [] {
      var n := |events| - 1;
      var u := Run(est, s, events[..n]);
      RunScale(est, s, events[..n]);
      match events[n]
      case Tick(mono) => TimedTick(est, s, u, Since(est, s, events[..n]), Measures(est, s, events[..n]), mono);
      case Pulse => TimedPulse(s, u, Since(est, s, events[..n]), Measures(est, s, events[..n]));
    }
  }

  /** After `k` lines that all measure the same, the distance of the scale from expected
      over measured is `0.98^k` times what it was. */
  lemma {:induction false} EvenMeasures(scale: real, offset: int, lines: seq<int>, line: int, target: real, d: real)
    requires 16616 <= line <= 21147 && forall i :: 0 <= i < |lines| ==> lines[i] - offset == line
    requires target == Target(line) && d == scale - target
    ensures ScaleAfter(scale, offset, lines) - target == Shrunk(d, |lines|)
  {
    if lines != [] {
      EvenMeasures(scale, offset, lines[..|lines| - 1], line, target, d);
    }
  }
}
