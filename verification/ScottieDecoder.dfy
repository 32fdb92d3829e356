/** The Scottie-1 decoder object: its methods do what the state machine of the
    model does, on its own fields, ring buffer and image. */
module ScottieDecoder {
  import opened RingWindow
  import opened ScottieModel

  /** A state with everything but the lengths and the pixel ring reset. */
  function Cleared(s: State): State {
    s.(lineIndex := 0, phase := Porch1, phaseSamples := 0, lineSamples := 0,
       accum := Blank(), count := Blank(), frameDone := false, lastOutputY := -1, image := BlankImage())
  }

  lemma StartFrameIsCleared(s: State)
    ensures StartFrame(s) == ResetPixel(ApplyScale(Cleared(s)))
  {
  }

  /** What one sample is, once the line sample has been counted. */
  lemma StepIs(est: Estimator, s: State, mono: int, u: State)
    requires Shaped(s) && s.phase != Idle && u == s.(lineSamples := s.lineSamples + 1)
    ensures ScottieModel.Step(est, s, mono)
         == if IsColor(s.phase) then StepColor(est, u, mono)
            else Wait(u, PhaseLength(u.timing, u.phase), NextPhase(u.phase))
  {
  }

  class Decoder {
    const est: Estimator
    var phase: Phase
    var phaseSamples: int
    var lineIndex: int
    var lineSamples: int
    var frameDone: bool
    var timing: Timing
    var timingScale: real
    var syncPhaseOffset: int
    var ring: Ring
    var lastPixel: int
    var accum: seq<seq<int>>
    var count: seq<seq<int>>
    var image: seq<seq<Rgb>>
    var lastOutputY: int

    ghost function Snapshot(): State
      reads this, ring
    {
      State(phase, phaseSamples, lineIndex, lineSamples, frameDone, timing, timingScale, syncPhaseOffset,
            ring.recent, lastPixel, accum, count, image, lastOutputY)
    }

    ghost predicate Valid()
      reads this, ring, ring.buf, ring.window
    {
      && ring.Valid()
      && ring.buf.Length == timing.window
      && Shaped(Snapshot())
    }

    constructor (est: Estimator)
      ensures Valid() && Snapshot() == Start() && this.est == est
      ensures fresh(ring) && fresh(ring.buf) && fresh(ring.window)
    {
      this.est := est;
      phase, phaseSamples, lineIndex, lineSamples, frameDone := Idle, 0, 0, 0, false;
      timing, timingScale, syncPhaseOffset := TimingAt(1.0), 1.0, 0;
      ring := new Ring(TimingAt(1.0).window);
      lastPixel := -1;
      accum, count := Blank(), Blank();
      image, lastOutputY := BlankImage(), -1;
      new;
      PositiveTiming(1.0);
    }

    /** Recomputes the lengths; a pixel window of another size is a new ring. */
    method ApplyTimingScale()
      requires Valid() && MIN_SCALE <= timingScale <= MAX_SCALE
      modifies this`timing, this`ring, this`lastPixel
      ensures Valid() && Snapshot() == ApplyScale(old(Snapshot()))
      ensures ring != old(ring) ==> fresh(ring) && fresh(ring.buf) && fresh(ring.window)
    {
      PositiveTiming(timingScale);
      var size := timing.window;
      timing := TimingAt(timingScale);
      if size != timing.window {
        ring := new Ring(timing.window);
        lastPixel := -1;
      }
    }

    method ResetPixelState()
      requires Valid()
      modifies this`lastPixel, ring
      ensures Valid() && Snapshot() == ResetPixel(old(Snapshot()))
    {
      lastPixel := -1;
      ring.Reset();
    }

    method BeginFrame()
      requires Valid() && MIN_SCALE <= timingScale <= MAX_SCALE
      modifies this, ring
      ensures Valid() && Snapshot() == StartFrame(old(Snapshot()))
      ensures ring != old(ring) ==> fresh(ring) && fresh(ring.buf) && fresh(ring.window)
    {
      lineIndex, phase, phaseSamples, lineSamples := 0, Porch1, 0, 0;
      accum, count := Blank(), Blank();
      frameDone, lastOutputY, image := false, -1, BlankImage();
      assert Snapshot() == Cleared(old(Snapshot()));
      ApplyTimingScale();
      ResetPixelState();
      StartFrameIsCleared(old(Snapshot()));
    }

    method GoToSync()
      requires Valid() && syncPhaseOffset >= 0 && timing.sync >= 0 && timing.porch >= 0
      modifies this`phase, this`phaseSamples, this`lastPixel, ring
      ensures Valid() && Snapshot() == JumpToSync(old(Snapshot()))
    {
      var offset := syncPhaseOffset;
      if offset < timing.sync {
        phase, phaseSamples := Sync, offset;
      } else if offset < timing.sync + timing.porch {
        phase, phaseSamples := Porch3, offset - timing.sync;
      } else {
        var n := offset - timing.sync - timing.porch;
        phase, phaseSamples := Red, if n < 0 then 0 else if n > timing.color then timing.color else n;
        ResetPixelState();
      }
    }

    /** A sync pulse: it starts a frame, or resynchronises a late Blue phase. */
    method OnSync(wasReceiving: bool) returns (started: bool)
      requires Valid() && MIN_SCALE <= timingScale <= MAX_SCALE && syncPhaseOffset >= 0
      requires timing == TimingAt(timingScale)
      modifies this, ring
      ensures Valid() && Snapshot() == ScottieModel.OnSync(old(Snapshot()), wasReceiving)
      ensures started == !wasReceiving
      ensures ring != old(ring) ==> fresh(ring) && fresh(ring.buf) && fresh(ring.window)
    {
      if !wasReceiving {
        BeginFrame();
        PositiveTiming(timingScale);
        GoToSync();
        return true;
      }
      if phase != Blue {
        return false;
      }
      var guard := timing.color / 4;
      if guard < 1 {
        guard := 1;
      }
      if phaseSamples < timing.color - guard {
        return false;
      }
      Realign();
      return false;
    }

    method Realign()
      requires Valid() && MIN_SCALE <= timingScale <= MAX_SCALE && syncPhaseOffset >= 0
      requires timing == TimingAt(timingScale)
      modifies this`timingScale, this`timing, this`ring, this`lastPixel
      modifies this`lineSamples, this`phase, this`phaseSamples, ring
      ensures Valid() && Snapshot() == JumpToSync(Adapt(old(Snapshot())).(lineSamples := 0))
      ensures ring != old(ring) ==> fresh(ring) && fresh(ring.buf) && fresh(ring.window)
    {
      AdaptScale();
      lineSamples := 0;
      PositiveTiming(timingScale);
      GoToSync();
    }

    method AdaptScale()
      requires Valid() && MIN_SCALE <= timingScale <= MAX_SCALE && timing == TimingAt(timingScale)
      modifies this`timingScale, this`timing, this`ring, this`lastPixel
      ensures Valid() && Snapshot() == Adapt(old(Snapshot()))
      ensures MIN_SCALE <= timingScale <= MAX_SCALE && timing == TimingAt(timingScale)
      ensures ring != old(ring) ==> fresh(ring) && fresh(ring.buf) && fresh(ring.window)
    {
      if lineSamples > 0 {
        var expected := BASE_PORCH * 3 + BASE_COLOR * 3 + BASE_SYNC;
        var adjusted := lineSamples - syncPhaseOffset;
        if adjusted < 1 {
          adjusted := 1;
        }
        var minSamples := (expected as real * (1.0 - 0.12)).Floor;
        var maxSamples := (expected as real * (1.0 + 0.12)).Floor;
        if minSamples <= adjusted <= maxSamples {
          var ratio := expected as real / adjusted as real;
          if ratio < MIN_SCALE {
            ratio := MIN_SCALE;
          }
          if ratio > MAX_SCALE {
            ratio := MAX_SCALE;
          }
          timingScale := timingScale * 0.98 + ratio * 0.02;
          ApplyTimingScale();
        }
      }
    }

    /** Paints the output row of the finished line, pixel by pixel. */
    method DrawLine()
      requires Valid()
      modifies this`lastOutputY, this`image
      ensures Valid() && Snapshot() == RenderLine(old(Snapshot()))
    {
      var outY := lineIndex * OUT_HEIGHT / LINE_COUNT;
      if outY == lastOutputY || outY < 0 || outY >= OUT_HEIGHT {
        return;
      }
      lastOutputY := outY;
      var row := seq(OUT_WIDTH, _ => PANEL);
      for outX := 0 to OUT_IMAGE_WIDTH
        invariant |row| == OUT_WIDTH
        invariant forall x :: 0 <= x < OUT_WIDTH ==>
          row[x] == if x < PAD_X + outX then RowPixel(accum, count, x) else PANEL
      {
        var inX := outX * IN_WIDTH / OUT_IMAGE_WIDTH;
        var g := if count[0][inX] != 0 then accum[0][inX] / count[0][inX] else 0;
        var b := if count[1][inX] != 0 then accum[1][inX] / count[1][inX] else 0;
        var r := if count[2][inX] != 0 then accum[2][inX] / count[2][inX] else 0;
        row := row[PAD_X + outX := Rgb(r, g, b)];
      }
      assert row == RenderRow(accum, count);
      image := image[outY := row];
    }

    /** The sampling half of a colour step. */
    method SampleColor(mono: int)
      requires Valid()
      modifies this`lastPixel, this`accum, this`count, ring, ring.buf, ring.window
      ensures Valid() && Snapshot() == TakeSample(est, old(Snapshot()), mono)
    {
      var pixel := phaseSamples * IN_WIDTH / timing.color;
      if 0 <= pixel < IN_WIDTH {
        SampleColumn(pixel, mono);
      }
    }

    method SampleColumn(pixel: int, mono: int)
      requires Valid() && 0 <= pixel < IN_WIDTH
      modifies this`lastPixel, this`accum, this`count, ring, ring.buf, ring.window
      ensures Valid() && Snapshot() == TakeAt(est, old(Snapshot()), pixel, mono)
    {
      ring.Push(mono);
      assert Snapshot() == old(Snapshot()).(recent := ring.recent);
      if pixel != lastPixel && ring.fill == timing.window {
        RecordWindow(pixel);
      }
    }

    /** Records the intensity of the full pixel window. */
    method RecordWindow(pixel: int)
      requires Valid() && 0 <= pixel < IN_WIDTH && ring.fill == timing.window
      modifies this`lastPixel, this`accum, this`count, ring.window
      ensures Valid()
      ensures var v := FreqToIntensity(est(Last(ring.recent, timing.window)));
              Snapshot() == old(Snapshot()).(lastPixel := pixel,
                accum := Add(old(accum), Channel(phase), pixel, v),
                count := Add(old(count), Channel(phase), pixel, 1))
    {
      ring.CopyOut();
      var freq := est(ring.window[..]);
      RecordPixel(pixel, FreqToIntensity(freq));
    }

    method RecordPixel(pixel: int, intensity: int)
      requires Valid() && 0 <= pixel < IN_WIDTH
      modifies this`lastPixel, this`accum, this`count
      ensures Valid()
      ensures Snapshot() == old(Snapshot()).(lastPixel := pixel,
                accum := Add(old(accum), Channel(phase), pixel, intensity),
                count := Add(old(count), Channel(phase), pixel, 1))
    {
      var channel := if phase == Green then 0 else if phase == Blue then 1 else 2;
      lastPixel := pixel;
      accum := Add(accum, channel, pixel, intensity);
      count := Add(count, channel, pixel, 1);
    }

    /** The end of a Red phase. */
    method EndLine()
      requires Valid() && phase == Red
      modifies this`phase, this`phaseSamples, this`lineIndex, this`frameDone, this`accum, this`count,
               this`image, this`lastOutputY, this`lastPixel, ring
      ensures Valid() && Snapshot() == FinishLine(old(Snapshot()))
    {
      ghost var s := Snapshot();
      DrawLine();
      lineIndex := lineIndex + 1;
      accum, count, phaseSamples := Blank(), Blank(), 0;
      ghost var t := RenderLine(s).(lineIndex := s.lineIndex + 1, accum := Blank(), count := Blank(), phaseSamples := 0);
      assert Snapshot() == t;
      if lineIndex >= LINE_COUNT {
        frameDone, phase := true, Idle;
        assert Snapshot() == t.(frameDone := true, phase := Idle);
      } else {
        phase := Porch1;
        assert Snapshot() == t.(phase := Porch1);
        ResetPixelState();
      }
    }

    /** The counting half of a colour step. */
    method CountColor()
      requires Valid() && IsColor(phase)
      modifies this, ring
      ensures Valid() && Snapshot() == AdvanceColor(old(Snapshot()))
      ensures ring == old(ring)
    {
      phaseSamples := phaseSamples + 1;
      if phaseSamples >= timing.color {
        phaseSamples := 0;
        if phase == Green {
          phase := Porch2;
        } else if phase == Blue {
          phase := Sync;
        } else {
          EndLine();
        }
      }
    }

    /** One sample of a colour phase. */
    method ColorStep(mono: int)
      requires Valid() && IsColor(phase)
      modifies this, ring, ring.buf, ring.window
      ensures Valid() && Snapshot() == StepColor(est, old(Snapshot()), mono)
      ensures ring == old(ring)
    {
      SampleColor(mono);
      CountColor();
    }

    /** One sample of a porch or sync phase. */
    method WaitStep()
      requires Valid() && phase in {Porch1, Porch2, Sync, Porch3}
      modifies this`phase, this`phaseSamples, this`lastPixel, ring
      ensures Valid()
      ensures Snapshot() == Wait(old(Snapshot()), PhaseLength(timing, old(phase)), NextPhase(old(phase)))
    {
      phaseSamples := phaseSamples + 1;
      if phase == Porch1 && phaseSamples >= timing.porch {
        phase, phaseSamples := Green, 0;
        ResetPixelState();
      } else if phase == Porch2 && phaseSamples >= timing.porch {
        phase, phaseSamples := Blue, 0;
        ResetPixelState();
      } else if phase == Sync && phaseSamples >= timing.sync {
        phase, phaseSamples := Porch3, 0;
      } else if phase == Porch3 && phaseSamples >= timing.porch {
        phase, phaseSamples := Red, 0;
        ResetPixelState();
      }
    }

    /** One sample. */
    method Step(mono: int)
      requires Valid()
      modifies this, ring, ring.buf, ring.window
      ensures Valid() && Snapshot() == ScottieModel.Step(est, old(Snapshot()), mono)
      ensures ring == old(ring)
    {
      if phase == Idle {
        return;
      }
      lineSamples := lineSamples + 1;
      StepIs(est, old(Snapshot()), mono, Snapshot());
      if IsColor(phase) {
        ColorStep(mono);
      } else {
        WaitStep();
      }
    }
  }
}
