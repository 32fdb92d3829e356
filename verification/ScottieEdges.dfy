/** What every picture shows at its edges, whatever the samples and the sync
    pulses: no green and blue in the first row, nothing in the first columns. */
module ScottieEdges {
  import opened ScottieModel
  import opened ScottieRuns
  import opened ScottieFrame

  // ----- the first row

  /** The line a frame begins in has no Green and no Blue phase left. */
  ghost predicate FirstLineState(s: State)
    requires Shaped(s)
  {
    && (s.lineIndex == 0 ==>
          && s.phase in {Sync, Porch3, Red}
          && forall x :: 0 <= x < IN_WIDTH ==> s.count[0][x] == 0 && s.count[1][x] == 0)
    && (s.lineIndex > 0 ==> OnlyRed(s.image[0]))
  }

  ghost predicate OnlyRed(row: seq<Rgb>) {
    |row| == OUT_WIDTH && forall x :: PAD_X <= x < PAD_X + OUT_IMAGE_WIDTH ==> row[x].g == 0 && row[x].b == 0
  }

  lemma FirstLineApply(est: Estimator, s: State, e: Event)
    requires Placed(s) && FirstLineState(s)
    ensures Shaped(Apply(est, s, e)) && FirstLineState(Apply(est, s, e))
  {
    if e.Tick? && s.phase == Red && s.phaseSamples + 1 >= s.timing.color {
      LineEndPaints(est, s, e.mono);
      RowOfLine(s.lineIndex);
      if s.lineIndex == 0 {
        FirstRowOnlyRed(est, s, e.mono);
      }
    } else {
      PictureKept(est, s, e);
      if s.lineIndex == 0 {
        FirstLineKept(est, s, e);
      }
    }
  }

  lemma FirstRowOnlyRed(est: Estimator, s: State, mono: int)
    requires Placed(s) && FirstLineState(s) && s.lineIndex == 0 && s.phase == Red
    requires s.phaseSamples + 1 >= s.timing.color
    ensures OnlyRed(PaintedBy(est, s, Tick(mono))[0].row)
  {
    var t := TakeSample(est, s, mono);
    assert t.count[0] == s.count[0] && t.count[1] == s.count[1];
  }

  lemma FirstLineKept(est: Estimator, s: State, e: Event)
    requires Placed(s) && FirstLineState(s) && s.lineIndex == 0
    requires !(e.Tick? && s.phase == Red && s.phaseSamples + 1 >= s.timing.color)
    ensures Shaped(Apply(est, s, e)) && FirstLineState(Apply(est, s, e))
  {
    if e.Tick? && s.phase == Red {
      var t := TakeSample(est, s.(lineSamples := s.lineSamples + 1), e.mono);
      assert t.count[0] == s.count[0] && t.count[1] == s.count[1];
    }
  }

  lemma {:induction false} FirstLineRun(est: Estimator, s: State, events: seq<Event>)
    requires Invariant(s) && FirstLineState(s)
    ensures FirstLineState(Run(est, s, events))
  {
    if events != [] {
      var n := |events| - 1;
      FirstLineRun(est, s, events[..n]);
      RunInvariant(est, s, events[..n]);
      FirstLineApply(est, Run(est, s, events[..n]), events[n]);
    }
  }

  /** A frame begins in or after the sync pulse of its first line, so output row
      0 never has any green or blue, in any run. */
  lemma FirstRowIsRed(est: Estimator, s: State, events: seq<Event>)
    requires Ready(s) && Ready(OnSync(s, false)) && Run(est, OnSync(s, false), events).frameDone
    ensures OnlyRed(Run(est, OnSync(s, false), events).image[0])
  {
    StartInvariant(s);
    RunInvariant(est, OnSync(s, false), events);
    FirstLineRun(est, OnSync(s, false), events);
  }

  // ----- the first columns

  /** The first two columns of the picture show source columns 0 and 1. */
  ghost predicate BlackEdge(row: seq<Rgb>) {
    |row| == OUT_WIDTH && row[PAD_X] == row[PAD_X + 1] == Rgb(0, 0, 0)
  }

  ghost predicate EdgesPainted(s: State) {
    && |s.image| == OUT_HEIGHT
    && RowsDone(s.lineIndex) <= OUT_HEIGHT
    && forall y :: 0 <= y < RowsDone(s.lineIndex) ==> BlackEdge(s.image[y])
  }

  lemma LineEndEdge(est: Estimator, s: State, mono: int)
    requires Invariant(s) && s.phase == Red && s.phaseSamples + 1 >= s.timing.color && Paints(s)
    ensures BlackEdge(PaintedBy(est, s, Tick(mono))[0].row)
  {
    TakeSampleEdges(est, s, mono);
    assert InColumn(0) == 0 && InColumn(1) == 1;
  }

  lemma EdgesApply(est: Estimator, s: State, e: Event)
    requires Invariant(s) && EdgesPainted(s)
    ensures EdgesPainted(Apply(est, s, e))
  {
    if e.Tick? && s.phase == Red && s.phaseSamples + 1 >= s.timing.color {
      RowOfLine(s.lineIndex);
      LineEndPaints(est, s, e.mono);
      if Paints(s) {
        LineEndEdge(est, s, e.mono);
      }
    } else {
      PictureKept(est, s, e);
    }
  }

  lemma {:induction false} EdgesRun(est: Estimator, s: State, events: seq<Event>)
    requires Invariant(s) && EdgesPainted(s)
    ensures EdgesPainted(Run(est, s, events))
  {
    if events != [] {
      var n := |events| - 1;
      EdgesRun(est, s, events[..n]);
      RunInvariant(est, s, events[..n]);
      EdgesApply(est, Run(est, s, events[..n]), events[n]);
    }
  }

  /** Under any interleaving of samples and pulses, every row painted so far is
      black in its first two columns. */
  lemma FirstColumnsAreBlack(est: Estimator, s: State, events: seq<Event>)
    requires Ready(s) && Ready(OnSync(s, false))
    ensures var r := Run(est, OnSync(s, false), events);
            && RowsDone(r.lineIndex) <= OUT_HEIGHT == |r.image|
            && (r.frameDone ==> RowsDone(r.lineIndex) == OUT_HEIGHT)
            && forall y :: 0 <= y < RowsDone(r.lineIndex) ==> BlackEdge(r.image[y])
  {
    StartInvariant(s);
    RunInvariant(est, OnSync(s, false), events);
    EdgesRun(est, OnSync(s, false), events);
  }
}
