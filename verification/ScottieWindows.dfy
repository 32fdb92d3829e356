/** Every pixel of every run, however sync pulses resynchronise the decoder: a
    colour component is the intensity of the first full window of consecutive samples
    taken in its own phase of its line and ending in its column, or 0 if there is
    none. */
module ScottieWindows {
  import opened RingWindow
  import opened Division
  import opened ScottieModel
  import opened ScottieRuns
  import opened ScottieFrame
  import opened ScottieQuiet

  /** Where the decoder is when it takes a sample. */
  datatype Place = Place(phase: Phase, line: int, column: int, window: int)

  function PlaceOf(s: State): Place
    requires Shaped(s)
  {
    Place(s.phase, s.lineIndex, Pixel(s), s.timing.window)
  }

  /** The places of the samples of a run, one for each. */
  function Places(est: Estimator, s: State, events: seq<Event>): (places: seq<Place>)
    requires Ready(s)
    ensures |places| == |Samples(events)|
  {
    if events == [] then [] else
    var n := |events| - 1;
    if events[n].Tick? then Places(est, s, events[..n]) + [PlaceOf(Run(est, s, events[..n]))]
    else Places(est, s, events[..n])
  }

  /** The samples of a run with the places they were taken at. */
  datatype Track = Track(samples: seq<int>, places: seq<Place>) {
    ghost predicate Valid() {
      |samples| == |places|
    }

    function Push(mono: int, place: Place): Track {
      Track(samples + [mono], places + [place])
    }
  }

  function TrackOf(est: Estimator, s: State, events: seq<Event>): (t: Track)
    requires Ready(s)
    ensures t.Valid()
  {
    Track(Samples(events), Places(est, s, events))
  }

  lemma TrackAppend(est: Estimator, s: State, events: seq<Event>, e: Event)
    requires Ready(s)
    ensures TrackOf(est, s, events + [e]) ==
      match e
      case Tick(mono) => TrackOf(est, s, events).Push(mono, PlaceOf(Run(est, s, events)))
      case Pulse => TrackOf(est, s, events)
  {
    assert (events + [e])[..|events|] == events;
    assert Samples(events) + [] == Samples(events);
  }

  /** Samples `i` to `j` were taken in this phase of this line, the last one in this
      column, as many as the window holds. */
  ghost predicate OwnWindow(t: Track, phase: Phase, line: int, column: int, i: int, j: int) {
    && t.Valid() && 0 <= i < j <= |t.samples|
    && (forall k :: i <= k < j ==> t.places[k].phase == phase && t.places[k].line == line)
    && t.places[j - 1].column == column && t.places[j - 1].window == j - i
  }

  ghost predicate NoWindow(t: Track, phase: Phase, line: int, column: int) {
    forall i, j :: !OwnWindow(t, phase, line, column, i, j)
  }

  /** The first such window, with this intensity. */
  ghost predicate Shows(est: Estimator, t: Track, phase: Phase, line: int, column: int, v: int, i: int, j: int) {
    && OwnWindow(t, phase, line, column, i, j)
    && (forall i', j' :: OwnWindow(t, phase, line, column, i', j') ==> j <= j')
    && v == FreqToIntensity(est(t.samples[i..j]))
  }

  /** The value is the intensity of the first such window. */
  ghost predicate Heard(est: Estimator, t: Track, phase: Phase, line: int, column: int, v: int) {
    exists i, j :: Shows(est, t, phase, line, column, v, i, j)
  }

  /** So it is a function of the track. */
  lemma HeardOnce(est: Estimator, t: Track, phase: Phase, line: int, column: int, v: int, v': int)
    requires Heard(est, t, phase, line, column, v) && Heard(est, t, phase, line, column, v')
    ensures v == v' && !NoWindow(t, phase, line, column)
  {
    var i, j :| Shows(est, t, phase, line, column, v, i, j);
    var i', j' :| Shows(est, t, phase, line, column, v', i', j');
    assert j == j' && i == i';
  }

  /** Windows that end before a sample do not depend on it. */
  lemma WindowBefore(t: Track, mono: int, place: Place, phase: Phase, line: int, column: int, i: int, j: int)
    requires t.Valid() && j <= |t.samples|
    ensures OwnWindow(t.Push(mono, place), phase, line, column, i, j) <==> OwnWindow(t, phase, line, column, i, j)
  {
    var u := t.Push(mono, place);
    if OwnWindow(t, phase, line, column, i, j) || OwnWindow(u, phase, line, column, i, j) {
      assert forall k :: i <= k < j ==> u.places[k] == t.places[k];
    }
  }

  /** A later window is not the first. */
  lemma HeardLater(est: Estimator, t: Track, mono: int, place: Place, phase: Phase, line: int, column: int, v: int)
    requires t.Valid() && Heard(est, t, phase, line, column, v)
    ensures Heard(est, t.Push(mono, place), phase, line, column, v)
  {
    var i, j :| Shows(est, t, phase, line, column, v, i, j);
    var u := t.Push(mono, place);
    assert u.samples[i..j] == t.samples[i..j];
    WindowBefore(t, mono, place, phase, line, column, i, j);
    forall i', j' | OwnWindow(u, phase, line, column, i', j')
      ensures j <= j'
    {
      if j' <= |t.samples| {
        WindowBefore(t, mono, place, phase, line, column, i', j');
      }
    }
    assert Shows(est, u, phase, line, column, v, i, j);
  }

  /** Only a window that ends with the new sample can be new. */
  lemma NoWindowLater(t: Track, mono: int, place: Place, phase: Phase, line: int, column: int)
    requires t.Valid() && NoWindow(t, phase, line, column)
    requires !OwnWindow(t.Push(mono, place), phase, line, column, |t.samples| + 1 - place.window, |t.samples| + 1)
    ensures NoWindow(t.Push(mono, place), phase, line, column)
  {
    var u := t.Push(mono, place);
    forall i, j
      ensures !OwnWindow(u, phase, line, column, i, j)
    {
      if j <= |t.samples| {
        WindowBefore(t, mono, place, phase, line, column, i, j);
      }
    }
  }

  function PhaseOf(c: int): Phase {
    if c == 0 then Green else if c == 1 then Blue else Red
  }

  ghost predicate CellHeard(est: Estimator, t: Track, phase: Phase, line: int, column: int, count: int, accum: int) {
    if count != 0 then Heard(est, t, phase, line, column, accum) else NoWindow(t, phase, line, column)
  }

  /** Every filled cell holds the intensity of its first window, and every empty one
      has none. */
  ghost predicate CellsHeard(est: Estimator, s: State, t: Track)
    requires Shaped(s)
  {
    forall c, x :: 0 <= c < 3 && 0 <= x < IN_WIDTH ==>
      CellHeard(est, t, PhaseOf(c), s.lineIndex, x, s.count[c][x], s.accum[c][x])
  }

  /** Whether a place lies before this phase of this line. */
  predicate Before(p: Place, line: int, rank: nat) {
    p.line < line || (p.line == line && Rank(p.phase) < rank)
  }

  /** No place is ahead, and in a colour phase the ring holds exactly the samples of
      the phase. */
  ghost predicate RingHeard(s: State, t: Track) {
    && t.Valid()
    && (forall k :: 0 <= k < |t.places| ==> Before(t.places[k], s.lineIndex, Rank(s.phase) + 1))
    && (IsColor(s.phase) ==>
          && |s.recent| <= |t.samples| && s.recent == Last(t.samples, |s.recent|)
          && (forall k :: 0 <= k < |t.samples| - |s.recent| ==> Before(t.places[k], s.lineIndex, Rank(s.phase)))
          && (forall k :: |t.samples| - |s.recent| <= k < |t.samples| ==>
                t.places[k].phase == s.phase && t.places[k].line == s.lineIndex))
  }

  /** The last column taken is filled. */
  ghost predicate LastFilled(s: State)
    requires Shaped(s)
  {
    IsColor(s.phase) && 0 <= s.lastPixel < IN_WIDTH ==> s.count[Channel(s.phase)][s.lastPixel] != 0
  }

  ghost predicate Tracked(est: Estimator, s: State, t: Track) {
    Shaped(s) && CellsHeard(est, s, t) && RingHeard(s, t) && LastFilled(s)
  }

  /** A cell that the new sample gives no window to. */
  lemma CellLater(est: Estimator, t: Track, mono: int, place: Place, phase: Phase, line: int, column: int,
                  count: int, accum: int)
    requires t.Valid() && CellHeard(est, t, phase, line, column, count, accum)
    requires count == 0 ==>
      !OwnWindow(t.Push(mono, place), phase, line, column, |t.samples| + 1 - place.window, |t.samples| + 1)
    ensures CellHeard(est, t.Push(mono, place), phase, line, column, count, accum)
  {
    if count != 0 {
      HeardLater(est, t, mono, place, phase, line, column, accum);
    } else {
      NoWindowLater(t, mono, place, phase, line, column);
    }
  }

  lemma PhaseOfChannel(p: Phase, c: nat)
    requires IsColor(p) && c < 3
    ensures PhaseOf(c) == p <==> c == Channel(p)
  {
  }

  /** All cells but the one of this phase and column. */
  lemma OtherCellsLater(est: Estimator, s: State, t: Track, mono: int, c: nat, x: nat)
    requires Tracked(est, s, t) && c < 3 && x < IN_WIDTH
    requires PhaseOf(c) != s.phase || x != Pixel(s)
    ensures CellHeard(est, t.Push(mono, PlaceOf(s)), PhaseOf(c), s.lineIndex, x, s.count[c][x], s.accum[c][x])
  {
    CellLater(est, t, mono, PlaceOf(s), PhaseOf(c), s.lineIndex, x, s.count[c][x], s.accum[c][x]);
  }

  /** A sample that falls on no column, or in no colour phase. */
  lemma NoCellLater(est: Estimator, s: State, t: Track, mono: int)
    requires Tracked(est, s, t) && (IsColor(s.phase) ==> Pixel(s) >= IN_WIDTH)
    ensures CellsHeard(est, s, t.Push(mono, PlaceOf(s)))
  {
    forall c, x | 0 <= c < 3 && 0 <= x < IN_WIDTH
      ensures CellHeard(est, t.Push(mono, PlaceOf(s)), PhaseOf(c), s.lineIndex, x, s.count[c][x], s.accum[c][x])
    {
      OtherCellsLater(est, s, t, mono, c, x);
    }
  }

  /** The order of the places after one more sample. */
  lemma PushedPlaces(s: State, t: Track, mono: int)
    requires Shaped(s) && RingHeard(s, t)
    ensures var u := t.Push(mono, PlaceOf(s));
            forall k :: 0 <= k < |u.places| ==> Before(u.places[k], s.lineIndex, Rank(s.phase) + 1)
  {
  }

  /** The ring after one more sample of the phase. */
  lemma PushedRing(s: State, t: Track, mono: int)
    requires Shaped(s) && IsColor(s.phase) && RingHeard(s, t)
    ensures RingHeard(s.(recent := s.recent + [mono]), t.Push(mono, PlaceOf(s)))
  {
    PushedPlaces(s, t, mono);
  }

  /** A ring that is not full: the phase is too young for a window. */
  lemma YoungRing(s: State, t: Track)
    requires Shaped(s) && IsColor(s.phase) && RingHeard(s, t) && |s.recent| < s.timing.window
    requires t.places != [] && t.places[|t.places| - 1] == PlaceOf(s)
    ensures !OwnWindow(t, s.phase, s.lineIndex, Pixel(s), |t.samples| - s.timing.window, |t.samples|)
  {
    var k := |t.samples| - |s.recent| - 1;
    if k >= 0 {
      assert Before(t.places[k], s.lineIndex, Rank(s.phase));
    }
  }

  /** A full ring is a window of the phase. */
  lemma FullRing(s: State, t: Track)
    requires Shaped(s) && IsColor(s.phase) && RingHeard(s, t) && s.timing.window <= |s.recent|
    requires t.places[|t.places| - 1] == PlaceOf(s)
    ensures var n := |t.samples|;
            && OwnWindow(t, s.phase, s.lineIndex, Pixel(s), n - s.timing.window, n)
            && t.samples[n - s.timing.window..n] == Last(s.recent, s.timing.window)
  {
  }

  /** The first window of a column. */
  lemma FirstHeard(est: Estimator, t: Track, mono: int, place: Place, phase: Phase, line: int, column: int)
    requires t.Valid() && NoWindow(t, phase, line, column)
    requires OwnWindow(t.Push(mono, place), phase, line, column, |t.samples| + 1 - place.window, |t.samples| + 1)
    ensures var u, n := t.Push(mono, place), |t.samples| + 1;
            Heard(est, u, phase, line, column, FreqToIntensity(est(u.samples[n - place.window..n])))
  {
    var u, n := t.Push(mono, place), |t.samples| + 1;
    forall i, j | OwnWindow(u, phase, line, column, i, j)
      ensures n <= j
    {
      if j <= |t.samples| {
        WindowBefore(t, mono, place, phase, line, column, i, j);
      }
    }
    assert Shows(est, u, phase, line, column, FreqToIntensity(est(u.samples[n - place.window..n])), n - place.window, n);
  }

  /** What a sample in a column that is not yet filled puts there. */
  lemma OwnCell(est: Estimator, s: State, t: Track, mono: int)
    requires Ready(s) && IsColor(s.phase) && Tracked(est, s, t) && 0 <= Pixel(s) < IN_WIDTH
    requires s.count[Channel(s.phase)][Pixel(s)] == 0
    ensures var recent, u := s.recent + [mono], t.Push(mono, PlaceOf(s));
            if |recent| >= s.timing.window then
              Heard(est, u, s.phase, s.lineIndex, Pixel(s), FreqToIntensity(est(Last(recent, s.timing.window))))
            else NoWindow(u, s.phase, s.lineIndex, Pixel(s))
  {
    var s', u := s.(recent := s.recent + [mono]), t.Push(mono, PlaceOf(s));
    PhaseOfChannel(s.phase, Channel(s.phase));
    assert CellHeard(est, t, PhaseOf(Channel(s.phase)), s.lineIndex, Pixel(s), 0, s.accum[Channel(s.phase)][Pixel(s)]);
    PushedRing(s, t, mono);
    if |s'.recent| >= s.timing.window {
      FullRing(s', u);
      FirstHeard(est, t, mono, PlaceOf(s), s.phase, s.lineIndex, Pixel(s));
    } else {
      YoungRing(s', u);
      NoWindowLater(t, mono, PlaceOf(s), s.phase, s.lineIndex, Pixel(s));
    }
  }

  lemma RingRecorded(s: State, mono: int, v: int, t: Track)
    requires Shaped(s) && 0 <= Pixel(s) < IN_WIDTH && RingHeard(s.(recent := s.recent + [mono]), t)
    requires s.count[Channel(s.phase)][Pixel(s)] == 0
    ensures RingHeard(Recorded(s, mono, Pixel(s), v), t) && LastFilled(Recorded(s, mono, Pixel(s), v))
  {
  }

  /** No place is ahead of the decoder. */
  ghost predicate Ordered(s: State, t: Track) {
    t.Valid() && forall k :: 0 <= k < |t.places| ==> Before(t.places[k], s.lineIndex, Rank(s.phase) + 1)
  }

  /** Whether the sample fills the cell of its column. */
  predicate Fills(s: State)
    requires Shaped(s)
  {
    Pixel(s) != s.lastPixel && |s.recent| + 1 >= s.timing.window
  }

  lemma TakeLeaves(est: Estimator, s: State, mono: int, c: nat, x: nat)
    requires Shaped(s) && c < 3 && x < IN_WIDTH && (c != Channel(s.phase) || x != Pixel(s))
    ensures var r := TakeSample(est, s, mono); r.count[c][x] == s.count[c][x] && r.accum[c][x] == s.accum[c][x]
  {
  }

  lemma TakeFills(est: Estimator, s: State, mono: int)
    requires Shaped(s) && 0 <= Pixel(s) < IN_WIDTH
    ensures var r, c, recent := TakeSample(est, s, mono), Channel(s.phase), s.recent + [mono];
            if Fills(s) then
              && r.count[c][Pixel(s)] == s.count[c][Pixel(s)] + 1
              && r.accum[c][Pixel(s)] == s.accum[c][Pixel(s)] + FreqToIntensity(est(Last(recent, s.timing.window)))
            else r.count == s.count && r.accum == s.accum
  {
  }

  /** The cell of the sample's own column. */
  lemma TakeOwnCell(est: Estimator, s: State, t: Track, mono: int)
    requires Ready(s) && Cells(s) && IsColor(s.phase) && Tracked(est, s, t) && Pixel(s) < IN_WIDTH
    ensures Pixel(s) >= 0
    ensures var r, c, x := TakeSample(est, s, mono), Channel(s.phase), Pixel(s);
            CellHeard(est, t.Push(mono, PlaceOf(s)), s.phase, s.lineIndex, x, r.count[c][x], r.accum[c][x])
  {
    var c, x := Channel(s.phase), Pixel(s);
    PixelMonotone(s);
    PhaseOfChannel(s.phase, c);
    TakeFills(est, s, mono);
    assert CellHeard(est, t, PhaseOf(c), s.lineIndex, x, s.count[c][x], s.accum[c][x]);
    if x == s.lastPixel {
      CellLater(est, t, mono, PlaceOf(s), s.phase, s.lineIndex, x, s.count[c][x], s.accum[c][x]);
    } else {
      assert s.count[c][x] == 0 && s.accum[c][x] == 0;
      OwnCell(est, s, t, mono);
    }
  }

  lemma TakeCell(est: Estimator, s: State, t: Track, mono: int, c: nat, x: nat)
    requires Ready(s) && Cells(s) && IsColor(s.phase) && Tracked(est, s, t) && Pixel(s) < IN_WIDTH
    requires c < 3 && x < IN_WIDTH
    ensures var r := TakeSample(est, s, mono);
            CellHeard(est, t.Push(mono, PlaceOf(s)), PhaseOf(c), s.lineIndex, x, r.count[c][x], r.accum[c][x])
  {
    PhaseOfChannel(s.phase, c);
    if c != Channel(s.phase) || x != Pixel(s) {
      TakeLeaves(est, s, mono, c, x);
      OtherCellsLater(est, s, t, mono, c, x);
    } else {
      TakeOwnCell(est, s, t, mono);
    }
  }

  /** The sampling half of a colour step. */
  lemma TakeTracked(est: Estimator, s: State, t: Track, mono: int)
    requires Ready(s) && Cells(s) && IsColor(s.phase) && Tracked(est, s, t) && Pixel(s) < IN_WIDTH
    ensures Tracked(est, TakeSample(est, s, mono), t.Push(mono, PlaceOf(s)))
  {
    var r := TakeSample(est, s, mono);
    forall c, x | 0 <= c < 3 && 0 <= x < IN_WIDTH
      ensures CellHeard(est, t.Push(mono, PlaceOf(s)), PhaseOf(c), r.lineIndex, x, r.count[c][x], r.accum[c][x])
    {
      TakeCell(est, s, t, mono, c, x);
    }
    TakeRing(est, s, t, mono);
  }

  lemma TakeRing(est: Estimator, s: State, t: Track, mono: int)
    requires Ready(s) && Cells(s) && IsColor(s.phase) && Tracked(est, s, t) && Pixel(s) < IN_WIDTH
    ensures RingHeard(TakeSample(est, s, mono), t.Push(mono, PlaceOf(s))) && LastFilled(TakeSample(est, s, mono))
  {
    PixelMonotone(s);
    PushedRing(s, t, mono);
    if Fills(s) {
      var v := FreqToIntensity(est(Last(s.recent + [mono], s.timing.window)));
      TakeSampleRecords(est, s, mono, v);
      RingRecorded(s, mono, v, t.Push(mono, PlaceOf(s)));
    }
  }

  /** A line nothing was heard of yet. */
  lemma NewLine(est: Estimator, s: State, t: Track)
    requires Shaped(s) && s.count == Blank() && t.Valid()
    requires forall k :: 0 <= k < |t.places| ==> t.places[k].line < s.lineIndex
    ensures CellsHeard(est, s, t)
  {
    forall c, x | 0 <= c < 3 && 0 <= x < IN_WIDTH
      ensures NoWindow(t, PhaseOf(c), s.lineIndex, x)
    {
      Unheard(t, PhaseOf(c), s.lineIndex, x);
    }
  }

  lemma Unheard(t: Track, phase: Phase, line: int, column: int)
    requires t.Valid() && forall k :: 0 <= k < |t.places| ==> t.places[k].line < line
    ensures NoWindow(t, phase, line, column)
  {
    forall i, j
      ensures !OwnWindow(t, phase, line, column, i, j)
    {
      if 0 <= i < j <= |t.places| {
        assert t.places[i].line < line;
      }
    }
  }

  lemma PixelInRange(s: State)
    requires Shaped(s)
    ensures s.phaseSamples < s.timing.color <==> Pixel(s) < IN_WIDTH
  {
    FloorDiv(s.phaseSamples * IN_WIDTH, s.timing.color, IN_WIDTH);
  }

  /** The counting half of a colour step, given the ring if the phase goes on. */
  lemma AdvanceTracked(est: Estimator, s: State, t: Track)
    requires Shaped(s) && IsColor(s.phase) && CellsHeard(est, s, t) && Ordered(s, t)
    requires s.phaseSamples + 1 < s.timing.color ==> RingHeard(s, t) && LastFilled(s)
    ensures Tracked(est, AdvanceColor(s), t)
  {
    if s.phaseSamples + 1 >= s.timing.color && s.phase == Red {
      NewLine(est, FinishLine(s), t);
    }
  }

  lemma ColorTracked(est: Estimator, s: State, t: Track, mono: int)
    requires Ready(s) && Cells(s) && IsColor(s.phase) && Tracked(est, s, t)
    ensures Tracked(est, StepColor(est, s, mono), t.Push(mono, PlaceOf(s)))
  {
    PixelInRange(s);
    PushedPlaces(s, t, mono);
    if Pixel(s) < IN_WIDTH {
      TakeTracked(est, s, t, mono);
    } else {
      NoCellLater(est, s, t, mono);
    }
    AdvanceTracked(est, TakeSample(est, s, mono), t.Push(mono, PlaceOf(s)));
  }

  lemma WaitTracked(est: Estimator, s: State, t: Track, len: int, next: Phase)
    requires Shaped(s) && s.phase in {Porch1, Porch2, Sync, Porch3} && next == NextPhase(s.phase)
    requires CellsHeard(est, s, t) && Ordered(s, t)
    ensures Tracked(est, Wait(s, len, next), t)
  {
  }

  lemma StepTracked(est: Estimator, s: State, t: Track, mono: int)
    requires Ready(s) && Cells(s) && Tracked(est, s, t)
    ensures Tracked(est, Step(est, s, mono), t.Push(mono, PlaceOf(s)))
  {
    var u := s.(lineSamples := s.lineSamples + 1);
    LineSamplesIrrelevant(s, s.lineSamples + 1);
    if IsColor(s.phase) {
      ColorTracked(est, u, t, mono);
      assert Step(est, s, mono) == StepColor(est, u, mono);
    } else {
      NoCellLater(est, s, t, mono);
      PushedPlaces(s, t, mono);
    }
    if s.phase in {Porch1, Porch2, Sync, Porch3} {
      WaitTracked(est, u, t.Push(mono, PlaceOf(s)), PhaseLength(u.timing, u.phase), NextPhase(u.phase));
    }
  }

  lemma AdaptTracked(est: Estimator, s: State, t: Track)
    requires Ready(s) && Tracked(est, s, t)
    ensures Ready(Adapt(s)) && CellsHeard(est, Adapt(s), t) && Ordered(Adapt(s), t) && Adapt(s).phase == s.phase
  {
    AdaptReady(s);
  }

  lemma JumpTracked(est: Estimator, s: State, t: Track)
    requires Ready(s) && s.phase == Blue && CellsHeard(est, s, t) && Ordered(s, t)
    ensures Tracked(est, JumpToSync(s), t)
  {
    TimingReady(s);
  }

  lemma ResyncTracked(est: Estimator, s: State, t: Track)
    requires Ready(s) && Tracked(est, s, t)
    ensures Tracked(est, Resync(s), t)
  {
    if SyncCounts(s) {
      var u := Adapt(s).(lineSamples := 0);
      AdaptTracked(est, s, t);
      JumpTracked(est, u, t);
      assert Resync(s) == JumpToSync(u);
    }
  }

  lemma ApplyTracked(est: Estimator, s: State, events: seq<Event>, e: Event)
    requires Ready(s) && Invariant(Run(est, s, events))
    requires Tracked(est, Run(est, s, events), TrackOf(est, s, events))
    ensures Tracked(est, Run(est, s, events + [e]), TrackOf(est, s, events + [e]))
  {
    var u, t := Run(est, s, events), TrackOf(est, s, events);
    RunAppendEvent(est, s, events, e);
    TrackAppend(est, s, events, e);
    match e
    case Tick(mono) => StepTracked(est, u, t, mono);
    case Pulse => ResyncTracked(est, u, t);
  }

  /** In every run of a frame the ring and every filled cell are windows of its
      samples, under any interleaving of samples and sync pulses. */
  lemma {:induction false} RunTracked(est: Estimator, s: State, events: seq<Event>)
    requires Invariant(s) && Tracked(est, s, TrackOf(est, s, []))
    ensures Tracked(est, Run(est, s, events), TrackOf(est, s, events))
  {
    if events != [] {
      var n := |events| - 1;
      assert events == events[..n] + [events[n]];
      RunTracked(est, s, events[..n]);
      RunInvariant(est, s, events[..n]);
      ApplyTracked(est, s, events[..n], events[n]);
    }
  }

  // ----- the picture

  /** A component of a pixel is the intensity of the first window, or 0 without one. */
  ghost predicate ComponentHeard(est: Estimator, t: Track, phase: Phase, line: int, column: int, v: int) {
    Heard(est, t, phase, line, column, v) || (NoWindow(t, phase, line, column) && v == 0)
  }

  ghost predicate PixelHeard(est: Estimator, t: Track, line: int, column: int, p: Rgb) {
    && ComponentHeard(est, t, Red, line, column, p.r)
    && ComponentHeard(est, t, Green, line, column, p.g)
    && ComponentHeard(est, t, Blue, line, column, p.b)
  }

  /** A row that shows this line. */
  ghost predicate RowHeard(est: Estimator, t: Track, line: int, row: seq<Rgb>) {
    && |row| == OUT_WIDTH
    && forall x :: 0 <= x < OUT_IMAGE_WIDTH ==> PixelHeard(est, t, line, InColumn(x), row[PAD_X + x])
  }

  ghost predicate PictureHeard(est: Estimator, s: State, t: Track) {
    && |s.image| == OUT_HEIGHT && RowsDone(s.lineIndex) <= OUT_HEIGHT
    && forall y :: 0 <= y < RowsDone(s.lineIndex) ==> RowHeard(est, t, SourceLine(y), s.image[y])
  }

  /** Later lines do not change what was heard of a line. */
  lemma ComponentLater(est: Estimator, t: Track, mono: int, place: Place, phase: Phase, line: int, column: int, v: int)
    requires t.Valid() && place.line != line && ComponentHeard(est, t, phase, line, column, v)
    ensures ComponentHeard(est, t.Push(mono, place), phase, line, column, v)
  {
    if NoWindow(t, phase, line, column) {
      NoWindowLater(t, mono, place, phase, line, column);
    } else {
      HeardLater(est, t, mono, place, phase, line, column, v);
    }
  }

  lemma RowLater(est: Estimator, t: Track, mono: int, place: Place, line: int, row: seq<Rgb>)
    requires t.Valid() && place.line != line && RowHeard(est, t, line, row)
    ensures RowHeard(est, t.Push(mono, place), line, row)
  {
    forall x | 0 <= x < OUT_IMAGE_WIDTH
      ensures PixelHeard(est, t.Push(mono, place), line, InColumn(x), row[PAD_X + x])
    {
      var p := row[PAD_X + x];
      assert PixelHeard(est, t, line, InColumn(x), p);
      ComponentLater(est, t, mono, place, Red, line, InColumn(x), p.r);
      ComponentLater(est, t, mono, place, Green, line, InColumn(x), p.g);
      ComponentLater(est, t, mono, place, Blue, line, InColumn(x), p.b);
    }
  }

  lemma ComponentOf(est: Estimator, s: State, t: Track, c: nat, x: int)
    requires Shaped(s) && OnePixelPerCell(s) && CellsHeard(est, s, t) && c < 3 && 0 <= x < IN_WIDTH
    ensures ComponentHeard(est, t, PhaseOf(c), s.lineIndex, x, Mean(s.accum, s.count, c, x))
  {
    assert CellHeard(est, t, PhaseOf(c), s.lineIndex, x, s.count[c][x], s.accum[c][x]);
  }

  /** A row rendered from such cells. */
  lemma RenderedHeard(est: Estimator, s: State, t: Track)
    requires Shaped(s) && OnePixelPerCell(s) && CellsHeard(est, s, t)
    ensures RowHeard(est, t, s.lineIndex, RenderRow(s.accum, s.count))
  {
    forall x | 0 <= x < OUT_IMAGE_WIDTH
      ensures PixelHeard(est, t, s.lineIndex, InColumn(x), RenderRow(s.accum, s.count)[PAD_X + x])
    {
      assert 0 <= InColumn(x) < IN_WIDTH;
      assert RenderRow(s.accum, s.count)[PAD_X + x] == RowPixel(s.accum, s.count, PAD_X + x);
      ComponentOf(est, s, t, 0, InColumn(x));
      ComponentOf(est, s, t, 1, InColumn(x));
      ComponentOf(est, s, t, 2, InColumn(x));
    }
  }

  lemma LineEndHeard(est: Estimator, s: State, t: Track, mono: int)
    requires Invariant(s) && Tracked(est, s, t) && s.phase == Red && s.phaseSamples + 1 >= s.timing.color && Paints(s)
    ensures RowHeard(est, t.Push(mono, PlaceOf(s)), s.lineIndex, PaintedBy(est, s, Tick(mono))[0].row)
  {
    TakeSampleCells(est, s, mono);
    if Pixel(s) < IN_WIDTH {
      TakeTracked(est, s, t, mono);
    } else {
      NoCellLater(est, s, t, mono);
    }
    RenderedHeard(est, TakeSample(est, s, mono), t.Push(mono, PlaceOf(s)));
  }

  lemma PaintedBefore(y: int, line: nat)
    requires 0 <= y < RowsDone(line)
    ensures SourceLine(y) < line
  {
  }

  lemma PictureLater(est: Estimator, s: State, t: Track, mono: int, place: Place)
    requires t.Valid() && PictureHeard(est, s, t) && s.lineIndex >= 0 && place.line == s.lineIndex
    ensures PictureHeard(est, s, t.Push(mono, place))
  {
    forall y | 0 <= y < RowsDone(s.lineIndex)
      ensures RowHeard(est, t.Push(mono, place), SourceLine(y), s.image[y])
    {
      PaintedBefore(y, s.lineIndex);
      RowLater(est, t, mono, place, SourceLine(y), s.image[y]);
    }
  }

  lemma StepPicture(est: Estimator, s: State, t: Track, mono: int)
    requires Invariant(s) && Tracked(est, s, t) && PictureHeard(est, s, t)
    ensures PictureHeard(est, Step(est, s, mono), t.Push(mono, PlaceOf(s)))
  {
    PictureLater(est, s, t, mono, PlaceOf(s));
    if s.phase == Red && s.phaseSamples + 1 >= s.timing.color {
      RowOfLine(s.lineIndex);
      LineEndPaints(est, s, mono);
      if Paints(s) {
        LineEndHeard(est, s, t, mono);
      }
    } else {
      PictureKept(est, s, Tick(mono));
    }
  }

  lemma ApplyPicture(est: Estimator, s: State, events: seq<Event>, e: Event)
    requires Ready(s) && Invariant(Run(est, s, events))
    requires Tracked(est, Run(est, s, events), TrackOf(est, s, events))
    requires PictureHeard(est, Run(est, s, events), TrackOf(est, s, events))
    ensures PictureHeard(est, Run(est, s, events + [e]), TrackOf(est, s, events + [e]))
  {
    RunAppendEvent(est, s, events, e);
    TrackAppend(est, s, events, e);
    match e
    case Tick(mono) => StepPicture(est, Run(est, s, events), TrackOf(est, s, events), mono);
    case Pulse => PictureKept(est, Run(est, s, events), e);
  }

  lemma {:induction false} RunPicture(est: Estimator, s: State, events: seq<Event>)
    requires Invariant(s) && Tracked(est, s, TrackOf(est, s, [])) && PictureHeard(est, s, TrackOf(est, s, []))
    ensures PictureHeard(est, Run(est, s, events), TrackOf(est, s, events))
  {
    if events != [] {
      var n := |events| - 1;
      assert events == events[..n] + [events[n]];
      RunPicture(est, s, events[..n]);
      RunTracked(est, s, events[..n]);
      RunInvariant(est, s, events[..n]);
      ApplyPicture(est, s, events[..n], events[n]);
    }
  }

  lemma StartTracked(est: Estimator, s: State)
    requires Ready(s)
    ensures Ready(OnSync(s, false))
    ensures Tracked(est, OnSync(s, false), TrackOf(est, OnSync(s, false), []))
    ensures PictureHeard(est, OnSync(s, false), TrackOf(est, OnSync(s, false), []))
  {
    StartReady(s);
    StartCells(s);
    NewLine(est, OnSync(s, false), TrackOf(est, OnSync(s, false), []));
  }

  /** The picture of every run, resynchronised or not: in the row painted from a line,
      each component of each pixel is the intensity of the first full window of
      consecutive samples that were all taken in the phase of that colour of that
      line, the last one in that pixel's column, and 0 if there is none. When the frame
      is done this holds of all rows. */
  lemma PixelsAreHeard(est: Estimator, s: State, events: seq<Event>)
    requires Ready(s) && Ready(OnSync(s, false))
    ensures var r := Run(est, OnSync(s, false), events);
            && PictureHeard(est, r, TrackOf(est, OnSync(s, false), events))
            && (r.frameDone ==> RowsDone(r.lineIndex) == OUT_HEIGHT)
  {
    StartInvariant(s);
    StartTracked(est, s);
    RunInvariant(est, OnSync(s, false), events);
    RunPicture(est, OnSync(s, false), events);
  }
}
