/** An undisturbed line: from any state at its start, the row it paints as a
    function of its samples. */
module ScottieLine {
  import opened ScottieModel
  import opened ScottieRuns
  import opened ScottieFrame
  import opened ScottiePicture

  // ----- runs of samples compose

  lemma RunFurther(est: Estimator, s: State, m: seq<int>, a: int, b: int)
    requires Ready(s) && 0 <= a <= b <= |m|
    ensures Run(est, s, TickAll(m[..b])) == Run(est, Run(est, s, TickAll(m[..a])), TickAll(m[a..b]))
  {
    assert TickAll(m[..b]) == TickAll(m[..a]) + TickAll(m[a..b]);
    RunConcat(est, s, TickAll(m[..a]), TickAll(m[a..b]));
  }

  // ----- one phase

  /** The part of a state that the rest of the frame depends on when no sync
      pulse comes: outside colour phases the pixel ring does not matter. */
  datatype View = View(phase: Phase, phaseSamples: int, timing: Timing, lineIndex: int,
                       image: seq<seq<Rgb>>, lastOutputY: int,
                       accum: seq<seq<int>>, count: seq<seq<int>>, recent: seq<int>, lastPixel: int)

  function ViewOf(u: State): View {
    View(u.phase, u.phaseSamples, u.timing, u.lineIndex, u.image, u.lastOutputY, u.accum, u.count,
         if IsColor(u.phase) then u.recent else [], if IsColor(u.phase) then u.lastPixel else -1)
  }

  /** A state at the start of phase `p` of the line that `s` is in, with these
      cells recorded so far. */
  ghost predicate At(u: State, s: State, p: Phase, accum: seq<seq<int>>, count: seq<seq<int>>) {
    ViewOf(u) == View(p, 0, s.timing, s.lineIndex, s.image, s.lastOutputY, accum, count, [], -1)
  }

  lemma {:induction false} WithinWait(est: Estimator, u: State, m: seq<int>)
    requires Ready(u) && u.phase in {Porch1, Porch2, Sync, Porch3}
    requires u.phaseSamples + |m| < PhaseLength(u.timing, u.phase)
    ensures Run(est, u, TickAll(m)) == u.(phaseSamples := u.phaseSamples + |m|, lineSamples := u.lineSamples + |m|)
  {
    if m != [] {
      WithinWait(est, u, m[..|m| - 1]);
      RunOneMore(est, u, m);
    }
  }

  /** The state after the `n` samples that end a porch or sync phase. */
  function WaitOver(u: State, n: nat): State {
    var t := u.(phase := NextPhase(u.phase), phaseSamples := 0, lineSamples := u.lineSamples + n);
    if IsColor(NextPhase(u.phase)) then ResetPixel(t) else t
  }

  lemma LastWait(est: Estimator, u: State, n: nat, mono: int, before: State, v: State)
    requires Ready(u) && u.phase in {Porch1, Porch2, Sync, Porch3}
    requires u.phaseSamples + n == PhaseLength(u.timing, u.phase) && n >= 1
    requires before == u.(phaseSamples := u.phaseSamples + (n - 1), lineSamples := u.lineSamples + (n - 1))
    requires v == Step(est, before, mono)
    ensures v == WaitOver(u, n)
  {
  }

  /** The rest of a porch or sync phase. */
  lemma WaitRest(est: Estimator, u: State, m: seq<int>, v: State)
    requires Ready(u) && u.phase in {Porch1, Porch2, Sync, Porch3}
    requires m != [] && u.phaseSamples + |m| == PhaseLength(u.timing, u.phase)
    requires v == Run(est, u, TickAll(m))
    ensures v == WaitOver(u, |m|)
  {
    var init := m[..|m| - 1];
    WithinWait(est, u, init);
    RunOneMore(est, u, m);
    LastWait(est, u, |m|, m[|m| - 1], Run(est, u, TickAll(init)), v);
  }

  lemma WaitPhase(est: Estimator, u: State, s: State, m: seq<int>, p: Phase, accum: seq<seq<int>>, count: seq<seq<int>>)
    requires Ready(u) && At(u, s, p, accum, count) && p in {Porch1, Porch2, Sync, Porch3}
    requires |m| == PhaseLength(s.timing, p)
    ensures At(Run(est, u, TickAll(m)), s, NextPhase(p), accum, count)
  {
    TimingReady(u);
    WaitRest(est, u, m, Run(est, u, TickAll(m)));
  }

  function ZeroRow(): (row: seq<int>)
    ensures |row| == IN_WIDTH
  {
    seq(IN_WIDTH, _ => 0)
  }

  lemma GreenOrBluePhase(est: Estimator, u: State, s: State, m: seq<int>, p: Phase,
                         accum: seq<seq<int>>, count: seq<seq<int>>, v: State)
    requires Ready(u) && At(u, s, p, accum, count) && (p == Green || p == Blue)
    requires accum[Channel(p)] == count[Channel(p)] == ZeroRow()
    requires |m| == s.timing.color >= 958 && v == Run(est, u, TickAll(m))
    ensures At(v, s, NextPhase(p),
               accum[Channel(p) := PhaseAccum(est, m, s.timing.color, s.timing.color)],
               count[Channel(p) := PhaseCount(s.timing.color, s.timing.color)])
  {
    ColorPhase(est, u, m);
  }

  /** The row of a line, from the cells of its three channels. */
  function PhaseRows(est: Estimator, green: seq<int>, blue: seq<int>, red: seq<int>): (row: seq<Rgb>)
    requires 958 <= |green| == |blue| == |red|
    ensures |row| == OUT_WIDTH
  {
    var n := |green|;
    RenderRow([PhaseAccum(est, green, n, n), PhaseAccum(est, blue, n, n), PhaseAccum(est, red, n, n)],
              [PhaseCount(n, n), PhaseCount(n, n), PhaseCount(n, n)])
  }

  /** `r` is the state after the line of `s`, with `row` painted if it paints. */
  ghost predicate LineDone(r: State, s: State, row: seq<Rgb>)
    requires |s.image| == OUT_HEIGHT
  {
    && r.lineIndex == s.lineIndex + 1
    && r.image == if Paints(s) then s.image[OutY(s.lineIndex) := row] else s.image
  }

  lemma RedPhase(est: Estimator, u: State, s: State, m: seq<int>, accum: seq<seq<int>>, count: seq<seq<int>>)
    requires Ready(u) && At(u, s, Red, accum, count) && accum[2] == count[2] == ZeroRow()
    requires |m| == s.timing.color >= 958
    ensures LineDone(Run(est, u, TickAll(m)), s,
                     RenderRow(accum[2 := PhaseAccum(est, m, s.timing.color, s.timing.color)],
                               count[2 := PhaseCount(s.timing.color, s.timing.color)]))
  {
    ColorPhase(est, u, m);
    assert Paints(u) == Paints(s);
  }

  // ----- one line

  /** Lengths long enough for every pixel to be seen; all reachable ones are. */
  predicate Long(t: Timing) {
    t.porch >= 1 && t.sync >= 1 && t.color >= 958
  }

  /** Where a phase of an undisturbed line begins. */
  function BeginsAt(t: Timing, p: Phase): int {
    match p
    case Idle => 0
    case Porch1 => 0
    case Green => t.porch
    case Porch2 => t.porch + t.color
    case Blue => 2 * t.porch + t.color
    case Sync => 2 * t.porch + 2 * t.color
    case Porch3 => 2 * t.porch + 2 * t.color + t.sync
    case Red => 3 * t.porch + 2 * t.color + t.sync
  }

  /** The samples of the colour phase that begins at `at`. */
  function PhaseAt(t: Timing, m: seq<int>, at: int): (r: seq<int>)
    requires Long(t) && 0 <= at && at + t.color <= |m|
    ensures |r| == t.color
  {
    m[at..at + t.color]
  }

  /** The row an undisturbed line with samples `m` shows. */
  function LineRow(est: Estimator, t: Timing, m: seq<int>): (row: seq<Rgb>)
    requires Long(t) && |m| == t.LineLength()
    ensures |row| == OUT_WIDTH
  {
    PhaseRows(est, PhaseAt(t, m, BeginsAt(t, Green)), PhaseAt(t, m, BeginsAt(t, Blue)), PhaseAt(t, m, BeginsAt(t, Red)))
  }

  /** `u` is the state after the first `at` samples of the line. */
  ghost predicate After(est: Estimator, s: State, m: seq<int>, at: int, u: State) {
    Ready(s) && 0 <= at <= |m| && u == Run(est, s, TickAll(m[..at]))
  }

  lemma RunOn(est: Estimator, s: State, m: seq<int>, a: int, b: int, u: State) returns (v: State)
    requires After(est, s, m, a, u) && a <= b <= |m|
    ensures After(est, s, m, b, v) && Ready(u) && v == Run(est, u, TickAll(m[a..b]))
  {
    RunFurther(est, s, m, a, b);
    v := Run(est, s, TickAll(m[..b]));
  }

  lemma AfterWait(est: Estimator, s: State, m: seq<int>, at: int, to: int, p: Phase,
                  accum: seq<seq<int>>, count: seq<seq<int>>, u: State) returns (v: State)
    requires After(est, s, m, at, u) && At(u, s, p, accum, count)
    requires p in {Porch1, Porch2, Sync, Porch3}
    requires at <= to <= |m| && to - at == PhaseLength(s.timing, p)
    ensures After(est, s, m, to, v) && At(v, s, NextPhase(p), accum, count)
  {
    v := RunOn(est, s, m, at, to, u);
    WaitPhase(est, u, s, m[at..to], p, accum, count);
  }

  lemma AfterColor(est: Estimator, s: State, m: seq<int>, at: int, to: int, phase: seq<int>, p: Phase,
                   accum: seq<seq<int>>, count: seq<seq<int>>, u: State) returns (v: State)
    requires After(est, s, m, at, u) && At(u, s, p, accum, count)
    requires (p == Green || p == Blue) && |phase| == s.timing.color >= 958
    requires at <= to <= |m| && phase == m[at..to]
    requires accum[Channel(p)] == count[Channel(p)] == ZeroRow()
    ensures After(est, s, m, to, v)
    ensures At(v, s, NextPhase(p),
               accum[Channel(p) := PhaseAccum(est, phase, s.timing.color, s.timing.color)],
               count[Channel(p) := PhaseCount(s.timing.color, s.timing.color)])
  {
    v := RunOn(est, s, m, at, to, u);
    GreenOrBluePhase(est, u, s, phase, p, accum, count, v);
  }

  /** The last colour phase of a line, whose row is then complete. */
  lemma AfterRed(est: Estimator, s: State, m: seq<int>, accum: seq<seq<int>>, count: seq<seq<int>>, u: State,
                 red: seq<int>, row: seq<Rgb>)
    requires Long(s.timing) && |m| == s.timing.LineLength()
    requires After(est, s, m, BeginsAt(s.timing, Red), u) && At(u, s, Red, accum, count)
    requires accum[2] == count[2] == ZeroRow()
    requires red == PhaseAt(s.timing, m, BeginsAt(s.timing, Red))
    requires row == RenderRow(accum[2 := PhaseAccum(est, red, s.timing.color, s.timing.color)],
                              count[2 := PhaseCount(s.timing.color, s.timing.color)])
    ensures LineDone(Run(est, s, TickAll(m)), s, row)
  {
    var v := RunOn(est, s, m, BeginsAt(s.timing, Red), |m|, u);
    assert m[..|m|] == m && m[BeginsAt(s.timing, Red)..|m|] == red;
    RedPhase(est, u, s, red, accum, count);
  }

  /** The row of a channel once phase `p` begins: complete or still empty. */
  function RowBefore(est: Estimator, t: Timing, m: seq<int>, c: nat, p: Phase): (row: seq<int>)
    requires Long(t) && |m| == t.LineLength()
    ensures |row| == IN_WIDTH
  {
    if c == 0 && Rank(p) > 1 then PhaseAccum(est, PhaseAt(t, m, BeginsAt(t, Green)), t.color, t.color)
    else if c == 1 && Rank(p) > 3 then PhaseAccum(est, PhaseAt(t, m, BeginsAt(t, Blue)), t.color, t.color)
    else ZeroRow()
  }

  function AccumBefore(est: Estimator, t: Timing, m: seq<int>, p: Phase): (cells: seq<seq<int>>)
    requires Long(t) && |m| == t.LineLength()
    ensures Grid(cells)
  {
    [RowBefore(est, t, m, 0, p), RowBefore(est, t, m, 1, p), ZeroRow()]
  }

  function CountBefore(t: Timing, p: Phase): (cells: seq<seq<int>>)
    ensures Grid(cells)
  {
    [if Rank(p) > 1 then PhaseCount(t.color, t.color) else ZeroRow(),
     if Rank(p) > 3 then PhaseCount(t.color, t.color) else ZeroRow(),
     ZeroRow()]
  }

  lemma CellsGrow(est: Estimator, t: Timing, m: seq<int>, p: Phase)
    requires Long(t) && |m| == t.LineLength() && (p == Green || p == Blue)
    ensures var c := Channel(p);
            && AccumBefore(est, t, m, p)[c] == CountBefore(t, p)[c] == ZeroRow()
            && AccumBefore(est, t, m, NextPhase(p))
            == AccumBefore(est, t, m, p)[c := PhaseAccum(est, PhaseAt(t, m, BeginsAt(t, p)), t.color, t.color)]
            && CountBefore(t, NextPhase(p)) == CountBefore(t, p)[c := PhaseCount(t.color, t.color)]
  {
  }

  lemma CellsKept(est: Estimator, t: Timing, m: seq<int>, p: Phase)
    requires Long(t) && |m| == t.LineLength() && p in {Porch1, Porch2, Sync, Porch3}
    ensures AccumBefore(est, t, m, NextPhase(p)) == AccumBefore(est, t, m, p)
    ensures CountBefore(t, NextPhase(p)) == CountBefore(t, p)
  {
  }

  /** `u` is where an undisturbed line begins phase `p`. */
  ghost predicate Begins(est: Estimator, s: State, m: seq<int>, p: Phase, u: State)
    requires Long(s.timing) && |m| == s.timing.LineLength()
  {
    && After(est, s, m, BeginsAt(s.timing, p), u)
    && At(u, s, p, AccumBefore(est, s.timing, m, p), CountBefore(s.timing, p))
  }

  lemma NextBegins(t: Timing, p: Phase)
    requires p != Idle && p != Red
    ensures BeginsAt(t, NextPhase(p)) == BeginsAt(t, p) + PhaseLength(t, p)
  {
  }

  lemma ThroughColor(est: Estimator, s: State, m: seq<int>, p: Phase, u: State) returns (v: State)
    requires Long(s.timing) && |m| == s.timing.LineLength() && (p == Green || p == Blue)
    requires Begins(est, s, m, p, u)
    ensures Begins(est, s, m, NextPhase(p), v)
  {
    var t := s.timing;
    CellsGrow(est, t, m, p);
    NextBegins(t, p);
    var phase := PhaseAt(t, m, BeginsAt(t, p));
    v := AfterColor(est, s, m, BeginsAt(t, p), BeginsAt(t, NextPhase(p)), phase, p,
                    AccumBefore(est, t, m, p), CountBefore(t, p), u);
  }

  lemma ThroughWait(est: Estimator, s: State, m: seq<int>, p: Phase, u: State) returns (v: State)
    requires Long(s.timing) && |m| == s.timing.LineLength() && p in {Porch1, Porch2, Sync, Porch3}
    requires Begins(est, s, m, p, u)
    ensures Begins(est, s, m, NextPhase(p), v)
  {
    var t := s.timing;
    CellsKept(est, t, m, p);
    NextBegins(t, p);
    v := AfterWait(est, s, m, BeginsAt(t, p), BeginsAt(t, NextPhase(p)), p,
                   AccumBefore(est, t, m, NextPhase(p)), CountBefore(t, NextPhase(p)), u);
  }

  function PreviousPhase(p: Phase): Phase {
    match p
    case Idle => Idle
    case Porch1 => Idle
    case Green => Porch1
    case Porch2 => Green
    case Blue => Porch2
    case Sync => Blue
    case Porch3 => Sync
    case Red => Porch3
  }

  lemma {:induction false} UpTo(est: Estimator, s: State, m: seq<int>, p: Phase) returns (v: State)
    requires Ready(s) && At(s, s, Porch1, Blank(), Blank()) && Long(s.timing) && |m| == s.timing.LineLength()
    requires p != Idle
    ensures Begins(est, s, m, p, v)
    decreases Rank(p)
  {
    if p == Porch1 {
      assert AccumBefore(est, s.timing, m, p) == Blank();
      assert CountBefore(s.timing, p) == Blank();
      assert m[..0] == [];
      v := s;
    } else {
      v := UpTo(est, s, m, PreviousPhase(p));
      if IsColor(PreviousPhase(p)) {
        v := ThroughColor(est, s, m, PreviousPhase(p), v);
      } else {
        v := ThroughWait(est, s, m, PreviousPhase(p), v);
      }
    }
  }

  lemma ThirdRow<T>(cells: seq<T>, row: T)
    requires |cells| == 3
    ensures cells[2 := row] == [cells[0], cells[1], row]
  {
  }

  /** The row of a line is rendered from its three phases. */
  lemma LineRowIs(est: Estimator, t: Timing, m: seq<int>, red: seq<int>)
    requires Long(t) && |m| == t.LineLength() && red == PhaseAt(t, m, BeginsAt(t, Red))
    ensures AccumBefore(est, t, m, Red)[2] == CountBefore(t, Red)[2] == ZeroRow()
    ensures LineRow(est, t, m)
         == RenderRow(AccumBefore(est, t, m, Red)[2 := PhaseAccum(est, red, t.color, t.color)],
                      CountBefore(t, Red)[2 := PhaseCount(t.color, t.color)])
  {
    ThirdRow(AccumBefore(est, t, m, Red), PhaseAccum(est, red, t.color, t.color));
    ThirdRow(CountBefore(t, Red), PhaseCount(t.color, t.color));
  }

  /** A whole line from its first sample: it paints its row, if it paints, with
      the intensities of its own samples. */
  lemma WholeLine(est: Estimator, s: State, m: seq<int>)
    requires Ready(s) && At(s, s, Porch1, Blank(), Blank()) && Long(s.timing) && |m| == s.timing.LineLength()
    ensures LineDone(Run(est, s, TickAll(m)), s, LineRow(est, s.timing, m))
  {
    var t := s.timing;
    var u := UpTo(est, s, m, Red);
    var red := PhaseAt(t, m, BeginsAt(t, Red));
    LineRowIs(est, t, m, red);
    AfterRed(est, s, m, AccumBefore(est, t, m, Red), CountBefore(t, Red), u, red, LineRow(est, t, m));
  }
}
