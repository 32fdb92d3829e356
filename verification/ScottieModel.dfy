/** The Scottie-1 line and phase machine: one state, one step a sample, one
    resynchronisation a sync pulse. Frequencies come from a black box; float
    scales are modelled over the reals. */
module ScottieModel {
  import opened RingWindow
  import opened Sstv

  const LINE_COUNT := 256
  const IN_WIDTH := 320
  const OUT_WIDTH := 288
  const OUT_HEIGHT := 192
  const OUT_IMAGE_WIDTH := 240
  const PAD_X := (OUT_WIDTH - OUT_IMAGE_WIDTH) / 2

  const BASE_PORCH: int := (SAMPLE_RATE as real * (1.5 / 1000.0)).Floor
  const BASE_SYNC: int := (SAMPLE_RATE as real * (9.0 / 1000.0)).Floor
  const BASE_COLOR: int := (SAMPLE_RATE as real * (138.24 / 1000.0)).Floor

  lemma BaseTimings()
    ensures BASE_PORCH == 66 && BASE_SYNC == 396 && BASE_COLOR == 6096
  {
  }

  // ----- timing

  datatype Timing = Timing(porch: int, sync: int, color: int, window: int) {
    function LineLength(): int {
      3 * porch + 3 * color + sync
    }
  }

  /** How many samples the frequency of one pixel is estimated from. */
  function PixelWindow(color: int): (w: int)
    ensures 8 <= w <= 64
  {
    var w := (color as real / IN_WIDTH as real * 3.0).Floor;
    if w < 8 then 8 else if w > 64 then 64 else w
  }

  function Rescale(base: int, scale: real): int {
    (base as real * scale + 0.5).Floor
  }

  function TimingAt(scale: real): Timing {
    var color := Rescale(BASE_COLOR, scale);
    Timing(Rescale(BASE_PORCH, scale), Rescale(BASE_SYNC, scale), color, PixelWindow(color))
  }

  const MIN_SCALE := 0.95
  const MAX_SCALE := 1.05

  /** The samples of one line at the nominal rate. */
  const EXPECTED: int := BASE_PORCH * 3 + BASE_COLOR * 3 + BASE_SYNC

  function ClampScale(x: real): real {
    if x < MIN_SCALE then MIN_SCALE else if x > MAX_SCALE then MAX_SCALE else x
  }

  // ----- frequency to intensity

  /** The frequency estimate of one window of samples. */
  type Estimator = seq<int> -> real

  function FreqToIntensity(freq: real): (v: int)
    ensures 0 <= v <= 255
  {
    var f := if freq < 1500.0 then 1500.0 else if freq > 2300.0 then 2300.0 else freq;
    ((f - 1500.0) / 800.0 * 255.0 + 0.5).Floor
  }

  // ----- state

  datatype Phase = Idle | Porch1 | Green | Porch2 | Blue | Sync | Porch3 | Red

  datatype Rgb = Rgb(r: int, g: int, b: int)

  const PANEL := Rgb(0xFA, 0xF0, 0xD8)

  datatype State = State(
    phase: Phase, phaseSamples: int, lineIndex: int, lineSamples: int, frameDone: bool,
    timing: Timing, scale: real, offset: int,
    recent: seq<int>, lastPixel: int,
    accum: seq<seq<int>>, count: seq<seq<int>>,
    image: seq<seq<Rgb>>, lastOutputY: int)

  predicate Grid(cells: seq<seq<int>>) {
    |cells| == 3 && forall c :: 0 <= c < 3 ==> |cells[c]| == IN_WIDTH
  }

  predicate Shaped(s: State) {
    && Grid(s.accum) && Grid(s.count)
    && |s.image| == OUT_HEIGHT
    && s.timing.color > 0 && 8 <= s.timing.window <= 64
    && s.phaseSamples >= 0 && s.lineIndex >= 0
  }

  function Blank(): (cells: seq<seq<int>>)
    ensures Grid(cells)
  {
    seq(3, _ => seq(IN_WIDTH, _ => 0))
  }

  function BlankImage(): (image: seq<seq<Rgb>>)
    ensures |image| == OUT_HEIGHT
  {
    seq(OUT_HEIGHT, _ => seq(OUT_WIDTH, _ => PANEL))
  }

  function Channel(p: Phase): (c: nat)
    ensures c < 3
  {
    if p == Green then 0 else if p == Blue then 1 else 2
  }

  predicate IsColor(p: Phase) {
    p == Green || p == Blue || p == Red
  }

  /** The decoder as constructed. */
  function Start(): State {
    State(Idle, 0, 0, 0, false, TimingAt(1.0), 1.0, 0, [], -1, Blank(), Blank(), BlankImage(), -1)
  }

  // ----- small updates

  function ResetPixel(s: State): State {
    s.(lastPixel := -1, recent := [])
  }

  /** New lengths; the pixel ring is replaced only when its size changes. */
  function ApplyScale(s: State): State {
    var t := TimingAt(s.scale);
    var u := s.(timing := t);
    if t.window != s.timing.window then ResetPixel(u) else u
  }

  function StartFrame(s: State): State {
    var t := ApplyScale(s.(lineIndex := 0, phase := Porch1, phaseSamples := 0, lineSamples := 0));
    ResetPixel(t).(accum := Blank(), count := Blank(), frameDone := false, lastOutputY := -1, image := BlankImage())
  }

  /** Jumps to the place in Sync, Porch3 or Red that `offset` samples after the
      start of the sync pulse has. */
  function JumpToSync(s: State): State {
    var t := s.timing;
    if s.offset < t.sync then s.(phase := Sync, phaseSamples := s.offset)
    else if s.offset < t.sync + t.porch then s.(phase := Porch3, phaseSamples := s.offset - t.sync)
    else
      var n := s.offset - t.sync - t.porch;
      ResetPixel(s.(phase := Red, phaseSamples := if n < 0 then 0 else if n > t.color then t.color else n))
  }

  /** The clamp of a negative place in Red is dead: the branch is only taken for
      offsets past the sync pulse and the porch. */
  lemma NegativeClampIsDead(s: State)
    requires s.offset >= s.timing.sync && s.offset >= s.timing.sync + s.timing.porch
    ensures var n := s.offset - s.timing.sync - s.timing.porch;
            var entry := if n > s.timing.color then s.timing.color else n;
            JumpToSync(s) == ResetPixel(s.(phase := Red, phaseSamples := entry))
  {
  }

  /** The timing scale after a line that lasted `lineSamples`. */
  function Adapt(s: State): State {
    if s.lineSamples <= 0 then s else
    var a := s.lineSamples - s.offset;
    var adjusted := if a < 1 then 1 else a;
    if (EXPECTED as real * (1.0 - 0.12)).Floor <= adjusted <= (EXPECTED as real * (1.0 + 0.12)).Floor then
      var ratio := ClampScale(EXPECTED as real / adjusted as real);
      ApplyScale(s.(scale := s.scale * 0.98 + ratio * 0.02))
    else s
  }

  /** A sync pulse while receiving counts only in the last quarter of Blue. */
  predicate SyncCounts(s: State) {
    var guard := if s.timing.color / 4 < 1 then 1 else s.timing.color / 4;
    s.phase == Blue && s.phaseSamples >= s.timing.color - guard
  }

  function Resync(s: State): State {
    if SyncCounts(s) then JumpToSync(Adapt(s).(lineSamples := 0)) else s
  }

  /** A sync pulse when nothing is being received starts a frame. */
  function OnSync(s: State, receiving: bool): State {
    if receiving then Resync(s) else JumpToSync(StartFrame(s))
  }

  // ----- rendering

  /** The output row line `line` belongs to. */
  function OutY(line: int): int {
    line * OUT_HEIGHT / LINE_COUNT
  }

  function InColumn(outX: nat): int {
    outX * IN_WIDTH / OUT_IMAGE_WIDTH
  }

  function Mean(accum: seq<seq<int>>, count: seq<seq<int>>, c: nat, x: int): int
    requires Grid(accum) && Grid(count) && c < 3 && 0 <= x < IN_WIDTH
  {
    if count[c][x] != 0 then accum[c][x] / count[c][x] else 0
  }

  function RowPixel(accum: seq<seq<int>>, count: seq<seq<int>>, x: nat): Rgb
    requires Grid(accum) && Grid(count)
  {
    if x < PAD_X || x >= PAD_X + OUT_IMAGE_WIDTH then PANEL else
    var inX := InColumn(x - PAD_X);
    Rgb(Mean(accum, count, 2, inX), Mean(accum, count, 0, inX), Mean(accum, count, 1, inX))
  }

  function RenderRow(accum: seq<seq<int>>, count: seq<seq<int>>): (row: seq<Rgb>)
    requires Grid(accum) && Grid(count)
    ensures |row| == OUT_WIDTH
  {
    seq(OUT_WIDTH, x requires 0 <= x < OUT_WIDTH => RowPixel(accum, count, x))
  }

  /** Whether finishing the current line paints a row. */
  predicate Paints(s: State) {
    var y := OutY(s.lineIndex);
    y != s.lastOutputY && 0 <= y < OUT_HEIGHT
  }

  function RenderLine(s: State): (r: State)
    requires Shaped(s)
    ensures Shaped(r)
    ensures r.scale == s.scale && r.timing == s.timing && r.offset == s.offset
  {
    if !Paints(s) then s else
    var y := OutY(s.lineIndex);
    s.(lastOutputY := y, image := s.image[y := RenderRow(s.accum, s.count)])
  }

  // ----- one sample

  function Pixel(s: State): int
    requires s.timing.color > 0
  {
    s.phaseSamples * IN_WIDTH / s.timing.color
  }

  function Add(cells: seq<seq<int>>, c: nat, x: int, v: int): (r: seq<seq<int>>)
    requires Grid(cells) && c < 3 && 0 <= x < IN_WIDTH
    ensures Grid(r)
  {
    cells[c := cells[c][x := cells[c][x] + v]]
  }

  /** Sample `mono` records intensity `v` in column `pixel`. */
  function Recorded(s: State, mono: int, pixel: int, v: int): (r: State)
    requires Shaped(s) && 0 <= pixel < IN_WIDTH
    ensures Shaped(r)
    ensures r.scale == s.scale && r.timing == s.timing && r.offset == s.offset
  {
    var c := Channel(s.phase);
    s.(recent := s.recent + [mono], lastPixel := pixel,
       accum := Add(s.accum, c, pixel, v), count := Add(s.count, c, pixel, 1))
  }

  /** A sample that falls on column `pixel`: it is pushed, and the first sample
      of a column for which the window is full records the window's intensity. */
  function TakeAt(est: Estimator, s: State, pixel: int, mono: int): (r: State)
    requires Shaped(s) && 0 <= pixel < IN_WIDTH
    ensures Shaped(r)
    ensures r.scale == s.scale && r.timing == s.timing && r.offset == s.offset
  {
    var recent := s.recent + [mono];
    if pixel != s.lastPixel && |recent| >= s.timing.window then
      Recorded(s, mono, pixel, FreqToIntensity(est(Last(recent, s.timing.window))))
    else s.(recent := recent)
  }

  /** The sampling half of a colour step. */
  function TakeSample(est: Estimator, s: State, mono: int): (r: State)
    requires Shaped(s)
    ensures Shaped(r)
    ensures r.scale == s.scale && r.timing == s.timing && r.offset == s.offset
  {
    if 0 <= Pixel(s) < IN_WIDTH then TakeAt(est, s, Pixel(s), mono) else s
  }

  lemma TakeSampleRecords(est: Estimator, u: State, mono: int, v: int)
    requires Shaped(u) && 0 <= Pixel(u) < IN_WIDTH && Pixel(u) != u.lastPixel
    requires |u.recent| + 1 >= u.timing.window
    requires v == FreqToIntensity(est(Last(u.recent + [mono], u.timing.window)))
    ensures TakeSample(est, u, mono) == Recorded(u, mono, Pixel(u), v)
  {
  }

  /** The end of the Red phase: the line is rendered and the next one begins. */
  function FinishLine(s: State): (r: State)
    requires Shaped(s)
    ensures Shaped(r)
    ensures r.scale == s.scale && r.timing == s.timing && r.offset == s.offset
  {
    var t := RenderLine(s).(lineIndex := s.lineIndex + 1, accum := Blank(), count := Blank(), phaseSamples := 0);
    if t.lineIndex >= LINE_COUNT then t.(frameDone := true, phase := Idle)
    else ResetPixel(t.(phase := Porch1))
  }

  /** The counting half of a colour step. */
  function AdvanceColor(s: State): (r: State)
    requires Shaped(s)
    ensures Shaped(r)
    ensures r.scale == s.scale && r.timing == s.timing && r.offset == s.offset
  {
    if s.phaseSamples + 1 < s.timing.color then s.(phaseSamples := s.phaseSamples + 1)
    else if s.phase == Green then s.(phase := Porch2, phaseSamples := 0)
    else if s.phase == Blue then s.(phase := Sync, phaseSamples := 0)
    else FinishLine(s)
  }

  function StepColor(est: Estimator, s: State, mono: int): (r: State)
    requires Shaped(s)
    ensures Shaped(r)
    ensures r.scale == s.scale && r.timing == s.timing && r.offset == s.offset
  {
    AdvanceColor(TakeSample(est, s, mono))
  }

  /** How many samples a phase lasts. */
  function PhaseLength(t: Timing, p: Phase): int {
    match p
    case Idle => 0
    case Porch1 => t.porch
    case Green => t.color
    case Porch2 => t.porch
    case Blue => t.color
    case Sync => t.sync
    case Porch3 => t.porch
    case Red => t.color
  }

  /** The phase that follows; after Red, that of the next line. */
  function NextPhase(p: Phase): Phase {
    match p
    case Idle => Idle
    case Porch1 => Green
    case Green => Porch2
    case Porch2 => Blue
    case Blue => Sync
    case Sync => Porch3
    case Porch3 => Red
    case Red => Porch1
  }

  /** A porch or sync phase of `len` samples, followed by `next`. */
  function Wait(s: State, len: int, next: Phase): (r: State)
    requires Shaped(s)
    ensures Shaped(r)
    ensures r.scale == s.scale && r.timing == s.timing && r.offset == s.offset
  {
    if s.phaseSamples + 1 < len then s.(phaseSamples := s.phaseSamples + 1)
    else
      var t := s.(phase := next, phaseSamples := 0);
      if IsColor(next) then ResetPixel(t) else t
  }

  function Step(est: Estimator, s: State, mono: int): (r: State)
    requires Shaped(s)
    ensures Shaped(r)
    ensures r.scale == s.scale && r.timing == s.timing && r.offset == s.offset
  {
    var t := s.(lineSamples := s.lineSamples + 1);
    if s.phase == Idle then s
    else if IsColor(s.phase) then StepColor(est, t, mono)
    else Wait(t, PhaseLength(t.timing, t.phase), NextPhase(t.phase))
  }

  // ----- runs

  /** A sample, or a sync pulse while receiving. */
  datatype Event = Tick(mono: int) | Pulse

  function Apply(est: Estimator, s: State, e: Event): State
    requires Shaped(s)
  {
    match e
    case Tick(mono) => Step(est, s, mono)
    case Pulse => Resync(s)
  }

  lemma RescaleBounds(base: int, scale: real, lo: int, hi: int)
    requires base > 0 && MIN_SCALE <= scale <= MAX_SCALE
    requires lo as real <= base as real * MIN_SCALE + 0.5 && base as real * MAX_SCALE + 0.5 < (hi + 1) as real
    ensures lo <= Rescale(base, scale) <= hi
  {
    var b := base as real;
    assert b * MIN_SCALE <= b * scale <= b * MAX_SCALE;
  }

  /** The lengths any reachable scale can give. */
  lemma PositiveTiming(scale: real)
    requires MIN_SCALE <= scale <= MAX_SCALE
    ensures var t := TimingAt(scale);
            && 63 <= t.porch <= 69 && 376 <= t.sync <= 416 && 5791 <= t.color <= 6401
            && t.window == 3 * t.color / IN_WIDTH
  {
    BaseTimings();
    RescaleBounds(BASE_PORCH, scale, 63, 69);
    RescaleBounds(BASE_SYNC, scale, 376, 416);
    RescaleBounds(BASE_COLOR, scale, 5791, 6401);
    WindowFloor(Rescale(BASE_COLOR, scale));
  }

  lemma WindowFloor(color: int)
    requires 854 <= color <= 6932
    ensures PixelWindow(color) == 3 * color / IN_WIDTH
  {
    var q := 3 * color / IN_WIDTH;
    var c := color as real;
    assert 320 * q <= 3 * color < 320 * (q + 1);
    assert 320.0 * q as real <= 3.0 * c < 320.0 * (q as real + 1.0);
    assert c / 320.0 * 3.0 == 3.0 * c / 320.0;
  }
}
