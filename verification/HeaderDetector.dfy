/** The VIS header recogniser: a greedy four-stage machine over the tones of
    overlapping sample windows, and the pattern it recognises. */
module HeaderDetector {
  import opened Wrappers
  import opened Division
  import opened RingWindow
  import opened Sstv

  const WINDOW_SAMPLES := 512
  const HOP_SAMPLES := 256
  const VIS_BITS := 8

  /** How many hops a tone of `ms` milliseconds lasts, at least one. */
  function WindowsFor(ms: real): (n: nat)
    ensures n >= 1
  {
    var windowMs := 1000.0 * HOP_SAMPLES as real / SAMPLE_RATE as real;
    var n := (ms / windowMs + 0.5).Floor;
    if n < 1 then 1 else n
  }

  const LEADER_WINDOWS: nat := WindowsFor(300.0)
  const BREAK_WINDOWS: nat := WindowsFor(10.0)
  const VIS_START_WINDOWS: nat := WindowsFor(30.0)

  // ----- tone decision

  datatype Tone = Hz1100 | Hz1200 | Hz1300 | Hz1900 | NoTone

  datatype Powers = Powers(p1100: real, p1200: real, p1300: real, p1900: real) {
    function Total(): real {
      p1100 + p1200 + p1300 + p1900
    }

    function Of(t: Tone): real
      requires t != NoTone
    {
      match t
      case Hz1100 => p1100
      case Hz1200 => p1200
      case Hz1300 => p1300
      case Hz1900 => p1900
    }
  }

  function RMax(a: real, b: real): real {
    if b > a then b else a
  }

  function OtherMax(p: Powers, t: Tone): real {
    var a := if t != Hz1100 then RMax(0.0, p.p1100) else 0.0;
    var b := if t != Hz1200 then RMax(a, p.p1200) else a;
    var c := if t != Hz1300 then RMax(b, p.p1300) else b;
    if t != Hz1900 then RMax(c, p.p1900) else c
  }

  function DetectHeaderTone(p: Powers): Tone {
    var (m0, t0) := (p.p1100, Hz1100);
    var (m1, t1) := if p.p1200 > m0 then (p.p1200, Hz1200) else (m0, t0);
    var (m2, t2) := if p.p1300 > m1 then (p.p1300, Hz1300) else (m1, t1);
    var (m3, t3) := if p.p1900 > m2 then (p.p1900, Hz1900) else (m2, t2);
    if m3 > OtherMax(p, t3) * 1.3 && m3 > p.Total() * 0.45 then t3 else NoTone
  }

  /** A tone is reported exactly when its own power dominates: more than 1.3
      times every other power and 0, and more than 0.45 of the total. */
  lemma ToneIsDominant(p: Powers, t: Tone)
    requires t != NoTone
    ensures DetectHeaderTone(p) == t <==>
              && p.Of(t) > 0.0
              && p.Of(t) > p.Total() * 0.45
              && forall u :: u != NoTone && u != t ==> p.Of(t) > p.Of(u) * 1.3
  {
    OthersBelow(p, t);
    if DetectHeaderTone(p) != t && p.Of(t) > 0.0 && Above(p, t) {
      assert t == Hz1100 || p.Of(t) > p.Of(Hz1100);
      assert t == Hz1200 || p.Of(t) > p.Of(Hz1200);
      assert t == Hz1300 || p.Of(t) > p.Of(Hz1300);
      assert t == Hz1900 || p.Of(t) > p.Of(Hz1900);
    }
  }

  ghost predicate Above(p: Powers, t: Tone)
    requires t != NoTone
  {
    forall u :: u != NoTone && u != t ==> p.Of(t) > p.Of(u) * 1.3
  }

  lemma OthersBelow(p: Powers, t: Tone)
    requires t != NoTone
    ensures p.Of(t) > OtherMax(p, t) * 1.3 <==> p.Of(t) > 0.0 && Above(p, t)
  {
    assert forall u :: u != NoTone && u != t ==> OtherMax(p, t) >= p.Of(u);
    assert OtherMax(p, t) >= 0.0;
    assert p.Of(t) > 0.0 && Above(p, t) ==>
      (t == Hz1100 || p.Of(t) > p.Of(Hz1100) * 1.3) && (t == Hz1200 || p.Of(t) > p.Of(Hz1200) * 1.3)
      && (t == Hz1300 || p.Of(t) > p.Of(Hz1300) * 1.3) && (t == Hz1900 || p.Of(t) > p.Of(Hz1900) * 1.3);
  }

  // ----- the four-stage machine

  datatype Stage = Leader1 | Break | Leader2 | VisStart

  datatype Recogniser = Recogniser(stage: Stage, count: nat, fired: bool)

  const RECOGNISER_START := Recogniser(Leader1, 0, false)

  function Hear(r: Recogniser, tone: Tone): Recogniser {
    if r.fired then r else
    match r.stage
    case Leader1 =>
      if tone != Hz1900 then r.(count := 0)
      else if r.count + 1 >= LEADER_WINDOWS then Recogniser(Break, 0, false)
      else r.(count := r.count + 1)
    case Break =>
      if tone != Hz1200 then r.(count := 0)
      else if r.count + 1 >= BREAK_WINDOWS then Recogniser(Leader2, 0, false)
      else r.(count := r.count + 1)
    case Leader2 =>
      if tone != Hz1900 then r.(count := 0)
      else if r.count + 1 >= LEADER_WINDOWS then Recogniser(VisStart, 0, false)
      else r.(count := r.count + 1)
    case VisStart =>
      if tone != Hz1200 then r.(count := 0)
      else Recogniser(VisStart, r.count + 1, r.count + 1 >= VIS_START_WINDOWS)
  }

  /** The machine after the first `n` tones. */
  function HearAll(tones: seq<Tone>, n: nat): Recogniser
    requires n <= |tones|
  {
    if n == 0 then RECOGNISER_START else Hear(HearAll(tones, n - 1), tones[n - 1])
  }

  // ----- the pattern

  /** `len` consecutive windows of one tone, ending before window `end`. */
  ghost predicate Run(tones: seq<Tone>, end: int, len: nat, tone: Tone) {
    0 <= end - len && end <= |tones| && forall i :: end - len <= i < end ==> tones[i] == tone
  }

  /** The first `n` windows contain, in order and disjointly, a leader, a break,
      a leader and a VIS start, with any tones before, between and after. */
  ghost predicate HeaderHeard(tones: seq<Tone>, n: nat) {
    exists a, b, c, d :: HeaderAt(tones, n, a, b, c, d)
  }

  ghost predicate HeaderAt(tones: seq<Tone>, n: nat, a: int, b: int, c: int, d: int) {
    && Run(tones, a, LEADER_WINDOWS, Hz1900)
    && a <= b - BREAK_WINDOWS && Run(tones, b, BREAK_WINDOWS, Hz1200)
    && b <= c - LEADER_WINDOWS && Run(tones, c, LEADER_WINDOWS, Hz1900)
    && c <= d - VIS_START_WINDOWS && Run(tones, d, VIS_START_WINDOWS, Hz1200)
    && d <= n
  }

  function StageTone(k: nat): Tone {
    if k % 2 == 1 then Hz1900 else Hz1200
  }

  function StageLen(k: nat): (n: nat)
    ensures n >= 1
  {
    if k % 2 == 1 then LEADER_WINDOWS else if k == 2 then BREAK_WINDOWS else VIS_START_WINDOWS
  }

  /** The first `n` windows contain the first `k` runs of the header. */
  ghost predicate Heard(tones: seq<Tone>, n: int, k: nat)
    decreases k, 1
  {
    if k == 0 then 0 <= n else exists e :: e <= n && EndsAt(tones, e, k)
  }

  /** Run `k` ends before window `e`, and the runs before it come before it. */
  ghost predicate EndsAt(tones: seq<Tone>, e: int, k: nat)
    requires k > 0
    decreases k, 0
  {
    Run(tones, e, StageLen(k), StageTone(k)) && Heard(tones, e - StageLen(k), k - 1)
  }

  lemma HeardMonotone(tones: seq<Tone>, n: int, m: int, k: nat)
    requires n <= m
    ensures Heard(tones, n, k) ==> Heard(tones, m, k)
  {
  }

  lemma HeardRun(tones: seq<Tone>, e: int, n: int, k: nat)
    requires k > 0 && e <= n
    requires Run(tones, e, StageLen(k), StageTone(k)) && Heard(tones, e - StageLen(k), k - 1)
    ensures Heard(tones, n, k)
  {
    assert EndsAt(tones, e, k);
  }

  /** One more window adds the runs that end at it. */
  lemma HeardOneMore(tones: seq<Tone>, n: int, k: nat)
    requires k > 0
    ensures Heard(tones, n + 1, k) <==> Heard(tones, n, k) || EndsAt(tones, n + 1, k)
  {
    HeardMonotone(tones, n, n + 1, k);
  }

  lemma HeardEnd(tones: seq<Tone>, n: int, k: nat) returns (e: int)
    requires k > 0 && Heard(tones, n, k)
    ensures e <= n && Run(tones, e, StageLen(k), StageTone(k)) && Heard(tones, e - StageLen(k), k - 1)
  {
    e :| e <= n && EndsAt(tones, e, k);
  }

  lemma HeaderIfHeard(tones: seq<Tone>, n: nat)
    requires Heard(tones, n, 4)
    ensures HeaderHeard(tones, n)
  {
    var d := HeardEnd(tones, n, 4);
    var c := HeardEnd(tones, d - StageLen(4), 3);
    var b := HeardEnd(tones, c - StageLen(3), 2);
    var a := HeardEnd(tones, b - StageLen(2), 1);
    assert HeaderAt(tones, n, a, b, c, d);
  }

  lemma HeardIfHeader(tones: seq<Tone>, n: nat)
    requires HeaderHeard(tones, n)
    ensures Heard(tones, n, 4)
  {
    var a, b, c, d :| HeaderAt(tones, n, a, b, c, d);
    HeardRun(tones, a, b - BREAK_WINDOWS, 1);
    HeardRun(tones, b, c - LEADER_WINDOWS, 2);
    HeardRun(tones, c, d - VIS_START_WINDOWS, 3);
    HeardRun(tones, d, n, 4);
  }

  // ----- the greedy machine finds the pattern, and finds it first

  function StageIndex(s: Stage): nat {
    match s
    case Leader1 => 0
    case Break => 1
    case Leader2 => 2
    case VisStart => 3
  }

  /** `k` runs have been heard and no more could have been; `count` windows of
      the next tone are pending, and the pending run cannot be extended to the
      left. */
  ghost predicate Greedy(tones: seq<Tone>, n: nat, k: nat, count: nat) {
    && n <= |tones|
    && count < StageLen(k + 1) && count <= n
    && Heard(tones, n - count, k)
    && !Heard(tones, n, k + 1)
    && (forall i :: n - count <= i < n ==> tones[i] == StageTone(k + 1))
    && (n - count > 0 ==>
          tones[n - count - 1] != StageTone(k + 1) || !Heard(tones, n - count - 1, k))
  }

  lemma GreedyMiss(tones: seq<Tone>, n: nat, k: nat, count: nat)
    requires Greedy(tones, n, k, count) && n < |tones| && tones[n] != StageTone(k + 1)
    ensures Greedy(tones, n + 1, k, 0)
  {
    HeardMonotone(tones, n - count, n + 1, k);
    HeardOneMore(tones, n, k + 1);
  }

  lemma GreedyHit(tones: seq<Tone>, n: nat, k: nat, count: nat)
    requires Greedy(tones, n, k, count) && n < |tones| && tones[n] == StageTone(k + 1)
    requires count + 1 < StageLen(k + 1)
    ensures Greedy(tones, n + 1, k, count + 1)
  {
    HeardOneMore(tones, n, k + 1);
    HeardMonotone(tones, n + 1 - StageLen(k + 1), n - count - 1, k);
  }

  lemma GreedyComplete(tones: seq<Tone>, n: nat, k: nat, count: nat)
    requires Greedy(tones, n, k, count) && n < |tones| && tones[n] == StageTone(k + 1)
    requires count + 1 == StageLen(k + 1)
    ensures Heard(tones, n + 1, k + 1)
    ensures Greedy(tones, n + 1, k + 1, 0)
  {
    HeardRun(tones, n + 1, n + 1, k + 1);
    HeardOneMore(tones, n, k + 2);
    HeardMonotone(tones, n + 1 - StageLen(k + 2), n, k + 1);
    HeardFewer(tones, n, k + 1, k + 2);
  }

  lemma {:induction false} HeardFewer(tones: seq<Tone>, n: int, k: nat, m: nat)
    requires k <= m
    ensures Heard(tones, n, m) ==> Heard(tones, n, k)
    decreases m
  {
    if k < m && Heard(tones, n, m) {
      var e := HeardEnd(tones, n, m);
      HeardMonotone(tones, e - StageLen(m), n, m - 1);
      HeardFewer(tones, n, k, m - 1);
    }
  }

  ghost predicate MachineInvariant(tones: seq<Tone>, n: nat, r: Recogniser) {
    if r.fired then Heard(tones, n, 4) else Greedy(tones, n, StageIndex(r.stage), r.count)
  }

  /** The four stages differ only in their tone and their length. */
  lemma HearUniform(r: Recogniser, tone: Tone)
    requires !r.fired
    ensures var k, t := StageIndex(r.stage), Hear(r, tone);
            && (tone != StageTone(k + 1) ==> t == r.(count := 0))
            && (tone == StageTone(k + 1) && r.count + 1 < StageLen(k + 1) ==> t == r.(count := r.count + 1))
            && (tone == StageTone(k + 1) && r.count + 1 >= StageLen(k + 1) ==>
                  if k == 3 then t.fired else !t.fired && StageIndex(t.stage) == k + 1 && t.count == 0)
  {
  }

  lemma MachineStep(tones: seq<Tone>, n: nat, r: Recogniser)
    requires n < |tones| && MachineInvariant(tones, n, r)
    ensures MachineInvariant(tones, n + 1, Hear(r, tones[n]))
  {
    var k := StageIndex(r.stage);
    if !r.fired {
      HearUniform(r, tones[n]);
    }
    if r.fired {
      HeardMonotone(tones, n, n + 1, 4);
    } else if tones[n] != StageTone(k + 1) {
      GreedyMiss(tones, n, k, r.count);
    } else if r.count + 1 < StageLen(k + 1) {
      GreedyHit(tones, n, k, r.count);
    } else {
      GreedyComplete(tones, n, k, r.count);
    }
  }

  lemma {:induction false} MachineIsGreedy(tones: seq<Tone>, n: nat)
    requires n <= |tones|
    ensures MachineInvariant(tones, n, HearAll(tones, n))
  {
    if n == 0 {
      assert !Heard(tones, 0, 1);
    } else {
      MachineIsGreedy(tones, n - 1);
      MachineStep(tones, n - 1, HearAll(tones, n - 1));
    }
  }

  /** Complete and earliest: after any number of windows the machine has fired
      exactly when those windows contain the header pattern. So it fires at the
      first window that completes one. */
  lemma RecognisesHeader(tones: seq<Tone>, n: nat)
    requires n <= |tones|
    ensures HearAll(tones, n).fired <==> HeaderHeard(tones, n)
  {
    MachineIsGreedy(tones, n);
    var r := HearAll(tones, n);
    HeardFewer(tones, n, StageIndex(r.stage) + 1, 4);
    if Heard(tones, n, 4) {
      HeaderIfHeard(tones, n);
    }
    if HeaderHeard(tones, n) {
      HeardIfHeader(tones, n);
    }
  }

  /** The window counts the durations round to. */
  lemma WindowCounts()
    ensures LEADER_WINDOWS == 52 && BREAK_WINDOWS == 2 && VIS_START_WINDOWS == 5
  {
  }

  // ----- from samples to tones

  /** The signal processing is a black box: the tone powers of one window. */
  type Dsp = seq<int> -> Powers

  /** Samples pushed when window `t` is evaluated: the ring is full after 512,
      and from then on every 256th push evaluates it. */
  function PushesAt(t: nat): nat {
    WINDOW_SAMPLES + HOP_SAMPLES - 1 + HOP_SAMPLES * t
  }

  /** How many windows have been evaluated after `n` pushes. */
  function Windows(n: nat): (w: nat)
    ensures w > 0 ==> PushesAt(w - 1) <= n
    ensures n < PushesAt(w)
  {
    if n < PushesAt(0) then 0 else (n - PushesAt(0)) / HOP_SAMPLES + 1
  }

  function ToneAt(dsp: Dsp, samples: seq<int>, t: nat): Tone
    requires PushesAt(t) <= |samples|
  {
    DetectHeaderTone(dsp(samples[PushesAt(t) - WINDOW_SAMPLES..PushesAt(t)]))
  }

  function Tones(dsp: Dsp, samples: seq<int>): (tones: seq<Tone>)
    ensures |tones| == Windows(|samples|)
  {
    seq(Windows(|samples|), t requires 0 <= t < Windows(|samples|) => ToneAt(dsp, samples, t))
  }

  function Recognise(dsp: Dsp, samples: seq<int>): Recogniser {
    HearAll(Tones(dsp, samples), Windows(|samples|))
  }

  /** Where the header ends when it is recognised at sample `index`: ten VIS
      bits after the start of the window. */
  function HeaderEnd(index: int): int {
    (if index - WINDOW_SAMPLES < 0 then 0 else index - WINDOW_SAMPLES) + VisSamples()
  }

  /** The end of the header lies ten bits of 30 ms behind the start of its last tone,
      which is put a window of 512 samples before the sample that completed it. */
  lemma HeaderEndIs(index: int, start: int)
    requires start == if index < 512 then 0 else index - 512
    ensures HeaderEnd(index) == start + 13230
    ensures (HeaderEnd(index) - start) * 1000 == 44100 * 30 * 10
  {
  }

  function VisSamples(): int {
    (SAMPLE_RATE as real * (30.0 / 1000.0) * (VIS_BITS + 2) as real).Floor
  }

  lemma {:induction false} HearAllAgrees(a: seq<Tone>, b: seq<Tone>, n: nat)
    requires n <= |a| && a <= b
    ensures HearAll(a, n) == HearAll(b, n)
  {
    if n > 0 {
      HearAllAgrees(a, b, n - 1);
    }
  }

  lemma TonesGrow(dsp: Dsp, samples: seq<int>, more: seq<int>)
    ensures Tones(dsp, samples) <= Tones(dsp, samples + more)
  {
    var a, b := Tones(dsp, samples), Tones(dsp, samples + more);
    assert Windows(|samples|) <= Windows(|samples + more|);
    forall t | 0 <= t < |a|
      ensures a[t] == b[t]
    {
      var hi := PushesAt(t);
      assert (samples + more)[hi - WINDOW_SAMPLES..hi] == samples[hi - WINDOW_SAMPLES..hi];
    }
  }

  lemma WindowPhase(n: nat)
    requires n >= WINDOW_SAMPLES - 1
    ensures var a := n + 1 - WINDOW_SAMPLES;
            && Windows(n) == a / HOP_SAMPLES
            && HopAfter(n, WINDOW_SAMPLES, HOP_SAMPLES) == a % HOP_SAMPLES
  {
  }

  /** A window is due exactly when the hop counter comes round. */
  lemma WindowDue(n: nat)
    ensures Windows(n + 1) == if n + 1 == PushesAt(Windows(n)) then Windows(n) + 1 else Windows(n)
    ensures var hop := HopAfter(n, WINDOW_SAMPLES, HOP_SAMPLES);
            && (n + 1 == PushesAt(Windows(n)) <==> n + 1 >= WINDOW_SAMPLES && hop + 1 == HOP_SAMPLES)
            && HopAfter(n + 1, WINDOW_SAMPLES, HOP_SAMPLES)
            == if n + 1 < WINDOW_SAMPLES || n + 1 == PushesAt(Windows(n)) then 0 else hop + 1
  {
    if n + 1 >= WINDOW_SAMPLES {
      WindowPhase(n);
      WindowPhase(n + 1);
      CountUp(n + 1 - WINDOW_SAMPLES, HOP_SAMPLES);
    }
  }

  /** One more sample: either no window is due, or exactly one is, and it is the
      last 512 samples. */
  lemma RecogniseOneMore(dsp: Dsp, samples: seq<int>, sample: int)
    ensures var s := samples + [sample];
            Recognise(dsp, s) ==
              if |s| == PushesAt(Windows(|samples|))
              then Hear(Recognise(dsp, samples), DetectHeaderTone(dsp(Last(s, WINDOW_SAMPLES))))
              else Recognise(dsp, samples)
  {
    var s := samples + [sample];
    var w := Windows(|samples|);
    TonesGrow(dsp, samples, [sample]);
    HearAllAgrees(Tones(dsp, samples), Tones(dsp, s), w);
    WindowDue(|samples|);
    if |s| == PushesAt(w) {
      DueTone(dsp, s, w);
    }
  }

  lemma DueTone(dsp: Dsp, s: seq<int>, w: nat)
    requires |s| == PushesAt(w) && Windows(|s|) == w + 1
    ensures Tones(dsp, s)[w] == DetectHeaderTone(dsp(Last(s, WINDOW_SAMPLES)))
  {
    assert s[PushesAt(w) - WINDOW_SAMPLES..PushesAt(w)] == Last(s, WINDOW_SAMPLES);
  }

  class Detector {
    const ring: Ring
    const dsp: Dsp
    var hop: nat
    var stage: Stage
    var count: nat
    var headerEnd: Option<int>
    /** The samples pushed before the header end was known. */
    ghost var history: seq<int>

    ghost predicate Valid()
      reads this, ring, ring.buf, ring.window
    {
      && ring.Valid() && ring.buf.Length == WINDOW_SAMPLES
      && ring.recent == history
      && hop == HopAfter(|history|, WINDOW_SAMPLES, HOP_SAMPLES)
      && Recognise(dsp, history) == Recogniser(stage, count, headerEnd.Some?)
    }

    constructor (dsp: Dsp)
      ensures Valid() && history == [] && headerEnd == None && this.dsp == dsp
      ensures fresh(ring) && fresh(ring.buf) && fresh(ring.window)
    {
      this.dsp := dsp;
      ring := new Ring(WINDOW_SAMPLES);
      hop, stage, count, headerEnd, history := 0, Leader1, 0, None, [];
    }

    method Push(sample: int, sampleIndex: int) returns (r: Option<int>)
      requires Valid()
      modifies this, ring, ring.buf, ring.window
      ensures Valid() && r == headerEnd
      ensures old(headerEnd).Some? ==> r == old(headerEnd) && history == old(history)
      ensures old(headerEnd).None? ==>
                && history == old(history) + [sample]
                && r == if Recognise(dsp, history).fired then Some(HeaderEnd(sampleIndex)) else None
    {
      if headerEnd.Some? {
        return headerEnd;
      }
      RecogniseOneMore(dsp, history, sample);
      WindowDue(|history|);
      Feed(sample, sampleIndex);
      history := history + [sample];
      r := headerEnd;
    }

    /** A sample goes into the ring, and when a hop is complete the window is heard. */
    method Feed(sample: int, sampleIndex: int)
      requires ring.Valid() && ring.buf.Length == WINDOW_SAMPLES && headerEnd.None?
      modifies this`hop, this`stage, this`count, this`headerEnd, ring, ring.buf, ring.window
      ensures ring.Valid() && ring.recent == old(ring.recent) + [sample]
      ensures var full := |ring.recent| >= WINDOW_SAMPLES;
              var due, before := full && old(hop) + 1 >= HOP_SAMPLES, old(Recogniser(stage, count, false));
              && hop == (if due then 0 else if full then old(hop) + 1 else old(hop))
              && Recogniser(stage, count, headerEnd.Some?)
              == if due then Hear(before, DetectHeaderTone(dsp(Last(ring.recent, WINDOW_SAMPLES)))) else before
      ensures headerEnd.Some? ==> headerEnd == Some(HeaderEnd(sampleIndex))
    {
      ring.Push(sample);
      if ring.fill < WINDOW_SAMPLES {
        return;
      }
      hop := hop + 1;
      if hop < HOP_SAMPLES {
        return;
      }
      hop := 0;
      HearWindow(sampleIndex);
    }

    /** The tone of a full window goes to the stage machine. */
    method HearWindow(sampleIndex: int)
      requires ring.Valid() && ring.buf.Length == WINDOW_SAMPLES && |ring.recent| >= WINDOW_SAMPLES && headerEnd.None?
      modifies this`stage, this`count, this`headerEnd, ring.window
      ensures ring.Valid()
      ensures var tone := DetectHeaderTone(dsp(Last(ring.recent, WINDOW_SAMPLES)));
              Recogniser(stage, count, headerEnd.Some?) == Hear(old(Recogniser(stage, count, false)), tone)
      ensures headerEnd.Some? ==> headerEnd == Some(HeaderEnd(sampleIndex))
    {
      ring.CopyOut();
      var tone := DetectHeaderTone(dsp(ring.window[..]));
      Advance(tone, sampleIndex);
    }

    /** The four-stage machine on one tone. */
    method Advance(tone: Tone, sampleIndex: int)
      requires headerEnd.None?
      modifies this`stage, this`count, this`headerEnd
      ensures Recogniser(stage, count, headerEnd.Some?) == Hear(old(Recogniser(stage, count, false)), tone)
      ensures headerEnd.Some? ==> headerEnd == Some(HeaderEnd(sampleIndex))
    {
      match stage {
        case Leader1 =>
          if tone == Hz1900 {
            count := count + 1;
            if count >= LEADER_WINDOWS {
              stage := Break;
              count := 0;
            }
          } else {
            count := 0;
          }
        case Break =>
          if tone == Hz1200 {
            count := count + 1;
            if count >= BREAK_WINDOWS {
              stage := Leader2;
              count := 0;
            }
          } else {
            count := 0;
          }
        case Leader2 =>
          if tone == Hz1900 {
            count := count + 1;
            if count >= LEADER_WINDOWS {
              stage := VisStart;
              count := 0;
            }
          } else {
            count := 0;
          }
        case VisStart =>
          if tone == Hz1200 {
            count := count + 1;
            if count >= VIS_START_WINDOWS {
              var visStart := sampleIndex - WINDOW_SAMPLES;
              if visStart < 0 {
                visStart := 0;
              }
              headerEnd := Some(visStart + VisSamples());
            }
          } else {
            count := 0;
          }
      }
    }
  }

  // ----- scanning a recording

  /** The header is first complete at window `n`. */
  ghost predicate FirstHeader(tones: seq<Tone>, n: nat) {
    1 <= n <= |tones| && HeaderHeard(tones, n) && !HeaderHeard(tones, n - 1)
  }

  /** The windows of a recording: 512 samples each, 256 apart, the first one ending
      with sample 766. */
  lemma TonesAre(dsp: Dsp, samples: seq<int>, t: nat)
    ensures |Tones(dsp, samples)| == if |samples| < 512 then 0 else (|samples| - 511) / 256
    ensures t < |Tones(dsp, samples)| ==>
              && 256 * t + 767 <= |samples|
              && Tones(dsp, samples)[t] == DetectHeaderTone(dsp(samples[256 * t + 255..256 * t + 767]))
  {
  }

  /** Scans a recording for the header. It is found exactly when the recording's
      windows contain the header pattern, and the end reported is that of the first
      window that completes it: 512 samples before its last sample, `256 n + 510`, and
      then ten bits of 30 ms. */
  method ScanForHeader(dsp: Dsp, samples: seq<int>) returns (r: Option<int>)
    ensures r.None? <==> !HeaderHeard(Tones(dsp, samples), Windows(|samples|))
    ensures r.Some? ==>
              exists n: nat :: FirstHeader(Tones(dsp, samples), n) && r.value == 256 * n - 2 + 13230
  {
    var header := new Detector(dsp);
    ghost var tones := Tones(dsp, samples);
    for idx := 0 to |samples|
      invariant header.Valid() && header.dsp == dsp && header.headerEnd.None?
      invariant fresh(header) && fresh(header.ring) && fresh(header.ring.buf) && fresh(header.ring.window)
      invariant header.history == samples[..idx]
    {
      assert samples[..idx + 1] == samples[..idx] + [samples[idx]];
      var end := header.Push(samples[idx], idx);
      if end.Some? {
        FiredAt(dsp, samples, idx);
        HeaderStays(dsp, samples, idx + 1);
        HeaderEndIs(idx, if idx < 512 then 0 else idx - 512);
        return end;
      }
    }
    assert samples[..|samples|] == samples;
    RecognisesHeader(tones, Windows(|samples|));
    r := None;
  }

  lemma RecognisePrefix(dsp: Dsp, samples: seq<int>, n: nat)
    requires n <= |samples|
    ensures Windows(n) <= Windows(|samples|)
    ensures Recognise(dsp, samples[..n]) == HearAll(Tones(dsp, samples), Windows(n))
  {
    TonesGrow(dsp, samples[..n], samples[n..]);
    assert samples == samples[..n] + samples[n..];
    HearAllAgrees(Tones(dsp, samples[..n]), Tones(dsp, samples), Windows(n));
  }

  lemma NewWindow(n: nat)
    ensures Windows(n + 1) == Windows(n) || (Windows(n + 1) == Windows(n) + 1 && n == PushesAt(Windows(n)) - 1)
  {
    WindowDue(n);
  }

  lemma FirstFired(tones: seq<Tone>, w: nat, n: nat)
    requires w <= n <= w + 1 && n <= |tones|
    requires !HearAll(tones, w).fired && HearAll(tones, n).fired
    ensures n == w + 1 && FirstHeader(tones, n)
  {
    RecognisesHeader(tones, w);
    RecognisesHeader(tones, n);
  }

  lemma FiredAt(dsp: Dsp, samples: seq<int>, idx: nat)
    requires idx < |samples|
    requires !Recognise(dsp, samples[..idx]).fired && Recognise(dsp, samples[..idx + 1]).fired
    ensures var tones, n := Tones(dsp, samples), Windows(idx + 1);
            n >= 1 && FirstHeader(tones, n) && idx == PushesAt(n - 1) - 1
  {
    var tones := Tones(dsp, samples);
    RecognisePrefix(dsp, samples, idx);
    RecognisePrefix(dsp, samples, idx + 1);
    NewWindow(idx);
    FirstFired(tones, Windows(idx), Windows(idx + 1));
  }

  lemma HeaderStays(dsp: Dsp, samples: seq<int>, n: nat)
    requires n <= |samples| && HeaderHeard(Tones(dsp, samples), Windows(n))
    ensures HeaderHeard(Tones(dsp, samples), Windows(|samples|))
  {
    RecognisePrefix(dsp, samples, n);
    HeaderGrows(Tones(dsp, samples), Windows(n), Windows(|samples|));
  }

  lemma HeaderGrows(tones: seq<Tone>, n: nat, m: nat)
    requires n <= m && HeaderHeard(tones, n)
    ensures HeaderHeard(tones, m)
  {
    var a, b, c, d :| HeaderAt(tones, n, a, b, c, d);
    assert HeaderAt(tones, m, a, b, c, d);
  }
}
