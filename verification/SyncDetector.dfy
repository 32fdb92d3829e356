/** The sync pulse detector: a ring of samples scored every 80 samples, and a
    gate on the distance from the last accepted pulse. */
module SyncDetector {
  import opened PyNumber
  import opened RingWindow

  const WINDOW_SAMPLES := 400
  const HOP_SAMPLES := 80

  datatype Gate = Gate(minGap: int, expected: int, pct: real) {
    function MinWindow(): int {
      Trunc(expected as real * (if 1.0 - pct > 0.0 then 1.0 - pct else 0.0))
    }

    function MaxWindow(): int {
      Trunc(expected as real * (1.0 + pct))
    }

    predicate Windowed() {
      expected > 0 && pct > 0.0
    }
  }

  /** Whether a pulse found at `index` is accepted after one at `last`. */
  predicate Passes(g: Gate, index: int, last: int) {
    && index - last > g.minGap
    && (g.Windowed() && last >= 0 ==>
          g.MinWindow() <= index - last && (g.MaxWindow() > 0 ==> index - last <= g.MaxWindow()))
  }

  /** The last accepted position after the candidates `cands`. */
  function GateLast(g: Gate, cands: seq<int>, last: int): int {
    if cands == [] then last else
    var before := GateLast(g, cands[..|cands| - 1], last);
    if Passes(g, cands[|cands| - 1], before) then cands[|cands| - 1] else before
  }

  /** The accepted positions, in order. */
  function GateRun(g: Gate, cands: seq<int>, last: int): seq<int> {
    if cands == [] then [] else
    var n := |cands| - 1;
    GateRun(g, cands[..n], last) +
      (if Passes(g, cands[n], GateLast(g, cands[..n], last)) then [cands[n]] else [])
  }

  lemma {:induction false} GateLastIsLast(g: Gate, cands: seq<int>, last: int)
    ensures var r := GateRun(g, cands, last); GateLast(g, cands, last) == if r == [] then last else r[|r| - 1]
  {
    if cands != [] {
      GateLastIsLast(g, cands[..|cands| - 1], last);
    }
  }

  /** Every accepted position was passed against the one accepted before it. */
  ghost predicate Spaced(g: Gate, s: seq<int>, last: int) {
    && (s != [] ==> Passes(g, s[0], last))
    && (forall i, j :: 0 <= i && i + 1 == j < |s| ==> Passes(g, s[j], s[i]))
  }

  lemma {:induction false} GateSpaces(g: Gate, cands: seq<int>, last: int)
    ensures Spaced(g, GateRun(g, cands, last), last)
  {
    if cands != [] {
      GateSpaces(g, cands[..|cands| - 1], last);
      GateLastIsLast(g, cands[..|cands| - 1], last);
    }
  }

  lemma {:induction false} GateSplit(g: Gate, a: seq<int>, b: seq<int>, last: int)
    ensures GateRun(g, a + b, last) == GateRun(g, a, last) + GateRun(g, b, GateLast(g, a, last))
    ensures GateLast(g, a + b, last) == GateLast(g, b, GateLast(g, a, last))
  {
    if b == [] {
      assert a + b == a;
    } else {
      var b' := b[..|b| - 1];
      assert (a + b)[..|a + b| - 1] == a + b';
      GateSplit(g, a, b', last);
    }
  }

  /** None of the candidates passes against the last accepted pulse. */
  ghost predicate AllBlocked(g: Gate, cands: seq<int>, last: int) {
    forall i :: 0 <= i < |cands| ==> !Passes(g, cands[i], last)
  }

  lemma {:induction false} NothingAcceptedIff(g: Gate, cands: seq<int>, last: int)
    ensures GateRun(g, cands, last) == [] <==> AllBlocked(g, cands, last)
    ensures AllBlocked(g, cands, last) ==> GateLast(g, cands, last) == last
  {
    if cands != [] {
      NothingAcceptedIff(g, cands[..|cands| - 1], last);
    }
  }

  /** Exactly when a run ends: nothing more is accepted if and only if every later
      candidate is blocked by the last accepted pulse, however many there are. */
  lemma RunEndsIff(g: Gate, before: seq<int>, after: seq<int>, last: int)
    ensures GateRun(g, before + after, last) == GateRun(g, before, last) <==>
              AllBlocked(g, after, GateLast(g, before, last))
  {
    GateSplit(g, before, after, last);
    NothingAcceptedIff(g, after, GateLast(g, before, last));
  }

  /** Losing the lock is permanent: candidates that are all more than a maximum
      window past the last accepted pulse are all blocked. */
  lemma LockLossIsPermanent(g: Gate, cands: seq<int>, last: int)
    requires g.Windowed() && last >= 0 && g.MaxWindow() > 0
    requires forall i :: 0 <= i < |cands| ==> cands[i] > last + g.MaxWindow()
    ensures GateRun(g, cands, last) == [] && GateLast(g, cands, last) == last
  {
    NothingAcceptedIff(g, cands, last);
  }

  /** So a gap in the candidates longer than the maximum window ends the run:
      what is accepted is what was accepted before the gap. */
  lemma GapEndsRun(g: Gate, before: seq<int>, after: seq<int>, last: int)
    requires g.Windowed() && g.MaxWindow() > 0 && GateLast(g, before, last) >= 0
    requires forall i :: 0 <= i < |after| ==> after[i] > GateLast(g, before, last) + g.MaxWindow()
    ensures GateRun(g, before + after, last) == GateRun(g, before, last)
  {
    RunEndsIff(g, before, after, last);
  }

  // ----- from samples to candidates

  /** The tone scoring of one window is a black box. */
  type Score = seq<int> -> bool

  /** Whether the `n`-th push is scored, and the score is a hit. */
  predicate HitAt(score: Score, samples: seq<int>, n: nat)
    requires n <= |samples|
  {
    && n >= WINDOW_SAMPLES && HopAfter(n, WINDOW_SAMPLES, HOP_SAMPLES) == 0
    && score(Last(samples[..n], WINDOW_SAMPLES))
  }

  /** The indices of the samples at which a window is a hit; the first sample
      has index `start`. */
  function Candidates(score: Score, samples: seq<int>, start: int, n: nat): seq<int>
    requires n <= |samples|
  {
    if n == 0 then [] else
    Candidates(score, samples, start, n - 1) + (if HitAt(score, samples, n) then [start + n - 1] else [])
  }

  class Detector {
    const ring: Ring
    const score: Score
    var hop: nat

    ghost predicate Valid()
      reads this, ring, ring.buf, ring.window
    {
      && ring.Valid() && ring.buf.Length == WINDOW_SAMPLES && hop < HOP_SAMPLES
    }

    constructor (score: Score)
      ensures Valid() && hop == 0 && ring.recent == [] && this.score == score
      ensures fresh(ring) && fresh(ring.buf) && fresh(ring.window)
    {
      this.score := score;
      ring := new Ring(WINDOW_SAMPLES);
      hop := 0;
    }

    method Push(sample: int, canSync: bool, sampleIndex: int, g: Gate, last: int)
      returns (hit: bool, newLast: int)
      requires Valid()
      modifies this, ring, ring.buf, ring.window
      ensures Valid() && ring.recent == old(ring.recent) + [sample]
      ensures var due := canSync && |ring.recent| >= WINDOW_SAMPLES;
              && hop == (if due then (old(hop) + 1) % HOP_SAMPLES else old(hop))
              && hit == (due && hop == 0 && score(Last(ring.recent, WINDOW_SAMPLES)) && Passes(g, sampleIndex, last))
      ensures newLast == if hit then sampleIndex else last
    {
      ring.Push(sample);
      if !canSync || ring.fill < WINDOW_SAMPLES {
        return false, last;
      }
      hop := hop + 1;
      if hop < HOP_SAMPLES {
        return false, last;
      }
      hop := 0;
      ring.CopyOut();
      var syncHit := score(ring.window[..]);
      if syncHit && sampleIndex - last > g.minGap {
        if g.expected > 0 && last >= 0 && g.pct > 0.0 {
          var delta := sampleIndex - last;
          if delta < g.MinWindow() {
            return false, last;
          }
          if g.MaxWindow() > 0 && delta > g.MaxWindow() {
            return false, last;
          }
        }
        return true, sampleIndex;
      }
      return false, last;
    }
  }

  /** The hits among the first `n` samples of a recording. */
  function Hits(score: Score, samples: seq<int>, start: int, g: Gate, n: nat): seq<int>
    requires n <= |samples|
  {
    GateRun(g, Candidates(score, samples, start, n), -g.minGap)
  }

  lemma NextHits(score: Score, samples: seq<int>, start: int, g: Gate, idx: nat, last: int, hit: bool)
    requires idx < |samples| && last == GateLast(g, Candidates(score, samples, start, idx), -g.minGap)
    requires hit == (HitAt(score, samples, idx + 1) && Passes(g, start + idx, last))
    ensures Hits(score, samples, start, g, idx + 1)
         == if hit then Hits(score, samples, start, g, idx) + [start + idx] else Hits(score, samples, start, g, idx)
    ensures GateLast(g, Candidates(score, samples, start, idx + 1), -g.minGap) == if hit then start + idx else last
  {
    var c, c' := Candidates(score, samples, start, idx), Candidates(score, samples, start, idx + 1);
    var hits := Hits(score, samples, start, g, idx);
    assert hits + [] == hits;
    if HitAt(score, samples, idx + 1) {
      assert c'[..|c'| - 1] == c;
    } else {
      assert c' == c;
    }
  }

  /** The detector has heard the first `n` samples, and `last` is the last hit. */
  ghost predicate Heard(sync: Detector, samples: seq<int>, start: int, g: Gate, n: nat, last: int)
    requires n <= |samples|
    reads sync, sync.ring, sync.ring.buf, sync.ring.window
  {
    && sync.Valid() && sync.ring.recent == samples[..n]
    && sync.hop == HopAfter(n, WINDOW_SAMPLES, HOP_SAMPLES)
    && last == GateLast(g, Candidates(sync.score, samples, start, n), -g.minGap)
  }

  /** One more sample of a recording. */
  method Hear(sync: Detector, samples: seq<int>, start: int, g: Gate, idx: nat, last: int)
    returns (hit: bool, newLast: int)
    requires idx < |samples| && Heard(sync, samples, start, g, idx, last)
    modifies sync, sync.ring, sync.ring.buf, sync.ring.window
    ensures Heard(sync, samples, start, g, idx + 1, newLast)
    ensures var hits := Hits(sync.score, samples, start, g, idx);
            Hits(sync.score, samples, start, g, idx + 1) == if hit then hits + [start + idx] else hits
  {
    assert samples[..idx + 1] == samples[..idx] + [samples[idx]];
    HopStep(idx, WINDOW_SAMPLES, HOP_SAMPLES);
    hit, newLast := sync.Push(samples[idx], true, start + idx, g, last);
    NextHits(sync.score, samples, start, g, idx, last, hit);
  }

  /** The hits of a recording: exactly the gate run over the windows that score as
      a pulse, each window being the last 400 samples. */
  method ScanSyncs(score: Score, samples: seq<int>, start: int, g: Gate) returns (hits: seq<int>)
    ensures hits == Hits(score, samples, start, g, |samples|)
    ensures Spaced(g, hits, -g.minGap)
  {
    var sync := new Detector(score);
    var last := -g.minGap;
    hits := [];
    for idx := 0 to |samples|
      invariant fresh(sync) && fresh(sync.ring) && fresh(sync.ring.buf) && fresh(sync.ring.window)
      invariant sync.score == score && Heard(sync, samples, start, g, idx, last)
      invariant hits == Hits(score, samples, start, g, idx)
    {
      var hit;
      hit, last := Hear(sync, samples, start, g, idx, last);
      if hit {
        hits := hits + [start + idx];
      }
    }
    GateSpaces(g, Candidates(score, samples, start, |samples|), -g.minGap);
  }
}
