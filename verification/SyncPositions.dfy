/** The sync positions of a recording: the hits of the pulse detector's gate,
    filtered by the line tracker. */
module SyncPositions {
  import opened RingWindow
  import opened Sstv
  import D = SyncDetector
  import T = SyncLineTracker

  /** The hits the tracker accepts; a reset of the tracker takes none of them back. */
  function Accepted(c: T.Config, hits: seq<int>): seq<int> {
    if hits == [] then [] else
    var n := |hits| - 1;
    Accepted(c, hits[..n]) + (if T.Next(c, T.Run(c, hits[..n]), hits[n]).accepted then [hits[n]] else [])
  }

  lemma AppendHit(c: T.Config, hits: seq<int>, hit: int)
    ensures var o := T.Next(c, T.Run(c, hits), hit);
            && T.Run(c, hits + [hit]) == o.state
            && Accepted(c, hits + [hit]) == Accepted(c, hits) + (if o.accepted then [hit] else [])
  {
    assert (hits + [hit])[..|hits|] == hits;
  }

  /** Offers one more hit to the tracker. */
  method Offer(tracker: T.Tracker, index: int, ghost hits: seq<int>) returns (accepted: bool)
    requires tracker.Snapshot() == T.Run(tracker.config, hits)
    modifies tracker
    ensures tracker.Snapshot() == T.Run(tracker.config, hits + [index])
    ensures Accepted(tracker.config, hits + [index])
         == if accepted then Accepted(tracker.config, hits) + [index] else Accepted(tracker.config, hits)
  {
    AppendHit(tracker.config, hits, index);
    ghost var before := Accepted(tracker.config, hits);
    assert before + [] == before;
    accepted := tracker.Accept(index);
  }

  /** Offers a sample's index to the tracker if it is a hit, and appends it to the
      positions if the tracker accepts it. */
  method Collect(tracker: T.Tracker, hit: bool, index: int, positions: seq<int>, ghost hits: seq<int>)
    returns (newPositions: seq<int>, ghost newHits: seq<int>)
    requires tracker.Snapshot() == T.Run(tracker.config, hits) && positions == Accepted(tracker.config, hits)
    modifies tracker
    ensures newHits == if hit then hits + [index] else hits
    ensures tracker.Snapshot() == T.Run(tracker.config, newHits) && newPositions == Accepted(tracker.config, newHits)
  {
    newPositions, newHits := positions, hits;
    if hit {
      newHits := hits + [index];
      var accepted := Offer(tracker, index, hits);
      if accepted {
        newPositions := newPositions + [index];
      }
    }
  }

  /** The scanning loop: a hit is a position if the tracker accepts it. */
  method FindPositions(score: D.Score, samples: seq<int>, start: int, g: D.Gate, c: T.Config) returns (positions: seq<int>)
    ensures positions == Accepted(c, D.Hits(score, samples, start, g, |samples|))
  {
    var sync := new D.Detector(score);
    var tracker := new T.Tracker(c);
    var last := -g.minGap;
    ghost var hits: seq<int> := [];
    positions := [];
    for idx := 0 to |samples|
      invariant fresh(sync) && fresh(sync.ring) && fresh(sync.ring.buf) && fresh(sync.ring.window)
      invariant sync.score == score && D.Heard(sync, samples, start, g, idx, last)
      invariant fresh(tracker) && tracker.config == c
      invariant hits == D.Hits(score, samples, start, g, idx)
      invariant tracker.Snapshot() == T.Run(tracker.config, hits) && positions == Accepted(tracker.config, hits)
    {
      ghost var state := tracker.Snapshot();
      var hit;
      hit, last := D.Hear(sync, samples, start, g, idx, last);
      assert tracker.Snapshot() == state;
      positions, hits := Collect(tracker, hit, start + idx, positions, hits);
    }
  }

  // ----- the gate and the tracker together

  /** Gate and tracker agree on the line, and two minimum lines are more than a
      maximum one. */
  predicate Matched(g: D.Gate, c: T.Config) {
    && c.Sensible() && c.expected == g.expected && c.pct == g.pct && c.pct > 0.0
    && 2 * c.MinWindow() > c.MaxWindow()
  }

  lemma SameWindows(g: D.Gate, c: T.Config)
    requires Matched(g, c)
    ensures g.Windowed() && g.MinWindow() == c.MinWindow() >= 0 && g.MaxWindow() == c.MaxWindow() > 0
  {
    T.Windows(c);
    assert (if 1.0 - c.pct > 0.0 then 1.0 - c.pct else 0.0) == 1.0 - c.pct;
  }

  /** Hits as the gate lets them through. */
  ghost predicate Gated(g: D.Gate, hits: seq<int>) {
    && (forall i :: 0 <= i < |hits| ==> hits[i] >= 0)
    && (forall i, j :: 0 <= i && i + 1 == j < |hits| ==> D.Passes(g, hits[j], hits[i]))
  }

  /** The tracker has accepted every hit. */
  ghost predicate Locked(c: T.Config, hits: seq<int>) {
    var s := T.Run(c, hits);
    && Accepted(c, hits) == hits
    && s.count == |hits| && s.miss == 0
    && (hits == [] ==> s == T.START)
    && (hits != [] ==> s.last == hits[|hits| - 1])
  }

  /** The tracker has rejected the hits after the first `s.count`. */
  ghost predicate Lost(c: T.Config, hits: seq<int>) {
    var s := T.Run(c, hits);
    && s.fitReady && 1 <= s.count < |hits| && s.last == hits[s.count - 1]
    && Accepted(c, hits) == hits[..s.count]
    && hits[|hits| - 1] - s.last >= c.MinWindow()
  }

  /** What the tracker does with a sample in the line window: while fitting it
      accepts it; after the fit it may reject it as off the line. */
  lemma InWindow(c: T.Config, s: T.State, sample: int)
    requires c.expected > 0 && s.count > 0 && s.last >= 0 && s.miss == 0
    requires c.MinWindow() <= sample - s.last <= c.MaxWindow()
    ensures var o := T.Next(c, s, sample);
            && (o.accepted ==> o.state.last == sample && o.state.count == s.count + 1 && o.state.miss == 0)
            && (!o.accepted ==> s.fitReady && o.state == s.(miss := 1))
  {
  }

  lemma BeyondWindow(c: T.Config, s: T.State, sample: int)
    requires c.expected > 0 && s.count > 0 && s.last >= 0 && s.fitReady && sample - s.last > c.MaxWindow()
    ensures T.Next(c, s, sample) == T.Outcome(s.(miss := s.miss + 1), false)
  {
  }

  lemma FirstHit(c: T.Config, hit: int)
    requires c.expected > 0 && hit >= 0
    ensures Locked(c, [hit])
  {
    AppendHit(c, [], hit);
    assert [] + [hit] == [hit];
  }

  lemma LockedStep(g: D.Gate, c: T.Config, hits: seq<int>, hit: int)
    requires Matched(g, c) && Gated(g, hits + [hit]) && Locked(c, hits)
    ensures Locked(c, hits + [hit]) || Lost(c, hits + [hit])
  {
    var all := hits + [hit];
    assert all[|hits|] == hit;
    if hits == [] {
      FirstHit(c, hit);
      assert all == [hit];
    } else {
      SameWindows(g, c);
      AppendHit(c, hits, hit);
      assert all[|hits| - 1] == hits[|hits| - 1];
      assert D.Passes(g, all[|hits|], all[|hits| - 1]);
      InWindow(c, T.Run(c, hits), hit);
      assert all[..|hits|] == hits;
    }
  }

  lemma LostStep(g: D.Gate, c: T.Config, hits: seq<int>, hit: int)
    requires Matched(g, c) && Gated(g, hits + [hit]) && Lost(c, hits)
    ensures Lost(c, hits + [hit])
    ensures Accepted(c, hits + [hit]) == Accepted(c, hits)
  {
    SameWindows(g, c);
    var all := hits + [hit];
    var k := T.Run(c, hits).count;
    assert all[|hits|] == hit && all[|hits| - 1] == hits[|hits| - 1] && all[k - 1] == hits[k - 1];
    assert D.Passes(g, all[|hits|], all[|hits| - 1]);
    BeyondWindow(c, T.Run(c, hits), hit);
    AppendHit(c, hits, hit);
    assert all[..k] == hits[..k];
  }

  /** After any hits the tracker is locked, or lost since the first it rejected. */
  lemma {:induction false} LockedOrLost(g: D.Gate, c: T.Config, hits: seq<int>)
    requires Matched(g, c) && Gated(g, hits)
    ensures Locked(c, hits) || Lost(c, hits)
  {
    if hits != [] {
      var n := |hits| - 1;
      assert hits == hits[..n] + [hits[n]];
      LockedOrLost(g, c, hits[..n]);
      if Locked(c, hits[..n]) {
        LockedStep(g, c, hits[..n], hits[n]);
      } else {
        LostStep(g, c, hits[..n], hits[n]);
      }
    }
  }

  /** The positions are the first hits, as many as the tracker counts; so its reset
      after repeated misses is never reached. */
  lemma PositionsArePrefix(g: D.Gate, c: T.Config, hits: seq<int>)
    requires Matched(g, c) && Gated(g, hits)
    ensures T.Run(c, hits).count <= |hits|
    ensures Accepted(c, hits) == hits[..T.Run(c, hits).count]
  {
    LockedOrLost(g, c, hits);
    assert hits[..|hits|] == hits;
  }

  /** The first rejected hit ends the positions: nothing after it is accepted. */
  lemma {:induction false} RejectionIsPermanent(g: D.Gate, c: T.Config, hits: seq<int>, n: nat)
    requires Matched(g, c) && Gated(g, hits) && n <= |hits|
    requires Accepted(c, hits[..n]) != hits[..n]
    ensures Accepted(c, hits) == Accepted(c, hits[..n])
  {
    if n == |hits| {
      assert hits[..n] == hits;
    } else {
      var m := |hits| - 1;
      assert hits == hits[..m] + [hits[m]] && hits[..m][..n] == hits[..n];
      RejectionIsPermanent(g, c, hits[..m], n);
      LockedOrLost(g, c, hits[..m]);
      LockedOrLost(g, c, hits[..n]);
      LostStep(g, c, hits[..m], hits[m]);
    }
  }

  // ----- what decides at the fit

  lemma {:induction false} AcceptedGrows(c: T.Config, hits: seq<int>, k: nat)
    requires k <= |hits|
    ensures Accepted(c, hits[..k]) <= Accepted(c, hits)
    ensures |Accepted(c, hits)| <= |Accepted(c, hits[..k])| + |hits| - k
  {
    if k == |hits| {
      assert hits[..k] == hits;
    } else {
      var n := |hits| - 1;
      assert hits[..n][..k] == hits[..k];
      AcceptedGrows(c, hits[..n], k);
    }
  }

  /** Without a rejection nothing is forgotten. */
  lemma {:induction false} AllAcceptedAllKept(c: T.Config, hits: seq<int>)
    requires Accepted(c, hits) == hits
    ensures T.Kept(c, hits) == hits
  {
    if hits != [] {
      var n := |hits| - 1;
      AcceptedGrows(c, hits[..n], 0);
      assert hits == hits[..n] + [hits[n]];
      AppendHit(c, hits[..n], hits[n]);
      AllAcceptedAllKept(c, hits[..n]);
      T.KeptNext(c, hits);
    }
  }

  lemma LockedIfAccepted(g: D.Gate, c: T.Config, hits: seq<int>, hit: int)
    requires Matched(g, c) && Gated(g, hits + [hit]) && Locked(c, hits)
    requires T.Next(c, T.Run(c, hits), hit).accepted
    ensures Locked(c, hits + [hit])
  {
    LockedStep(g, c, hits, hit);
    AppendHit(c, hits, hit);
    assert |Accepted(c, hits + [hit])| == |hits + [hit]|;
  }

  /** Up to the fit point no hit is rejected. */
  lemma LockedToTheFit(g: D.Gate, c: T.Config, hits: seq<int>)
    requires Matched(g, c) && Gated(g, hits) && |hits| <= T.FitPoint(c)
    ensures Locked(c, hits) && T.Kept(c, hits) == hits
    ensures T.Run(c, hits).fitReady <==> |hits| == T.FitPoint(c)
  {
    T.RunKeepsInvariant(c, hits);
    LockedOrLost(g, c, hits);
    AllAcceptedAllKept(c, hits);
  }

  lemma FitIsMadeAt(g: D.Gate, c: T.Config, hits: seq<int>)
    requires Matched(g, c) && Gated(g, hits) && |hits| == T.FitPoint(c)
    ensures T.MakesFit(c, hits) && T.FittedTo(c, T.Run(c, hits), hits)
  {
    LockedToTheFit(g, c, hits);
    LockedToTheFit(g, c, hits[..|hits| - 1]);
    T.FitIsMade(c, hits);
  }

  lemma FitDecidesNext(g: D.Gate, c: T.Config, fit: seq<int>, hit: int)
    requires Matched(g, c) && Gated(g, fit) && Gated(g, fit + [hit]) && |fit| == T.FitPoint(c)
    ensures Locked(c, fit)
    ensures if T.NextIsOnLine(c, fit, hit) then Locked(c, fit + [hit]) else Accepted(c, fit + [hit]) == fit
  {
    var n := |fit|;
    assert (fit + [hit])[n] == hit && (fit + [hit])[n - 1] == fit[n - 1];
    assert D.Passes(g, (fit + [hit])[n], (fit + [hit])[n - 1]);
    LockedToTheFit(g, c, fit);
    FitIsMadeAt(g, c, fit);
    SameWindows(g, c);
    T.NextAfterFit(c, fit, hit);
    AppendHit(c, fit, hit);
    if T.NextIsOnLine(c, fit, hit) {
      LockedIfAccepted(g, c, fit, hit);
    }
  }

  /** For every list of hits the one after the fit decides: it is rejected, and with
      it all that follow, exactly when it is off the line. */
  lemma FitDecides(g: D.Gate, c: T.Config, hits: seq<int>)
    requires Matched(g, c) && Gated(g, hits) && |hits| > T.FitPoint(c)
    ensures var n := T.FitPoint(c);
            && Locked(c, hits[..n])
            && (T.NextIsOnLine(c, hits[..n], hits[n]) <==> Locked(c, hits[..n + 1]))
            && (!T.NextIsOnLine(c, hits[..n], hits[n]) <==> Accepted(c, hits) == hits[..n])
  {
    var n := T.FitPoint(c);
    assert hits[..n + 1] == hits[..n] + [hits[n]];
    FitDecidesNext(g, c, hits[..n], hits[n]);
    AcceptedGrows(c, hits, n + 1);
    if !T.NextIsOnLine(c, hits[..n], hits[n]) {
      RejectionIsPermanent(g, c, hits, n + 1);
    }
  }

  /** Distances in this range. */
  ghost predicate Between(hits: seq<int>, near: int, far: int) {
    forall i, j :: 0 <= i && i + 1 == j < |hits| ==> near <= hits[j] - hits[i] <= far
  }

  /** A band of slopes that no distance in the range leaves or misses. */
  ghost predicate Steady(c: T.Config, lo: real, hi: real, near: int, far: int) {
    && lo <= near as real && far as real <= hi
    && hi - near as real <= c.Window() && far as real - lo <= c.Window()
  }

  /** Once on such a band the tracker stays locked for good. */
  lemma {:induction false} StaysOnBand(g: D.Gate, c: T.Config, hits: seq<int>, k: nat,
                                       lo: real, hi: real, near: int, far: int)
    requires Matched(g, c) && Gated(g, hits) && 1 <= k <= |hits|
    requires Locked(c, hits[..k]) && T.OnBand(T.Run(c, hits[..k]), lo, hi)
    requires Between(hits, near, far) && Steady(c, lo, hi, near, far)
    requires c.MinWindow() <= near && far <= c.MaxWindow()
    ensures Locked(c, hits) && T.OnBand(T.Run(c, hits), lo, hi)
  {
    if k == |hits| {
      assert hits[..k] == hits;
    } else {
      var n := |hits| - 1;
      assert hits[..n][..k] == hits[..k] && hits == hits[..n] + [hits[n]];
      StaysOnBand(g, c, hits[..n], k, lo, hi, near, far);
      T.BandStep(c, T.Run(c, hits[..n]), lo, hi, near, far, hits[n]);
      LockedIfAccepted(g, c, hits[..n], hits[n]);
      AppendHit(c, hits[..n], hits[n]);
    }
  }

  /** The gate lets hits like these through. */
  lemma {:induction false} GatedPass(g: D.Gate, hits: seq<int>)
    requires Gated(g, hits) && g.minGap > 0 && (hits != [] ==> hits[0] > 0)
    ensures D.GateRun(g, hits, -g.minGap) == hits
    ensures D.GateLast(g, hits, -g.minGap) == if hits == [] then -g.minGap else hits[|hits| - 1]
  {
    if hits != [] {
      var n := |hits| - 1;
      GatedPass(g, hits[..n]);
      assert hits == hits[..n] + [hits[n]];
    }
  }

  // ----- a whole recording

  lemma {:induction false} CandidatesFrom(score: D.Score, samples: seq<int>, start: int, n: nat)
    requires n <= |samples|
    ensures forall i :: 0 <= i < |D.Candidates(score, samples, start, n)| ==>
      D.Candidates(score, samples, start, n)[i] >= start + D.WINDOW_SAMPLES + D.HOP_SAMPLES - 2
  {
    if n > 0 {
      CandidatesFrom(score, samples, start, n - 1);
    }
  }

  lemma {:induction false} GateRunFrom(g: D.Gate, cands: seq<int>, last: int, lo: int)
    requires forall i :: 0 <= i < |cands| ==> cands[i] >= lo
    ensures forall i :: 0 <= i < |D.GateRun(g, cands, last)| ==> D.GateRun(g, cands, last)[i] >= lo
  {
    if cands != [] {
      GateRunFrom(g, cands[..|cands| - 1], last, lo);
    }
  }

  /** The hits of a recording, which come only after the first full window. */
  lemma HitsAreGated(score: D.Score, samples: seq<int>, start: nat, g: D.Gate)
    ensures var hits := D.Hits(score, samples, start, g, |samples|);
            && Gated(g, hits)
            && forall i :: 0 <= i < |hits| ==> hits[i] >= 478
  {
    var cands := D.Candidates(score, samples, start, |samples|);
    CandidatesFrom(score, samples, start, |samples|);
    GateRunFrom(g, cands, -g.minGap, 478);
    D.GateSpaces(g, cands, -g.minGap);
  }

  /** The sync positions of every recording are its first hits. */
  lemma RecordingPositions(score: D.Score, samples: seq<int>, start: nat, g: D.Gate, c: T.Config)
    requires Matched(g, c)
    ensures var hits := D.Hits(score, samples, start, g, |samples|);
            Accepted(c, hits) <= hits && |Accepted(c, hits)| == T.Run(c, hits).count
  {
    HitsAreGated(score, samples, start, g);
    PositionsArePrefix(g, c, D.Hits(score, samples, start, g, |samples|));
  }

  // ----- the receiver's own values

  const GATE := D.Gate(MIN_SYNC_GAP, LINE_SAMPLES, SYNC_WINDOW_PCT)
  const TRACKER := T.Config(LINE_SAMPLES, SYNC_WINDOW_PCT, 24)

  lemma ReceiverValues()
    ensures LINE_SAMPLES == 18884 && MIN_SYNC_GAP == 18522
    ensures GATE.MinWindow() == 16617 && GATE.MaxWindow() == 21150
    ensures Matched(GATE, TRACKER)
  {
  }

  /** The receiver's gate: more than 18522 samples after the last hit, and, once there was
      one, at most 21150. */
  lemma ReceiverGate(index: int, last: int)
    ensures D.Passes(GATE, index, last) <==> index - last > 18522 && (last >= 0 ==> index - last <= 21150)
  {
    ReceiverValues();
  }

  /** The windows that are scored: 400 samples each, every 80 samples, the first one after
      479. */
  lemma ScoredWindows(score: D.Score, samples: seq<int>, n: nat)
    requires n <= |samples|
    ensures D.HitAt(score, samples, n) <==> n >= 479 && (n - 479) % 80 == 0 && score(samples[n - 400..n])
  {
  }

  /** In every reception the fit is made on positions after 0, so it is the
      least-squares fit only where the clamp cuts its deviation off. */
  lemma ReceiverFitIsBiased(score: D.Score, samples: seq<int>, start: nat, n: nat)
    requires n <= |D.Hits(score, samples, start, GATE, |samples|)|
    requires T.MakesFit(TRACKER, D.Hits(score, samples, start, GATE, |samples|)[..n])
    ensures var hits := D.Hits(score, samples, start, GATE, |samples|)[..n];
            && |T.Kept(TRACKER, hits)| == 24
            && (T.Run(TRACKER, hits).slope == T.LeastSquaresSlope(T.Kept(TRACKER, hits)) <==>
                  T.LeastSquaresSlope(T.Kept(TRACKER, hits)) == TRACKER.MaxSlope())
  {
    HitsAreGated(score, samples, start, GATE);
    ReceiverValues();
    var hits := D.Hits(score, samples, start, GATE, |samples|)[..n];
    T.KeptFrom(TRACKER, hits, 478);
    T.FitOfRun(TRACKER, hits);
    T.FitIsLeastSquaresIff(TRACKER, hits);
    T.Windows(TRACKER);
  }
}
