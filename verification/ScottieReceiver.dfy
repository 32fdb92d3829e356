/** The reception loop: sync positions found beforehand are played into the
    decoder together with the samples. */
module ScottieReceiver {
  import opened ScottieModel
  import opened ScottieRuns
  import opened ScottieFrame
  import opened ScottieQuiet
  import opened ScottieSchedule
  import opened ScottieLine
  import opened ScottieImage
  import opened ScottieWindows
  import opened ScottieDecoder

  /** The decoder after a reception: a frame begun at the first position, and then
      the exact interleaving of the samples and the later pulses. */
  ghost function Received(est: Estimator, s: State, samples: seq<int>, syncs: seq<int>, n: nat): State
    requires Ready(s) && Ready(OnSync(s, false)) && n <= |samples|
  {
    if Begun(syncs, n) then Run(est, OnSync(s, false), EventsOf(samples, syncs, n)) else s
  }

  /** A recording of a whole frame in which no position but the first lies, by the
      clock of the undisturbed frame, in late Blue. */
  ghost predicate Undisturbed(s: State, samples: seq<int>, syncs: seq<int>)
    requires Ready(s)
  {
    TimingReady(s);
    && Begun(syncs, |samples|) && Increasing(syncs)
    && OffPositions(s, syncs, |samples|)
    && |samples| - syncs[0] >= FrameLength(s)
  }

  /** Every row but the first is decoded from its own samples of the recording,
      counted from the first sync position. */
  ghost predicate ShowsRecording(est: Estimator, s: State, m: seq<int>, image: seq<seq<Rgb>>)
    requires Ready(s) && |m| >= FrameLength(s) && |image| == OUT_HEIGHT
  {
    forall y :: 1 <= y < OUT_HEIGHT ==> image[y] == LineRow(est, s.timing, RowSamples(s, m, y))
  }

  lemma QuietPicture(est: Estimator, s: State, events: seq<Event>, m: seq<int>)
    requires Ready(s) && Ready(OnSync(s, false)) && Quiet(est, OnSync(s, false), events)
    requires m == Samples(events) && |m| >= FrameLength(s)
    ensures ShowsRecording(est, s, m, Run(est, OnSync(s, false), events).image)
  {
    forall y | 1 <= y < OUT_HEIGHT
      ensures Run(est, OnSync(s, false), events).image[y] == LineRow(est, s.timing, RowSamples(s, m, y))
    {
      FramePicture(est, s, events, m, y);
    }
  }

  lemma AllSamplesPlayed(samples: seq<int>, syncs: seq<int>)
    requires Begun(syncs, |samples|)
    ensures Samples(EventsOf(samples, syncs, |samples|)) == samples[syncs[0]..]
  {
    AllFromFirst(samples, syncs);
    SamplesPlayed(samples, syncs, |samples|);
  }

  lemma AllFromFirst(samples: seq<int>, syncs: seq<int>)
    requires Begun(syncs, |samples|)
    ensures FromFirst(samples, syncs, |samples|) == samples[syncs[0]..]
  {
    assert samples[syncs[0]..|samples|] == samples[syncs[0]..];
  }

  /** The picture of an undisturbed reception shows its recording. */
  lemma ReceivedPicture(est: Estimator, s: State, samples: seq<int>, syncs: seq<int>)
    requires Ready(s) && Ready(OnSync(s, false)) && Undisturbed(s, samples, syncs)
    ensures ShowsRecording(est, s, samples[syncs[0]..], Received(est, s, samples, syncs, |samples|).image)
  {
    QuietReception(est, s, samples, syncs);
    AllSamplesPlayed(samples, syncs);
    QuietPicture(est, s, EventsOf(samples, syncs, |samples|), samples[syncs[0]..]);
  }

  /** The picture of every reception, however often it is resynchronised: the pixels of
      the rows painted, all of them once the frame is done, are the intensities of
      windows of the recording from the first sync position on. */
  lemma ReceivedPixels(est: Estimator, s: State, samples: seq<int>, syncs: seq<int>)
    requires Ready(s) && Ready(OnSync(s, false)) && Begun(syncs, |samples|)
    ensures var r := Received(est, s, samples, syncs, |samples|);
            var t := TrackOf(est, OnSync(s, false), EventsOf(samples, syncs, |samples|));
            && t.samples == samples[syncs[0]..]
            && PictureHeard(est, r, t)
            && (r.frameDone ==> RowsDone(r.lineIndex) == OUT_HEIGHT)
  {
    AllSamplesPlayed(samples, syncs);
    PixelsAreHeard(est, s, EventsOf(samples, syncs, |samples|));
  }

  /** Every reception that goes on for long enough completes its frame. */
  lemma ReceptionEnds(est: Estimator, s: State, samples: seq<int>, syncs: seq<int>)
    requires Ready(s) && Ready(OnSync(s, false))
    requires Begun(syncs, |samples|) && |samples| - syncs[0] >= FrameBound()
    ensures Received(est, s, samples, syncs, |samples|).frameDone
  {
    SamplesPlayed(samples, syncs, |samples|);
    FrameEnds(est, s, EventsOf(samples, syncs, |samples|));
  }

  lemma Consequences(est: Estimator, s: State, samples: seq<int>, syncs: seq<int>, r: State)
    requires Ready(s) && Ready(OnSync(s, false)) && r == Received(est, s, samples, syncs, |samples|)
    ensures && |r.image| == OUT_HEIGHT
            && (Begun(syncs, |samples|) && |samples| - syncs[0] >= FrameBound() ==> r.frameDone)
            && (Undisturbed(s, samples, syncs) ==> ShowsRecording(est, s, samples[syncs[0]..], r.image))
  {
    if Begun(syncs, |samples|) && |samples| - syncs[0] >= FrameBound() {
      ReceptionEnds(est, s, samples, syncs);
    }
    if Undisturbed(s, samples, syncs) {
      ReceivedPicture(est, s, samples, syncs);
    }
  }

  // ----- the loop

  /** One sample. */
  method PlaySample(d: Decoder, mono: int, ghost first: State, ghost events: seq<Event>)
    requires d.Valid() && Ready(first) && d.Snapshot() == Run(d.est, first, events)
    modifies d, d.ring, d.ring.buf, d.ring.window
    ensures d.Valid() && d.ring == old(d.ring)
    ensures d.Snapshot() == Run(d.est, first, events + [Tick(mono)])
  {
    d.Step(mono);
    RunAppendEvent(d.est, first, events, Tick(mono));
  }

  /** One sync pulse while a frame is received. */
  method PlayPulse(d: Decoder, ghost first: State, ghost events: seq<Event>)
    requires d.Valid() && Ready(first) && d.Snapshot() == Run(d.est, first, events)
    modifies d, d.ring
    ensures d.Valid() && (d.ring != old(d.ring) ==> fresh(d.ring) && fresh(d.ring.buf) && fresh(d.ring.window))
    ensures d.Snapshot() == Run(d.est, first, events + [Pulse])
  {
    var started := d.OnSync(true);
    RunAppendEvent(d.est, first, events, Pulse);
  }

  lemma NextReceived(est: Estimator, s: State, samples: seq<int>, syncs: seq<int>, n: nat)
    requires Ready(s) && Ready(OnSync(s, false)) && n < |samples|
    ensures Passed(syncs, n) > 0 <==> Begun(syncs, n)
    ensures Passed(syncs, n + 1) > 0 <==> Begun(syncs, n + 1)
    ensures !Begun(syncs, n) ==> EventsOf(samples, syncs, n) == []
  {
    PassedBegun(syncs, n);
    PassedBegun(syncs, n + 1);
    NothingBefore(samples, syncs, n);
  }

  lemma {:induction false} NothingBefore(samples: seq<int>, syncs: seq<int>, n: nat)
    requires n <= |samples|
    ensures !Begun(syncs, n) ==> EventsOf(samples, syncs, n) == []
  {
    if n > 0 && !Begun(syncs, n) {
      NothingBefore(samples, syncs, n - 1);
      PassedBegun(syncs, n - 1);
      PassedBegun(syncs, n);
    }
  }

  /** Stopping the loop when the frame is done loses nothing. */
  lemma RestIsIgnored(est: Estimator, s: State, samples: seq<int>, syncs: seq<int>, n: nat)
    requires Ready(s) && Ready(OnSync(s, false)) && n <= |samples|
    requires Begun(syncs, n) && Received(est, s, samples, syncs, n).frameDone
    ensures Received(est, s, samples, syncs, |samples|) == Received(est, s, samples, syncs, n)
  {
    var first := OnSync(s, false);
    var played, all := EventsOf(samples, syncs, n), EventsOf(samples, syncs, |samples|);
    StartInvariant(s);
    RunInvariant(est, first, played);
    EventsGrow(samples, syncs, n, |samples|);
    assert all == played + all[|played|..];
    RunConcat(est, first, played, all[|played|..]);
    DoneIsAbsorbing(est, Run(est, first, played), all[|played|..]);
  }

  /** Plays a recording into a decoder. The decoder ends exactly where the
      interleaving of the samples, from the first sync position on, with the
      pulses at the later positions takes it. */
  method Receive(d: Decoder, samples: seq<int>, syncs: seq<int>) returns (receiving: bool)
    requires d.Valid() && Ready(d.Snapshot())
    modifies d, d.ring, d.ring.buf, d.ring.window
    ensures d.Valid() && Ready(OnSync(old(d.Snapshot()), false))
    ensures receiving <==> Begun(syncs, |samples|)
    ensures d.Snapshot() == Received(d.est, old(d.Snapshot()), samples, syncs, |samples|)
    ensures receiving && |samples| - syncs[0] >= FrameBound() ==> d.frameDone
    ensures Undisturbed(old(d.Snapshot()), samples, syncs) ==>
              ShowsRecording(d.est, old(d.Snapshot()), samples[syncs[0]..], d.image)
  {
    ghost var s0 := d.Snapshot();
    StartInvariant(s0);
    receiving := false;
    var next, idx := 0, 0;
    while idx < |samples| && !(receiving && d.frameDone)
      invariant 0 <= idx <= |samples| && next == Passed(syncs, idx)
      invariant receiving <==> Begun(syncs, idx)
      invariant d.Valid()
      invariant d.ring != old(d.ring) ==> fresh(d.ring) && fresh(d.ring.buf) && fresh(d.ring.window)
      invariant d.Snapshot() == Received(d.est, s0, samples, syncs, idx)
      decreases |samples| - idx
    {
      receiving, next := PlayIndex(d, samples, syncs, idx, next, receiving, s0);
      idx := idx + 1;
    }
    if receiving && d.frameDone {
      RestIsIgnored(d.est, s0, samples, syncs, idx);
    }
    Consequences(d.est, s0, samples, syncs, d.Snapshot());
  }

  /** A sync position: the first begins the frame, later ones are pulses. */
  method PlayPosition(d: Decoder, wasReceiving: bool, ghost s0: State, ghost events: seq<Event>)
    returns (receiving: bool, ghost played: seq<Event>)
    requires d.Valid() && Ready(s0) && Ready(OnSync(s0, false))
    requires d.Snapshot() == if wasReceiving then Run(d.est, OnSync(s0, false), events) else s0
    modifies d, d.ring
    ensures d.Valid() && (d.ring != old(d.ring) ==> fresh(d.ring) && fresh(d.ring.buf) && fresh(d.ring.window))
    ensures receiving && played == if wasReceiving then events + [Pulse] else []
    ensures d.Snapshot() == Run(d.est, OnSync(s0, false), played)
  {
    receiving := true;
    if wasReceiving {
      PlayPulse(d, OnSync(s0, false), events);
      played := events + [Pulse];
    } else {
      receiving := d.OnSync(false);
      played := [];
    }
  }

  /** One round of the loop: sample `idx`, after the sync position it may have. */
  method PlayIndex(d: Decoder, samples: seq<int>, syncs: seq<int>, idx: nat, next: nat,
                   wasReceiving: bool, ghost s0: State)
    returns (receiving: bool, newNext: nat)
    requires idx < |samples| && next == Passed(syncs, idx) && (wasReceiving <==> Begun(syncs, idx))
    requires d.Valid() && Ready(s0) && Ready(OnSync(s0, false))
    requires d.Snapshot() == Received(d.est, s0, samples, syncs, idx)
    modifies d, d.ring, d.ring.buf, d.ring.window
    ensures d.Valid() && (d.ring != old(d.ring) ==> fresh(d.ring) && fresh(d.ring.buf) && fresh(d.ring.window))
    ensures d.Snapshot() == Received(d.est, s0, samples, syncs, idx + 1)
    ensures newNext == Passed(syncs, idx + 1) && (receiving <==> Begun(syncs, idx + 1))
  {
    ghost var first := OnSync(s0, false);
    ghost var events := EventsOf(samples, syncs, idx);
    NextReceived(d.est, s0, samples, syncs, idx);
    receiving, newNext := wasReceiving, next;
    if next < |syncs| && idx == syncs[next] {
      receiving, events := PlayPosition(d, wasReceiving, s0, events);
      newNext := next + 1;
    }
    if receiving {
      PlaySample(d, samples[idx], first, events);
      assert EventsOf(samples, syncs, idx + 1) == events + [Tick(samples[idx])];
    }
  }
}
