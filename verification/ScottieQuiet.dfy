/** Receptions in which no sync pulse resynchronises the decoder: they are runs of
    their samples alone, and which ones they are can be read off a clock. */
module ScottieQuiet {
  import opened Division
  import opened ScottieModel
  import opened ScottieRuns
  import opened ScottieFrame

  /** The samples of a sequence of events, in order. */
  function Samples(events: seq<Event>): (samples: seq<int>)
    ensures |samples| == Ticks(events)
  {
    if events == [] then [] else
    var last := events[|events| - 1];
    Samples(events[..|events| - 1]) + (if last.Tick? then [last.mono] else [])
  }

  /** No pulse of the events comes at a time when it counts. */
  ghost predicate Quiet(est: Estimator, s: State, events: seq<Event>)
    requires Ready(s)
  {
    events == [] ||
    var init := events[..|events| - 1];
    && Quiet(est, s, init)
    && (events[|events| - 1].Pulse? ==> !SyncCounts(Run(est, s, init)))
  }

  lemma SamplesAppend(events: seq<Event>, e: Event)
    ensures TickAll(Samples(events + [e])) == TickAll(Samples(events)) + (if e.Tick? then [e] else [])
  {
    assert (events + [e])[..|events|] == events;
  }

  /** One more event, of which a pulse does not count. */
  lemma QuietStep(est: Estimator, s: State, init: seq<Event>, e: Event, ticks: seq<Event>)
    requires Ready(s) && Run(est, s, init) == Run(est, s, ticks)
    requires e.Pulse? ==> !SyncCounts(Run(est, s, init))
    ensures Run(est, s, init + [e]) == Run(est, s, ticks + (if e.Tick? then [e] else []))
  {
    RunAppendEvent(est, s, init, e);
    if e.Tick? {
      RunAppendEvent(est, s, ticks, e);
    } else {
      assert ticks + [] == ticks;
    }
  }

  /** Pulses that do not count can be erased. */
  lemma {:induction false} QuietIsTicks(est: Estimator, s: State, events: seq<Event>)
    requires Ready(s) && Quiet(est, s, events)
    ensures Run(est, s, events) == Run(est, s, TickAll(Samples(events)))
  {
    if events != [] {
      var n := |events| - 1;
      QuietIsTicks(est, s, events[..n]);
      SamplesAppend(events[..n], events[n]);
      QuietStep(est, s, events[..n], events[n], TickAll(Samples(events[..n])));
      assert events == events[..n] + [events[n]];
    }
  }

  // ----- the clock

  function Guard(t: Timing): int {
    if t.color / 4 < 1 then 1 else t.color / 4
  }

  /** With `left` samples left in the frame, the undisturbed decoder is in the
      last quarter of Blue. */
  predicate InLateBlue(t: Timing, left: int)
    requires t.LineLength() > 0
  {
    left > 0 &&
    var rest := (left - 1) % t.LineLength();
    t.sync + t.porch + t.color <= rest < t.sync + t.porch + t.color + Guard(t)
  }

  lemma RestOfLine(rest: int, lines: nat, n: int)
    requires 1 <= rest <= n
    ensures (rest + lines * n - 1) % n == rest - 1
  {
    DivModUnique(rest + lines * n - 1, n, lines, rest - 1);
  }

  /** Whether a pulse counts depends on the samples left only. */
  lemma SyncCountsByClock(u: State, t: Timing, left: int)
    requires Placed(u) && u.timing == t && Remaining(t, u) == if left > 0 then left else 0
    ensures t.LineLength() > 0
    ensures SyncCounts(u) <==> InLateBlue(t, left)
  {
    TimingReady(u);
    RemainingPositive(u, t);
    if u.phase != Idle {
      var rest := InPhase(t, u.phase, u.phaseSamples) + AfterPhase(t, u.phase);
      RestOfLine(rest, LINE_COUNT - 1 - u.lineIndex, t.LineLength());
    }
  }

  /** If event `i` is a pulse, it does not come in late Blue of the undisturbed
      frame. */
  ghost predicate OffLateBlueAt(s: State, events: seq<Event>, i: nat)
    requires s.timing.LineLength() > 0 && i < |events|
  {
    events[i].Pulse? ==> !InLateBlue(s.timing, FrameLength(s) - Ticks(events[..i]))
  }

  ghost predicate OffLateBlue(s: State, events: seq<Event>)
    requires s.timing.LineLength() > 0
  {
    forall i :: 0 <= i < |events| ==> OffLateBlueAt(s, events, i)
  }

  lemma OffLateBlueAppend(s: State, init: seq<Event>, e: Event)
    requires s.timing.LineLength() > 0
    ensures OffLateBlue(s, init + [e]) <==>
              OffLateBlue(s, init) && (e.Pulse? ==> !InLateBlue(s.timing, FrameLength(s) - Ticks(init)))
  {
    var all := init + [e];
    forall i | 0 <= i < |init|
      ensures OffLateBlueAt(s, all, i) <==> OffLateBlueAt(s, init, i)
    {
      assert all[..i] == init[..i];
    }
    assert all[..|init|] == init;
    assert OffLateBlueAt(s, all, |init|) <==> (e.Pulse? ==> !InLateBlue(s.timing, FrameLength(s) - Ticks(init)));
  }

  /** A pulse after these samples of a frame counts exactly in late Blue. */
  lemma PulseByClock(est: Estimator, s: State, samples: seq<int>, counts: bool)
    requires Ready(s) && Ready(OnSync(s, false))
    requires counts == SyncCounts(Run(est, OnSync(s, false), TickAll(samples)))
    ensures s.timing.LineLength() > 0
    ensures counts <==> InLateBlue(s.timing, FrameLength(s) - |samples|)
  {
    TicksLeft(est, s, samples);
    SyncCountsByClock(Run(est, OnSync(s, false), TickAll(samples)), s.timing, FrameLength(s) - |samples|);
  }

  lemma QuietAppend(est: Estimator, s: State, init: seq<Event>, e: Event, counts: bool)
    requires Ready(s) && Quiet(est, s, init) && counts == SyncCounts(Run(est, s, TickAll(Samples(init))))
    ensures Quiet(est, s, init + [e]) <==> (e.Pulse? ==> !counts)
  {
    QuietIsTicks(est, s, init);
    assert (init + [e])[..|init|] == init;
  }

  lemma QuietStepByClock(est: Estimator, s: State, init: seq<Event>, e: Event) returns (counts: bool)
    requires Ready(s) && Ready(OnSync(s, false)) && Quiet(est, OnSync(s, false), init)
    ensures s.timing.LineLength() > 0
    ensures counts <==> InLateBlue(s.timing, FrameLength(s) - Ticks(init))
    ensures Quiet(est, OnSync(s, false), init + [e]) <==> (e.Pulse? ==> !counts)
  {
    counts := SyncCounts(Run(est, OnSync(s, false), TickAll(Samples(init))));
    PulseByClock(est, s, Samples(init), counts);
    QuietAppend(est, OnSync(s, false), init, e, counts);
  }

  /** A reception is quiet exactly when none of its pulses comes, by the clock of
      the undisturbed frame, in the last quarter of a Blue phase. */
  lemma {:induction false} QuietByClock(est: Estimator, s: State, events: seq<Event>)
    requires Ready(s) && Ready(OnSync(s, false))
    ensures s.timing.LineLength() > 0
    ensures Quiet(est, OnSync(s, false), events) <==> OffLateBlue(s, events)
  {
    TimingReady(s);
    if events != [] {
      var n := |events| - 1;
      assert events == events[..n] + [events[n]];
      QuietByClock(est, s, events[..n]);
      OffLateBlueAppend(s, events[..n], events[n]);
      if Quiet(est, OnSync(s, false), events[..n]) {
        var _ := QuietStepByClock(est, s, events[..n], events[n]);
      }
    }
  }

  // ----- the exact length

  /** Exact frame length: a frame begun at phase offset `o` and not resynchronised
      is done after exactly max(1, s + p + c - o) + 255 (3p + 3c + s) samples, not
      one earlier, however many pulses are ignored on the way. */
  lemma ExactFrameLength(est: Estimator, s: State, events: seq<Event>)
    requires Ready(s) && Ready(OnSync(s, false)) && Quiet(est, OnSync(s, false), events)
    ensures var t, o := s.timing, s.offset;
            var first := if o < t.sync + t.porch + t.color then t.sync + t.porch + t.color - o else 1;
            Run(est, OnSync(s, false), events).frameDone <==>
              Ticks(events) >= first + 255 * (3 * t.porch + 3 * t.color + t.sync)
  {
    QuietIsTicks(est, OnSync(s, false), events);
    TicksLeft(est, s, Samples(events));
  }
}
