/** What a reception is: the exact interleaving of samples and sync pulses that a
    recording and a list of sync positions are played as. */
module ScottieSchedule {
  import opened Division
  import opened ScottieModel
  import opened ScottieRuns
  import opened ScottieFrame
  import opened ScottieQuiet

  // ----- what is played

  /** How many sync positions the loop has passed before sample `n`: it waits for
      each in turn. */
  function Passed(syncs: seq<int>, n: nat): (k: nat)
    ensures k <= |syncs|
  {
    if n == 0 then 0 else
    var k := Passed(syncs, n - 1);
    if k < |syncs| && syncs[k] == n - 1 then k + 1 else k
  }

  /** What sample `n` is played as, `k` sync positions being passed: nothing
      before the first, then itself, after a pulse if the next position is here. */
  function EventsAt(samples: seq<int>, syncs: seq<int>, n: nat): seq<Event>
    requires n < |samples|
  {
    var k := Passed(syncs, n);
    var here := k < |syncs| && syncs[k] == n;
    if k == 0 then (if here then [Tick(samples[n])] else [])
    else if here then [Pulse, Tick(samples[n])] else [Tick(samples[n])]
  }

  /** Everything played after the pulse that begins the frame, up to sample `n`. */
  function EventsOf(samples: seq<int>, syncs: seq<int>, n: nat): seq<Event>
    requires n <= |samples|
  {
    if n == 0 then [] else EventsOf(samples, syncs, n - 1) + EventsAt(samples, syncs, n - 1)
  }

  /** A frame is begun at the first position, if that is a sample. */
  predicate Begun(syncs: seq<int>, n: nat) {
    syncs != [] && 0 <= syncs[0] < n
  }

  lemma {:induction false} PassedBegun(syncs: seq<int>, n: nat)
    ensures Passed(syncs, n) > 0 <==> Begun(syncs, n)
  {
    if n > 0 {
      PassedBegun(syncs, n - 1);
    }
  }

  ghost predicate Increasing(s: seq<int>) {
    forall i, j :: 0 <= i < j < |s| ==> s[i] < s[j]
  }

  /** In increasing positions none is missed. */
  lemma {:induction false} PassedAll(syncs: seq<int>, n: nat)
    requires Increasing(syncs) && (syncs != [] ==> syncs[0] >= 0)
    ensures forall j :: 0 <= j < |syncs| ==> (syncs[j] < n <==> j < Passed(syncs, n))
  {
    if n > 0 {
      PassedAll(syncs, n - 1);
    }
  }

  lemma {:induction false} SamplesConcat(a: seq<Event>, b: seq<Event>)
    ensures Samples(a + b) == Samples(a) + Samples(b)
  {
    if b == [] {
      assert a + b == a;
    } else {
      var n := |b| - 1;
      assert (a + b)[..|a + b| - 1] == a + b[..n];
      SamplesConcat(a, b[..n]);
    }
  }

  /** The samples from the first position on. */
  function FromFirst(samples: seq<int>, syncs: seq<int>, n: nat): seq<int>
    requires n <= |samples|
  {
    if Begun(syncs, n) then samples[syncs[0]..n] else []
  }

  lemma FromFirstNext(samples: seq<int>, syncs: seq<int>, n: nat)
    requires n < |samples|
    ensures FromFirst(samples, syncs, n + 1)
         == FromFirst(samples, syncs, n) + (if Begun(syncs, n + 1) then [samples[n]] else [])
  {
  }

  lemma SamplesAt(samples: seq<int>, syncs: seq<int>, n: nat)
    requires n < |samples|
    ensures Samples(EventsAt(samples, syncs, n)) == if Begun(syncs, n + 1) then [samples[n]] else []
  {
    PassedBegun(syncs, n + 1);
    var tick := Tick(samples[n]);
    assert [tick][..0] == [] && [Pulse, tick][..1] == [Pulse] && [Pulse][..0] == [];
  }

  /** The samples are played in order, without gaps, from the first position on. */
  lemma {:induction false} SamplesPlayed(samples: seq<int>, syncs: seq<int>, n: nat)
    requires n <= |samples|
    ensures Samples(EventsOf(samples, syncs, n)) == FromFirst(samples, syncs, n)
  {
    if n > 0 {
      var m := n - 1;
      SamplesPlayed(samples, syncs, m);
      FromFirstNext(samples, syncs, m);
      SamplesConcat(EventsOf(samples, syncs, m), EventsAt(samples, syncs, m));
      SamplesAt(samples, syncs, m);
    }
  }

  lemma TicksPlayed(samples: seq<int>, syncs: seq<int>, n: nat)
    requires n <= |samples|
    ensures Ticks(EventsOf(samples, syncs, n)) == if Begun(syncs, n) then n - syncs[0] else 0
  {
    SamplesPlayed(samples, syncs, n);
  }

  lemma {:induction false} EventsGrow(samples: seq<int>, syncs: seq<int>, n: nat, m: nat)
    requires n <= m <= |samples|
    ensures EventsOf(samples, syncs, n) <= EventsOf(samples, syncs, m)
  {
    if n < m {
      EventsGrow(samples, syncs, n, m - 1);
    }
  }

  /** A pulse is played before the sample at each later position. */
  lemma PulsesPlayed(samples: seq<int>, syncs: seq<int>, n: nat, j: nat)
    requires Increasing(syncs) && 1 <= j < |syncs| && 0 <= syncs[0] && syncs[j] < n <= |samples|
    ensures syncs[j] >= 0
    ensures EventsOf(samples, syncs, syncs[j]) + [Pulse, Tick(samples[syncs[j]])] <= EventsOf(samples, syncs, n)
  {
    assert syncs[0] < syncs[j];
    PassedAll(syncs, syncs[j]);
    EventsGrow(samples, syncs, syncs[j] + 1, n);
  }

  function Pulses(events: seq<Event>): nat {
    if events == [] then 0
    else Pulses(events[..|events| - 1]) + (if events[|events| - 1].Pulse? then 1 else 0)
  }

  /** Of `k` positions passed, all but the first are pulses. */
  function Later(k: nat): nat {
    if k == 0 then 0 else k - 1
  }

  lemma PulsesAt(samples: seq<int>, syncs: seq<int>, n: nat, before: seq<Event>, k: nat, k': nat)
    requires n < |samples| && k == Passed(syncs, n) && k' == Passed(syncs, n + 1) && Pulses(before) == Later(k)
    ensures Pulses(before + EventsAt(samples, syncs, n)) == Later(k')
  {
    var tick := Tick(samples[n]);
    assert (before + [tick])[..|before|] == before && before + [] == before;
    assert (before + [Pulse, tick])[..|before| + 1] == before + [Pulse];
    assert (before + [Pulse])[..|before|] == before;
  }

  /** And no other pulse is. */
  lemma {:induction false} PulsesCounted(samples: seq<int>, syncs: seq<int>, n: nat)
    requires n <= |samples|
    ensures Pulses(EventsOf(samples, syncs, n)) == Later(Passed(syncs, n))
  {
    if n > 0 {
      var m := n - 1;
      PulsesCounted(samples, syncs, m);
      PulsesAt(samples, syncs, m, EventsOf(samples, syncs, m), Passed(syncs, m), Passed(syncs, n));
    }
  }

  // ----- receptions that are not resynchronised

  /** No sync position before sample `n` but the first lies, by the clock of the
      undisturbed frame, in late Blue. */
  ghost predicate OffPositions(s: State, syncs: seq<int>, n: nat)
    requires s.timing.LineLength() > 0
  {
    forall j :: 1 <= j < |syncs| && syncs[j] < n ==>
      !InLateBlue(s.timing, FrameLength(s) - (syncs[j] - syncs[0]))
  }

  lemma OffPositionsStep(s: State, syncs: seq<int>, n: nat)
    requires s.timing.LineLength() > 0 && Increasing(syncs) && (syncs != [] ==> syncs[0] >= 0)
    ensures OffPositions(s, syncs, n + 1) <==>
              && OffPositions(s, syncs, n)
              && (Begun(syncs, n) && Passed(syncs, n + 1) > Passed(syncs, n) ==>
                    !InLateBlue(s.timing, FrameLength(s) - (n - syncs[0])))
  {
    PassedAll(syncs, n);
    PassedAll(syncs, n + 1);
    PassedBegun(syncs, n);
  }

  lemma OffEventsStep(s: State, samples: seq<int>, syncs: seq<int>, n: nat, before: seq<Event>)
    requires s.timing.LineLength() > 0 && n < |samples|
    requires Begun(syncs, n) ==> Ticks(before) == n - syncs[0]
    ensures OffLateBlue(s, before + EventsAt(samples, syncs, n)) <==>
              && OffLateBlue(s, before)
              && (Begun(syncs, n) && Passed(syncs, n + 1) > Passed(syncs, n) ==>
                    !InLateBlue(s.timing, FrameLength(s) - (n - syncs[0])))
  {
    PassedBegun(syncs, n);
    var tick := Tick(samples[n]);
    OffLateBlueAppend(s, before, tick);
    OffLateBlueAppend(s, before, Pulse);
    OffLateBlueAppend(s, before + [Pulse], tick);
    assert before + [Pulse] + [tick] == before + [Pulse, tick] && before + [] == before;
  }

  lemma {:induction false} OffPositionsEvents(s: State, samples: seq<int>, syncs: seq<int>, n: nat)
    requires s.timing.LineLength() > 0 && Increasing(syncs) && (syncs != [] ==> syncs[0] >= 0)
    requires n <= |samples|
    ensures OffLateBlue(s, EventsOf(samples, syncs, n)) <==> OffPositions(s, syncs, n)
  {
    if n > 0 {
      var m := n - 1;
      OffPositionsEvents(s, samples, syncs, m);
      OffPositionsStep(s, syncs, m);
      TicksPlayed(samples, syncs, m);
      OffEventsStep(s, samples, syncs, m, EventsOf(samples, syncs, m));
    }
  }

  /** A reception is quiet exactly when no later sync position lies in the last
      quarter of a Blue phase, by the clock that starts at the first. */
  lemma QuietReception(est: Estimator, s: State, samples: seq<int>, syncs: seq<int>)
    requires Ready(s) && Ready(OnSync(s, false))
    requires Increasing(syncs) && (syncs != [] ==> syncs[0] >= 0)
    ensures s.timing.LineLength() > 0
    ensures Quiet(est, OnSync(s, false), EventsOf(samples, syncs, |samples|)) <==> OffPositions(s, syncs, |samples|)
  {
    QuietByClock(est, s, EventsOf(samples, syncs, |samples|));
    OffPositionsEvents(s, samples, syncs, |samples|);
  }

  /** Pulses exactly a line apart never resynchronise, whatever the phase offset. */
  lemma EvenPulsesAreIgnored(s: State, k: nat, n: int, gap: int)
    requires Ready(s) && n == s.timing.LineLength() && gap == k * n
    ensures n > 0 && !InLateBlue(s.timing, FrameLength(s) - gap)
  {
    TimingReady(s);
    EvenClock(FirstLine(s.timing, s.offset), LINE_COUNT - 1, k, n);
  }

  lemma EvenOff(s: State, syncs: seq<int>, n: int, upTo: nat)
    requires Ready(s) && n == s.timing.LineLength()
    requires forall j :: 0 <= j < |syncs| ==> syncs[j] == syncs[0] + j * n
    ensures n > 0 && OffPositions(s, syncs, upTo)
  {
    TimingReady(s);
    forall j | 1 <= j < |syncs| && syncs[j] < upTo
      ensures !InLateBlue(s.timing, FrameLength(s) - (syncs[j] - syncs[0]))
    {
      EvenPulsesAreIgnored(s, j, n, syncs[j] - syncs[0]);
    }
  }

  /** So a reception whose positions are exactly a line apart is quiet. */
  lemma EvenReceptionIsQuiet(est: Estimator, s: State, samples: seq<int>, syncs: seq<int>, n: int)
    requires Ready(s) && Ready(OnSync(s, false)) && n == s.timing.LineLength()
    requires Increasing(syncs) && (syncs != [] ==> syncs[0] >= 0)
    requires forall j :: 0 <= j < |syncs| ==> syncs[j] == syncs[0] + j * n
    ensures Quiet(est, OnSync(s, false), EventsOf(samples, syncs, |samples|))
  {
    QuietReception(est, s, samples, syncs);
    EvenOff(s, syncs, n, |samples|);
  }

  lemma EvenClock(first: int, lines: int, k: int, n: int)
    requires 1 <= first <= n
    ensures first + lines * n - k * n > 0 ==> (first + lines * n - k * n - 1) % n == first - 1
  {
    assert lines * n - k * n == (lines - k) * n;
    DivModUnique(first + lines * n - k * n - 1, n, lines - k, first - 1);
  }
}
