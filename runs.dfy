/**
 * Properties of the controller over bounded sequences of ticks: the
 * invariant every reachable state keeps, the engine latch driven by a
 * complete press-and-release of the ignition, and the dial average settling
 * on a held dial position.
 */
module HeadlightRuns {
  import opened Constants
  import Debounce
  import opened Averager
  import opened Arbiter
  import opened Headlight

  /** The state after a sequence of ticks, oldest first. */
  function Run(s: State, ins: seq<Inputs>): (r: State)
    requires Inv(s)
    ensures Inv(r)
    decreases |ins|
  {
    if ins == [] then s else Step(Run(s, ins[..|ins| - 1]), ins[|ins| - 1])
  }

  /** The ignition levels of a sequence of ticks. */
  function Levels(ins: seq<Inputs>): (levels: seq<bool>)
    ensures |levels| == |ins|
  {
    seq(|ins|, k requires 0 <= k < |ins| => ins[k].ignition)
  }

  /** The dial samples of a sequence of ticks. */
  function Dial(ins: seq<Inputs>): (xs: seq<real>)
    ensures |xs| == |ins|
  {
    seq(|ins|, k requires 0 <= k < |ins| => ins[k].potentiometer)
  }

  /** Whether an odd number of the events fired. */
  function Odd(events: seq<bool>): bool
    decreases |events|
  {
    if events == [] then false else Odd(events[..|events| - 1]) != events[|events| - 1]
  }

  lemma {:induction false} OddAppend(a: seq<bool>, b: seq<bool>)
    ensures Odd(a + b) == (Odd(a) != Odd(b))
    decreases |b|
  {
    if b == [] {
      assert a + b == a;
    } else {
      assert (a + b)[..|a + b| - 1] == a + b[..|b| - 1];
      OddAppend(a, b[..|b| - 1]);
    }
  }

  lemma {:induction false} OddFalses(n: nat)
    ensures !Odd(Debounce.Falses(n))
  {
    if n > 0 {
      assert Debounce.Falses(n)[..n - 1] == Debounce.Falses(n - 1);
      OddFalses(n - 1);
    }
  }

  /** The debouncer inside a run of ticks is the debouncer run over the ignition levels. */
  lemma {:induction false} DebouncerOfRun(s: State, ins: seq<Inputs>)
    requires Inv(s)
    ensures Run(s, ins).debouncer == Debounce.Run(s.debouncer, Levels(ins)).last
    decreases |ins|
  {
    if ins != [] {
      var n := |ins| - 1;
      DebouncerOfRun(s, ins[..n]);
      assert Levels(ins)[..n] == Levels(ins[..n]);
    }
  }

  /**
   * With the driver seated throughout, the engine latch ends toggled exactly
   * when an odd number of release events fired during the run.
   */
  lemma {:induction false} EngineParity(s: State, ins: seq<Inputs>)
    requires Inv(s)
    requires forall k :: 0 <= k < |ins| ==> ins[k].driverSeat
    ensures Run(s, ins).engineOn == (s.engineOn != Odd(Debounce.Run(s.debouncer, Levels(ins)).events))
    decreases |ins|
  {
    if ins != [] {
      var n := |ins| - 1;
      EngineParity(s, ins[..n]);
      DebouncerOfRun(s, ins[..n]);
      assert Levels(ins)[..n] == Levels(ins[..n]);
    }
  }

  /** In the events of a clean press-and-release, a prefix holds the event once it reaches tick p + 6. */
  lemma CycleEventsOdd(p: nat, q: nat, k: nat)
    requires p >= 6 && q >= 6 && k <= p + q
    ensures Odd((Debounce.Falses(p + 5) + [true] + Debounce.Falses(q - 6))[..k]) == (k >= p + 6)
  {
    var events := Debounce.Falses(p + 5) + [true] + Debounce.Falses(q - 6);
    if k < p + 6 {
      assert events[..k] == Debounce.Falses(k);
      OddFalses(k);
    } else {
      assert events[..k] == Debounce.Falses(p + 5) + [true] + Debounce.Falses(k - p - 6);
      OddFalses(p + 5);
      OddFalses(k - p - 6);
      OddAppend(Debounce.Falses(p + 5), [true]);
      OddAppend(Debounce.Falses(p + 5) + [true], Debounce.Falses(k - p - 6));
      assert Odd([true]) by {
        assert [true][..0] == [];
      }
    }
  }

  /** The inputs of a clean press-and-release with the driver seated. */
  predicate PressRelease(ins: seq<Inputs>, p: nat) {
    forall k :: 0 <= k < |ins| ==> ins[k].driverSeat && ins[k].ignition == (k < p)
  }

  lemma PressReleaseLevels(ins: seq<Inputs>, p: nat, q: nat)
    requires |ins| == p + q && PressRelease(ins, p)
    ensures Levels(ins) == seq(p, _ => true) + seq(q, _ => false)
  {
  }

  /** The latch after the first k ticks of a clean press-and-release. */
  lemma EngineAfter(s: State, ins: seq<Inputs>, p: nat, q: nat, k: nat)
    requires Inv(s) && s.debouncer.state == Debounce.ButtonUp && !s.engineOn
    requires p >= 6 && q >= 6 && |ins| == p + q && PressRelease(ins, p)
    requires k <= |ins|
    ensures Run(s, ins[..k]).engineOn == (k >= p + 6)
  {
    var levels := Levels(ins);
    var events := Debounce.Run(s.debouncer, levels).events;
    assert events == Debounce.Falses(p + 5) + [true] + Debounce.Falses(q - 6) by {
      PressReleaseLevels(ins, p, q);
      Debounce.PressReleaseCycle(s.debouncer, p, q);
    }
    assert Debounce.Run(s.debouncer, Levels(ins[..k])).events == events[..k] by {
      assert Levels(ins[..k]) == levels[..k];
      Debounce.RunPrefix(s.debouncer, levels, k);
    }
    assert forall j :: 0 <= j < k ==> ins[..k][j].driverSeat by {
      assert forall j :: 0 <= j < k ==> ins[..k][j] == ins[j];
    }
    EngineParity(s, ins[..k]);
    CycleEventsOdd(p, q, k);
  }

  /**
   * Engine off, driver seated, ignition held for p >= 6 ticks and released
   * for q >= 6: the engine is off through the first p + 5 ticks and on from
   * tick p + 6 to the end, so it turns on exactly once.
   */
  lemma EngineStartsOnce(s: State, ins: seq<Inputs>, p: nat, q: nat)
    requires Inv(s) && s.debouncer.state == Debounce.ButtonUp && !s.engineOn
    requires p >= 6 && q >= 6 && |ins| == p + q && PressRelease(ins, p)
    ensures forall k :: 0 <= k <= |ins| ==> Run(s, ins[..k]).engineOn == (k >= p + 6)
  {
    forall k | 0 <= k <= |ins|
      ensures Run(s, ins[..k]).engineOn == (k >= p + 6)
    {
      EngineAfter(s, ins, p, q, k);
    }
  }

  /** The dial ring after a run of ticks holds the run's dial samples. */
  lemma {:induction false} DialOfRun(s: State, ins: seq<Inputs>)
    requires Inv(s)
    ensures Run(s, ins).pot == Feed(s.pot, Dial(ins))
    decreases |ins|
  {
    if ins != [] {
      var n := |ins| - 1;
      DialOfRun(s, ins[..n]);
      assert Dial(ins)[..n] == Dial(ins[..n]);
    }
  }

  /**
   * After any tick with the engine on, the mode is the one the dial average
   * of that tick selects, whatever the mode was before.
   */
  lemma ModeTracksDial(s: State, ins: seq<Inputs>)
    requires Inv(s) && ins != []
    ensures var r := Run(s, ins);
      r.engineOn ==> r.lightMode == Arbitrate(true, OffMode, Mean(r.pot.slots))
  {
    var n := |ins| - 1;
    assert Run(s, ins) == Step(Run(s, ins[..n]), ins[n]);
  }

  /**
   * A dial held at v for at least 100 ticks, from any state, averages to
   * exactly v; with the engine on, the mode is then the one v selects.
   */
  lemma DialSettles(s: State, ins: seq<Inputs>, v: real)
    requires Inv(s) && |ins| >= NUMBER_OF_AVG_SAMPLES
    requires forall k :: 0 <= k < |ins| ==> ins[k].potentiometer == v
    ensures Mean(Run(s, ins).pot.slots) == v
    ensures Run(s, ins).engineOn ==> Run(s, ins).lightMode == Arbitrate(true, OffMode, v)
  {
    DialOfRun(s, ins);
    assert Dial(ins) == seq(|ins|, _ => v);
    ConstantConverges(s.pot, v, |ins|);
    ModeTracksDial(s, ins);
  }
}
