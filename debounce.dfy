/**
 * The ignition-button debouncer of main.cpp:196-245: a four-state machine
 * driven by a millisecond accumulator that advances by one loop period per
 * tick while a level is settling, and that reports a one-shot "released"
 * event when a debounced release commits.
 */
module Debounce {
  import opened Constants

  datatype ButtonState = ButtonUp | ButtonDown | ButtonFalling | ButtonRising

  /** A state that is still waiting for the level to settle. */
  predicate Settling(s: ButtonState) {
    s == ButtonFalling || s == ButtonRising
  }

  /** The debouncer's persistent state: the FSM state and the accumulator. */
  datatype Debouncer = Debouncer(state: ButtonState, elapsed: int)

  /** What one tick produces: the next state and the one-shot release event. */
  datatype Outcome = Outcome(next: Debouncer, released: bool)

  /**
   * The states the debouncer can reach from power-on: the accumulator is a
   * non-negative multiple of the tick period, at most the threshold while
   * settling and at most one period past it otherwise.
   */
  predicate Valid(d: Debouncer) {
    0 <= d.elapsed <= DEBOUNCE_BUTTON_TIME_MS + TIME_INCREMENT_MS &&
    d.elapsed % TIME_INCREMENT_MS == 0 &&
    (Settling(d.state) ==> d.elapsed <= DEBOUNCE_BUTTON_TIME_MS)
  }

  /**
   * The settled state a level names: Down while the button is pressed, Up
   * otherwise. ignitionButtonInit seeds the machine with it at power-on, and
   * a settling state commits to it.
   */
  function Settled(level: bool): (s: ButtonState)
    ensures !Settling(s)
    ensures s == ButtonDown <==> level
  {
    if level then ButtonDown else ButtonUp
  }

  /** One call of debounceIgnitionUpdate with the sampled ignition level. */
  function Step(d: Debouncer, ignition: bool): (r: Outcome)
    // the event fires exactly when a settled release commits Rising -> Up
    ensures r.released <==> d.state == ButtonRising && d.elapsed >= DEBOUNCE_BUTTON_TIME_MS && !ignition
    ensures r.released ==> r.next.state == ButtonUp
    // entering Falling or Rising resets the accumulator
    ensures Settling(r.next.state) && r.next.state != d.state ==> r.next.elapsed == 0
    // every settling tick, the committing one included, adds one period
    ensures Settling(d.state) ==> r.next.elapsed == d.elapsed + TIME_INCREMENT_MS
    // Up and Down leave the accumulator alone unless they start settling
    ensures !Settling(d.state) && r.next.state == d.state ==> r.next.elapsed == d.elapsed
    // a settling state commits only once the threshold is reached, and then
    // to the state the level sampled on that tick names
    ensures Settling(d.state) ==>
      r.next.state == (if d.elapsed < DEBOUNCE_BUTTON_TIME_MS then d.state else Settled(ignition))
    // Up starts falling on a pressed level and Down starts rising on a
    // released one, with the accumulator cleared; otherwise they hold
    ensures d.state == ButtonUp ==> r.next == (if ignition then Debouncer(ButtonFalling, 0) else d)
    ensures d.state == ButtonDown ==> r.next == (if ignition then d else Debouncer(ButtonRising, 0))
    ensures Valid(d) ==> Valid(r.next)
  {
    match d.state
    case ButtonUp =>
      if ignition then Outcome(Debouncer(ButtonFalling, 0), false) else Outcome(d, false)
    case ButtonFalling =>
      var s := if d.elapsed >= DEBOUNCE_BUTTON_TIME_MS then Settled(ignition) else ButtonFalling;
      Outcome(Debouncer(s, d.elapsed + TIME_INCREMENT_MS), false)
    case ButtonDown =>
      if !ignition then Outcome(Debouncer(ButtonRising, 0), false) else Outcome(d, false)
    case ButtonRising =>
      var commit := d.elapsed >= DEBOUNCE_BUTTON_TIME_MS;
      var s := if commit then (if !ignition then ButtonUp else ButtonDown) else ButtonRising;
      Outcome(Debouncer(s, d.elapsed + TIME_INCREMENT_MS), commit && !ignition)
  }

  /** The final state and the per-tick events of a run over sampled levels. */
  datatype Trace = Trace(last: Debouncer, events: seq<bool>)

  function Run(d: Debouncer, levels: seq<bool>): (t: Trace)
    ensures |t.events| == |levels|
    ensures Valid(d) ==> Valid(t.last)
    decreases |levels|
  {
    if levels == [] then Trace(d, [])
    else
      var t := Run(d, levels[..|levels| - 1]);
      var o := Step(t.last, levels[|levels| - 1]);
      Trace(o.next, t.events + [o.released])
  }

  /** The events of a prefix of the levels are the prefix of the events. */
  lemma RunPrefix(d: Debouncer, levels: seq<bool>, k: nat)
    requires k <= |levels|
    ensures Run(d, levels[..k]).events == Run(d, levels).events[..k]
  {
    assert levels == levels[..k] + levels[k..];
    RunAppend(d, levels[..k], levels[k..]);
  }

  function Falses(n: nat): (s: seq<bool>)
    ensures |s| == n && forall i :: 0 <= i < n ==> !s[i]
  {
    seq(n, _ => false)
  }

  /** Running over a concatenation is running over the parts in turn. */
  lemma {:induction false} RunAppend(d: Debouncer, a: seq<bool>, b: seq<bool>)
    ensures Run(d, a + b).last == Run(Run(d, a).last, b).last
    ensures Run(d, a + b).events == Run(d, a).events + Run(Run(d, a).last, b).events
    decreases |b|
  {
    if b == [] {
      assert a + b == a;
    } else {
      var b' := b[..|b| - 1];
      assert (a + b)[..|a + b| - 1] == a + b';
      RunAppend(d, a, b');
    }
  }

  /**
   * No transition completes before the threshold: while the accumulator has
   * not reached it, Falling and Rising only accumulate, whatever the sampled
   * levels are.
   */
  lemma {:induction false} SettlingHolds(d: Debouncer, levels: seq<bool>)
    requires Settling(d.state)
    requires d.elapsed + TIME_INCREMENT_MS * |levels| <= DEBOUNCE_BUTTON_TIME_MS
    ensures Run(d, levels) ==
      Trace(Debouncer(d.state, d.elapsed + TIME_INCREMENT_MS * |levels|), Falses(|levels|))
    decreases |levels|
  {
    if levels != [] {
      SettlingHolds(d, levels[..|levels| - 1]);
      assert Falses(|levels| - 1) + [false] == Falses(|levels|);
    }
  }

  /**
   * Entering Falling or Rising, the transition commits on the fifth tick
   * after entry, and only the level sampled on that tick decides where it
   * goes; a release event is reported on that tick and on no other.
   */
  lemma {:induction false} CommitsOnFifthTick(s: ButtonState, levels: seq<bool>)
    requires Settling(s)
    requires |levels| == 5
    ensures Run(Debouncer(s, 0), levels) ==
      Trace(Debouncer(Settled(levels[4]), 50),
            Falses(4) + [s == ButtonRising && !levels[4]])
  {
    SettlingHolds(Debouncer(s, 0), levels[..4]);
  }

  /** A level that agrees with a settled state changes nothing. */
  lemma {:induction false} StableHolds(d: Debouncer, level: bool, n: nat)
    requires d.state == Settled(level)
    ensures Run(d, seq(n, _ => level)) == Trace(d, Falses(n))
  {
    if n > 0 {
      assert seq(n, _ => level)[..n - 1] == seq(n - 1, _ => level);
      StableHolds(d, level, n - 1);
      assert Falses(n - 1) + [false] == Falses(n);
    }
  }

  /** One sampled level followed by more of the same. */
  lemma Split(level: bool, n: nat, k: nat)
    requires k <= n
    ensures seq(n, _ => level) == seq(k, _ => level) + seq(n - k, _ => level)
  {
  }

  /** A run of one tick is one step. */
  lemma RunOne(d: Debouncer, level: bool)
    ensures Run(d, [level]) == Trace(Step(d, level).next, [Step(d, level).released])
  {
    assert [level][..0] == [];
  }

  /** The settling state a level starts when it leaves the other settled state. */
  function Entered(level: bool): ButtonState {
    if level then ButtonFalling else ButtonRising
  }

  /**
   * From a settled state, a level held against it for at least six sampled
   * ticks (the entry tick and five settling ticks) commits to the other
   * settled state; a release event is reported on the sixth tick exactly when
   * the committed edge is a release.
   */
  lemma {:induction false} HeldEdge(d: Debouncer, level: bool, n: nat)
    requires d.state == Settled(!level)
    requires n >= 6
    ensures Run(d, seq(n, _ => level)) ==
      Trace(Debouncer(Settled(level), 50), Falses(5) + [!level] + Falses(n - 6))
  {
    var six, rest := seq(6, _ => level), seq(n - 6, _ => level);
    assert seq(n, _ => level) == six + rest by {
      Split(level, n, 6);
    }
    assert six[0] == level && six[5] == level;
    TwoSamplesDecide(d, six);
    StableHolds(Debouncer(Settled(level), 50), level, n - 6);
    RunAppend(d, six, rest);
  }

  /**
   * A clean press held for at least six sampled ticks, then a clean release
   * held for at least six, starting from Up, yields exactly one release
   * event, on the sixth released tick, and ends Up again.
   */
  lemma {:induction false} PressReleaseCycle(d: Debouncer, p: nat, q: nat)
    requires d.state == ButtonUp
    requires p >= 6 && q >= 6
    ensures Run(d, seq(p, _ => true) + seq(q, _ => false)) ==
      Trace(Debouncer(ButtonUp, 50), Falses(p + 5) + [true] + Falses(q - 6))
  {
    HeldEdge(d, true, p);
    var down := Debouncer(ButtonDown, 50);
    HeldEdge(down, false, q);
    RunAppend(d, seq(p, _ => true), seq(q, _ => false));
    assert Falses(5) + [false] + Falses(p - 6) == Falses(p);
    assert Falses(p) + (Falses(5) + [true] + Falses(q - 6)) == Falses(p + 5) + [true] + Falses(q - 6);
  }

  /**
   * Only two samples decide an edge: the one that leaves a settled state and
   * the one five ticks later, when the accumulator has reached the threshold.
   * The four samples in between are never looked at.
   */
  lemma {:induction false} TwoSamplesDecide(d: Debouncer, levels: seq<bool>)
    requires |levels| == 6 && d.state == Settled(!levels[0])
    ensures Run(d, levels) ==
      Trace(Debouncer(Settled(levels[5]), 50), Falses(5) + [!levels[0] && !levels[5]])
  {
    assert levels == [levels[0]] + levels[1..];
    assert Run(d, [levels[0]]) == Trace(Debouncer(Entered(levels[0]), 0), [false]) by {
      RunOne(d, levels[0]);
    }
    CommitsOnFifthTick(Entered(levels[0]), levels[1..]);
    RunAppend(d, [levels[0]], levels[1..]);
    assert [false] + (Falses(4) + [!levels[0] && !levels[5]]) == Falses(5) + [!levels[0] && !levels[5]];
  }

  /** A single pressed sample that happens to recur five ticks later registers as a press. */
  lemma GlitchPress()
    ensures Run(Debouncer(ButtonUp, 0), [true, false, false, false, false, true]).last ==
      Debouncer(ButtonDown, 50)
  {
    TwoSamplesDecide(Debouncer(ButtonUp, 0), [true, false, false, false, false, true]);
  }

  /** A single released sample that recurs five ticks later fires the release event. */
  lemma GlitchRelease()
    ensures Run(Debouncer(ButtonDown, 50), [false, true, true, true, true, false]) ==
      Trace(Debouncer(ButtonUp, 50), Falses(5) + [true])
  {
    TwoSamplesDecide(Debouncer(ButtonDown, 50), [false, true, true, true, true, false]);
  }
}
