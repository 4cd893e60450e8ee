/**
 * The 100-slot averaging ring buffers of averageLdrReading and
 * averagePotReading (main.cpp:249-289): each call writes a new sample at the
 * cursor, advances the cursor with wrap-around and returns the mean of all
 * slots. Samples are exact reals rather than single-precision floats.
 */
module Averager {
  import opened Constants

  /** Sum of the slots, accumulated from the first slot onward as the summing loop does. */
  function Sum(s: seq<real>): real
    decreases |s|
  {
    if s == [] then 0.0 else Sum(s[..|s| - 1]) + s[|s| - 1]
  }

  /** The value the averager returns: the sum of all slots divided by the slot count. */
  function Mean(slots: seq<real>): real {
    Sum(slots) / (NUMBER_OF_AVG_SAMPLES as real)
  }

  /** A ring: the slots and the write cursor. */
  datatype Ring = Ring(slots: seq<real>, cursor: int) {
    predicate Valid() {
      |slots| == NUMBER_OF_AVG_SAMPLES && 0 <= cursor < NUMBER_OF_AVG_SAMPLES
    }
  }

  /** The ring at power-on: zeroed slots (static storage) and cursor 0. */
  function Zeroed(): (r: Ring)
    ensures r.Valid() && r.cursor == 0
    ensures forall j :: 0 <= j < |r.slots| ==> r.slots[j] == 0.0
  {
    Ring(seq(NUMBER_OF_AVG_SAMPLES, _ => 0.0), 0)
  }

  /** The cursor after one write: incremented, and reset to 0 once it reaches the end. */
  function Advance(i: int): (j: int)
    requires 0 <= i < NUMBER_OF_AVG_SAMPLES
    ensures 0 <= j < NUMBER_OF_AVG_SAMPLES
    ensures j == (i + 1) % NUMBER_OF_AVG_SAMPLES
  {
    var j := i + 1;
    if j >= NUMBER_OF_AVG_SAMPLES then 0 else j
  }

  /** One call's effect on the ring: the sample lands at the cursor, which then advances. */
  function Record(r: Ring, x: real): (r': Ring)
    requires r.Valid()
    ensures r'.Valid()
    ensures r'.slots[r.cursor] == x
    ensures r'.cursor == (r.cursor + 1) % NUMBER_OF_AVG_SAMPLES
  {
    Ring(r.slots[r.cursor := x], Advance(r.cursor))
  }

  /** Record overwrites only the slot at the old cursor; every other slot keeps its sample. */
  lemma RecordAt(r: Ring, x: real, j: int)
    requires r.Valid() && 0 <= j < NUMBER_OF_AVG_SAMPLES
    ensures Record(r, x).slots[j] == if j == r.cursor then x else r.slots[j]
  {
  }

  /** Recording a run of samples, oldest first. */
  function Feed(r: Ring, xs: seq<real>): (r': Ring)
    requires r.Valid()
    ensures r'.Valid()
    decreases |xs|
  {
    if xs == [] then r else Record(Feed(r, xs[..|xs| - 1]), xs[|xs| - 1])
  }

  /**
   * One call of averageLdrReading / averagePotReading on a buffer and its
   * cursor: the slot at the cursor is overwritten, every other slot is kept,
   * the cursor advances modulo the slot count, and the result is the mean
   * of all slots after the write.
   */
  method RingSample(a: array<real>, cursor: int, sample: real) returns (next: int, average: real)
    requires a.Length == NUMBER_OF_AVG_SAMPLES && 0 <= cursor < NUMBER_OF_AVG_SAMPLES
    modifies a
    ensures Ring(a[..], next) == Record(Ring(old(a[..]), cursor), sample)
    ensures average == Mean(a[..])
  {
    a[cursor] := sample;
    next := cursor + 1;
    if next >= NUMBER_OF_AVG_SAMPLES {
      next := 0;
    }
    var sum := 0.0;
    for i := 0 to NUMBER_OF_AVG_SAMPLES
      invariant sum == Sum(a[..i])
    {
      assert a[..i + 1][..i] == a[..i];
      sum := sum + a[i];
    }
    assert a[..NUMBER_OF_AVG_SAMPLES] == a[..];
    average := sum / (NUMBER_OF_AVG_SAMPLES as real);
  }

  // ---- properties of the sum and the mean ----

  lemma {:induction false} SumAppend(a: seq<real>, b: seq<real>)
    ensures Sum(a + b) == Sum(a) + Sum(b)
    decreases |b|
  {
    if b == [] {
      assert a + b == a;
    } else {
      assert (a + b)[..|a + b| - 1] == a + b[..|b| - 1];
      SumAppend(a, b[..|b| - 1]);
    }
  }

  /** Every slot within [lo, hi] keeps the mean within [lo, hi]. */
  lemma {:induction false} SumBounds(s: seq<real>, lo: real, hi: real)
    requires forall j :: 0 <= j < |s| ==> lo <= s[j] <= hi
    ensures (|s| as real) * lo <= Sum(s) <= (|s| as real) * hi
    decreases |s|
  {
    if s != [] {
      SumBounds(s[..|s| - 1], lo, hi);
    }
  }

  lemma MeanBounds(r: Ring, lo: real, hi: real)
    requires r.Valid()
    requires forall j :: 0 <= j < |r.slots| ==> lo <= r.slots[j] <= hi
    ensures lo <= Mean(r.slots) <= hi
  {
    SumBounds(r.slots, lo, hi);
  }

  lemma {:induction false} SumConstant(v: real, n: nat)
    ensures Sum(seq(n, _ => v)) == (n as real) * v
  {
    if n > 0 {
      assert seq(n, _ => v)[..n - 1] == seq(n - 1, _ => v);
      SumConstant(v, n - 1);
    }
  }

  // ---- what a run of samples leaves in the ring ----

  /** Position k slots after cursor c, wrapping once. */
  function Wrap(c: int, k: int): int
    requires 0 <= c < NUMBER_OF_AVG_SAMPLES && 0 <= k < NUMBER_OF_AVG_SAMPLES
  {
    if c + k >= NUMBER_OF_AVG_SAMPLES then c + k - NUMBER_OF_AVG_SAMPLES else c + k
  }

  lemma {:induction false} FeedAppend(r: Ring, a: seq<real>, b: seq<real>)
    requires r.Valid()
    ensures Feed(r, a + b) == Feed(Feed(r, a), b)
    decreases |b|
  {
    if b == [] {
      assert a + b == a;
    } else {
      assert (a + b)[..|a + b| - 1] == a + b[..|b| - 1];
      FeedAppend(r, a, b[..|b| - 1]);
    }
  }

  /**
   * Up to a full lap, the k-th sample of a run lands k slots after the
   * starting cursor, and the cursor ends |xs| slots on.
   */
  lemma {:induction false} FeedPlaces(r: Ring, xs: seq<real>)
    requires r.Valid() && |xs| <= NUMBER_OF_AVG_SAMPLES
    ensures Feed(r, xs).cursor == (r.cursor + |xs|) % NUMBER_OF_AVG_SAMPLES
    ensures forall k :: 0 <= k < |xs| ==> Feed(r, xs).slots[Wrap(r.cursor, k)] == xs[k]
    decreases |xs|
  {
    if xs != [] {
      var n := |xs| - 1;
      var xs' := xs[..n];
      FeedPlaces(r, xs');
      var before := Feed(r, xs');
      assert before.cursor == Wrap(r.cursor, n);
      forall k | 0 <= k < |xs|
        ensures Feed(r, xs).slots[Wrap(r.cursor, k)] == xs[k]
      {
        RecordAt(before, xs[n], Wrap(r.cursor, k));
        if k < n {
          assert Wrap(r.cursor, k) != Wrap(r.cursor, n);
          assert xs'[k] == xs[k];
        }
      }
    }
  }

  /** A full lap of samples leaves exactly those samples, rotated to the cursor. */
  lemma FullLap(r: Ring, xs: seq<real>)
    requires r.Valid() && |xs| == NUMBER_OF_AVG_SAMPLES
    ensures Feed(r, xs).cursor == r.cursor
    ensures Feed(r, xs).slots ==
      xs[NUMBER_OF_AVG_SAMPLES - r.cursor..] + xs[..NUMBER_OF_AVG_SAMPLES - r.cursor]
  {
    FeedPlaces(r, xs);
    var c, f := r.cursor, Feed(r, xs).slots;
    var rot := xs[NUMBER_OF_AVG_SAMPLES - c..] + xs[..NUMBER_OF_AVG_SAMPLES - c];
    forall j | 0 <= j < NUMBER_OF_AVG_SAMPLES
      ensures f[j] == rot[j]
    {
      var k := if j >= c then j - c else j + NUMBER_OF_AVG_SAMPLES - c;
      assert Wrap(c, k) == j;
    }
  }

  /**
   * Whatever the ring held and wherever its cursor stood, after a full lap
   * of samples the average is the mean of exactly those samples.
   */
  lemma FullLapMean(r: Ring, xs: seq<real>)
    requires r.Valid() && |xs| == NUMBER_OF_AVG_SAMPLES
    ensures Mean(Feed(r, xs).slots) == Sum(xs) / (NUMBER_OF_AVG_SAMPLES as real)
  {
    FullLap(r, xs);
    var k := NUMBER_OF_AVG_SAMPLES - r.cursor;
    SumAppend(xs[k..], xs[..k]);
    assert xs == xs[..k] + xs[k..];
    SumAppend(xs[..k], xs[k..]);
  }

  /** Only the last full lap of samples matters to the average. */
  lemma LastLapMean(r: Ring, xs: seq<real>)
    requires r.Valid() && |xs| >= NUMBER_OF_AVG_SAMPLES
    ensures Mean(Feed(r, xs).slots) == Mean(xs[|xs| - NUMBER_OF_AVG_SAMPLES..])
  {
    var k := |xs| - NUMBER_OF_AVG_SAMPLES;
    assert xs == xs[..k] + xs[k..];
    FeedAppend(r, xs[..k], xs[k..]);
    FullLapMean(Feed(r, xs[..k]), xs[k..]);
  }

  /**
   * Convergence: starting from any contents, at least one lap of a constant
   * sample v makes the average exactly v.
   */
  lemma ConstantConverges(r: Ring, v: real, n: nat)
    requires r.Valid() && n >= NUMBER_OF_AVG_SAMPLES
    ensures Mean(Feed(r, seq(n, _ => v)).slots) == v
  {
    LastLapMean(r, seq(n, _ => v));
    assert seq(n, _ => v)[n - NUMBER_OF_AVG_SAMPLES..] == seq(NUMBER_OF_AVG_SAMPLES, _ => v);
    SumConstant(v, NUMBER_OF_AVG_SAMPLES);
  }

  /** Samples alternating between 0 and 1; `phase` picks which comes first. */
  function Alternating(n: nat, phase: nat): (s: seq<real>)
    ensures |s| == n
  {
    seq(n, k => if (k + phase) % 2 == 0 then 0.0 else 1.0)
  }

  lemma {:induction false} SumAlternating(m: nat, phase: nat)
    ensures Sum(Alternating(2 * m, phase)) == m as real
  {
    if m > 0 {
      var s := Alternating(2 * m, phase);
      var s' := Alternating(2 * m - 2, phase);
      assert s == s' + [s[2 * m - 2], s[2 * m - 1]];
      SumAlternating(m - 1, phase);
      var x, y := s[2 * m - 2], s[2 * m - 1];
      SumAppend(s', [x, y]);
      assert Sum([x, y]) == x + y by {
        assert [x, y][..1] == [x];
        assert [x][..0] == [];
        assert Sum([x]) == Sum([]) + x;
        assert Sum([x, y]) == Sum([x]) + y;
      }
      assert x + y == 1.0;
    }
  }

  /** Alternating 0/1 samples, after at least one full lap, average to exactly 0.5. */
  lemma AlternatingConverges(r: Ring, n: nat, phase: nat)
    requires r.Valid() && n >= NUMBER_OF_AVG_SAMPLES
    ensures Mean(Feed(r, Alternating(n, phase)).slots) == 0.5
  {
    var k := n - NUMBER_OF_AVG_SAMPLES;
    var lap := Alternating(n, phase)[k..];
    assert lap == Alternating(2 * 50, phase + k) by {
      forall j | 0 <= j < NUMBER_OF_AVG_SAMPLES
        ensures lap[j] == Alternating(2 * 50, phase + k)[j]
      {
        assert (k + j) + phase == j + (phase + k);
      }
    }
    SumAlternating(50, phase + k);
    assert Mean(lap) == 0.5;
    LastLapMean(r, Alternating(n, phase));
  }
}
