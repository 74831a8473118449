/**
 * The bounded evidence buffer: a `deque(maxlen=30)` of containment
 * observations, and the rolling average taken over it.
 */
module RingBuffer {

  /** Maximum number of observations kept per (track, class). */
  const Capacity: nat := 30

  /** Every entry is one of the two containment indicators 0.0 and 1.0. */
  ghost predicate AllBinary(s: seq<real>)
  {
    forall i :: 0 <= i < |s| ==> s[i] == 0.0 || s[i] == 1.0
  }

  /** The part of an observation history that a buffer of `Capacity` entries retains: its newest entries. */
  function Window(s: seq<real>): seq<real>
  {
    if |s| <= Capacity then s else s[|s| - Capacity..]
  }

  /** `deque.append` on a deque with `maxlen=Capacity`. */
  function Push(b: seq<real>, x: real): (r: seq<real>)
    ensures |r| <= Capacity
    ensures 0 < |r| && r[|r| - 1] == x
    ensures |b| < Capacity ==> r == b + [x]
    ensures |b| == Capacity ==> r == b[1..] + [x]
    ensures AllBinary(b) && (x == 0.0 || x == 1.0) ==> AllBinary(r)
  {
    Window(b + [x])
  }

  /** Appends the observations `xs` one at a time, oldest first. */
  function PushAll(b: seq<real>, xs: seq<real>): seq<real>
    decreases |xs|
  {
    if |xs| == 0 then b else PushAll(Push(b, xs[0]), xs[1..])
  }

  /** Keeping the newest entries of a kept suffix is keeping the newest entries of the whole. */
  lemma WindowAppend(s: seq<real>, t: seq<real>)
    ensures Window(Window(s) + t) == Window(s + t)
  {
    if |s| > Capacity {
      var w := Window(s);
      if |w + t| <= Capacity {
        assert |t| == 0;
        assert s + t == s;
      } else {
        assert Window(w + t) == (w + t)[|w + t| - Capacity..];
        assert (w + t)[|w + t| - Capacity..] == (s + t)[|s + t| - Capacity..];
      }
    }
  }

  /**
   * The buffer after a series of pushes holds exactly the newest `Capacity`
   * observations of the combined history, in arrival order.
   */
  lemma {:induction false} PushAllIsWindow(b: seq<real>, xs: seq<real>)
    requires |b| <= Capacity
    ensures PushAll(b, xs) == Window(b + xs)
    decreases |xs|
  {
    if |xs| == 0 {
      assert b + xs == b;
    } else {
      PushAllIsWindow(Push(b, xs[0]), xs[1..]);
      WindowAppend(b + [xs[0]], xs[1..]);
      assert b + [xs[0]] + xs[1..] == b + xs;
    }
  }

  /** A buffer that starts empty holds the last min(n, Capacity) of the n observations pushed. */
  lemma FromEmpty(xs: seq<real>)
    ensures PushAll([], xs) == Window(xs)
    ensures |PushAll([], xs)| == if |xs| < Capacity then |xs| else Capacity
  {
    PushAllIsWindow([], xs);
    assert [] + xs == xs;
  }

  /** Pushing only indicators keeps a buffer bounded and binary. */
  lemma {:induction false} PushAllInvariant(b: seq<real>, xs: seq<real>)
    requires |b| <= Capacity && AllBinary(b) && AllBinary(xs)
    ensures |PushAll(b, xs)| <= Capacity
    ensures AllBinary(PushAll(b, xs))
    ensures |xs| > 0 ==> |PushAll(b, xs)| > 0
    decreases |xs|
  {
    if |xs| > 0 {
      PushAllInvariant(Push(b, xs[0]), xs[1..]);
    }
  }

  /** `sum(buf)`. */
  function Sum(s: seq<real>): real
  {
    if |s| == 0 then 0.0 else Sum(s[..|s| - 1]) + s[|s| - 1]
  }

  /** Number of positive (1.0) observations. */
  function Ones(s: seq<real>): (n: nat)
    ensures n <= |s|
  {
    if |s| == 0 then 0 else Ones(s[..|s| - 1]) + (if s[|s| - 1] == 1.0 then 1 else 0)
  }

  /** Over indicators the floating-point sum is the count of positives. */
  lemma {:induction false} SumIsOnes(s: seq<real>)
    requires AllBinary(s)
    ensures Sum(s) == Ones(s) as real
  {
    if |s| > 0 {
      SumIsOnes(s[..|s| - 1]);
    }
  }

  /** `sum(buf) / len(buf)`: the rolling average, a fraction with denominator at most the buffer length. */
  function Average(b: seq<real>): (r: real)
    requires |b| > 0
    ensures AllBinary(b) ==> r == Ones(b) as real / |b| as real
    ensures AllBinary(b) ==> 0.0 <= r <= 1.0
  {
    BinaryMean(b);
    Sum(b) / |b| as real
  }

  lemma BinaryMean(b: seq<real>)
    requires |b| > 0
    ensures AllBinary(b) ==> Sum(b) / |b| as real == Ones(b) as real / |b| as real
    ensures AllBinary(b) ==> 0.0 <= Ones(b) as real / |b| as real <= 1.0
  {
    if AllBinary(b) {
      SumIsOnes(b);
      UnitFraction(Ones(b), |b|);
    }
  }

  /** k / n lies in [0, 1] when k <= n. */
  lemma UnitFraction(k: nat, n: nat)
    requires 0 < n && k <= n
    ensures 0.0 <= k as real / n as real <= 1.0
  {
    var q := k as real / n as real;
    assert q * n as real == k as real;
  }
}
