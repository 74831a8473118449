/**
 * The per-track helmet / vest / boots decision: each attribute is "yes"
 * exactly when its positive class has the strictly higher rolling average.
 */
module Compliance {
  import opened RingBuffer
  import opened TrackStore
  import opened Detections

  /** The `ppe_status` record; `true` stands for "yes" and `false` for "no". */
  datatype Status = Status(helmet: bool, vest: bool, boots: bool)

  /** `avg_scores.get(name, 0)`: a class without a buffer scores 0. */
  function Score(avgs: map<ClassId, real>, c: ClassId): real
  {
    if c in avgs then avgs[c] else 0.0
  }

  /** The attribute is "yes" iff the positive class outscores the negative one. */
  predicate Better(avgs: map<ClassId, real>, pos: ClassId, neg: ClassId)
  {
    Score(avgs, pos) > Score(avgs, neg)
  }

  /**
   * The `comparisons` of one track: helmet, vest and boots are each decided by
   * their own class pair, and with non-negative averages no attribute is "yes"
   * unless its positive class has an average at all.
   */
  function Decide(avgs: map<ClassId, real>): (s: Status)
    ensures s.helmet == Better(avgs, Helmet, NoHelmet)
    ensures s.vest == Better(avgs, Vest, NoVest)
    ensures s.boots == Better(avgs, Boots, NoBoots)
    ensures (forall c :: c in avgs ==> 0.0 <= avgs[c]) ==>
              (s.helmet ==> Helmet in avgs) && (s.vest ==> Vest in avgs) && (s.boots ==> Boots in avgs)
  {
    Status(Better(avgs, Helmet, NoHelmet), Better(avgs, Vest, NoVest), Better(avgs, Boots, NoBoots))
  }

  /** `is_safe`: safe exactly when helmet, vest and boots are all "yes". */
  function IsSafe(s: Status): (r: bool)
    ensures r <==> s == Status(true, true, true)
  {
    s.helmet && s.vest && s.boots
  }

  /** Fractions with positive denominators compare as their cross products. */
  lemma CrossMultiply(a: real, x: real, c: real, y: real)
    requires x > 0.0 && y > 0.0
    ensures a / x > c / y <==> a * y > c * x
  {
    var p := a / x;
    var q := c / y;
    assert a == p * x;
    assert c == q * y;
    assert a * y - c * x == (p - q) * (x * y);
    assert x * y > 0.0;
  }

  /** The fraction k/n, read as 0 for an empty buffer. */
  function Fraction(k: nat, n: nat): real
  {
    if n == 0 then 0.0 else k as real / n as real
  }

  /** A track's score for a class is the fraction of positive observations in its buffer. */
  lemma ScoreIsFraction(b: Buffers, pid: TrackId, c: ClassId)
    requires WellFormed(b)
    ensures Score(Averages(b, pid), c) == Fraction(Ones(BufferOf(b, pid, c)), |BufferOf(b, pid, c)|)
  {
    PresentIffObserved(b, pid, c);
  }

  lemma FractionOrder(kp: nat, np: nat, kn: nat, nn: nat)
    requires kp <= np && kn <= nn
    ensures Fraction(kp, np) > Fraction(kn, nn) <==>
              if np == 0 then false
              else if nn == 0 then kp > 0
              else kp * nn > kn * np
  {
    if np > 0 && nn > 0 {
      CrossMultiply(kp as real, np as real, kn as real, nn as real);
      assert (kp * nn) as real == kp as real * nn as real;
      assert (kn * np) as real == kn as real * np as real;
    } else if np > 0 {
      if kp > 0 {
        assert kp as real / np as real > 0.0;
      }
    } else if nn > 0 {
      assert kn as real / nn as real >= 0.0;
    }
  }

  /**
   * The positive buffer outweighs the negative one, stated on observation
   * counts alone: never without a positive observation; against an empty
   * negative buffer one positive observation suffices; otherwise the positive
   * fraction must strictly exceed the negative one.
   */
  predicate Outweighs(p: seq<real>, n: seq<real>)
  {
    if |p| == 0 then false
    else if |n| == 0 then Ones(p) > 0
    else Ones(p) * |n| > Ones(n) * |p|
  }

  /** An attribute decided from a track's buffers is "yes" iff its positive buffer outweighs its negative one. */
  lemma BetterByCounts(b: Buffers, pid: TrackId, pos: ClassId, neg: ClassId)
    requires WellFormed(b)
    ensures Better(Averages(b, pid), pos, neg) <==> Outweighs(BufferOf(b, pid, pos), BufferOf(b, pid, neg))
  {
    var p := BufferOf(b, pid, pos);
    var n := BufferOf(b, pid, neg);
    ScoreIsFraction(b, pid, pos);
    ScoreIsFraction(b, pid, neg);
    FractionOrder(Ones(p), |p|, Ones(n), |n|);
  }

  /** A track is safe iff, for helmet, vest and boots alike, the positive buffer outweighs the negative one. */
  lemma SafeByCounts(b: Buffers, pid: TrackId)
    requires WellFormed(b)
    ensures IsSafe(Decide(Averages(b, pid))) <==>
              Outweighs(BufferOf(b, pid, Helmet), BufferOf(b, pid, NoHelmet))
              && Outweighs(BufferOf(b, pid, Vest), BufferOf(b, pid, NoVest))
              && Outweighs(BufferOf(b, pid, Boots), BufferOf(b, pid, NoBoots))
  {
    BetterByCounts(b, pid, Helmet, NoHelmet);
    BetterByCounts(b, pid, Vest, NoVest);
    BetterByCounts(b, pid, Boots, NoBoots);
  }

  /** A class pair with no evidence on either side, or with equal averages, decides "no". */
  lemma NoEvidenceOrTieIsNo(avgs: map<ClassId, real>, pos: ClassId, neg: ClassId)
    requires (pos !in avgs && neg !in avgs) || Score(avgs, pos) == Score(avgs, neg)
    ensures !Better(avgs, pos, neg)
  {
  }

  /** The `avg_scores["person"] = 1.0` entry takes no part in the decision. */
  lemma PersonScoreIrrelevant(avgs: map<ClassId, real>, v: real)
    ensures Decide(avgs[PersonClass := v]) == Decide(avgs)
  {
  }
}
