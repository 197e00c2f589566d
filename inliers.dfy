/**
 * Scoring a candidate fundamental matrix: a match is an inlier when its
 * first point lies closer than `dist` to the epipolar line F · p2 of its
 * second point.
 */
module Inliers {
  import opened Linear
  import opened Matches

  /** The epipolar line, in the first image, of the match's second point. */
  function LineOf(m: Match, f: Mat3): Vec3 {
    MatVec(f, P2(m))
  }

  /** The squared norm l0² + l1² by which the line is normalized. */
  function NormSq(l: Vec3): real {
    l[0] * l[0] + l[1] * l[1]
  }

  function Abs(x: real): real {
    if x < 0.0 then -x else x
  }

  /**
   * The distance test with the square root squared away, for d = p1 · l and
   * nsq = l0² + l1²: |d| / sqrt(nsq) < dist. A line with l0 = l1 = 0 makes
   * computeInliers divide by zero, and the NaN or infinity it gets never
   * passes the test; the squared form fails for it too.
   */
  predicate Passes(d: real, nsq: real, dist: real) {
    0.0 < dist && d * d < dist * dist * nsq
  }

  predicate IsInlier(m: Match, f: Mat3, dist: real) {
    Passes(Dot(P1(m), LineOf(m, f)), NormSq(LineOf(m, f)), dist)
  }

  /**
   * The squared test is the distance test of computeInliers: for norm the
   * positive square root of l0² + l1², the match is an inlier exactly when
   * |p1 · l| / norm < dist; a line with no direction has no inliers.
   */
  lemma InlierIsDistanceTest(m: Match, f: Mat3, dist: real, norm: real)
    requires norm > 0.0 && norm * norm == NormSq(LineOf(m, f))
    ensures IsInlier(m, f, dist) <==> Abs(Dot(P1(m), LineOf(m, f))) / norm < dist
  {
    DistanceTestSquared(Dot(P1(m), LineOf(m, f)), NormSq(LineOf(m, f)), norm, dist);
  }

  /** For norm = sqrt(nsq) > 0: |d| / norm < dist iff dist > 0 and d² < dist²·nsq. */
  lemma DistanceTestSquared(d: real, nsq: real, norm: real, dist: real)
    requires norm > 0.0 && norm * norm == nsq
    ensures Passes(d, nsq, dist) <==> Abs(d) / norm < dist
  {
    var a := Abs(d);
    assert a * a == d * d;
    if dist <= 0.0 {
      assert a / norm >= 0.0;
    } else {
      var b := dist * norm;
      assert b > 0.0;
      assert a / norm < dist <==> a < b by {
        assert a == (a / norm) * norm;
      }
      SquareMonotone(a, b);
      assert b * b == dist * dist * nsq;
    }
  }

  /** Squaring preserves the order of non-negative reals. */
  lemma SquareMonotone(a: real, b: real)
    requires a >= 0.0 && b >= 0.0
    ensures a < b <==> a * a < b * b
  {
    if a < b {
      PositiveProduct(b - a, b + a);
      assert b * b - a * a == (b - a) * (b + a);
    } else if b < a {
      PositiveProduct(a - b, a + b);
      assert a * a - b * b == (a - b) * (a + b);
    }
  }

  lemma PositiveProduct(x: real, y: real)
    requires x > 0.0 && y > 0.0
    ensures x * y > 0.0
  {
  }

  /** A line without direction (l0 = l1 = 0) is never close to any point. */
  lemma DegenerateLineHasNoInliers(m: Match, f: Mat3, dist: real)
    requires NormSq(LineOf(m, f)) == 0.0
    ensures !IsInlier(m, f, dist)
  {
    var d := Dot(P1(m), LineOf(m, f));
    assert dist * dist * NormSq(LineOf(m, f)) == 0.0;
    assert d * d >= 0.0;
    assert !Passes(d, NormSq(LineOf(m, f)), dist);
  }

  /** The inlier indices among the first n matches, in increasing order. */
  function InliersBelow(matches: seq<Match>, f: Mat3, dist: real, n: nat): (r: seq<nat>)
    requires n <= |matches|
    ensures forall k :: 0 <= k < |r| ==> r[k] < n
  {
    if n == 0 then []
    else InliersBelow(matches, f, dist, n - 1) + (if IsInlier(matches[n - 1], f, dist) then [n - 1] else [])
  }

  /** The indices of all inliers, in increasing order. */
  function InlierIndices(matches: seq<Match>, f: Mat3, dist: real): (r: seq<nat>)
    ensures forall k :: 0 <= k < |r| ==> r[k] < |matches|
  {
    InliersBelow(matches, f, dist, |matches|)
  }

  predicate StrictlyIncreasing(s: seq<nat>) {
    forall k, l :: 0 <= k < l < |s| ==> s[k] < s[l]
  }

  /**
   * The inliers below n are strictly increasing, and an index
   * below n is among them exactly when its match passes the test.
   */
  lemma {:induction false} InliersBelowSpec(matches: seq<Match>, f: Mat3, dist: real, n: nat)
    requires n <= |matches|
    ensures StrictlyIncreasing(InliersBelow(matches, f, dist, n))
    ensures forall i :: 0 <= i < n ==> (i in InliersBelow(matches, f, dist, n) <==> IsInlier(matches[i], f, dist))
  {
    if n > 0 {
      InliersBelowSpec(matches, f, dist, n - 1);
    }
  }

  /**
   * computeInliers: one pass over the matches, appending the index of each
   * match that passes the distance test.
   */
  method ComputeInliers(matches: seq<Match>, f: Mat3, dist: real) returns (inliers: seq<nat>)
    ensures inliers == InlierIndices(matches, f, dist)
    ensures StrictlyIncreasing(inliers)
    ensures forall k :: 0 <= k < |inliers| ==> inliers[k] < |matches|
    ensures forall i :: 0 <= i < |matches| ==> (i in inliers <==> IsInlier(matches[i], f, dist))
  {
    inliers := [];
    var i := 0;
    while i < |matches|
      invariant 0 <= i <= |matches|
      invariant inliers == InliersBelow(matches, f, dist, i)
    {
      var l := MatVec(f, P2(matches[i]));
      var d := Dot(P1(matches[i]), l);
      if Passes(d, NormSq(l), dist) {
        inliers := inliers + [i];
      }
      i := i + 1;
    }
    InliersBelowSpec(matches, f, dist, |matches|);
  }
}
