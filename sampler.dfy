/**
 * Drawing the minimal sample of a RANSAC trial: `num` correspondences taken
 * without replacement, by repeatedly picking a random position in a working
 * copy of the list and erasing it there. The random engine is not modelled:
 * `draws[k]` is the position the uniform distribution over
 * [0, |copy| - 1] returned in round k.
 */
module Sampler {
  import opened Wrappers
  import opened Matches

  /** `vector::erase` of the element at position i. */
  function Erase<T>(s: seq<T>, i: nat): (r: seq<T>)
    requires i < |s|
    ensures |r| == |s| - 1
    ensures forall j :: 0 <= j < i ==> r[j] == s[j]
    ensures forall j :: i <= j < |r| ==> r[j] == s[j + 1]
  {
    s[..i] + s[i + 1..]
  }

  /** Round k of the draw picks a position of a list that has n - k elements left. */
  predicate DrawsInRange(draws: seq<int>, n: int) {
    forall k :: 0 <= k < |draws| ==> 0 <= draws[k] < n - k
  }

  lemma DrawsInRangeTail(draws: seq<int>, n: int)
    requires DrawsInRange(draws, n) && draws != []
    ensures DrawsInRange(draws[1..], n - 1)
  {
    forall k | 0 <= k < |draws| - 1
      ensures 0 <= draws[1..][k] < n - 1 - k
    {
      assert draws[1..][k] == draws[k + 1];
    }
  }

  /** The elements picked, in order, by removing draws[0], draws[1], ... from pool. */
  function Sample<T>(pool: seq<T>, draws: seq<int>): (r: seq<T>)
    requires DrawsInRange(draws, |pool|)
    ensures |r| == |draws|
    decreases |draws|
  {
    if draws == [] then []
    else
      DrawsInRangeTail(draws, |pool|);
      [pool[draws[0]]] + Sample(Erase(pool, draws[0]), draws[1..])
  }

  /** The positions 0, 1, ..., n - 1. */
  function Range(n: nat): (r: seq<nat>)
    ensures |r| == n && forall j :: 0 <= j < n ==> r[j] == j
  {
    seq(n, j => j)
  }

  predicate Distinct<T(==)>(s: seq<T>) {
    forall k, l :: 0 <= k < l < |s| ==> s[k] != s[l]
  }

  /**
   * Sampling a list through a pool of positions into a base list: if s[j] is
   * base[pool[j]] for every j, then the k-th element sampled from s is the
   * base element at the k-th position sampled from pool.
   */
  lemma {:induction false} SampleThroughPool<T>(base: seq<T>, s: seq<T>, pool: seq<nat>, draws: seq<int>)
    requires |s| == |pool| && DrawsInRange(draws, |s|)
    requires forall j :: 0 <= j < |pool| ==> pool[j] < |base| && s[j] == base[pool[j]]
    ensures forall k :: 0 <= k < |draws| ==>
      0 <= Sample<nat>(pool, draws)[k] < |base| && Sample(s, draws)[k] == base[Sample<nat>(pool, draws)[k]]
    decreases |draws|
  {
    if draws != [] {
      DrawsInRangeTail(draws, |s|);
      var i := draws[0];
      SampleThroughPool(base, Erase(s, i), Erase(pool, i), draws[1..]);
    }
  }

  /**
   * Sampling without replacement from a pool of distinct values picks
   * distinct values, all from the pool.
   */
  lemma {:induction false} SampleDistinct<T>(pool: seq<T>, draws: seq<int>)
    requires Distinct(pool) && DrawsInRange(draws, |pool|)
    ensures Distinct(Sample(pool, draws))
    ensures forall k :: 0 <= k < |draws| ==> Sample(pool, draws)[k] in pool
    decreases |draws|
  {
    if draws != [] {
      DrawsInRangeTail(draws, |pool|);
      var i := draws[0];
      var rest := Erase(pool, i);
      assert Distinct(rest);
      SampleDistinct(rest, draws[1..]);
      var r := Sample(pool, draws);
      assert r == [pool[i]] + Sample(rest, draws[1..]);
      forall k | 0 <= k < |draws| ensures r[k] in pool {
        if k > 0 {
          assert r[k] == Sample(rest, draws[1..])[k - 1];
          assert r[k] in rest;
        }
      }
      forall k, l | 0 <= k < l < |draws| ensures r[k] != r[l] {
        if k == 0 {
          assert r[l] == Sample(rest, draws[1..])[l - 1];
          assert r[l] in rest;
          var j :| 0 <= j < |rest| && rest[j] == r[l];
          assert rest[j] == pool[if j < i then j else j + 1];
        }
      }
    }
  }

  /**
   * randseed: picks `num` correspondences without replacement. A count
   * outside 1 .. |matches| is refused. Only a copy of the list is edited, so
   * the caller's list is not changed (a value here). `picked` are the
   * positions in `matches` the sample was taken from.
   */
  method RandSeed(matches: seq<Match>, num: int, draws: seq<int>)
    returns (r: Option<seq<Match>>, ghost picked: seq<nat>)
    requires 0 < num <= |matches| ==> |draws| == num && DrawsInRange(draws, |matches|)
    ensures r.None? <==> num <= 0 || num > |matches|
    ensures r.Some? ==> r.value == Sample(matches, draws) && |r.value| == num
    ensures r.Some? ==> |picked| == num && Distinct(picked)
    ensures r.Some? ==> forall k :: 0 <= k < num ==> picked[k] < |matches| && r.value[k] == matches[picked[k]]
  {
    if num <= 0 || num > |matches| {
      return None, [];
    }
    var eightPoint: seq<Match> := [];
    var matchCopy := matches;
    var i := 0;
    while i < num
      invariant 0 <= i <= num
      invariant |matchCopy| == |matches| - i
      invariant DrawsInRange(draws[i..], |matchCopy|)
      invariant eightPoint + Sample(matchCopy, draws[i..]) == Sample(matches, draws)
    {
      var index := draws[i];
      assert draws[i..][1..] == draws[i + 1..];
      DrawsInRangeTail(draws[i..], |matchCopy|);
      eightPoint := eightPoint + [matchCopy[index]];
      matchCopy := Erase(matchCopy, index);
      i := i + 1;
    }
    assert draws[num..] == [];
    r := Some(eightPoint);
    var pool := Range(|matches|);
    picked := Sample(pool, draws);
    SampleThroughPool(matches, matches, pool, draws);
    SampleDistinct(pool, draws);
  }

  /**
   * randseed as written: its `return` sits inside the loop, so the first
   * round already returns, with one correspondence.
   */
  function RandSeedAsWritten(matches: seq<Match>, num: int, draws: seq<int>): (r: Option<seq<Match>>)
    requires 0 < num <= |matches| ==> |draws| == num && DrawsInRange(draws, |matches|)
    ensures r.None? <==> num <= 0 || num > |matches|
    ensures r.Some? ==> |r.value| == 1 && r.value[0] == matches[draws[0]]
  {
    if num <= 0 || num > |matches| then None else Some([matches[draws[0]]])
  }

  /**
   * The early return loses the sample: asked for 8 points, the as-written
   * function returns one, where the corrected one returns eight.
   */
  lemma EarlyReturnLosesSample(matches: seq<Match>, draws: seq<int>)
    requires |matches| >= 8 && |draws| == 8 && DrawsInRange(draws, |matches|)
    ensures RandSeedAsWritten(matches, 8, draws).Some?
    ensures |RandSeedAsWritten(matches, 8, draws).value| == 1 != |Sample(matches, draws)|
  {
  }
}
