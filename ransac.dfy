/**
 * The RANSAC driver: repeated sampling, fitting and scoring, keeping the
 * model with the most inliers, shrinking the iteration budget as support
 * grows, and finally filtering the caller's matches down to the winning
 * inliers.
 */
module Ransac {
  import opened Linear
  import opened Wrappers
  import opened Matches
  import opened Sampler
  import opened EightPoint
  import opened Inliers

  /** Number of matches in a minimal sample. */
  const SampleSize: int := 8

  /** Pixel error below which a match is an inlier. */
  const DistMax: real := 1.5

  /** The iteration budget before any model has enough support. */
  const InitialBudget: int := 100000

  /** The support a best model needs before the budget is recomputed. */
  const MinSupport: int := 50

  /** The accepted probability that no trial draws an all-inlier sample. */
  const Beta: real := 0.01

  /**
   * The foreign parts of a run: the positions the random engine draws in
   * trial t, the singular vector of the 9×9 system, the rank-2 projection,
   * and the truncated estimate log(β) / log(1 − (inliers / matches)^sample)
   * of the number of trials needed, as a function of (β, inliers, sample,
   * matches).
   */
  datatype Externals = Externals(
    draws: nat -> seq<int>,
    svd: seq<Vec9> -> Vec9,
    rank2: Mat3 -> Mat3,
    estimate: (real, int, int, int) -> int)

  /** Every trial draws SampleSize positions, each valid for the list it is drawn from. */
  ghost predicate ValidDraws(ext: Externals, n: int) {
    forall t: nat :: |ext.draws(t)| == SampleSize && DrawsInRange(ext.draws(t), n)
  }

  /**
   * nbIter: the estimate for failure probability Beta, clamped so that it
   * never exceeds the current budget.
   */
  function NbIter(current: int, nbInlier: int, nbSample: int, nbMatch: int,
                  estimate: (real, int, int, int) -> int): (r: int)
    ensures r <= current
    ensures r <= estimate(Beta, nbInlier, nbSample, nbMatch)
    ensures r == current || r == estimate(Beta, nbInlier, nbSample, nbMatch)
  {
    var next := estimate(Beta, nbInlier, nbSample, nbMatch);
    if next > current then current else next
  }

  /** The best inlier count before trial t: none before trial 0, counts[t - 1] after. */
  function Prior(counts: seq<nat>, t: nat): nat
    requires t <= |counts|
  {
    if t == 0 then 0 else counts[t - 1]
  }

  function MaxCount(a: nat, b: nat): nat {
    if a < b then b else a
  }

  /**
   * The budget trace of a run: budgets[t] is the budget in force before
   * trial t (budgets[0] the initial one) and counts[t] the best inlier count
   * after it. Trial t runs only while t is below budgets[t]; the budget
   * never grows and the best count never drops. The budget after trial t is
   * nbIter of the one before exactly when trial t raised the best count and
   * the raised count exceeds MinSupport; otherwise it stays.
   */
  predicate BudgetTrace(budgets: seq<int>, counts: seq<nat>, nbMatch: int,
                        estimate: (real, int, int, int) -> int)
  {
    && |budgets| == |counts| + 1
    && budgets[0] == InitialBudget
    && NonIncreasing(budgets)
    && (forall t :: 0 <= t < |counts| ==> t < budgets[t])
    && (forall k, l :: 0 <= k < l < |counts| ==> counts[k] <= counts[l])
    && (forall t {:trigger Prior(counts, t)} :: 0 <= t < |counts| ==>
          budgets[t + 1] ==
            if counts[t] > Prior(counts, t) && counts[t] > MinSupport
            then NbIter(budgets[t], counts[t], SampleSize, nbMatch, estimate)
            else budgets[t])
  }

  /**
   * A trial run below the current budget, which keeps or raises the best
   * count and then recomputes the budget by nbIter exactly when it raised
   * the count above MinSupport, extends a budget trace.
   */
  lemma BudgetTraceStep(budgets: seq<int>, counts: seq<nat>, nbMatch: int,
                        estimate: (real, int, int, int) -> int, count: nat, next: int)
    requires BudgetTrace(budgets, counts, nbMatch, estimate)
    requires |counts| < budgets[|counts|]
    requires Prior(counts, |counts|) <= count
    requires next ==
      if count > Prior(counts, |counts|) && count > MinSupport
      then NbIter(budgets[|counts|], count, SampleSize, nbMatch, estimate)
      else budgets[|counts|]
    ensures BudgetTrace(budgets + [next], counts + [count], nbMatch, estimate)
  {
    var b, c := budgets + [next], counts + [count];
    var last := |counts|;
    assert next <= budgets[last];
    forall k, l | 0 <= k < l < |b| ensures b[k] >= b[l] {
      if l == last + 1 {
        assert b[k] == budgets[k] && budgets[k] >= budgets[last];
      } else {
        assert b[k] == budgets[k] && b[l] == budgets[l];
      }
    }
    forall t | 0 <= t < |c| ensures t < b[t] {
      assert b[t] == budgets[t];
    }
    forall k, l | 0 <= k < l < |c| ensures c[k] <= c[l] {
      if l == last {
        assert c[k] == counts[k] && counts[k] <= Prior(counts, last);
      } else {
        assert c[k] == counts[k] && c[l] == counts[l];
      }
    }
    forall t | 0 <= t < |c|
      ensures b[t + 1] ==
        if c[t] > Prior(c, t) && c[t] > MinSupport
        then NbIter(b[t], c[t], SampleSize, nbMatch, estimate)
        else b[t]
    {
      if t > 0 {
        assert c[t - 1] == counts[t - 1];
      }
      if t < last {
        assert Prior(c, t) == Prior(counts, t);
        assert b[t] == budgets[t] && b[t + 1] == budgets[t + 1] && c[t] == counts[t];
      }
    }
  }

  /** The model fitted in trial t. */
  function TrialModel(matches: seq<Match>, ext: Externals, t: nat): Mat3
    requires |matches| >= SampleSize && ValidDraws(ext, |matches|)
  {
    Denormalize(ext.rank2(Reshape(ext.svd(SystemMatrix(Sample(matches, ext.draws(t)))))))
  }

  /** The inliers of the model fitted in trial t. */
  function TrialInliers(matches: seq<Match>, ext: Externals, t: nat): seq<nat>
    requires |matches| >= SampleSize && ValidDraws(ext, |matches|)
  {
    InlierIndices(matches, TrialModel(matches, ext, t), DistMax)
  }

  predicate NonIncreasing(s: seq<int>) {
    forall k, l :: 0 <= k < l < |s| ==> s[k] >= s[l]
  }

  /**
   * After trials 0 .. n - 1, whose inlier lists are inl(0), inl(1), ... and
   * whose models are model(0), model(1), ..., bestInliers has as many
   * inliers as any of them, and the best model is that of the first trial
   * with that many (None, with no inliers, while no trial found one; a
   * model is kept only once some trial has an inlier).
   */
  ghost predicate IsBest<M>(inl: nat -> seq<nat>, model: nat -> M, n: nat,
                            best: Option<M>, bestInliers: seq<nat>, winner: nat)
  {
    && (forall t :: 0 <= t < n ==> |inl(t)| <= |bestInliers|)
    && (best.None? ==> bestInliers == [])
    && (best.Some? ==>
          && winner < n
          && best.value == model(winner)
          && bestInliers == inl(winner) && |bestInliers| > 0
          && (forall t :: 0 <= t < winner ==> |inl(t)| < |bestInliers|))
  }

  /**
   * One more trial keeps the best model correct: a strictly larger inlier
   * count replaces it, a tie or a smaller count keeps the earlier one.
   */
  lemma IsBestStep<M>(inl: nat -> seq<nat>, model: nat -> M, n: nat,
                      best: Option<M>, bestInliers: seq<nat>, winner: nat)
    requires IsBest(inl, model, n, best, bestInliers, winner)
    ensures |inl(n)| > |bestInliers| ==> IsBest(inl, model, n + 1, Some(model(n)), inl(n), n)
    ensures |inl(n)| <= |bestInliers| ==> IsBest(inl, model, n + 1, best, bestInliers, winner)
  {
    if |inl(n)| > |bestInliers| {
      forall t | 0 <= t < n ensures |inl(t)| < |inl(n)| {
      }
    }
  }

  /**
   * counts[t] is the best inlier count after trial t, for every recorded t:
   * the larger of the count before it and the count inl(t) of trial t.
   */
  ghost predicate BestCounts(inl: nat -> seq<nat>, counts: seq<nat>) {
    forall t {:trigger Prior(counts, t)} :: 0 <= t < |counts| ==> counts[t] == MaxCount(Prior(counts, t), |inl(t)|)
  }

  /** Recording the best count after the next trial keeps the counts exact. */
  lemma BestCountsStep(inl: nat -> seq<nat>, counts: seq<nat>, count: nat)
    requires BestCounts(inl, counts)
    requires count == MaxCount(Prior(counts, |counts|), |inl(|counts|)|)
    ensures BestCounts(inl, counts + [count])
  {
    var c := counts + [count];
    forall t | 0 <= t < |c| ensures c[t] == MaxCount(Prior(c, t), |inl(t)|) {
      if t > 0 {
        assert c[t - 1] == counts[t - 1];
      }
      if t < |counts| {
        assert Prior(c, t) == Prior(counts, t);
        assert c[t] == counts[t];
      }
    }
  }

  /**
   * The inlier lists of the trials of a run on these matches, as one
   * function of the trial number (empty when no trial can draw a sample).
   */
  ghost function InliersOf(matches: seq<Match>, ext: Externals): nat -> seq<nat> {
    (t: nat) => if |matches| >= SampleSize && ValidDraws(ext, |matches|) then TrialInliers(matches, ext, t) else []
  }

  /** The models of the trials of a run on these matches, as one function of the trial number. */
  ghost function ModelsOf(matches: seq<Match>, ext: Externals): nat -> Mat3 {
    (t: nat) => ModelOrIdentity(matches, ext, t)
  }

  /** The model of trial t, or the identity when no trial can draw a sample. */
  ghost function ModelOrIdentity(matches: seq<Match>, ext: Externals, t: nat): Mat3 {
    if |matches| >= SampleSize && ValidDraws(ext, |matches|) then TrialModel(matches, ext, t) else Identity()
  }

  /** BestCounts spelled out for the trials of a run on these matches. */
  lemma BestCountsMeaning(matches: seq<Match>, ext: Externals, counts: seq<nat>)
    requires |matches| >= SampleSize && ValidDraws(ext, |matches|)
    requires BestCounts(InliersOf(matches, ext), counts)
    ensures forall t :: 0 <= t < |counts| ==>
      counts[t] == MaxCount(Prior(counts, t), |TrialInliers(matches, ext, t)|)
  {
    forall t | 0 <= t < |counts|
      ensures counts[t] == MaxCount(Prior(counts, t), |TrialInliers(matches, ext, t)|)
    {
      assert InliersOf(matches, ext)(t) == TrialInliers(matches, ext, t);
    }
  }

  /** IsBest spelled out for the trials of a run on these matches. */
  lemma BestOfTrialsMeaning(matches: seq<Match>, ext: Externals, n: nat,
                            bestF: Option<Mat3>, bestInliers: seq<nat>, winner: nat)
    requires |matches| >= SampleSize && ValidDraws(ext, |matches|)
    requires IsBest(InliersOf(matches, ext), ModelsOf(matches, ext), n, bestF, bestInliers, winner)
    ensures RunBest(matches, ext, n, bestF, bestInliers, winner)
  {
    var inl := InliersOf(matches, ext);
    forall t | 0 <= t < n ensures |TrialInliers(matches, ext, t)| <= |bestInliers| {
      assert inl(t) == TrialInliers(matches, ext, t);
    }
    if bestF.Some? {
      assert ModelsOf(matches, ext)(winner) == TrialModel(matches, ext, winner);
      assert inl(winner) == TrialInliers(matches, ext, winner);
      forall t | 0 <= t < winner ensures |TrialInliers(matches, ext, t)| < |bestInliers| {
        assert inl(t) == TrialInliers(matches, ext, t);
      }
    }
  }

  /**
   * One trial: draw a sample, fit a model to it, and collect the model's
   * inliers among all matches. The draw, and so the trial, fails when there
   * are fewer matches than a sample needs.
   */
  method Trial(matches: seq<Match>, ext: Externals, n: nat) returns (r: Option<(Mat3, seq<nat>)>)
    requires |matches| >= SampleSize ==> ValidDraws(ext, |matches|)
    ensures r.None? <==> |matches| < SampleSize
    ensures r.Some? ==> r.value.0 == ModelsOf(matches, ext)(n) && r.value.1 == InliersOf(matches, ext)(n)
  {
    var sample, _ := RandSeed(matches, SampleSize, ext.draws(n));
    if sample.None? {
      return None;
    }
    var resultF := ComputeFundamental(sample.value, ext.svd, ext.rank2);
    var inliers := ComputeInliers(matches, resultF, DistMax);
    return Some((resultF, inliers));
  }

  /**
   * The state of the trial loop after n trials, whose inlier lists are
   * inl(0), inl(1), ... and whose models are model(0), model(1), ...: the
   * budget trace, the current budget and best count at its end, the support
   * condition of a recomputed budget, the best count after each trial, and
   * the best model. RansacRun states the same facts about TrialInliers and
   * TrialModel directly; the loop keeps them in this form, over the two
   * functions of the trial number, so that the definitions of TrialModel and
   * TrialInliers (the whole eight-point fit and inlier scan) are not
   * unfolded in the loop's proof. LoopStateMeaning, BestOfTrialsMeaning and
   * BestCountsMeaning turn one form into the other.
   */
  ghost predicate LoopState<M>(inl: nat -> seq<nat>, model: nat -> M, nbMatch: int,
                               estimate: (real, int, int, int) -> int, n: nat, niter: int,
                               best: Option<M>, bestInliers: seq<nat>, winner: nat,
                               budgets: seq<int>, counts: seq<nat>)
  {
    && BudgetTrace(budgets, counts, nbMatch, estimate)
    && |counts| == n && budgets[n] == niter && |bestInliers| == Prior(counts, n)
    && (niter != InitialBudget ==> |bestInliers| > MinSupport)
    && BestCounts(inl, counts)
    && IsBest(inl, model, n, best, bestInliers, winner)
  }

  /**
   * One round of the trial loop, run below the budget: trial n replaces the
   * best model when it has strictly more inliers, and then, above
   * MinSupport, the budget becomes nbIter of the old one. The loop state is
   * kept.
   */
  lemma RoundStep<M>(inl: nat -> seq<nat>, model: nat -> M, nbMatch: int,
                     estimate: (real, int, int, int) -> int, n: nat, niter: int,
                     best: Option<M>, bestInliers: seq<nat>, winner: nat,
                     budgets: seq<int>, counts: seq<nat>,
                     niter': int, best': Option<M>, bestInliers': seq<nat>, winner': nat)
    requires LoopState(inl, model, nbMatch, estimate, n, niter, best, bestInliers, winner, budgets, counts)
    requires n < niter
    requires |inl(n)| > |bestInliers| ==>
      && best' == Some(model(n)) && bestInliers' == inl(n) && winner' == n
      && niter' == if |bestInliers'| > MinSupport then NbIter(niter, |bestInliers'|, SampleSize, nbMatch, estimate) else niter
    requires |inl(n)| <= |bestInliers| ==>
      best' == best && bestInliers' == bestInliers && winner' == winner && niter' == niter
    ensures LoopState(inl, model, nbMatch, estimate, n + 1, niter', best', bestInliers', winner',
                      budgets + [niter'], counts + [|bestInliers'|])
  {
    IsBestStep(inl, model, n, best, bestInliers, winner);
    assert |bestInliers'| == MaxCount(Prior(counts, n), |inl(n)|);
    BudgetTraceStep(budgets, counts, nbMatch, estimate, |bestInliers'|, niter');
    BestCountsStep(inl, counts, |bestInliers'|);
  }

  /**
   * The trial loop itself: it stops at the first failed draw, or once the
   * number of trials run reaches the budget, and keeps the loop state.
   */
  method RunTrials(matches: seq<Match>, ext: Externals)
    returns (ok: bool, bestF: Option<Mat3>, bestInliers: seq<nat>, niter: int,
             ghost trials: nat, ghost winner: nat, ghost budgets: seq<int>, ghost counts: seq<nat>)
    requires |matches| >= SampleSize ==> ValidDraws(ext, |matches|)
    ensures ok <==> |matches| >= SampleSize
    ensures ok ==> 1 <= trials && niter <= trials
    ensures ok ==>
      LoopState(InliersOf(matches, ext), ModelsOf(matches, ext), |matches|, ext.estimate, trials, niter, bestF, bestInliers, winner, budgets, counts)
  {
    var n := 0;
    niter := InitialBudget;
    bestF := None;
    bestInliers := [];
    winner, trials := 0, 0;
    budgets, counts := [niter], [];
    ghost var inl, model := InliersOf(matches, ext), ModelsOf(matches, ext);
    while n < niter
      invariant n == 0 ==> niter == InitialBudget
      invariant n > 0 ==> |matches| >= SampleSize
      invariant |matches| >= SampleSize ==>
        LoopState(inl, model, |matches|, ext.estimate, n, niter, bestF, bestInliers, winner, budgets, counts)
      decreases niter - n
    {
      var trial := Trial(matches, ext, n);
      if trial.None? {
        ok := false;
        return;
      }
      var (resultF, inliers) := trial.value;
      ghost var niter0, bestF0, bestInliers0, winner0 := niter, bestF, bestInliers, winner;
      if |inliers| > |bestInliers| {
        bestInliers := inliers;
        bestF := Some(resultF);
        winner := n;
        if |bestInliers| > MinSupport {
          niter := NbIter(niter, |bestInliers|, SampleSize, |matches|, ext.estimate);
        }
      }
      RoundStep(inl, model, |matches|, ext.estimate, n, niter0, bestF0, bestInliers0, winner0, budgets, counts,
                niter, bestF, bestInliers, winner);
      budgets, counts := budgets + [niter], counts + [|bestInliers|];
      n := n + 1;
    }
    ok := true;
    trials := n;
  }

  /**
   * The budgets of a run of the trial loop on these matches. It ran
   * `trials` trials, at least one, and stopped once the trials run reached
   * the budget `niter`. `budgets` is the budget trace: its value before
   * trial 0 and after each trial. `counts[t]` is the best inlier count after
   * trial t, the larger of the count before it and trial t's own, and the
   * last of them is the size of `bestInliers`. A budget other than the
   * initial one comes with more than MinSupport inliers.
   */
  ghost predicate RunBudgets(matches: seq<Match>, ext: Externals, trials: nat, niter: int,
                             bestInliers: seq<nat>, budgets: seq<int>, counts: seq<nat>)
    requires |matches| >= SampleSize && ValidDraws(ext, |matches|)
  {
    && 1 <= trials && niter <= trials
    && BudgetTrace(budgets, counts, |matches|, ext.estimate)
    && |counts| == trials && budgets[trials] == niter && counts[trials - 1] == |bestInliers|
    && (niter != InitialBudget ==> |bestInliers| > MinSupport)
    && (forall t {:trigger Prior(counts, t)} :: 0 <= t < trials ==>
          counts[t] == MaxCount(Prior(counts, t), |TrialInliers(matches, ext, t)|))
  }

  /**
   * The best model of a run of `trials` trials: that of trial `winner`, the
   * first trial whose inlier count no trial exceeds, and `bestInliers` are
   * its inliers, at least one; None comes with no inliers.
   */
  ghost predicate RunBest(matches: seq<Match>, ext: Externals, trials: nat,
                          bestF: Option<Mat3>, bestInliers: seq<nat>, winner: nat)
    requires |matches| >= SampleSize && ValidDraws(ext, |matches|)
  {
    && (forall t :: 0 <= t < trials ==> |TrialInliers(matches, ext, t)| <= |bestInliers|)
    && (bestF.None? ==> bestInliers == [])
    && (bestF.Some? ==>
          && winner < trials
          && bestF.value == TrialModel(matches, ext, winner)
          && bestInliers == TrialInliers(matches, ext, winner) && |bestInliers| > 0
          && (forall t :: 0 <= t < winner ==> |TrialInliers(matches, ext, t)| < |bestInliers|))
  }

  /** What a run of the trial loop on these matches establishes: its budgets and its best model. */
  ghost predicate RansacRun(matches: seq<Match>, ext: Externals, trials: nat, niter: int,
                            bestF: Option<Mat3>, bestInliers: seq<nat>, winner: nat,
                            budgets: seq<int>, counts: seq<nat>)
    requires |matches| >= SampleSize && ValidDraws(ext, |matches|)
  {
    && RunBudgets(matches, ext, trials, niter, bestInliers, budgets, counts)
    && RunBest(matches, ext, trials, bestF, bestInliers, winner)
  }

  /**
   * Two traces of runs on the same matches agree up to the shorter one:
   * the best count after each trial is fixed by the trials' inlier counts,
   * and each budget by the budget and the counts before it.
   */
  lemma {:induction false} TracesAgree(matches: seq<Match>, ext: Externals,
                                       b1: seq<int>, c1: seq<nat>, b2: seq<int>, c2: seq<nat>, t: nat)
    requires |matches| >= SampleSize && ValidDraws(ext, |matches|)
    requires BudgetTrace(b1, c1, |matches|, ext.estimate) && BudgetTrace(b2, c2, |matches|, ext.estimate)
    requires forall k {:trigger Prior(c1, k)} :: 0 <= k < |c1| ==>
      c1[k] == MaxCount(Prior(c1, k), |TrialInliers(matches, ext, k)|)
    requires forall k {:trigger Prior(c2, k)} :: 0 <= k < |c2| ==>
      c2[k] == MaxCount(Prior(c2, k), |TrialInliers(matches, ext, k)|)
    requires t <= |c1| && t <= |c2|
    ensures b1[t] == b2[t] && c1[..t] == c2[..t]
    decreases t
  {
    if t > 0 {
      var k := t - 1;
      TracesAgree(matches, ext, b1, c1, b2, c2, k);
      assert Prior(c1, k) == Prior(c2, k) by {
        if k > 0 {
          assert c1[k - 1] == c1[..k][k - 1] && c2[k - 1] == c2[..k][k - 1];
        }
      }
      assert c1[k] == c2[k];
      assert c1[..t] == c1[..k] + [c1[k]] && c2[..t] == c2[..k] + [c2[k]];
    }
  }

  /**
   * Two best models of the same trials with equally many inliers are the
   * same: both are None, or both come from the first trial reaching that
   * count.
   */
  lemma RunBestDetermined(matches: seq<Match>, ext: Externals, trials: nat,
                          bestF1: Option<Mat3>, bestInliers1: seq<nat>, winner1: nat,
                          bestF2: Option<Mat3>, bestInliers2: seq<nat>, winner2: nat)
    requires |matches| >= SampleSize && ValidDraws(ext, |matches|)
    requires RunBest(matches, ext, trials, bestF1, bestInliers1, winner1)
    requires RunBest(matches, ext, trials, bestF2, bestInliers2, winner2)
    requires |bestInliers1| == |bestInliers2|
    ensures bestF1 == bestF2 && bestInliers1 == bestInliers2
    ensures bestF1.Some? ==> winner1 == winner2
  {
    if bestF1.Some? && bestF2.Some? {
      if winner1 < winner2 {
        assert false;
      }
      if winner2 < winner1 {
        assert false;
      }
    }
  }

  /**
   * RansacRun fixes the run: two runs on the same matches and externals
   * run the same number of trials, with the same budgets, the same best
   * counts and the same final budget, and return the same model, from the
   * same winning trial, with the same inliers.
   */
  lemma RansacRunDetermined(matches: seq<Match>, ext: Externals,
                            trials1: nat, niter1: int, bestF1: Option<Mat3>, bestInliers1: seq<nat>,
                            winner1: nat, budgets1: seq<int>, counts1: seq<nat>,
                            trials2: nat, niter2: int, bestF2: Option<Mat3>, bestInliers2: seq<nat>,
                            winner2: nat, budgets2: seq<int>, counts2: seq<nat>)
    requires |matches| >= SampleSize && ValidDraws(ext, |matches|)
    requires RansacRun(matches, ext, trials1, niter1, bestF1, bestInliers1, winner1, budgets1, counts1)
    requires RansacRun(matches, ext, trials2, niter2, bestF2, bestInliers2, winner2, budgets2, counts2)
    ensures trials1 == trials2 && niter1 == niter2
    ensures budgets1 == budgets2 && counts1 == counts2
    ensures bestF1 == bestF2 && bestInliers1 == bestInliers2
    ensures bestF1.Some? ==> winner1 == winner2
  {
    if trials1 < trials2 {
      TracesAgree(matches, ext, budgets1, counts1, budgets2, counts2, trials1);
      assert false;
    }
    if trials2 < trials1 {
      TracesAgree(matches, ext, budgets1, counts1, budgets2, counts2, trials2);
      assert false;
    }
    TracesAgree(matches, ext, budgets1, counts1, budgets2, counts2, trials1);
    assert counts1 == counts1[..trials1] && counts2 == counts2[..trials2];
    forall k | 0 <= k < |budgets1| ensures budgets1[k] == budgets2[k] {
      TracesAgree(matches, ext, budgets1, counts1, budgets2, counts2, k);
    }
    RunBestDetermined(matches, ext, trials1, bestF1, bestInliers1, winner1, bestF2, bestInliers2, winner2);
  }

  /** The state of a finished loop, spelled out for the trials of the run. */
  lemma LoopStateMeaning(matches: seq<Match>, ext: Externals, trials: nat, niter: int,
                         bestF: Option<Mat3>, bestInliers: seq<nat>, winner: nat,
                         budgets: seq<int>, counts: seq<nat>)
    requires |matches| >= SampleSize && ValidDraws(ext, |matches|)
    requires 1 <= trials && niter <= trials
    requires LoopState(InliersOf(matches, ext), ModelsOf(matches, ext), |matches|, ext.estimate,
                       trials, niter, bestF, bestInliers, winner, budgets, counts)
    ensures RansacRun(matches, ext, trials, niter, bestF, bestInliers, winner, budgets, counts)
  {
    BestOfTrialsMeaning(matches, ext, trials, bestF, bestInliers, winner);
    BestCountsMeaning(matches, ext, counts);
    assert RunBudgets(matches, ext, trials, niter, bestInliers, budgets, counts);
  }

  /**
   * The trial loop of the RANSAC computeF. With fewer matches than a sample
   * needs, the first draw fails and so does the search (`ok` is false).
   * Otherwise the run satisfies RansacRun: trial t runs only while t is
   * below the budget in force before it, the budget starts at
   * InitialBudget, never grows, and becomes nbIter of the old one exactly
   * when a trial raises the best count above MinSupport, and the best model
   * is that of the first trial with the most inliers.
   */
  method Search(matches: seq<Match>, ext: Externals)
    returns (ok: bool, bestF: Option<Mat3>, bestInliers: seq<nat>, niter: int,
             ghost trials: nat, ghost winner: nat, ghost budgets: seq<int>, ghost counts: seq<nat>)
    requires |matches| >= SampleSize ==> ValidDraws(ext, |matches|)
    ensures ok <==> |matches| >= SampleSize
    ensures ok ==> RansacRun(matches, ext, trials, niter, bestF, bestInliers, winner, budgets, counts)
  {
    ok, bestF, bestInliers, niter, trials, winner, budgets, counts := RunTrials(matches, ext);
    if ok {
      LoopStateMeaning(matches, ext, trials, niter, bestF, bestInliers, winner, budgets, counts);
    }
  }

  /** The matches at the given positions, in the order of the positions. */
  function Gather(all: seq<Match>, idx: seq<nat>): (r: seq<Match>)
    requires forall k :: 0 <= k < |idx| ==> idx[k] < |all|
  {
    seq(|idx|, k requires 0 <= k < |idx| => all[idx[k]])
  }

  /**
   * Gathering at strictly increasing positions keeps the matches in their
   * original order and takes each at most as often as it occurs: the
   * result is a sub-multiset of the original list.
   */
  lemma {:induction false} GatherSubMultiset(all: seq<Match>, idx: seq<nat>)
    requires StrictlyIncreasing(idx)
    requires forall k :: 0 <= k < |idx| ==> idx[k] < |all|
    ensures multiset(Gather(all, idx)) <= multiset(all)
    decreases |idx|
  {
    if idx != [] {
      var last := idx[|idx| - 1];
      var front := idx[..|idx| - 1];
      var prefix := all[..last];
      assert Gather(all, idx) == Gather(all, front) + [all[last]];
      assert Gather(all, front) == Gather(prefix, front);
      GatherSubMultiset(prefix, front);
      assert all == prefix + [all[last]] + all[last + 1..];
    }
  }

  /** The caller's vector of matches, which the estimator filters in place. */
  class MatchVector {
    var items: seq<Match>

    constructor (items: seq<Match>)
      ensures this.items == items
    {
      this.items := items;
    }

    /** vector::clear */
    method Clear()
      modifies this
      ensures items == []
    {
      items := [];
    }

    /** vector::push_back */
    method PushBack(m: Match)
      modifies this
      ensures items == old(items) + [m]
    {
      items := items + [m];
    }
  }

  datatype Outcome =
    | InsufficientMatches
    | Done(bestF: Option<Mat3>)

  /**
   * The end of the RANSAC computeF: copies the matches, clears the caller's
   * vector and pushes back the copy's matches at the given positions.
   */
  method Compact(matches: MatchVector, idx: seq<nat>)
    requires forall k :: 0 <= k < |idx| ==> idx[k] < |matches.items|
    modifies matches
    ensures matches.items == Gather(old(matches.items), idx)
  {
    var all := matches.items;
    matches.Clear();
    for i := 0 to |idx|
      invariant matches.items == Gather(all, idx[..i])
    {
      matches.PushBack(all[idx[i]]);
    }
    assert idx[..|idx|] == idx;
  }

  /**
   * The RANSAC computeF: searches for the best model and then replaces the
   * caller's matches by the best model's inliers, in their original order.
   * Fewer matches than a sample needs leave the matches as they were.
   * Otherwise the ghost outputs are the run of the trial loop (RansacRun):
   * after `trials` trials, as many as the final budget `niter` allows, the
   * model returned is that of trial `winner`, the first trial with the most
   * inliers; no model (None) means that no trial found an inlier.
   */
  method ComputeF(matches: MatchVector, ext: Externals)
    returns (r: Outcome, ghost trials: nat, ghost niter: int, ghost winner: nat,
             ghost bestInliers: seq<nat>, ghost budgets: seq<int>, ghost counts: seq<nat>)
    requires |matches.items| >= SampleSize ==> ValidDraws(ext, |matches.items|)
    modifies matches
    ensures r.InsufficientMatches? <==> |old(matches.items)| < SampleSize
    ensures r.InsufficientMatches? ==> matches.items == old(matches.items)
    ensures r.Done? ==>
      RansacRun(old(matches.items), ext, trials, niter, r.bestF, bestInliers, winner, budgets, counts)
    ensures r.Done? && r.bestF.None? ==> forall t :: 0 <= t < trials ==> TrialInliers(old(matches.items), ext, t) == []
    ensures r.Done? && r.bestF.None? ==> matches.items == []
    ensures r.Done? && r.bestF.Some? ==>
      matches.items == Gather(old(matches.items), InlierIndices(old(matches.items), r.bestF.value, DistMax))
    ensures multiset(matches.items) <= multiset(old(matches.items))
  {
    var ok, bestF, best, n, ts, w, bs, cs := Search(matches.items, ext);
    trials, niter, winner, bestInliers, budgets, counts := ts, n, w, best, bs, cs;
    if !ok {
      return InsufficientMatches, trials, niter, winner, bestInliers, budgets, counts;
    }
    ghost var all := matches.items;
    InliersBelowSpec(all, if bestF.Some? then bestF.value else Identity(), DistMax, |all|);
    Compact(matches, best);
    GatherSubMultiset(all, best);
    r := Done(bestF);
  }
}
