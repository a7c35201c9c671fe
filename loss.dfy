/** Loss assembly: the trajectory residuals built on per-label-position
    marginals, and the reduction of per-item losses over the batch. */
module Loss {

  /** The trajectory residual between label positions m and n:
      (r_m - r_n) + 2 (P_n - P_m), from the reference log-quantities r and the
      partial-trajectory log-probabilities P. */
  function Residual(rm: real, rn: real, pm: real, pn: real): real {
    (rm - rn) + 2.0 * (pn - pm)
  }

  function Sq(z: real): (r: real)
    ensures r >= 0.0
  {
    z * z
  }

  /** The squared residual of the pair (m, n). */
  function PairTerm(r: seq<real>, p: seq<real>, m: nat, n: nat): (z: real)
    requires m < |r| && n < |r| && m < |p| && n < |p|
    ensures z >= 0.0
  {
    Sq(Residual(r[m], r[n], p[m], p[n]))
  }

  /** The sum of PairTerm(m, j) for m < j < n. */
  function Inner(r: seq<real>, p: seq<real>, m: nat, n: nat): (z: real)
    requires n <= |r| && n <= |p|
    ensures z >= 0.0
  {
    if n <= m + 1 then 0.0 else Inner(r, p, m, n - 1) + PairTerm(r, p, m, n - 1)
  }

  /** The sum of Inner(i, n) for i < m. */
  function Outer(r: seq<real>, p: seq<real>, m: nat, n: nat): (z: real)
    requires n <= |r| && n <= |p|
    ensures z >= 0.0
  {
    if m == 0 then 0.0 else Outer(r, p, m - 1, n) + Inner(r, p, m - 1, n)
  }

  /** The all-pairs residual over the first n label positions: every pair
      0 <= i < j <= n - 1, the first position ranging over i < n - 1. */
  function AllPairs(r: seq<real>, p: seq<real>, n: nat): real
    requires n <= |r| && n <= |p|
  {
    Outer(r, p, if n == 0 then 0 else n - 1, n)
  }

  lemma {:induction false} InnerHasPair(r: seq<real>, p: seq<real>, m: nat, j: nat, n: nat)
    requires m < j < n <= |r| && n <= |p|
    ensures PairTerm(r, p, m, j) <= Inner(r, p, m, n)
    decreases n
  {
    if j < n - 1 {
      InnerHasPair(r, p, m, j, n - 1);
    }
  }

  lemma {:induction false} OuterHasInner(r: seq<real>, p: seq<real>, i: nat, m: nat, n: nat)
    requires i < m && n <= |r| && n <= |p|
    ensures Inner(r, p, i, n) <= Outer(r, p, m, n)
    decreases m
  {
    if i < m - 1 {
      OuterHasInner(r, p, i, m - 1, n);
    }
  }

  /** Every pair i < j < n contributes its squared residual: the all-pairs sum
      bounds each of them, in particular the endpoint pair (0, n - 1). */
  lemma AllPairsHasPair(r: seq<real>, p: seq<real>, i: nat, j: nat, n: nat)
    requires i < j < n <= |r| && n <= |p|
    ensures 0.0 <= PairTerm(r, p, i, j) <= AllPairs(r, p, n)
  {
    InnerHasPair(r, p, i, j, n);
    OuterHasInner(r, p, i, n - 1, n);
  }

  /** Over three positions the all-pairs sum is the three pair terms: the
      second index stops at n - 1 = 2, whatever follows in r and p. */
  lemma AllPairsOfThree(r: seq<real>, p: seq<real>)
    requires |r| >= 3 && |p| >= 3
    ensures AllPairs(r, p, 3) == PairTerm(r, p, 0, 1) + PairTerm(r, p, 0, 2) + PairTerm(r, p, 1, 2)
  {
    assert Inner(r, p, 0, 2) == PairTerm(r, p, 0, 1);
    assert Inner(r, p, 0, 3) == PairTerm(r, p, 0, 1) + PairTerm(r, p, 0, 2);
    assert Inner(r, p, 1, 3) == PairTerm(r, p, 1, 2);
    assert Outer(r, p, 1, 3) == Inner(r, p, 0, 3);
  }

  // ---------------------------------------------------------------------------
  // Reduction over the batch

  /** The left-to-right sum of Python's built-in sum. */
  function Sum(v: seq<real>): real
  {
    if v == [] then 0.0 else Sum(v[..|v| - 1]) + v[|v| - 1]
  }

  lemma {:induction false} SumBounds(v: seq<real>, lo: real, hi: real)
    requires forall i :: 0 <= i < |v| ==> lo <= v[i] <= hi
    ensures (|v| as real) * lo <= Sum(v) <= (|v| as real) * hi
  {
    if v != [] {
      SumBounds(v[..|v| - 1], lo, hi);
      assert (|v| as real) * lo == ((|v| - 1) as real) * lo + lo;
      assert (|v| as real) * hi == ((|v| - 1) as real) * hi + hi;
    }
  }

  /** The reduced value: a scalar, the per-item vector, or the NaN that a mean
      over an empty batch gives. */
  datatype Reduced = Scalar(value: real) | PerItem(values: seq<real>) | EmptyMean

  /** An unrecognised reduction is an error carrying the requested name. */
  datatype Result<T> = Ok(value: T) | UnexpectedReduction(mode: string)

  function Mean(v: seq<real>): Reduced
  {
    if |v| == 0 then EmptyMean else Scalar(Sum(v) / (|v| as real))
  }

  /** The reduction switch: "mean", "sum" and "none" are accepted, any other
      name is an error. */
  function Reduce(mode: string, v: seq<real>): (r: Result<Reduced>)
    ensures r.UnexpectedReduction? <==> mode != "mean" && mode != "sum" && mode != "none"
    ensures r.UnexpectedReduction? ==> r.mode == mode
    ensures mode == "none" ==> r == Ok(PerItem(v))
    ensures mode == "sum" ==> r == Ok(Scalar(Sum(v)))
    ensures mode == "mean" ==> r == Ok(Mean(v))
  {
    if mode == "mean" then Ok(Mean(v))
    else if mode == "sum" then Ok(Scalar(Sum(v)))
    else if mode == "none" then Ok(PerItem(v))
    else UnexpectedReduction(mode)
  }

  /** The mean lies between the least and the greatest per-item value. */
  lemma MeanBetween(v: seq<real>, lo: real, hi: real)
    requires |v| > 0 && forall i :: 0 <= i < |v| ==> lo <= v[i] <= hi
    ensures Mean(v).Scalar? && lo <= Mean(v).value <= hi
  {
    SumBounds(v, lo, hi);
    var n := |v| as real;
    assert Sum(v) / n >= lo by {
      assert Sum(v) >= n * lo;
    }
    assert Sum(v) / n <= hi by {
      assert Sum(v) <= n * hi;
    }
  }

  /** Non-negative per-item losses reduce to non-negative values in every mode. */
  lemma ReduceNonNegative(mode: string, v: seq<real>)
    requires forall i :: 0 <= i < |v| ==> v[i] >= 0.0
    ensures Reduce(mode, v).Ok? && Reduce(mode, v).value.Scalar? ==> Reduce(mode, v).value.value >= 0.0
  {
    SumNonNegative(v);
  }

  /** A sum of non-negative values is non-negative, and so is its mean. */
  lemma {:induction false} SumNonNegative(v: seq<real>)
    requires forall i :: 0 <= i < |v| ==> v[i] >= 0.0
    ensures Sum(v) >= 0.0
    ensures Mean(v).Scalar? ==> Mean(v).value >= 0.0
  {
    if v != [] {
      SumNonNegative(v[..|v| - 1]);
    }
  }

  // ---------------------------------------------------------------------------
  // The endpoint residual of the marginal loss

  /** The per-item endpoint terms: the squared residual between position 0 and
      position n = width - 1 of the reference rows. */
  function EndpointTerms(logR: seq<seq<real>>, logP: seq<seq<real>>, width: nat): (v: seq<real>)
    requires 1 <= width && |logR| >= |logP|
    requires forall b :: 0 <= b < |logP| ==> |logR[b]| == width && |logP[b]| >= width
    ensures |v| == |logP|
    ensures forall b :: 0 <= b < |v| ==> v[b] >= 0.0
  {
    seq(|logP|, b requires 0 <= b < |logP| => PairTerm(logR[b], logP[b], 0, width - 1))
  }

  /** The endpoint loss: for every batch item the squared residual between the
      first and the last reference position, accumulated into a zeroed vector,
      then the batch mean. The reduction option plays no part. */
  method EndpointLoss(logR: seq<seq<real>>, logP: seq<seq<real>>, width: nat) returns (loss: Reduced)
    requires 1 <= width && |logR| >= |logP|
    requires forall b :: 0 <= b < |logP| ==> |logR[b]| == width && |logP[b]| >= width
    ensures loss == Mean(EndpointTerms(logR, logP, width))
    ensures loss.Scalar? <==> |logP| > 0
    ensures loss.Scalar? ==> loss.value >= 0.0
  {
    var B := |logP|;
    var m := 0;
    var lossBatch := new real[B](_ => 0.0);
    for b := 0 to B
      invariant forall i :: 0 <= i < b ==> lossBatch[i] == PairTerm(logR[i], logP[i], m, width - 1)
      invariant forall i :: b <= i < B ==> lossBatch[i] == 0.0
    {
      var n := width - 1;
      var sub := Residual(logR[b][m], logR[b][n], logP[b][m], logP[b][n]);
      lossBatch[b] := lossBatch[b] + Sq(sub);
    }
    assert lossBatch[..] == EndpointTerms(logR, logP, width);
    loss := Mean(lossBatch[..]);
    SumNonNegative(lossBatch[..]);
  }
}
