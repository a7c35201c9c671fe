/** The reverse pass of the marginal kernel (cu_kernel_forward_only_grad),
    run sequentially.

    Its lock protocol forms a ring: worker u waits for worker u + 1 to finish
    the same time step, and worker U waits for worker 0 to finish the previous
    one. The workers therefore take turns in one fixed order: t descending
    from T - 1 to 1 (the loop is `while t > 0`), and for each t the label
    positions u descending from U to 0. The pass accumulates into d_alpha and
    d_log_probs; it reads the saved branch scores and the upstream gradient
    d_log_p.

    The functions below give one step of the pass as a value-to-value map of
    the two gradient buffers, and Pass the whole schedule; the method over
    arrays is proved to do exactly what Pass says. */
module Reverse {
  import opened Lattice

  /** The exponential of the softmax weights, left abstract: any positive function. */
  type Exp = real -> real

  ghost predicate Positive(exp: Exp) {
    forall z :: exp(z) > 0.0
  }

  /** What the forward pass saved, and the upstream gradient of log_p. */
  datatype Saved = Saved(emit: seq<seq<real>>, noEmit: seq<seq<real>>, dLogP: seq<real>)

  predicate SavedShaped(x: Item, s: Saved) {
    && |s.emit| == |x.lp| && (forall i :: 0 <= i < |s.emit| ==> |s.emit[i]| == x.maxU)
    && |s.noEmit| == |x.lp| && (forall i :: 0 <= i < |s.noEmit| ==> |s.noEmit[i]| == x.maxU)
    && |s.dLogP| == x.maxU
  }

  /** The two accumulators: d_alpha (maxT x maxU) and d_log_probs (maxT x maxU x A). */
  datatype Grads = Grads(dAlpha: seq<seq<real>>, dLp: seq<seq<seq<real>>>)

  predicate Shaped(x: Item, g: Grads) {
    && |g.dAlpha| == |x.lp| && (forall i :: 0 <= i < |g.dAlpha| ==> |g.dAlpha[i]| == x.maxU)
    && |g.dLp| == |x.lp| && (forall i :: 0 <= i < |g.dLp| ==> |g.dLp[i]| == x.maxU)
    && (forall i, j :: 0 <= i < |g.dLp| && 0 <= j < x.maxU ==> |g.dLp[i][j]| == x.A)
  }

  /** v added to d_alpha at (i, j) and to d_log_probs at (i, j, k): every
      write of the pass has this form. */
  function Share(x: Item, g: Grads, i: nat, j: nat, k: nat, v: real): (r: Grads)
    requires Shaped(x, g) && i < |x.lp| && j < x.maxU && k < x.A
    ensures Shaped(x, r)
  {
    var a := g.dAlpha[i := g.dAlpha[i][j := g.dAlpha[i][j] + v]];
    var l := g.dLp[i := g.dLp[i][j := g.dLp[i][j][k := g.dLp[i][j][k] + v]]];
    Grads(a, l)
  }

  /** Share adds v at exactly one entry of each buffer. */
  lemma ShareAdds(x: Item, g: Grads, i: nat, j: nat, k: nat, v: real)
    requires Shaped(x, g) && i < |x.lp| && j < x.maxU && k < x.A
    ensures forall p, q :: 0 <= p < |x.lp| && 0 <= q < x.maxU ==>
      Share(x, g, i, j, k, v).dAlpha[p][q] == g.dAlpha[p][q] + (if p == i && q == j then v else 0.0)
    ensures forall p, q, l :: 0 <= p < |x.lp| && 0 <= q < x.maxU && 0 <= l < x.A ==>
      Share(x, g, i, j, k, v).dLp[p][q][l] == g.dLp[p][q][l] + (if p == i && q == j && l == k then v else 0.0)
  {
  }

  // ---------------------------------------------------------------------------
  // One step

  /** The split of the incoming gradient d between the emit and the no-emit
      predecessor, in proportion to the softmax weights of the two saved
      summands e and n (shifted by their maximum). The two shares add up to d,
      and for a non-negative d each lies between 0 and d. */
  function Split(exp: Exp, e: real, n: real, d: real): (r: (real, real))
    requires Positive(exp)
    ensures r.0 + r.1 == d
    ensures d >= 0.0 ==> 0.0 <= r.0 <= d && 0.0 <= r.1 <= d
  {
    var m := if e >= n then e else n;
    var ee := exp(e - m);
    var en := exp(n - m);
    var norm := ee + en;
    SplitFacts(ee, en, d);
    (d * (ee / norm), d * (en / norm))
  }

  lemma SplitFacts(ee: real, en: real, d: real)
    requires ee > 0.0 && en > 0.0
    ensures d * (ee / (ee + en)) + d * (en / (ee + en)) == d
    ensures d >= 0.0 ==> 0.0 <= d * (ee / (ee + en)) <= d && 0.0 <= d * (en / (ee + en)) <= d
  {
    var norm := ee + en;
    var a, b := ee / norm, en / norm;
    assert a + b == 1.0 by {
      assert a * norm == ee && b * norm == en;
      assert (a + b) * norm == norm;
    }
    assert 0.0 < a <= 1.0 && 0.0 < b <= 1.0 by {
      assert a * norm == ee && b * norm == en;
    }
    assert d * a + d * b == d * (a + b);
    if d >= 0.0 {
      assert d * a <= d * 1.0;
      assert d * b <= d * 1.0;
    }
  }

  /** Column 0 at time t. */
  function ColumnStep(x: Item, g: Grads, t: nat): (r: Grads)
    requires x.Valid() && Shaped(x, g) && 0 < t < x.T
    ensures Shaped(x, r)
  {
    Share(x, g, t - 1, 0, x.blank, g.dAlpha[t][0])
  }

  /** Column 0 at time t passes its whole gradient to (t - 1, 0) and to the
      blank score at (t - 1, 0); nothing else changes. */
  lemma ColumnStepAdds(x: Item, g: Grads, t: nat)
    requires x.Valid() && Shaped(x, g) && 0 < t < x.T
    ensures forall i, j :: 0 <= i < |x.lp| && 0 <= j < x.maxU ==>
      ColumnStep(x, g, t).dAlpha[i][j] == g.dAlpha[i][j] + (if i == t - 1 && j == 0 then g.dAlpha[t][0] else 0.0)
    ensures forall i, j, k :: 0 <= i < |x.lp| && 0 <= j < x.maxU && 0 <= k < x.A ==>
      ColumnStep(x, g, t).dLp[i][j][k]
        == g.dLp[i][j][k] + (if i == t - 1 && j == 0 && k == x.blank then g.dAlpha[t][0] else 0.0)
  {
    ShareAdds(x, g, t - 1, 0, x.blank, g.dAlpha[t][0]);
  }

  /** The seeding of worker u at t == T - 1, as written. */
  function SeedBelowStep(x: Item, s: Saved, g: Grads, u: nat): (r: Grads)
    requires x.Valid() && SavedShaped(x, s) && Shaped(x, g) && 2 <= x.T && u <= x.U
    ensures Shaped(x, r)
  {
    Share(x, g, x.T - 2, u, x.blank, s.dLogP[u] / (x.T as real))
  }

  /** As written, the seeding adds d_log_p[u] / T at time index t - 1 = T - 2,
      to d_alpha and to the blank score, and nothing else. */
  lemma SeedBelowStepAdds(x: Item, s: Saved, g: Grads, u: nat)
    requires x.Valid() && SavedShaped(x, s) && Shaped(x, g) && 2 <= x.T && u <= x.U
    ensures forall i, j :: 0 <= i < |x.lp| && 0 <= j < x.maxU ==>
      SeedBelowStep(x, s, g, u).dAlpha[i][j]
        == g.dAlpha[i][j] + (if i == x.T - 2 && j == u then s.dLogP[u] / (x.T as real) else 0.0)
    ensures forall i, j, k :: 0 <= i < |x.lp| && 0 <= j < x.maxU && 0 <= k < x.A ==>
      SeedBelowStep(x, s, g, u).dLp[i][j][k] == g.dLp[i][j][k]
        + (if i == x.T - 2 && j == u && k == x.blank then s.dLogP[u] / (x.T as real) else 0.0)
  {
    ShareAdds(x, g, x.T - 2, u, x.blank, s.dLogP[u] / (x.T as real));
  }

  /** An interior step at (t, u): the gradient of (t, u) is split; the emit
      share goes to (t, u - 1) and to the label score at (t, u - 1), the
      no-emit share to (t - 1, u) and to the blank score at (t - 1, u). */
  function SplitStep(x: Item, s: Saved, exp: Exp, g: Grads, t: nat, u: nat): (r: Grads)
    requires x.Valid() && SavedShaped(x, s) && Shaped(x, g) && Positive(exp)
    requires 0 < t < x.T && 0 < u <= x.U
    ensures Shaped(x, r)
  {
    var sh := Split(exp, s.emit[t][u], s.noEmit[t][u], g.dAlpha[t][u]);
    Share(x, Share(x, g, t, u - 1, x.labels[u - 1], sh.0), t - 1, u, x.blank, sh.1)
  }

  /** An interior step increments exactly d_alpha[t][u - 1],
      d_alpha[t - 1][u], d_log_probs[t][u - 1][labels[u - 1]] and
      d_log_probs[t - 1][u][blank], by the emit and the no-emit share;
      nothing else changes. */
  lemma SplitStepAdds(x: Item, s: Saved, exp: Exp, g: Grads, t: nat, u: nat)
    requires x.Valid() && SavedShaped(x, s) && Shaped(x, g) && Positive(exp)
    requires 0 < t < x.T && 0 < u <= x.U
    ensures forall i, j :: 0 <= i < |x.lp| && 0 <= j < x.maxU ==>
      SplitStep(x, s, exp, g, t, u).dAlpha[i][j] == g.dAlpha[i][j]
        + (if i == t && j == u - 1 then Split(exp, s.emit[t][u], s.noEmit[t][u], g.dAlpha[t][u]).0 else 0.0)
        + (if i == t - 1 && j == u then Split(exp, s.emit[t][u], s.noEmit[t][u], g.dAlpha[t][u]).1 else 0.0)
    ensures forall i, j, k :: 0 <= i < |x.lp| && 0 <= j < x.maxU && 0 <= k < x.A ==>
      SplitStep(x, s, exp, g, t, u).dLp[i][j][k] == g.dLp[i][j][k]
        + (if i == t && j == u - 1 && k == x.labels[u - 1]
           then Split(exp, s.emit[t][u], s.noEmit[t][u], g.dAlpha[t][u]).0 else 0.0)
        + (if i == t - 1 && j == u && k == x.blank
           then Split(exp, s.emit[t][u], s.noEmit[t][u], g.dAlpha[t][u]).1 else 0.0)
  {
    var sh := Split(exp, s.emit[t][u], s.noEmit[t][u], g.dAlpha[t][u]);
    var h := Share(x, g, t, u - 1, x.labels[u - 1], sh.0);
    ShareAdds(x, g, t, u - 1, x.labels[u - 1], sh.0);
    ShareAdds(x, h, t - 1, u, x.blank, sh.1);
  }

  /** The interior step moves exactly the gradient of (t, u) into d_alpha:
      the two predecessor entries together grow by d_alpha[t][u]. */
  lemma SplitStepConserves(x: Item, s: Saved, exp: Exp, g: Grads, t: nat, u: nat)
    requires x.Valid() && SavedShaped(x, s) && Shaped(x, g) && Positive(exp)
    requires 0 < t < x.T && 0 < u <= x.U
    ensures var r := SplitStep(x, s, exp, g, t, u);
      (r.dAlpha[t][u - 1] - g.dAlpha[t][u - 1]) + (r.dAlpha[t - 1][u] - g.dAlpha[t - 1][u]) == g.dAlpha[t][u]
  {
    SplitStepAdds(x, s, exp, g, t, u);
  }

  /** The step of worker u at time t. With seedBelow it is the step as
      written; without, the seeding is left to the caller. */
  function Cell(x: Item, s: Saved, exp: Exp, g: Grads, t: nat, u: nat, seedBelow: bool): (r: Grads)
    requires x.Valid() && SavedShaped(x, s) && Shaped(x, g) && Positive(exp)
    requires 0 < t < x.T && u <= x.U
    ensures Shaped(x, r)
  {
    if u == 0 then ColumnStep(x, g, t)
    else SplitStep(x, s, exp, if seedBelow && t == x.T - 1 then SeedBelowStep(x, s, g, u) else g, t, u)
  }

  // ---------------------------------------------------------------------------
  // The schedule

  /** The d_alpha entries that any step of the pass can write: every lattice
      cell except the top corner (T - 1, U). */
  predicate AlphaTarget(x: Item, i: int, j: int) {
    0 <= i < x.T && 0 <= j <= x.U && !(i == x.T - 1 && j == x.U)
  }

  /** The d_log_probs entries that any step of the pass can write: blank
      scores below the last time step, and label scores after the first. */
  predicate LpTarget(x: Item, i: int, j: int, k: int)
    requires x.Valid()
  {
    || (0 <= i && i + 1 < x.T && 0 <= j <= x.U && k == x.blank)
    || (0 < i < x.T && 0 <= j < x.U && k == x.labels[j])
  }

  /** The accumulators after the steps from position (t, u) on: the steps
      (t, u), (t, u - 1), ..., (t, 0), then the rows t - 1 down to 1.
      u == -1 stands for a finished row. No step writes outside the
      targets. */
  function Pass(x: Item, s: Saved, exp: Exp, g: Grads, t: int, u: int, seedBelow: bool): (r: Grads)
    requires x.Valid() && SavedShaped(x, s) && Shaped(x, g) && Positive(exp)
    requires t < x.T && -1 <= u <= x.U
    ensures Shaped(x, r)
    decreases t, u + 1
  {
    if t <= 0 then g
    else if u < 0 then Pass(x, s, exp, g, t - 1, x.U, seedBelow)
    else Pass(x, s, exp, Cell(x, s, exp, g, t, u, seedBelow), t, u - 1, seedBelow)
  }

  /** No step of the pass writes outside the targets. */
  lemma {:induction false} PassFrame(x: Item, s: Saved, exp: Exp, g: Grads, t: int, u: int, seedBelow: bool)
    requires x.Valid() && SavedShaped(x, s) && Shaped(x, g) && Positive(exp)
    requires t < x.T && -1 <= u <= x.U
    ensures forall i, j :: 0 <= i < |x.lp| && 0 <= j < x.maxU && !AlphaTarget(x, i, j) ==>
      Pass(x, s, exp, g, t, u, seedBelow).dAlpha[i][j] == g.dAlpha[i][j]
    ensures forall i, j, k :: 0 <= i < |x.lp| && 0 <= j < x.maxU && 0 <= k < x.A && !LpTarget(x, i, j, k) ==>
      Pass(x, s, exp, g, t, u, seedBelow).dLp[i][j][k] == g.dLp[i][j][k]
    decreases t, u + 1
  {
    if t <= 0 {
    } else if u < 0 {
      PassFrame(x, s, exp, g, t - 1, x.U, seedBelow);
    } else {
      var c := Cell(x, s, exp, g, t, u, seedBelow);
      assert Pass(x, s, exp, g, t, u, seedBelow) == Pass(x, s, exp, c, t, u - 1, seedBelow);
      CellFrame(x, s, exp, g, t, u, seedBelow);
      PassFrame(x, s, exp, c, t, u - 1, seedBelow);
    }
  }

  lemma CellFrame(x: Item, s: Saved, exp: Exp, g: Grads, t: nat, u: nat, seedBelow: bool)
    requires x.Valid() && SavedShaped(x, s) && Shaped(x, g) && Positive(exp)
    requires 0 < t < x.T && u <= x.U
    ensures forall i, j :: 0 <= i < |x.lp| && 0 <= j < x.maxU && !AlphaTarget(x, i, j) ==>
      Cell(x, s, exp, g, t, u, seedBelow).dAlpha[i][j] == g.dAlpha[i][j]
    ensures forall i, j, k :: 0 <= i < |x.lp| && 0 <= j < x.maxU && 0 <= k < x.A && !LpTarget(x, i, j, k) ==>
      Cell(x, s, exp, g, t, u, seedBelow).dLp[i][j][k] == g.dLp[i][j][k]
  {
    if u == 0 {
      ColumnStepAdds(x, g, t);
    } else if seedBelow && t == x.T - 1 {
      SeedBelowStepAdds(x, s, g, u);
      SplitStepAdds(x, s, exp, SeedBelowStep(x, s, g, u), t, u);
    } else {
      SplitStepAdds(x, s, exp, g, t, u);
    }
  }

  /** A step writes d_alpha only at the two predecessors of its cell (the
      seeding at T - 2 falls on the no-emit predecessor). */
  lemma CellWritesPredecessors(x: Item, s: Saved, exp: Exp, g: Grads, t: nat, u: nat, seedBelow: bool)
    requires x.Valid() && SavedShaped(x, s) && Shaped(x, g) && Positive(exp)
    requires 0 < t < x.T && u <= x.U
    ensures forall i, j :: 0 <= i < |x.lp| && 0 <= j < x.maxU && !(i == t && j + 1 == u) && !(i + 1 == t && j == u) ==>
      Cell(x, s, exp, g, t, u, seedBelow).dAlpha[i][j] == g.dAlpha[i][j]
  {
    if u == 0 {
      ColumnStepAdds(x, g, t);
    } else if seedBelow && t == x.T - 1 {
      SeedBelowStepAdds(x, s, g, u);
      SplitStepAdds(x, s, exp, SeedBelowStep(x, s, g, u), t, u);
    } else {
      SplitStepAdds(x, s, exp, g, t, u);
    }
  }

  /** The order the lock ring enforces is a reverse topological order of the
      lattice: the pass from (t, u) on never writes a d_alpha entry that comes
      before (t, u) in the schedule, so each step splits a gradient that is
      already complete. */
  lemma {:induction false} PassKeepsSettled(x: Item, s: Saved, exp: Exp, g: Grads, t: int, u: int, seedBelow: bool)
    requires x.Valid() && SavedShaped(x, s) && Shaped(x, g) && Positive(exp)
    requires t < x.T && -1 <= u <= x.U
    ensures forall i, j :: 0 <= i < |x.lp| && 0 <= j < x.maxU && (t < i || (i == t && u < j)) ==>
      Pass(x, s, exp, g, t, u, seedBelow).dAlpha[i][j] == g.dAlpha[i][j]
    decreases t, u + 1
  {
    if t <= 0 {
    } else if u < 0 {
      PassKeepsSettled(x, s, exp, g, t - 1, x.U, seedBelow);
    } else {
      var c := Cell(x, s, exp, g, t, u, seedBelow);
      assert Pass(x, s, exp, g, t, u, seedBelow) == Pass(x, s, exp, c, t, u - 1, seedBelow);
      CellWritesPredecessors(x, s, exp, g, t, u, seedBelow);
      PassKeepsSettled(x, s, exp, c, t, u - 1, seedBelow);
    }
  }

  /** The reverse pass as written. */
  function Run(x: Item, s: Saved, exp: Exp, g: Grads): (r: Grads)
    requires x.Valid() && SavedShaped(x, s) && Shaped(x, g) && Positive(exp)
    ensures Shaped(x, r)
  {
    Pass(x, s, exp, g, x.T - 1, x.U, true)
  }

  /** The pass as written writes nothing outside the lattice (the padding
      rows t >= T and columns u > U keep their values). */
  lemma RunKeepsPadding(x: Item, s: Saved, exp: Exp, g: Grads, i: nat, j: nat, k: nat)
    requires x.Valid() && SavedShaped(x, s) && Shaped(x, g) && Positive(exp)
    requires i < |x.lp| && j < x.maxU && k < x.A && (x.T <= i || x.U < j)
    ensures Run(x, s, exp, g).dAlpha[i][j] == g.dAlpha[i][j]
    ensures Run(x, s, exp, g).dLp[i][j][k] == g.dLp[i][j][k]
  {
    PassFrame(x, s, exp, g, x.T - 1, x.U, true);
    assert !AlphaTarget(x, i, j) && !LpTarget(x, i, j, k);
  }

  /** The gradient of the top corner (T - 1, U) is never read forward, and the
      label scores of time step 0 never receive anything. */
  lemma RunKeepsCornerAndFirstLabels(x: Item, s: Saved, exp: Exp, g: Grads, j: nat, k: nat)
    requires x.Valid() && SavedShaped(x, s) && Shaped(x, g) && Positive(exp)
    requires 1 <= x.T && j < x.maxU && k < x.A && k != x.blank
    ensures Run(x, s, exp, g).dAlpha[x.T - 1][x.U] == g.dAlpha[x.T - 1][x.U]
    ensures Run(x, s, exp, g).dLp[0][j][k] == g.dLp[0][j][k]
  {
    PassFrame(x, s, exp, g, x.T - 1, x.U, true);
    assert !AlphaTarget(x, x.T - 1, x.U) && !LpTarget(x, 0, j, k);
  }

  /** Without labels the pass is column 0 alone, a chain of blank moves run
      backwards: a gradient c at (t, 0), with nothing below it, reaches every
      blank score (i, 0) with i < t once. */
  lemma {:induction false} ColumnChain(x: Item, s: Saved, exp: Exp, g: Grads, t: nat, c: real, seedBelow: bool)
    requires x.Valid() && SavedShaped(x, s) && Shaped(x, g) && Positive(exp)
    requires x.U == 0 && t < x.T && g.dAlpha[t][0] == c
    requires forall i :: 0 <= i < t ==> g.dAlpha[i][0] == 0.0
    ensures forall i :: 0 <= i < |x.lp| ==>
      Pass(x, s, exp, g, t, 0, seedBelow).dLp[i][0][x.blank] == g.dLp[i][0][x.blank] + (if i < t then c else 0.0)
    decreases t
  {
    if t > 0 {
      var h := ColumnStep(x, g, t);
      assert Pass(x, s, exp, g, t, 0, seedBelow) == Pass(x, s, exp, h, t, -1, seedBelow);
      assert Pass(x, s, exp, h, t, -1, seedBelow) == Pass(x, s, exp, h, t - 1, 0, seedBelow);
      ColumnStepAdds(x, g, t);
      ColumnChain(x, s, exp, h, t - 1, c, seedBelow);
    }
  }

  /** Without labels the pass as written never seeds: from a zero d_alpha
      column it leaves every d_log_probs entry as it was. */
  lemma RunWithoutLabels(x: Item, s: Saved, exp: Exp, g: Grads)
    requires x.Valid() && SavedShaped(x, s) && Shaped(x, g) && Positive(exp)
    requires x.U == 0 && 1 <= x.T
    requires forall i :: 0 <= i < x.T ==> g.dAlpha[i][0] == 0.0
    ensures forall i, j, k :: 0 <= i < |x.lp| && 0 <= j < x.maxU && 0 <= k < x.A ==>
      Run(x, s, exp, g).dLp[i][j][k] == g.dLp[i][j][k]
  {
    PassFrame(x, s, exp, g, x.T - 1, 0, true);
    ColumnChain(x, s, exp, g, x.T - 1, 0.0, true);
    forall i, j, k | 0 <= i < |x.lp| && 0 <= j < x.maxU && 0 <= k < x.A && LpTarget(x, i, j, k)
      ensures Run(x, s, exp, g).dLp[i][j][k] == g.dLp[i][j][k]
    {
      assert j == 0 && k == x.blank;
    }
  }

  // ---------------------------------------------------------------------------
  // The seeding as intended

  /** d_log_p[u] / T added to d_alpha and to the blank score at time T - 1,
      for every u < n. */
  function SeedTop(x: Item, s: Saved, g: Grads, n: nat): (r: Grads)
    requires x.Valid() && SavedShaped(x, s) && Shaped(x, g) && 1 <= x.T && n <= x.U + 1
    ensures Shaped(x, r)
  {
    if n == 0 then g
    else Share(x, SeedTop(x, s, g, n - 1), x.T - 1, n - 1, x.blank, s.dLogP[n - 1] / (x.T as real))
  }

  /** The seeding adds d_log_p[j] / T at (T - 1, j) for every j < n, in both
      buffers, and changes nothing else. */
  lemma {:induction false} SeedTopAdds(x: Item, s: Saved, g: Grads, n: nat)
    requires x.Valid() && SavedShaped(x, s) && Shaped(x, g) && 1 <= x.T && n <= x.U + 1
    ensures forall i, j :: 0 <= i < |x.lp| && 0 <= j < x.maxU ==>
      SeedTop(x, s, g, n).dAlpha[i][j]
        == g.dAlpha[i][j] + (if i == x.T - 1 && j < n then s.dLogP[j] / (x.T as real) else 0.0)
    ensures forall i, j, k :: 0 <= i < |x.lp| && 0 <= j < x.maxU && 0 <= k < x.A ==>
      SeedTop(x, s, g, n).dLp[i][j][k] == g.dLp[i][j][k]
        + (if i == x.T - 1 && j < n && k == x.blank then s.dLogP[j] / (x.T as real) else 0.0)
  {
    if n > 0 {
      var h := SeedTop(x, s, g, n - 1);
      assert SeedTop(x, s, g, n) == Share(x, h, x.T - 1, n - 1, x.blank, s.dLogP[n - 1] / (x.T as real));
      SeedTopAdds(x, s, g, n - 1);
      ShareAdds(x, h, x.T - 1, n - 1, x.blank, s.dLogP[n - 1] / (x.T as real));
    }
  }

  /** The corrected pass: the upstream gradient seeds the cells that the
      marginals read, (T - 1, u) for every u <= U, then the steps run without
      the seeding at T - 2, then row 0 is propagated as the other rows are. */
  function CorrectedRun(x: Item, s: Saved, exp: Exp, g: Grads): (r: Grads)
    requires x.Valid() && SavedShaped(x, s) && Shaped(x, g) && Positive(exp)
    ensures Shaped(x, r)
  {
    if x.T == 0 then g
    else RowZero(x, Pass(x, s, exp, SeedTop(x, s, g, x.U + 1), x.T - 1, x.U, false), x.U)
  }

  /** The sum of v[u] for a <= u < b. */
  function Tail(v: seq<real>, a: nat, b: nat): real
    requires b <= |v|
    decreases b
  {
    if b <= a then 0.0 else Tail(v, a, b - 1) + v[b - 1]
  }

  lemma {:induction false} TailSame(v: seq<real>, w: seq<real>, a: nat, b: nat)
    requires b <= |v| && b <= |w|
    requires forall u :: a <= u < b ==> v[u] == w[u]
    ensures Tail(v, a, b) == Tail(w, a, b)
    decreases b
  {
    if a < b {
      TailSame(v, w, a, b - 1);
    }
  }

  /** Row t = 0, which the loop bound t > 0 skips, for the workers n down to
      1: the gradient of (0, u) passes to (0, u - 1) and to the label score at
      (0, u - 1), the reverse of alpha[0][u] = alpha[0][u - 1] + lp[0][u - 1][labels[u - 1]]. */
  function RowZero(x: Item, g: Grads, n: nat): (r: Grads)
    requires x.Valid() && Shaped(x, g) && 1 <= x.T && n <= x.U
    ensures Shaped(x, r)
    decreases n
  {
    if n == 0 then g
    else RowZero(x, Share(x, g, 0, n - 1, x.labels[n - 1], g.dAlpha[0][n]), n - 1)
  }

  /** Row 0 writes d_log_probs only at the label scores (0, j, labels[j]) with j < n. */
  lemma {:induction false} RowZeroFrame(x: Item, g: Grads, n: nat, i: nat, j: nat, k: nat)
    requires x.Valid() && Shaped(x, g) && 1 <= x.T && n <= x.U
    requires i < |x.lp| && j < x.maxU && k < x.A && !(i == 0 && j < n && k == x.labels[j])
    ensures RowZero(x, g, n).dLp[i][j][k] == g.dLp[i][j][k]
    decreases n
  {
    if n > 0 {
      var h := Share(x, g, 0, n - 1, x.labels[n - 1], g.dAlpha[0][n]);
      assert RowZero(x, g, n) == RowZero(x, h, n - 1);
      ShareAdds(x, g, 0, n - 1, x.labels[n - 1], g.dAlpha[0][n]);
      RowZeroFrame(x, h, n - 1, i, j, k);
    }
  }

  /** Along row 0 the label score at (0, j) receives the gradient of every
      later cell of the row, up to column n. */
  lemma {:induction false} RowZeroChain(x: Item, g: Grads, n: nat, j: nat)
    requires x.Valid() && Shaped(x, g) && 1 <= x.T && n <= x.U && j < n
    ensures RowZero(x, g, n).dLp[0][j][x.labels[j]] == g.dLp[0][j][x.labels[j]] + Tail(g.dAlpha[0], j + 1, n + 1)
    decreases n
  {
    var h := Share(x, g, 0, n - 1, x.labels[n - 1], g.dAlpha[0][n]);
    assert RowZero(x, g, n) == RowZero(x, h, n - 1);
    ShareAdds(x, g, 0, n - 1, x.labels[n - 1], g.dAlpha[0][n]);
    if j == n - 1 {
      RowZeroFrame(x, h, n - 1, 0, j, x.labels[j]);
      assert Tail(g.dAlpha[0], n, n + 1) == g.dAlpha[0][n];
    } else {
      RowZeroChain(x, h, n - 1, j);
      TailSame(h.dAlpha[0], g.dAlpha[0], j + 1, n - 1);
      assert Tail(h.dAlpha[0], j + 1, n) == Tail(h.dAlpha[0], j + 1, n - 1) + h.dAlpha[0][n - 1];
      assert Tail(g.dAlpha[0], j + 1, n + 1) == Tail(g.dAlpha[0], j + 1, n - 1) + g.dAlpha[0][n - 1] + g.dAlpha[0][n];
    }
  }

  /** Corrected, the label score at (0, j) receives, on top of what the pass
      gives it, the gradient of every later cell of row 0. */
  lemma CorrectedCreditsRowZeroLabels(x: Item, s: Saved, exp: Exp, g: Grads, j: nat)
    requires x.Valid() && SavedShaped(x, s) && Shaped(x, g) && Positive(exp)
    requires 1 <= x.T && j < x.U
    ensures var p := Pass(x, s, exp, SeedTop(x, s, g, x.U + 1), x.T - 1, x.U, false);
      CorrectedRun(x, s, exp, g).dLp[0][j][x.labels[j]] == p.dLp[0][j][x.labels[j]] + Tail(p.dAlpha[0], j + 1, x.U + 1)
  {
    var p := Pass(x, s, exp, SeedTop(x, s, g, x.U + 1), x.T - 1, x.U, false);
    CorrectedRunUnfold(x, s, exp, g);
    RowZeroChain(x, p, x.U, j);
  }

  /** The corrected pass of an item with a time step: the seeding, the steps,
      then row 0. */
  lemma CorrectedRunUnfold(x: Item, s: Saved, exp: Exp, g: Grads)
    requires x.Valid() && SavedShaped(x, s) && Shaped(x, g) && Positive(exp) && 1 <= x.T
    ensures CorrectedRun(x, s, exp, g) == RowZero(x, Pass(x, s, exp, SeedTop(x, s, g, x.U + 1), x.T - 1, x.U, false), x.U)
  {
  }

  /** One row-0 step, then the rest of row 0. */
  lemma RowZeroUnfold(x: Item, g: Grads, n: nat)
    requires x.Valid() && Shaped(x, g) && 1 <= x.T && 0 < n <= x.U
    ensures RowZero(x, g, n) == RowZero(x, Share(x, g, 0, n - 1, x.labels[n - 1], g.dAlpha[0][n]), n - 1)
  {
  }

  /** As written, the blank scores of the last time step receive nothing. */
  lemma AsWrittenMissesTopBlank(x: Item, s: Saved, exp: Exp, g: Grads, u: nat)
    requires x.Valid() && SavedShaped(x, s) && Shaped(x, g) && Positive(exp)
    requires 1 <= x.T && x.NoBlankLabels() && u <= x.U
    ensures Run(x, s, exp, g).dLp[x.T - 1][u][x.blank] == g.dLp[x.T - 1][u][x.blank]
  {
    PassFrame(x, s, exp, g, x.T - 1, x.U, true);
    assert !LpTarget(x, x.T - 1, u, x.blank);
  }

  /** Corrected, the blank score of the last time step at position u receives
      d_log_p[u] / T: the partial derivative of marginal u with respect to that
      score (Lattice.MarginalTopBlankSensitivity), the only output that reads
      it. */
  lemma CorrectedCreditsTopBlank(x: Item, s: Saved, exp: Exp, g: Grads, u: nat)
    requires x.Valid() && SavedShaped(x, s) && Shaped(x, g) && Positive(exp)
    requires 1 <= x.T && x.NoBlankLabels() && u <= x.U
    ensures CorrectedRun(x, s, exp, g).dLp[x.T - 1][u][x.blank]
         == g.dLp[x.T - 1][u][x.blank] + s.dLogP[u] / (x.T as real)
  {
    var h := SeedTop(x, s, g, x.U + 1);
    SeedTopAdds(x, s, g, x.U + 1);
    PassFrame(x, s, exp, h, x.T - 1, x.U, false);
    assert !LpTarget(x, x.T - 1, u, x.blank);
    RowZeroFrame(x, Pass(x, s, exp, h, x.T - 1, x.U, false), x.U, x.T - 1, u, x.blank);
  }

  // ---------------------------------------------------------------------------
  // The kernel over arrays

  /** The arrays hold the accumulators g. */
  ghost predicate Mirrors(x: Item, dAlpha: array2<real>, dLp: array3<real>, g: Grads)
    reads dAlpha, dLp
  {
    && Shaped(x, g)
    && dAlpha.Length0 == |x.lp| && dAlpha.Length1 == x.maxU
    && dLp.Length0 == |x.lp| && dLp.Length1 == x.maxU && dLp.Length2 == x.A
    && (forall i, j :: 0 <= i < dAlpha.Length0 && 0 <= j < dAlpha.Length1 ==> dAlpha[i, j] == g.dAlpha[i][j])
    && (forall i, j, k :: 0 <= i < dLp.Length0 && 0 <= j < dLp.Length1 && 0 <= k < dLp.Length2 ==>
          dLp[i, j, k] == g.dLp[i][j][k])
  }

  /** The accumulators the arrays hold. */
  ghost function View(x: Item, dAlpha: array2<real>, dLp: array3<real>): (g: Grads)
    reads dAlpha, dLp
    requires dAlpha.Length0 == |x.lp| && dAlpha.Length1 == x.maxU
    requires dLp.Length0 == |x.lp| && dLp.Length1 == x.maxU && dLp.Length2 == x.A
    ensures Mirrors(x, dAlpha, dLp, g)
  {
    Grads(
      seq(dAlpha.Length0, i requires 0 <= i < dAlpha.Length0 reads dAlpha =>
        seq(dAlpha.Length1, j requires 0 <= j < dAlpha.Length1 reads dAlpha => dAlpha[i, j])),
      seq(dLp.Length0, i requires 0 <= i < dLp.Length0 reads dLp =>
        seq(dLp.Length1, j requires 0 <= j < dLp.Length1 reads dLp =>
          seq(dLp.Length2, k requires 0 <= k < dLp.Length2 reads dLp => dLp[i, j, k]))))
  }

  /** One Share, on the arrays. */
  method ShareCell(x: Item, dAlpha: array2<real>, dLp: array3<real>, ghost g: Grads, i: nat, j: nat, k: nat, v: real)
    requires i < |x.lp| && j < x.maxU && k < x.A && Mirrors(x, dAlpha, dLp, g)
    modifies dAlpha, dLp
    ensures Mirrors(x, dAlpha, dLp, Share(x, g, i, j, k, v))
  {
    ShareAdds(x, g, i, j, k, v);
    dAlpha[i, j] := dAlpha[i, j] + v;
    dLp[i, j, k] := dLp[i, j, k] + v;
  }

  /** The interior step at (t, u), on the arrays: the softmax weights of the
      two saved summands, shifted by their maximum, split d_alpha[t][u]. */
  method SplitCell(x: Item, s: Saved, exp: Exp, dAlpha: array2<real>, dLp: array3<real>, ghost g: Grads, t: nat, u: nat)
    requires x.Valid() && SavedShaped(x, s) && Positive(exp)
    requires 0 < t < x.T && 0 < u <= x.U && Mirrors(x, dAlpha, dLp, g)
    modifies dAlpha, dLp
    ensures Mirrors(x, dAlpha, dLp, SplitStep(x, s, exp, g, t, u))
  {
    var sh := Split(exp, s.emit[t][u], s.noEmit[t][u], dAlpha[t, u]);
    var dEmit, dNoEmit := sh.0, sh.1;
    ghost var h := Share(x, g, t, u - 1, x.labels[u - 1], dEmit);
    ShareCell(x, dAlpha, dLp, g, t, u - 1, x.labels[u - 1], dEmit);
    ShareCell(x, dAlpha, dLp, h, t - 1, u, x.blank, dNoEmit);
  }

  /** The step of worker u at time t, on the arrays. */
  method BackwardCell(x: Item, s: Saved, exp: Exp, dAlpha: array2<real>, dLp: array3<real>, ghost g: Grads, t: nat, u: nat, seedBelow: bool)
    requires x.Valid() && SavedShaped(x, s) && Positive(exp)
    requires 0 < t < x.T && u <= x.U && Mirrors(x, dAlpha, dLp, g)
    modifies dAlpha, dLp
    ensures Mirrors(x, dAlpha, dLp, Cell(x, s, exp, g, t, u, seedBelow))
  {
    if u == 0 {
      ShareCell(x, dAlpha, dLp, g, t - 1, 0, x.blank, dAlpha[t, 0]);
    } else if seedBelow && t == x.T - 1 {
      ShareCell(x, dAlpha, dLp, g, t - 1, u, x.blank, s.dLogP[u] / (x.T as real));
      SplitCell(x, s, exp, dAlpha, dLp, SeedBelowStep(x, s, g, u), t, u);
    } else {
      SplitCell(x, s, exp, dAlpha, dLp, g, t, u);
    }
  }

  /** Time step t for the workers U down to 0, on the arrays; h is what the
      arrays then hold, and the rest of the pass from h is the rest from g. */
  method BackwardRow(x: Item, s: Saved, exp: Exp, dAlpha: array2<real>, dLp: array3<real>, ghost g: Grads, t: nat, seedBelow: bool)
    returns (ghost h: Grads)
    requires x.Valid() && SavedShaped(x, s) && Positive(exp)
    requires 0 < t < x.T && Mirrors(x, dAlpha, dLp, g)
    modifies dAlpha, dLp
    ensures Mirrors(x, dAlpha, dLp, h)
    ensures Pass(x, s, exp, h, t - 1, x.U, seedBelow) == Pass(x, s, exp, g, t, x.U, seedBelow)
  {
    h := g;
    var u: int := x.U;
    while u >= 0
      invariant -1 <= u <= x.U
      invariant Mirrors(x, dAlpha, dLp, h)
      invariant Pass(x, s, exp, h, t, u, seedBelow) == Pass(x, s, exp, g, t, x.U, seedBelow)
    {
      h := BackwardStep(x, s, exp, dAlpha, dLp, h, t, u, seedBelow);
      u := u - 1;
    }
  }

  /** The step of worker u at time t on the arrays, handing the rest of the
      schedule on unchanged. */
  method BackwardStep(x: Item, s: Saved, exp: Exp, dAlpha: array2<real>, dLp: array3<real>, ghost g: Grads, t: nat, u: nat, seedBelow: bool)
    returns (ghost h: Grads)
    requires x.Valid() && SavedShaped(x, s) && Positive(exp)
    requires 0 < t < x.T && u <= x.U && Mirrors(x, dAlpha, dLp, g)
    modifies dAlpha, dLp
    ensures Mirrors(x, dAlpha, dLp, h)
    ensures Pass(x, s, exp, h, t, u - 1, seedBelow) == Pass(x, s, exp, g, t, u, seedBelow)
  {
    h := Cell(x, s, exp, g, t, u, seedBelow);
    assert Pass(x, s, exp, g, t, u, seedBelow) == Pass(x, s, exp, h, t, u - 1, seedBelow);
    BackwardCell(x, s, exp, dAlpha, dLp, g, t, u, seedBelow);
  }

  /** The schedule from time step T - 1 down to 1, on the arrays. */
  method BackwardPass(x: Item, s: Saved, exp: Exp, dAlpha: array2<real>, dLp: array3<real>, ghost g0: Grads, seedBelow: bool)
    requires x.Valid() && SavedShaped(x, s) && Positive(exp)
    requires Mirrors(x, dAlpha, dLp, g0)
    modifies dAlpha, dLp
    ensures Mirrors(x, dAlpha, dLp, Pass(x, s, exp, g0, x.T - 1, x.U, seedBelow))
  {
    ghost var g := g0;
    ghost var final := Pass(x, s, exp, g, x.T - 1, x.U, seedBelow);
    var t: int := x.T - 1;
    while t > 0
      invariant -1 <= t < x.T
      invariant Mirrors(x, dAlpha, dLp, g)
      invariant Pass(x, s, exp, g, t, x.U, seedBelow) == final
    {
      g := BackwardRow(x, s, exp, dAlpha, dLp, g, t, seedBelow);
      t := t - 1;
    }
    PassDone(x, s, exp, g, t, seedBelow);
  }

  /** Once the time steps are exhausted the schedule changes nothing. */
  lemma PassDone(x: Item, s: Saved, exp: Exp, g: Grads, t: int, seedBelow: bool)
    requires x.Valid() && SavedShaped(x, s) && Shaped(x, g) && Positive(exp) && t <= 0 && t < x.T
    ensures Pass(x, s, exp, g, t, x.U, seedBelow) == g
  {
  }

  /** The reverse kernel for one batch item (cu_kernel_forward_only_grad):
      the arrays end up holding Run of what they held. */
  method BackwardKernel(x: Item, s: Saved, exp: Exp, dAlpha: array2<real>, dLp: array3<real>, ghost g0: Grads)
    requires x.Valid() && SavedShaped(x, s) && Positive(exp)
    requires Mirrors(x, dAlpha, dLp, g0)
    modifies dAlpha, dLp
    ensures Mirrors(x, dAlpha, dLp, Run(x, s, exp, g0))
  {
    BackwardPass(x, s, exp, dAlpha, dLp, g0, true);
    assert Pass(x, s, exp, g0, x.T - 1, x.U, true) == Run(x, s, exp, g0);
  }

  /** The corrected seeding on the arrays: d_log_p[u] / T into (T - 1, u)
      for every u <= U. */
  method SeedTopCells(x: Item, s: Saved, dAlpha: array2<real>, dLp: array3<real>, ghost g0: Grads)
    requires x.Valid() && SavedShaped(x, s) && 1 <= x.T
    requires Mirrors(x, dAlpha, dLp, g0)
    modifies dAlpha, dLp
    ensures Mirrors(x, dAlpha, dLp, SeedTop(x, s, g0, x.U + 1))
  {
    ghost var h := g0;
    var u := 0;
    while u <= x.U
      invariant 0 <= u <= x.U + 1
      invariant h == SeedTop(x, s, g0, u)
      invariant Mirrors(x, dAlpha, dLp, h)
    {
      h := SeedTopCell(x, s, dAlpha, dLp, g0, h, u);
      u := u + 1;
    }
  }

  /** The corrected seeding of worker u, on the arrays. */
  method SeedTopCell(x: Item, s: Saved, dAlpha: array2<real>, dLp: array3<real>, ghost g0: Grads, ghost h: Grads, u: nat)
    returns (ghost h': Grads)
    requires x.Valid() && SavedShaped(x, s) && 1 <= x.T && u <= x.U && Shaped(x, g0)
    requires h == SeedTop(x, s, g0, u) && Mirrors(x, dAlpha, dLp, h)
    modifies dAlpha, dLp
    ensures h' == SeedTop(x, s, g0, u + 1) && Mirrors(x, dAlpha, dLp, h')
  {
    var v := s.dLogP[u] / (x.T as real);
    ShareCell(x, dAlpha, dLp, h, x.T - 1, u, x.blank, v);
    h' := Share(x, h, x.T - 1, u, x.blank, v);
  }

  /** The corrected reverse kernel: every worker u <= U first seeds
      (T - 1, u), then the schedule runs without the seeding at T - 2, then
      row 0 passes its gradient along to the label scores of time step 0. */
  method CorrectedBackwardKernel(x: Item, s: Saved, exp: Exp, dAlpha: array2<real>, dLp: array3<real>, ghost g0: Grads)
    requires x.Valid() && SavedShaped(x, s) && Positive(exp)
    requires Mirrors(x, dAlpha, dLp, g0)
    modifies dAlpha, dLp
    ensures Mirrors(x, dAlpha, dLp, CorrectedRun(x, s, exp, g0))
  {
    if x.T != 0 {
      SeedTopCells(x, s, dAlpha, dLp, g0);
      ghost var h := SeedTop(x, s, g0, x.U + 1);
      BackwardPass(x, s, exp, dAlpha, dLp, h, false);
      ghost var p := Pass(x, s, exp, h, x.T - 1, x.U, false);
      ghost var r := RowZeroCells(x, dAlpha, dLp, p);
      CorrectedRunUnfold(x, s, exp, g0);
    }
  }

  /** Row 0 on the arrays, workers U down to 1. */
  method RowZeroCells(x: Item, dAlpha: array2<real>, dLp: array3<real>, ghost g0: Grads)
    returns (ghost h: Grads)
    requires x.Valid() && 1 <= x.T && Mirrors(x, dAlpha, dLp, g0)
    modifies dAlpha, dLp
    ensures Mirrors(x, dAlpha, dLp, h)
    ensures h == RowZero(x, g0, x.U)
  {
    ghost var r := RowZero(x, g0, x.U);
    h := g0;
    var u := x.U;
    while u > 0
      invariant 0 <= u <= x.U
      invariant Mirrors(x, dAlpha, dLp, h)
      invariant RowZero(x, h, u) == r
    {
      h := RowZeroStep(x, dAlpha, dLp, h, u);
      u := u - 1;
    }
  }

  /** One step of row 0 on the arrays: label u - 1 at time step 0 takes
      d_alpha[0][u], and so does its predecessor cell. */
  method RowZeroStep(x: Item, dAlpha: array2<real>, dLp: array3<real>, ghost g: Grads, u: nat)
    returns (ghost h: Grads)
    requires x.Valid() && 1 <= x.T && 0 < u <= x.U && Mirrors(x, dAlpha, dLp, g)
    modifies dAlpha, dLp
    ensures Mirrors(x, dAlpha, dLp, h)
    ensures RowZero(x, h, u - 1) == RowZero(x, g, u)
  {
    assert dAlpha[0, u] == g.dAlpha[0][u];
    h := Share(x, g, 0, u - 1, x.labels[u - 1], g.dAlpha[0][u]);
    RowZeroUnfold(x, g, u);
    ShareCell(x, dAlpha, dLp, g, 0, u - 1, x.labels[u - 1], dAlpha[0, u]);
  }

  /** The reverse kernel on the arrays alone: they end up holding Run of what
      they held. */
  method Backward(x: Item, s: Saved, exp: Exp, dAlpha: array2<real>, dLp: array3<real>)
    requires x.Valid() && SavedShaped(x, s) && Positive(exp)
    requires dAlpha.Length0 == |x.lp| && dAlpha.Length1 == x.maxU
    requires dLp.Length0 == |x.lp| && dLp.Length1 == x.maxU && dLp.Length2 == x.A
    modifies dAlpha, dLp
    ensures Mirrors(x, dAlpha, dLp, Run(x, s, exp, old(View(x, dAlpha, dLp))))
  {
    BackwardKernel(x, s, exp, dAlpha, dLp, View(x, dAlpha, dLp));
  }
}
