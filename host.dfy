/** The host side: the autograd entry points that allocate zeroed buffers per
    batch item, launch the kernels and assemble the loss. Batch items never
    share lattice state, so each one runs the kernels on buffers of its own. */
module Host {
  import opened Lattice
  import opened Loss
  import opened Forward
  import opened Reverse

  /** The value the scalar kernel leaves in log_p[b]: the all-pairs residual
      of the marginals, and 0 when the lattice has no time step (then no
      pair exists either). */
  function ItemResidual(x: Item, add: LogAdd, logR: seq<real>): (v: real)
    requires x.Valid() && (1 <= x.T || x.U <= 1) && |logR| == x.maxU
    ensures v >= 0.0
    ensures x.U <= 1 ==> v == 0.0
  {
    if 1 <= x.T then AllPairs(logR, Marginals(x, add), x.U) else 0.0
  }

  predicate BatchShaped(xs: seq<Item>, logR: seq<seq<real>>) {
    && |logR| == |xs|
    && forall b :: 0 <= b < |xs| ==> xs[b].Valid() && (1 <= xs[b].T || xs[b].U <= 1) && |logR[b]| == xs[b].maxU
  }

  function Residuals(xs: seq<Item>, add: LogAdd, logR: seq<seq<real>>): (v: seq<real>)
    requires BatchShaped(xs, logR)
    ensures |v| == |xs| && forall b :: 0 <= b < |xs| ==> v[b] == ItemResidual(xs[b], add, logR[b])
  {
    seq(|xs|, b requires 0 <= b < |xs| => ItemResidual(xs[b], add, logR[b]))
  }

  /** Transducer.forward without its gradient kernel: zeroed alpha and log_p,
      the scalar kernel for every item, then the reduction switch. Every
      scalar it returns is non-negative. */
  method TransducerForward(xs: seq<Item>, add: LogAdd, logR: seq<seq<real>>, mode: string) returns (r: Result<Reduced>)
    requires BatchShaped(xs, logR)
    ensures r == Reduce(mode, Residuals(xs, add, logR))
    ensures r.Ok? && r.value.Scalar? ==> r.value.value >= 0.0
  {
    var logPAlpha := new real[|xs|](_ => 0.0);
    for b := 0 to |xs|
      invariant forall i :: 0 <= i < b ==> logPAlpha[i] == ItemResidual(xs[i], add, logR[i])
      invariant forall i :: b <= i < |xs| ==> logPAlpha[i] == 0.0
    {
      var v := ResidualItem(xs[b], add, logR[b]);
      logPAlpha[b] := logPAlpha[b] + v;
    }
    assert logPAlpha[..] == Residuals(xs, add, logR);
    r := Reduce(mode, logPAlpha[..]);
    ReduceNonNegative(mode, logPAlpha[..]);
  }

  /** One item of Transducer.forward: a zeroed alpha buffer, then the scalar
      kernel. */
  method ResidualItem(x: Item, add: LogAdd, logR: seq<real>) returns (v: real)
    requires x.Valid() && (1 <= x.T || x.U <= 1) && |logR| == x.maxU
    ensures v == ItemResidual(x, add, logR)
  {
    var alpha := new real[|x.lp|, x.maxU]((_, _) => 0.0);
    v := ForwardKernel(x, add, alpha, logR);
  }

  /** The log_p row of one item: the marginals for u <= U and the zero
      initialisation beyond. */
  function MarginalRow(x: Item, add: LogAdd): (row: seq<real>)
    requires x.Valid() && 1 <= x.T
    ensures |row| == x.maxU
    ensures forall u :: 0 <= u <= x.U ==> row[u] == Marginal(x, add, u)
    ensures forall u :: x.U < u < x.maxU ==> row[u] == 0.0
  {
    seq(x.maxU, u requires 0 <= u < x.maxU => if u <= x.U then Marginal(x, add, u) else 0.0)
  }

  predicate MarginalBatch(xs: seq<Item>) {
    forall b :: 0 <= b < |xs| ==> xs[b].Valid() && 1 <= xs[b].T
  }

  function MarginalRows(xs: seq<Item>, add: LogAdd): (rows: seq<seq<real>>)
    requires MarginalBatch(xs)
    ensures |rows| == |xs| && forall b :: 0 <= b < |xs| ==> rows[b] == MarginalRow(xs[b], add)
  {
    seq(|xs|, b requires 0 <= b < |xs| => MarginalRow(xs[b], add))
  }

  /** One item of ComputeMarginalProb.forward: zeroed alpha, emit, no_emit
      and log_p buffers, then the marginal kernel. */
  method MarginalItem(x: Item, add: LogAdd) returns (row: seq<real>)
    requires x.Valid() && 1 <= x.T
    ensures row == MarginalRow(x, add)
  {
    var alpha := new real[|x.lp|, x.maxU]((_, _) => 0.0);
    var emit := new real[|x.lp|, x.maxU]((_, _) => 0.0);
    var noEmit := new real[|x.lp|, x.maxU]((_, _) => 0.0);
    var logP := new real[x.maxU](_ => 0.0);
    ForwardOnlyKernel(x, add, alpha, emit, noEmit, logP);
    row := logP[..];
  }

  /** ComputeMarginalProb.forward: zeroed alpha, emit, no_emit and log_p per
      item, then the marginal kernel; the result holds each item's log_p row. */
  method MarginalForward(xs: seq<Item>, add: LogAdd) returns (logP: seq<seq<real>>)
    requires MarginalBatch(xs)
    ensures logP == MarginalRows(xs, add)
  {
    logP := [];
    for b := 0 to |xs|
      invariant logP == MarginalRows(xs[..b], add)
    {
      var row := MarginalItem(xs[b], add);
      assert xs[..b + 1] == xs[..b] + [xs[b]];
      logP := logP + [row];
    }
    assert xs[..|xs|] == xs;
  }

  /** gfn_loss: the marginals, then the batch mean of the squared endpoint
      residual between position 0 and position width - 1 of log_r. */
  method GfnLoss(xs: seq<Item>, add: LogAdd, logR: seq<seq<real>>, width: nat) returns (loss: Reduced)
    requires MarginalBatch(xs) && |logR| == |xs| && 1 <= width
    requires forall b :: 0 <= b < |xs| ==> |logR[b]| == width && width <= xs[b].maxU
    ensures loss == Mean(EndpointTerms(logR, MarginalRows(xs, add), width))
    ensures loss.Scalar? <==> |xs| > 0
    ensures loss.Scalar? ==> loss.value >= 0.0
  {
    var logP := MarginalForward(xs, add);
    loss := EndpointLoss(logR, logP, width);
  }

  /** The endpoint term of an item whose label count reaches width - 1 reads
      the marginals at 0 and width - 1 and is one of the all-pairs terms of the
      scalar loss over one more position. */
  lemma EndpointIsPairTerm(xs: seq<Item>, add: LogAdd, logR: seq<seq<real>>, width: nat, b: nat)
    requires MarginalBatch(xs) && |logR| == |xs| && 2 <= width
    requires forall i :: 0 <= i < |xs| ==> |logR[i]| == width && width <= xs[i].maxU
    requires b < |xs| && width - 1 <= xs[b].U
    ensures EndpointTerms(logR, MarginalRows(xs, add), width)[b]
         == Sq(Residual(logR[b][0], logR[b][width - 1], Marginal(xs[b], add, 0), Marginal(xs[b], add, width - 1)))
    ensures EndpointTerms(logR, MarginalRows(xs, add), width)[b] <= AllPairs(logR[b], MarginalRow(xs[b], add), width)
  {
    AllPairsHasPair(logR[b], MarginalRow(xs[b], add), 0, width - 1, width);
  }

  /** The last reference position is shared by the whole batch: an item with
      fewer labels reads the zero padding of its log_p row there, not one of
      its marginals. */
  lemma EndpointReadsPadding(xs: seq<Item>, add: LogAdd, logR: seq<seq<real>>, width: nat, b: nat)
    requires MarginalBatch(xs) && |logR| == |xs| && 1 <= width
    requires forall i :: 0 <= i < |xs| ==> |logR[i]| == width && width <= xs[i].maxU
    requires b < |xs| && xs[b].U < width - 1
    ensures EndpointTerms(logR, MarginalRows(xs, add), width)[b]
         == Sq(Residual(logR[b][0], logR[b][width - 1], Marginal(xs[b], add, 0), 0.0))
  {
  }

  /** Zeroed gradient accumulators, as ComputeMarginalProb.forward allocates them. */
  function Zeros(x: Item): (g: Grads)
    ensures Shaped(x, g)
    ensures forall i, j :: 0 <= i < |x.lp| && 0 <= j < x.maxU ==> g.dAlpha[i][j] == 0.0
    ensures forall i, j, k :: 0 <= i < |x.lp| && 0 <= j < x.maxU && 0 <= k < x.A ==> g.dLp[i][j][k] == 0.0
  {
    Grads(seq(|x.lp|, _ => seq(x.maxU, _ => 0.0)), seq(|x.lp|, _ => seq(x.maxU, _ => seq(x.A, _ => 0.0))))
  }

  /** The saved emit and no_emit buffers are the ones the marginal kernel
      filled: every interior lattice cell holds its two summands (the only
      entries the reverse kernel reads). */
  ghost predicate SavedFromForward(x: Item, add: LogAdd, s: Saved)
    requires x.Valid() && SavedShaped(x, s)
  {
    forall t, u :: 0 < t < x.T && 0 < u <= x.U ==>
      s.emit[t][u] == Emit(x, add, t, u) && s.noEmit[t][u] == NoEmit(x, add, t, u)
  }

  /** ComputeMarginalProb.backward for one item: zeroed d_alpha and
      d_log_probs, then the reverse kernel on the buffers the forward saved. */
  method MarginalBackward(x: Item, ghost add: LogAdd, s: Saved, exp: Exp) returns (dAlpha: array2<real>, dLp: array3<real>)
    requires x.Valid() && SavedShaped(x, s) && Positive(exp) && SavedFromForward(x, add, s)
    ensures fresh(dAlpha) && fresh(dLp)
    ensures Mirrors(x, dAlpha, dLp, Run(x, s, exp, Zeros(x)))
  {
    dAlpha := new real[|x.lp|, x.maxU]((_, _) => 0.0);
    dLp := new real[|x.lp|, x.maxU, x.A]((_, _, _) => 0.0);
    BackwardKernel(x, s, exp, dAlpha, dLp, Zeros(x));
  }

  /** The same with the corrected reverse kernel. */
  method CorrectedMarginalBackward(x: Item, ghost add: LogAdd, s: Saved, exp: Exp) returns (dAlpha: array2<real>, dLp: array3<real>)
    requires x.Valid() && SavedShaped(x, s) && Positive(exp) && SavedFromForward(x, add, s)
    ensures fresh(dAlpha) && fresh(dLp)
    ensures Mirrors(x, dAlpha, dLp, CorrectedRun(x, s, exp, Zeros(x)))
  {
    dAlpha := new real[|x.lp|, x.maxU]((_, _) => 0.0);
    dLp := new real[|x.lp|, x.maxU, x.A]((_, _, _) => 0.0);
    CorrectedBackwardKernel(x, s, exp, dAlpha, dLp, Zeros(x));
  }

  /** What the backward returns for the final blank scores: nothing, although
      each is read by exactly one marginal with weight 1 / T. */
  lemma BackwardTopBlankIsZero(x: Item, s: Saved, exp: Exp, u: nat)
    requires x.Valid() && SavedShaped(x, s) && Positive(exp)
    requires 1 <= x.T && x.NoBlankLabels() && u <= x.U
    ensures Run(x, s, exp, Zeros(x)).dLp[x.T - 1][u][x.blank] == 0.0
    ensures CorrectedRun(x, s, exp, Zeros(x)).dLp[x.T - 1][u][x.blank] == s.dLogP[u] / (x.T as real)
  {
    AsWrittenMissesTopBlank(x, s, exp, Zeros(x), u);
    CorrectedCreditsTopBlank(x, s, exp, Zeros(x), u);
  }

  /** Without labels the backward as written returns an all-zero gradient:
      its only worker, worker 0, never seeds. Corrected, every blank score of
      column 0 receives d_log_p[0] / T, which is what marginal 0 reads from
      each of them. */
  lemma BackwardColumnZeroBlank(x: Item, s: Saved, exp: Exp, t: nat)
    requires x.Valid() && SavedShaped(x, s) && Positive(exp)
    requires x.U == 0 && t < x.T
    ensures forall i, j, k :: 0 <= i < |x.lp| && 0 <= j < x.maxU && 0 <= k < x.A ==>
      Run(x, s, exp, Zeros(x)).dLp[i][j][k] == 0.0
    ensures CorrectedRun(x, s, exp, Zeros(x)).dLp[t][0][x.blank] == s.dLogP[0] / (x.T as real)
  {
    var z := Zeros(x);
    RunWithoutLabels(x, s, exp, z);
    var h := SeedTop(x, s, z, 1);
    SeedTopAdds(x, s, z, 1);
    ColumnChain(x, s, exp, h, x.T - 1, s.dLogP[0] / (x.T as real), false);
    assert CorrectedRun(x, s, exp, z) == Pass(x, s, exp, h, x.T - 1, 0, false);
  }

  /** With a single time step the backward as written returns 0 for every
      label score; corrected, the score at (0, j) receives the upstream
      gradient of every marginal u > j, which each reads with weight 1. */
  lemma BackwardRowZeroLabels(x: Item, s: Saved, exp: Exp, j: nat)
    requires x.Valid() && SavedShaped(x, s) && Positive(exp)
    requires x.T == 1 && x.NoBlankLabels() && j < x.U
    ensures Run(x, s, exp, Zeros(x)).dLp[0][j][x.labels[j]] == 0.0
    ensures CorrectedRun(x, s, exp, Zeros(x)).dLp[0][j][x.labels[j]] == Tail(s.dLogP, j + 1, x.U + 1)
  {
    var z := Zeros(x);
    RunKeepsCornerAndFirstLabels(x, s, exp, z, j, x.labels[j]);
    var h := SeedTop(x, s, z, x.U + 1);
    SeedTopAdds(x, s, z, x.U + 1);
    assert Pass(x, s, exp, h, 0, x.U, false) == h;
    CorrectedCreditsRowZeroLabels(x, s, exp, z, j);
    assert h.dLp[0][j][x.labels[j]] == 0.0;
    TailSame(h.dAlpha[0], s.dLogP, j + 1, x.U + 1);
  }
}
