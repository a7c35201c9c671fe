/** The forward kernels of one batch item, run sequentially.

    The CUDA kernels give worker u the column u of the lattice and let it
    advance in time once worker u - 1 has finished the same time step. Run
    one worker after another, column 0 first, the same dependency order holds:
    cell (t, u) is computed after (t - 1, u) and (t, u - 1). */
module Forward {
  import opened Lattice
  import opened Loss

  /** The padded lattice buffers: maxT x maxU. */
  ghost predicate LatticeShaped(x: Item, a: array2<real>) reads {} {
    a.Length0 == |x.lp| && a.Length1 == x.maxU
  }

  ghost predicate Zero2(a: array2<real>)
    reads a
  {
    forall i, j :: 0 <= i < a.Length0 && 0 <= j < a.Length1 ==> a[i, j] == 0.0
  }

  /** Cell (i, j) has been computed once worker u has finished time step
      s - 1 (workers before u have finished every time step). */
  ghost predicate Done(x: Item, i: int, j: int, u: int, s: int) {
    0 <= i < x.T && 0 <= j && (j < u || (j == u && i < s))
  }

  /** alpha holds its final value in every computed cell and its zero
      initialisation everywhere else. */
  ghost predicate AlphaUpTo(x: Item, add: LogAdd, alpha: array2<real>, u: int, s: int)
    reads alpha
    requires x.Valid() && LatticeShaped(x, alpha) && 0 <= u <= x.U + 1 && (s > 0 ==> u <= x.U)
  {
    forall i, j :: 0 <= i < alpha.Length0 && 0 <= j < alpha.Length1 ==>
      alpha[i, j] == (if Done(x, i, j, u, s) then Alpha(x, add, i, j) else 0.0)
  }

  /** The branch buffers hold the summands of every computed interior cell
      and zero everywhere else (row 0 and column 0 never store them). */
  ghost predicate BranchesUpTo(x: Item, add: LogAdd, emit: array2<real>, noEmit: array2<real>, u: int, s: int)
    reads emit, noEmit
    requires x.Valid() && LatticeShaped(x, emit) && LatticeShaped(x, noEmit)
    requires 0 <= u <= x.U + 1 && (s > 0 ==> u <= x.U)
  {
    && (forall i, j :: 0 <= i < emit.Length0 && 0 <= j < emit.Length1 ==>
          emit[i, j] == (if 0 < i && 0 < j && Done(x, i, j, u, s) then Emit(x, add, i, j) else 0.0))
    && (forall i, j :: 0 <= i < noEmit.Length0 && 0 <= j < noEmit.Length1 ==>
          noEmit[i, j] == (if 0 < i && 0 < j && Done(x, i, j, u, s) then NoEmit(x, add, i, j) else 0.0))
  }

  /** The lattice fill of the scalar kernel (cu_kernel_forward): alpha only. */
  method FillAlpha(x: Item, add: LogAdd, alpha: array2<real>)
    requires x.Valid() && LatticeShaped(x, alpha) && Zero2(alpha)
    modifies alpha
    ensures AlphaUpTo(x, add, alpha, x.U + 1, 0)
  {
    var u := 0;
    while u <= x.U
      invariant 0 <= u <= x.U + 1
      invariant AlphaUpTo(x, add, alpha, u, 0)
    {
      var t := 0;
      while t < x.T
        invariant 0 <= t <= x.T
        invariant AlphaUpTo(x, add, alpha, u, t)
      {
        if u == 0 {
          if t > 0 {
            alpha[t, 0] := alpha[t - 1, 0] + x.Blank(t - 1, 0);
          }
        } else if t == 0 {
          alpha[0, u] := alpha[0, u - 1] + x.Label(0, u - 1);
        } else {
          var emit := alpha[t, u - 1] + x.Label(t, u - 1);
          var noEmit := alpha[t - 1, u] + x.Blank(t - 1, u);
          alpha[t, u] := add(noEmit, emit);
        }
        t := t + 1;
      }
      u := u + 1;
    }
  }

  /** The vector of marginals, one per label position u <= U. */
  function Marginals(x: Item, add: LogAdd): (m: seq<real>)
    requires x.Valid() && 1 <= x.T
    ensures |m| == x.U + 1
    ensures forall u :: 0 <= u <= x.U ==> m[u] == Marginal(x, add, u)
  {
    seq(x.U + 1, u requires 0 <= u <= x.U => Marginal(x, add, u))
  }

  /** The normalised terminal value read from a filled alpha is the marginal. */
  lemma TerminalIsMarginal(x: Item, add: LogAdd, alpha: array2<real>, k: nat)
    requires x.Valid() && LatticeShaped(x, alpha) && 1 <= x.T && k <= x.U
    requires AlphaUpTo(x, add, alpha, x.U + 1, 0)
    ensures (alpha[x.T - 1, k] + x.Blank(x.T - 1, k)) / (x.T as real) == Marginal(x, add, k)
  {
    assert Done(x, x.T - 1, k, x.U + 1, 0);
  }

  /** The normalised terminal value read off alpha at every u <= U is P[u]. */
  ghost predicate TerminalsAre(x: Item, alpha: array2<real>, P: seq<real>)
    reads alpha
    requires x.Valid() && LatticeShaped(x, alpha) && 1 <= x.T
  {
    && |P| == x.U + 1
    && forall k :: 0 <= k <= x.U ==> (alpha[x.T - 1, k] + x.Blank(x.T - 1, k)) / (x.T as real) == P[k]
  }

  /** A filled alpha buffer reads the marginals off its last time step. */
  lemma FilledTerminals(x: Item, add: LogAdd, alpha: array2<real>)
    requires x.Valid() && LatticeShaped(x, alpha) && 1 <= x.T
    requires AlphaUpTo(x, add, alpha, x.U + 1, 0)
    ensures TerminalsAre(x, alpha, Marginals(x, add))
  {
    forall k | 0 <= k <= x.U
      ensures (alpha[x.T - 1, k] + x.Blank(x.T - 1, k)) / (x.T as real) == Marginals(x, add)[k]
    {
      TerminalIsMarginal(x, add, alpha, k);
    }
  }

  /** The in-kernel all-pairs residual (worker U, after its time loop): for
      every 0 <= m < n <= U - 1 the squared residual between the references
      and the normalised terminal values P read from alpha, accumulated into a
      zero-initialised log_p. */
  method AllPairsResidual(x: Item, alpha: array2<real>, logR: seq<real>, ghost P: seq<real>) returns (logP: real)
    requires x.Valid() && LatticeShaped(x, alpha) && 1 <= x.T
    requires TerminalsAre(x, alpha, P)
    requires |logR| == x.maxU
    ensures logP == AllPairs(logR, P, x.U)
    ensures logP >= 0.0
  {
    logP := 0.0;
    var m := 0;
    while m < x.U - 1
      invariant 0 <= m <= (if x.U == 0 then 0 else x.U - 1)
      invariant logP == Outer(logR, P, m, x.U)
    {
      logP := PairsFrom(x, alpha, logR, P, m, logP);
      m := m + 1;
    }
  }

  /** The inner loop of the all-pairs residual for a fixed m: the squared
      residuals of the pairs (m, n), m < n <= U - 1, between the references and
      the terminal values P read from alpha, added to acc. */
  method PairsFrom(x: Item, alpha: array2<real>, logR: seq<real>, ghost P: seq<real>, m: nat, acc: real) returns (r: real)
    requires x.Valid() && LatticeShaped(x, alpha) && 1 <= x.T && m < x.U
    requires TerminalsAre(x, alpha, P)
    requires |logR| == x.maxU
    ensures r == acc + Inner(logR, P, m, x.U)
  {
    var T := x.T;
    r := acc;
    var n := m + 1;
    while n < x.U
      invariant m + 1 <= n <= x.U
      invariant r == acc + Inner(logR, P, m, n)
    {
      var pn := (alpha[T - 1, n] + x.Blank(T - 1, n)) / (T as real);
      var pm := (alpha[T - 1, m] + x.Blank(T - 1, m)) / (T as real);
      var sub := (logR[m] - logR[n]) + 2.0 * (pn - pm);
      assert sub == Residual(logR[m], logR[n], P[m], P[n]);
      r := r + Sq(sub);
      n := n + 1;
    }
  }

  /** The scalar kernel (cu_kernel_forward): the fill, then the all-pairs
      residual written into log_p (which stays 0 when fewer than two label
      positions exist). */
  method ForwardKernel(x: Item, add: LogAdd, alpha: array2<real>, logR: seq<real>) returns (logP: real)
    requires x.Valid() && LatticeShaped(x, alpha) && Zero2(alpha)
    requires 1 <= x.T || x.U <= 1
    requires |logR| == x.maxU
    modifies alpha
    ensures AlphaUpTo(x, add, alpha, x.U + 1, 0)
    ensures 1 <= x.T ==> logP == AllPairs(logR, Marginals(x, add), x.U)
    ensures x.U <= 1 ==> logP == 0.0
    ensures logP >= 0.0
  {
    FillAlpha(x, add, alpha);
    if 1 <= x.T {
      FilledTerminals(x, add, alpha);
      logP := AllPairsResidual(x, alpha, logR, Marginals(x, add));
    } else {
      logP := 0.0;
    }
  }

  /** The marginal kernel (cu_kernel_forward_only): the fill, storing both
      summands of every interior cell, and each worker's normalised terminal
      value log_p[u]. */
  method ForwardOnlyKernel(x: Item, add: LogAdd, alpha: array2<real>, emit: array2<real>, noEmit: array2<real>, logP: array<real>)
    requires x.Valid() && 1 <= x.T
    requires LatticeShaped(x, alpha) && LatticeShaped(x, emit) && LatticeShaped(x, noEmit)
    requires alpha != emit && alpha != noEmit && emit != noEmit
    requires Zero2(alpha) && Zero2(emit) && Zero2(noEmit)
    requires logP.Length == x.maxU && forall u :: 0 <= u < logP.Length ==> logP[u] == 0.0
    modifies alpha, emit, noEmit, logP
    ensures AlphaUpTo(x, add, alpha, x.U + 1, 0)
    ensures BranchesUpTo(x, add, emit, noEmit, x.U + 1, 0)
    ensures forall u :: 0 <= u < logP.Length ==> logP[u] == if u <= x.U then Marginal(x, add, u) else 0.0
    ensures forall u :: 0 <= u <= x.U ==> logP[u] == (alpha[x.T - 1, u] + x.Blank(x.T - 1, u)) / (x.T as real)
  {
    var u := 0;
    while u <= x.U
      invariant 0 <= u <= x.U + 1
      invariant AlphaUpTo(x, add, alpha, u, 0)
      invariant BranchesUpTo(x, add, emit, noEmit, u, 0)
      invariant forall v :: 0 <= v < logP.Length ==> logP[v] == if v < u then Marginal(x, add, v) else 0.0
    {
      ForwardOnlyWorker(x, add, alpha, emit, noEmit, logP, u);
      u := u + 1;
    }
    TerminalRow(x, add, alpha, logP);
  }

  /** A row holding the marginals holds the normalised terminal values of the
      filled alpha buffer. */
  lemma TerminalRow(x: Item, add: LogAdd, alpha: array2<real>, logP: array<real>)
    requires x.Valid() && LatticeShaped(x, alpha) && 1 <= x.T
    requires AlphaUpTo(x, add, alpha, x.U + 1, 0)
    requires logP.Length == x.maxU && forall u :: 0 <= u <= x.U ==> logP[u] == Marginal(x, add, u)
    ensures forall u :: 0 <= u <= x.U ==> logP[u] == (alpha[x.T - 1, u] + x.Blank(x.T - 1, u)) / (x.T as real)
  {
    forall v | 0 <= v <= x.U
      ensures logP[v] == (alpha[x.T - 1, v] + x.Blank(x.T - 1, v)) / (x.T as real)
    {
      TerminalIsMarginal(x, add, alpha, v);
    }
  }

  /** Worker u of the marginal kernel: its whole time loop, then its write
      of the normalised terminal value. */
  method ForwardOnlyWorker(x: Item, add: LogAdd, alpha: array2<real>, emit: array2<real>, noEmit: array2<real>, logP: array<real>, u: nat)
    requires x.Valid() && 1 <= x.T && u <= x.U
    requires LatticeShaped(x, alpha) && LatticeShaped(x, emit) && LatticeShaped(x, noEmit)
    requires alpha != emit && alpha != noEmit && emit != noEmit
    requires AlphaUpTo(x, add, alpha, u, 0) && BranchesUpTo(x, add, emit, noEmit, u, 0)
    requires logP.Length == x.maxU
    requires forall v :: 0 <= v < logP.Length ==> logP[v] == if v < u then Marginal(x, add, v) else 0.0
    modifies alpha, emit, noEmit, logP
    ensures AlphaUpTo(x, add, alpha, u + 1, 0) && BranchesUpTo(x, add, emit, noEmit, u + 1, 0)
    ensures forall v :: 0 <= v < logP.Length ==> logP[v] == if v < u + 1 then Marginal(x, add, v) else 0.0
  {
    var t := 0;
    while t < x.T
      invariant 0 <= t <= x.T
      invariant AlphaUpTo(x, add, alpha, u, t)
      invariant BranchesUpTo(x, add, emit, noEmit, u, t)
      invariant forall v :: 0 <= v < logP.Length ==> logP[v] == if v < u then Marginal(x, add, v) else 0.0
    {
      ForwardOnlyCell(x, add, alpha, emit, noEmit, u, t);
      t := t + 1;
    }
    assert Done(x, x.T - 1, u, u, x.T);
    assert alpha[x.T - 1, u] == Alpha(x, add, x.T - 1, u);
    logP[u] := (alpha[x.T - 1, u] + x.Blank(x.T - 1, u)) / (x.T as real);
    assert AlphaUpTo(x, add, alpha, u, x.T);
  }

  /** One time step of worker u in the marginal kernel. */
  method ForwardOnlyCell(x: Item, add: LogAdd, alpha: array2<real>, emit: array2<real>, noEmit: array2<real>, u: nat, t: nat)
    requires x.Valid() && u <= x.U && t < x.T
    requires LatticeShaped(x, alpha) && LatticeShaped(x, emit) && LatticeShaped(x, noEmit)
    requires alpha != emit && alpha != noEmit && emit != noEmit
    requires AlphaUpTo(x, add, alpha, u, t) && BranchesUpTo(x, add, emit, noEmit, u, t)
    modifies alpha, emit, noEmit
    ensures AlphaUpTo(x, add, alpha, u, t + 1) && BranchesUpTo(x, add, emit, noEmit, u, t + 1)
  {
    if u == 0 {
      if t > 0 {
        alpha[t, 0] := alpha[t - 1, 0] + x.Blank(t - 1, 0);
      }
    } else if t == 0 {
      alpha[0, u] := alpha[0, u - 1] + x.Label(0, u - 1);
    } else {
      assert Done(x, t, u - 1, u, t) && Done(x, t - 1, u, u, t);
      var e := alpha[t, u - 1] + x.Label(t, u - 1);
      var n := alpha[t - 1, u] + x.Blank(t - 1, u);
      assert e == Emit(x, add, t, u) && n == NoEmit(x, add, t, u);
      emit[t, u] := e;
      noEmit[t, u] := n;
      alpha[t, u] := add(noEmit[t, u], emit[t, u]);
      assert alpha[t, u] == Alpha(x, add, t, u);
    }
  }

  /** A filled lattice satisfies the recurrence cell by cell. */
  lemma FilledRecurrence(x: Item, add: LogAdd, alpha: array2<real>, emit: array2<real>, noEmit: array2<real>)
    requires x.Valid() && 1 <= x.T
    requires LatticeShaped(x, alpha) && LatticeShaped(x, emit) && LatticeShaped(x, noEmit)
    requires AlphaUpTo(x, add, alpha, x.U + 1, 0) && BranchesUpTo(x, add, emit, noEmit, x.U + 1, 0)
    ensures alpha[0, 0] == 0.0
    ensures forall t :: 0 < t < x.T ==> alpha[t, 0] == alpha[t - 1, 0] + x.Blank(t - 1, 0)
    ensures forall u :: 0 < u <= x.U ==> alpha[0, u] == alpha[0, u - 1] + x.Label(0, u - 1)
    ensures forall t, u :: 0 < t < x.T && 0 < u <= x.U ==>
      && emit[t, u] == alpha[t, u - 1] + x.Label(t, u - 1)
      && noEmit[t, u] == alpha[t - 1, u] + x.Blank(t - 1, u)
      && alpha[t, u] == add(noEmit[t, u], emit[t, u])
  {
    assert Done(x, 0, 0, x.U + 1, 0);
    forall t | 0 < t < x.T
      ensures alpha[t, 0] == alpha[t - 1, 0] + x.Blank(t - 1, 0)
    {
      assert Done(x, t, 0, x.U + 1, 0) && Done(x, t - 1, 0, x.U + 1, 0);
    }
    forall u | 0 < u <= x.U
      ensures alpha[0, u] == alpha[0, u - 1] + x.Label(0, u - 1)
    {
      assert Done(x, 0, u, x.U + 1, 0) && Done(x, 0, u - 1, x.U + 1, 0);
    }
    forall t, u | 0 < t < x.T && 0 < u <= x.U
      ensures && emit[t, u] == alpha[t, u - 1] + x.Label(t, u - 1)
              && noEmit[t, u] == alpha[t - 1, u] + x.Blank(t - 1, u)
              && alpha[t, u] == add(noEmit[t, u], emit[t, u])
    {
      assert Done(x, t, u, x.U + 1, 0) && Done(x, t, u - 1, x.U + 1, 0) && Done(x, t - 1, u, x.U + 1, 0);
    }
  }
}
