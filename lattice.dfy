/** The transducer lattice of one batch item and its forward scores.

    A batch item carries emission log-probabilities lp[t][u][k] over a padded
    maxT x maxU grid and an alphabet of A symbols, the zero-padded label ids,
    the blank id and the valid lengths T (time steps) and U (labels). The
    lattice has the cells (t, u) with t < T and u <= U. The forward score
    alpha[t][u] is defined by the transducer recursion; the log-sum-exp of the
    interior cells is an abstract binary function `add`. */
module Lattice {

  /** The log-sum-exp of two log-domain scores, left abstract. */
  type LogAdd = (real, real) -> real

  datatype Item = Item(lp: seq<seq<seq<real>>>, labels: seq<nat>, blank: nat, T: nat, U: nat, maxU: nat, A: nat)
  {
    /** The tensor shapes the kernels index into: lp is maxT x maxU x A with
        maxT = |lp|, the labels are padded to maxU - 1 entries, and every id is
        a symbol of the alphabet. */
    predicate Valid() {
      && T <= |lp|
      && U < maxU
      && |labels| == maxU - 1
      && blank < A
      && (forall t :: 0 <= t < |lp| ==> |lp[t]| == maxU)
      && (forall t, u :: 0 <= t < |lp| && 0 <= u < maxU ==> |lp[t][u]| == A)
      && (forall i :: 0 <= i < |labels| ==> labels[i] < A)
    }

    /** log P(blank | t, u) */
    function Blank(t: nat, u: nat): real
      requires Valid() && t < |lp| && u < maxU
    {
      lp[t][u][blank]
    }

    /** log P(labels[u] | t, u): the score of emitting the next label at (t, u) */
    function Label(t: nat, u: nat): real
      requires Valid() && t < |lp| && u < U
    {
      lp[t][u][labels[u]]
    }

    /** The targets hold no blank (the documented input convention). */
    predicate NoBlankLabels()
      requires Valid()
    {
      forall i :: 0 <= i < U ==> labels[i] != blank
    }
  }

  /** The forward score of cell (t, u). Cell (0, 0) is the log-domain one,
      column 0 only advances in time, row 0 only emits, and an interior cell
      combines its no-emit and emit summands. */
  function Alpha(x: Item, add: LogAdd, t: nat, u: nat): real
    requires x.Valid() && t < x.T && u <= x.U
    decreases t + u, 1
  {
    if t == 0 && u == 0 then 0.0
    else if u == 0 then Alpha(x, add, t - 1, 0) + x.Blank(t - 1, 0)
    else if t == 0 then Alpha(x, add, 0, u - 1) + x.Label(0, u - 1)
    else add(NoEmit(x, add, t, u), Emit(x, add, t, u))
  }

  /** The emit summand of an interior cell: reach (t, u - 1), then emit label u - 1. */
  function Emit(x: Item, add: LogAdd, t: nat, u: nat): real
    requires x.Valid() && 0 < t < x.T && 0 < u <= x.U
    decreases t + u, 0
  {
    Alpha(x, add, t, u - 1) + x.Label(t, u - 1)
  }

  /** The no-emit summand of an interior cell: reach (t - 1, u), then emit blank. */
  function NoEmit(x: Item, add: LogAdd, t: nat, u: nat): real
    requires x.Valid() && 0 < t < x.T && 0 < u <= x.U
    decreases t + u, 0
  {
    Alpha(x, add, t - 1, u) + x.Blank(t - 1, u)
  }

  /** The time-normalised terminal value of column u. */
  function Marginal(x: Item, add: LogAdd, u: nat): real
    requires x.Valid() && 1 <= x.T && u <= x.U
  {
    (Alpha(x, add, x.T - 1, u) + x.Blank(x.T - 1, u)) / (x.T as real)
  }

  // ---------------------------------------------------------------------------
  // Alignment paths: the independent reading of alpha

  /** One move of an alignment: a blank advances time, a label move emits. */
  datatype Move = BlankMove | LabelMove

  /** The number of blank moves of a path: the time it reaches. */
  function Ticks(p: seq<Move>): nat
  {
    if p == [] then 0 else Ticks(p[..|p| - 1]) + (if p[|p| - 1] == BlankMove then 1 else 0)
  }

  /** The number of label moves of a path: the label position it reaches. */
  function Outs(p: seq<Move>): nat
  {
    if p == [] then 0 else Outs(p[..|p| - 1]) + (if p[|p| - 1] == LabelMove then 1 else 0)
  }

  /** A path from (0, 0) that ends at a cell of the lattice (moves are
      monotone, so then every cell it visits is in the lattice). */
  predicate Inside(x: Item, p: seq<Move>) {
    Ticks(p) < x.T && Outs(p) <= x.U
  }

  /** The log-probability of a path: the sum of the scores of its moves, each
      scored at the cell it leaves. */
  function Score(x: Item, p: seq<Move>): real
    requires x.Valid() && Inside(x, p)
  {
    if p == [] then 0.0
    else
      var q := p[..|p| - 1];
      if p[|p| - 1] == BlankMove then Score(x, q) + x.Blank(Ticks(q), Outs(q))
      else Score(x, q) + x.Label(Ticks(q), Outs(q))
  }

  /** `add` is at least each of its arguments; log-sum-exp is. */
  ghost predicate Dominates(add: LogAdd) {
    forall a, b :: add(a, b) >= a && add(a, b) >= b
  }

  /** `add` is the maximum (the Viterbi instance of the recursion). */
  ghost predicate IsMax(add: LogAdd) {
    forall a, b :: add(a, b) == if a >= b then a else b
  }

  /** Under any dominating `add`, no single alignment path scores more than
      the forward score of the cell it ends in. */
  lemma {:induction false} PathBelowAlpha(x: Item, add: LogAdd, p: seq<Move>)
    requires x.Valid() && Inside(x, p) && Dominates(add)
    ensures Score(x, p) <= Alpha(x, add, Ticks(p), Outs(p))
  {
    if p != [] {
      var q := p[..|p| - 1];
      PathBelowAlpha(x, add, q);
      var t, u := Ticks(p), Outs(p);
      if p[|p| - 1] == BlankMove {
        assert Ticks(q) == t - 1 && Outs(q) == u;
        if u > 0 {
          assert Alpha(x, add, t, u) >= NoEmit(x, add, t, u);
        }
      } else {
        assert Ticks(q) == t && Outs(q) == u - 1;
        if t > 0 {
          assert Alpha(x, add, t, u) >= Emit(x, add, t, u);
        }
      }
    }
  }

  lemma AppendCounts(p: seq<Move>, m: Move)
    ensures (p + [m])[..|p + [m]| - 1] == p
    ensures Ticks(p + [m]) == Ticks(p) + (if m == BlankMove then 1 else 0)
    ensures Outs(p + [m]) == Outs(p) + (if m == LabelMove then 1 else 0)
  {
    assert (p + [m])[..|p + [m]| - 1] == p;
  }

  /** Extending a path by one move adds that move's score at the cell the
      path ends in. */
  lemma ScoreAppend(x: Item, q: seq<Move>, m: Move)
    requires x.Valid() && Inside(x, q)
    requires m == BlankMove ==> Ticks(q) + 1 < x.T
    requires m == LabelMove ==> Outs(q) + 1 <= x.U
    ensures Ticks(q + [m]) == Ticks(q) + (if m == BlankMove then 1 else 0)
    ensures Outs(q + [m]) == Outs(q) + (if m == LabelMove then 1 else 0)
    ensures Inside(x, q + [m])
    ensures Score(x, q + [m]) == Score(x, q)
      + (if m == BlankMove then x.Blank(Ticks(q), Outs(q)) else x.Label(Ticks(q), Outs(q)))
  {
    AppendCounts(q, m);
  }

  /** Under the maximum, every cell's forward score is attained by an
      alignment path that ends in it (together with PathBelowAlpha: alpha is
      the best path score). */
  lemma {:induction false} BestPath(x: Item, add: LogAdd, t: nat, u: nat) returns (p: seq<Move>)
    requires x.Valid() && t < x.T && u <= x.U && IsMax(add)
    ensures Inside(x, p) && Ticks(p) == t && Outs(p) == u
    ensures Score(x, p) == Alpha(x, add, t, u)
    decreases t + u
  {
    if t == 0 && u == 0 {
      p := [];
    } else if u == 0 || (t > 0 && NoEmit(x, add, t, u) >= Emit(x, add, t, u)) {
      var q := BestPath(x, add, t - 1, u);
      ScoreAppend(x, q, BlankMove);
      p := q + [BlankMove];
      assert Alpha(x, add, t, u) == Alpha(x, add, t - 1, u) + x.Blank(t - 1, u) by {
        if u > 0 {
          assert Alpha(x, add, t, u) == add(NoEmit(x, add, t, u), Emit(x, add, t, u));
        }
      }
    } else {
      var q := BestPath(x, add, t, u - 1);
      ScoreAppend(x, q, LabelMove);
      p := q + [LabelMove];
      assert Alpha(x, add, t, u) == Alpha(x, add, t, u - 1) + x.Label(t, u - 1) by {
        if t > 0 {
          assert Alpha(x, add, t, u) == add(NoEmit(x, add, t, u), Emit(x, add, t, u));
        }
      }
    }
  }

  /** With two time steps and one label, the terminal cell combines exactly the
      two alignments: emit then blank, and blank then emit. */
  lemma TwoStepTerminal(x: Item, add: LogAdd)
    requires x.Valid() && x.T == 2 && x.U == 1
    ensures Inside(x, [LabelMove, BlankMove]) && Inside(x, [BlankMove, LabelMove])
    ensures Alpha(x, add, 1, 1) == add(Score(x, [LabelMove, BlankMove]), Score(x, [BlankMove, LabelMove]))
  {
    AppendCounts([], LabelMove);
    AppendCounts([], BlankMove);
    AppendCounts([LabelMove], BlankMove);
    AppendCounts([BlankMove], LabelMove);
    assert [LabelMove, BlankMove] == [LabelMove] + [BlankMove];
    assert [BlankMove, LabelMove] == [BlankMove] + [LabelMove];
    assert Score(x, [LabelMove]) == x.Label(0, 0);
    assert Score(x, [BlankMove]) == x.Blank(0, 0);
    assert Score(x, [LabelMove, BlankMove]) == NoEmit(x, add, 1, 1);
    assert Score(x, [BlankMove, LabelMove]) == Emit(x, add, 1, 1);
  }

  // ---------------------------------------------------------------------------
  // How the marginal depends on the final blank scores

  /** The item with delta added to log P(blank | T - 1, v). */
  function BumpTopBlank(x: Item, v: nat, delta: real): (y: Item)
    requires x.Valid() && 1 <= x.T && v <= x.U
    ensures y.Valid() && y.T == x.T && y.U == x.U && y.labels == x.labels && y.blank == x.blank
  {
    var row := x.lp[x.T - 1];
    x.(lp := x.lp[x.T - 1 := row[v := row[v][x.blank := row[v][x.blank] + delta]]])
  }

  /** No forward score reads a final-row blank score, provided the labels
      hold no blank. */
  lemma {:induction false} AlphaIgnoresTopBlank(x: Item, add: LogAdd, v: nat, delta: real, t: nat, u: nat)
    requires x.Valid() && 1 <= x.T && v <= x.U && x.NoBlankLabels()
    requires t < x.T && u <= x.U
    ensures Alpha(BumpTopBlank(x, v, delta), add, t, u) == Alpha(x, add, t, u)
    decreases t + u
  {
    var y := BumpTopBlank(x, v, delta);
    if t == 0 && u == 0 {
    } else if u == 0 {
      AlphaIgnoresTopBlank(x, add, v, delta, t - 1, 0);
      assert y.Blank(t - 1, 0) == x.Blank(t - 1, 0);
    } else if t == 0 {
      AlphaIgnoresTopBlank(x, add, v, delta, 0, u - 1);
      assert y.Label(0, u - 1) == x.Label(0, u - 1);
    } else {
      AlphaIgnoresTopBlank(x, add, v, delta, t - 1, u);
      AlphaIgnoresTopBlank(x, add, v, delta, t, u - 1);
      assert y.Blank(t - 1, u) == x.Blank(t - 1, u);
      assert y.Label(t, u - 1) == x.Label(t, u - 1);
      assert NoEmit(y, add, t, u) == NoEmit(x, add, t, u);
      assert Emit(y, add, t, u) == Emit(x, add, t, u);
    }
  }

  /** Raising log P(blank | T - 1, v) by delta raises marginal v by delta / T
      and leaves every other marginal as it was: the partial derivative the
      reverse pass should credit to that entry is d_log_p[v] / T. */
  lemma MarginalTopBlankSensitivity(x: Item, add: LogAdd, v: nat, delta: real, u: nat)
    requires x.Valid() && 1 <= x.T && v <= x.U && x.NoBlankLabels() && u <= x.U
    ensures Marginal(BumpTopBlank(x, v, delta), add, u)
         == Marginal(x, add, u) + (if u == v then delta / (x.T as real) else 0.0)
  {
    var y := BumpTopBlank(x, v, delta);
    AlphaIgnoresTopBlank(x, add, v, delta, x.T - 1, u);
    var n := x.T as real;
    if u == v {
      assert y.Blank(x.T - 1, u) == x.Blank(x.T - 1, u) + delta;
      calc {
        Marginal(y, add, u);
        (Alpha(x, add, x.T - 1, u) + x.Blank(x.T - 1, u) + delta) / n;
        (Alpha(x, add, x.T - 1, u) + x.Blank(x.T - 1, u)) / n + delta / n;
      }
    } else {
      assert y.Blank(x.T - 1, u) == x.Blank(x.T - 1, u);
    }
  }

  // ---------------------------------------------------------------------------
  // How marginal 0 depends on the blank scores of column 0

  /** The item with delta added to log P(blank | i, 0). */
  function BumpColumnZeroBlank(x: Item, i: nat, delta: real): (y: Item)
    requires x.Valid() && i < x.T
    ensures y.Valid() && y.T == x.T && y.U == x.U && y.labels == x.labels && y.blank == x.blank
  {
    var row := x.lp[i];
    x.(lp := x.lp[i := row[0 := row[0][x.blank := row[0][x.blank] + delta]]])
  }

  /** Column 0 is a chain of blank moves, so the bump raises alpha[t][0] by
      delta exactly when the chain passes (i, 0), i.e. for t > i. */
  lemma {:induction false} AlphaColumnZeroBump(x: Item, add: LogAdd, i: nat, delta: real, t: nat)
    requires x.Valid() && i < x.T && t < x.T
    ensures Alpha(BumpColumnZeroBlank(x, i, delta), add, t, 0) == Alpha(x, add, t, 0) + (if i < t then delta else 0.0)
  {
    var y := BumpColumnZeroBlank(x, i, delta);
    if t > 0 {
      AlphaColumnZeroBump(x, add, i, delta, t - 1);
      assert y.Blank(t - 1, 0) == x.Blank(t - 1, 0) + (if t - 1 == i then delta else 0.0);
    }
  }

  /** Marginal 0 reads column 0 alone: raising any of its blank scores
      log P(blank | i, 0), i < T, by delta raises marginal 0 by delta / T,
      whatever `add` is. The partial derivative the reverse pass should
      credit to each of them is d_log_p[0] / T. */
  lemma ColumnZeroBlankSensitivity(x: Item, add: LogAdd, i: nat, delta: real)
    requires x.Valid() && i < x.T
    ensures Marginal(BumpColumnZeroBlank(x, i, delta), add, 0) == Marginal(x, add, 0) + delta / (x.T as real)
  {
    var y := BumpColumnZeroBlank(x, i, delta);
    AlphaColumnZeroBump(x, add, i, delta, x.T - 1);
    var a := Alpha(x, add, x.T - 1, 0) + x.Blank(x.T - 1, 0);
    assert Alpha(y, add, x.T - 1, 0) + y.Blank(x.T - 1, 0) == a + delta;
    DivideSum(a, delta, x.T as real);
  }

  lemma DivideSum(a: real, d: real, n: real)
    requires n > 0.0
    ensures (a + d) / n == a / n + d / n
  {
  }

  // ---------------------------------------------------------------------------
  // How the marginal depends on the label scores of time step 0

  /** The item with delta added to log P(labels[j] | 0, j). */
  function BumpRowZeroLabel(x: Item, j: nat, delta: real): (y: Item)
    requires x.Valid() && 1 <= x.T && j < x.U
    ensures y.Valid() && y.T == x.T && y.U == x.U && y.labels == x.labels && y.blank == x.blank
  {
    var row := x.lp[0];
    var k := x.labels[j];
    x.(lp := x.lp[0 := row[j := row[j][k := row[j][k] + delta]]])
  }

  /** Row 0 is a chain of label moves, so the bump raises alpha[0][u] by delta
      exactly when the chain passes (0, j), i.e. for u > j. */
  lemma {:induction false} AlphaRowZeroBump(x: Item, add: LogAdd, j: nat, delta: real, u: nat)
    requires x.Valid() && 1 <= x.T && j < x.U && u <= x.U
    ensures Alpha(BumpRowZeroLabel(x, j, delta), add, 0, u) == Alpha(x, add, 0, u) + (if j < u then delta else 0.0)
  {
    var y := BumpRowZeroLabel(x, j, delta);
    if u > 0 {
      AlphaRowZeroBump(x, add, j, delta, u - 1);
      assert y.Label(0, u - 1) == x.Label(0, u - 1) + (if u - 1 == j then delta else 0.0);
    }
  }

  /** With a single time step, raising lp[0][j][labels[j]] by delta raises
      every marginal u > j by delta and leaves the others as they were: the
      partial derivative the reverse pass should credit to that entry is the
      sum of d_log_p[u] over u > j. */
  lemma RowZeroLabelSensitivity(x: Item, add: LogAdd, j: nat, delta: real, u: nat)
    requires x.Valid() && x.T == 1 && j < x.U && x.NoBlankLabels() && u <= x.U
    ensures Marginal(BumpRowZeroLabel(x, j, delta), add, u)
         == Marginal(x, add, u) + (if j < u then delta else 0.0)
  {
    var y := BumpRowZeroLabel(x, j, delta);
    AlphaRowZeroBump(x, add, j, delta, u);
    assert y.Blank(0, u) == x.Blank(0, u);
  }
}
