/**
 * Properties of the batched LSTM layer's forward and backward buffers:
 * the cell recurrence written out element by element, the zero initial
 * state, the independence of the streams, and the output error seeding.
 */
module LstmProperties {
  import opened CuMatrix
  import opened LstmSpec

  /**
   * The cell equations of one step, over the slices of the new row and the
   * previous row: c = g * i + c(t-1) * f and m = h * o, elementwise; the
   * input and forget gates see c(t-1) through their peepholes, the output
   * gate sees the new c(t).
   */
  lemma CellEquations(k: Kernels, p: LstmParams, pre: Vec, prev: Vec)
    requires ValidParams(p) && |pre| == 4 * p.cellDim && |prev| == 7 * p.cellDim
    ensures var H, row, z := p.cellDim, CellRow(k, p, pre, prev), Recurrent(p, pre, prev);
      var g, i, f, o := Slice(row, SliceG, H), Slice(row, SliceI, H), Slice(row, SliceF, H), Slice(row, SliceO, H);
      var c, h, m, cPrev := Slice(row, SliceC, H), Slice(row, SliceH, H), Slice(row, SliceM, H), Slice(prev, SliceC, H);
      && g == Map(k.tanh, GatePart(z, SliceG, H))
      && i == Map(k.sigmoid, Add(GatePart(z, SliceI, H), Mul(cPrev, p.pholeIC)))
      && f == Map(k.sigmoid, Add(GatePart(z, SliceF, H), Mul(cPrev, p.pholeFC)))
      && c == Add(Mul(g, i), Mul(cPrev, f))
      && h == Map(k.tanh, c)
      && o == Map(k.sigmoid, Add(GatePart(z, SliceO, H), Mul(c, p.pholeOC)))
      && m == Mul(h, o)
  {
    var H, z := p.cellDim, Recurrent(p, pre, prev);
    var cPrev := Slice(prev, SliceC, H);
    var g := Map(k.tanh, GatePart(z, SliceG, H));
    var i := Map(k.sigmoid, Add(GatePart(z, SliceI, H), Mul(cPrev, p.pholeIC)));
    var f := Map(k.sigmoid, Add(GatePart(z, SliceF, H), Mul(cPrev, p.pholeFC)));
    var c := Add(Mul(g, i), Mul(cPrev, f));
    var h := Map(k.tanh, c);
    var o := Map(k.sigmoid, Add(GatePart(z, SliceO, H), Mul(c, p.pholeOC)));
    var m := Mul(h, o);
    CellRowFrom(k, p, pre, prev, g, i, f, o, c, h, m);
    Row7Slices(g, i, f, o, c, h, m, H);
  }

  /**
   * The gate pre-activations of buffer row r (step t, stream s) as the cell
   * sees them: input frame t-1 of stream s, the bias, and the m part of the
   * finished buffer row one block earlier (the same stream at step t-1).
   */
  lemma RecurrentEntries(k: Kernels, p: LstmParams, x: Mat, S: nat, T: nat, r: nat, q: nat)
    requires ValidParams(p) && S > 0 && |x| == T * S && S <= r < (T + 1) * S && q < 4 * p.cellDim
    ensures r - S < T * S && r - S < (T + 2) * S
    ensures var pre := Preacts(p, x);
      var buf := ForwardBuffer(k, p, pre, S, T);
      Recurrent(p, pre[r - S], buf[r - S])[q]
        == Dot(x[r - S], p.weiGifoX[q]) + p.bias[q] + Dot(Slice(buf[r - S], SliceM, p.cellDim), p.weiGifoM[q])
  {
  }

  /**
   * In the propagation buffer, every row of blocks 1..T obeys the cell
   * equations with c(t-1) and m(t-1) read from the row one block earlier,
   * the same stream at the previous step.
   */
  lemma ForwardRecurrence(k: Kernels, p: LstmParams, pre: Mat, S: nat, T: nat, r: nat)
    requires ValidParams(p) && S > 0 && IsMat(pre, T * S, 4 * p.cellDim) && S <= r < (T + 1) * S
    ensures r < (T + 2) * S && r - S < T * S
    ensures var H, buf := p.cellDim, ForwardBuffer(k, p, pre, S, T);
      var row, prev := buf[r], buf[r - S];
      var z := Recurrent(p, pre[r - S], prev);
      var g, i, f, o := Slice(row, SliceG, H), Slice(row, SliceI, H), Slice(row, SliceF, H), Slice(row, SliceO, H);
      var c, h, m, cPrev := Slice(row, SliceC, H), Slice(row, SliceH, H), Slice(row, SliceM, H), Slice(prev, SliceC, H);
      && i == Map(k.sigmoid, Add(GatePart(z, SliceI, H), Mul(cPrev, p.pholeIC)))
      && f == Map(k.sigmoid, Add(GatePart(z, SliceF, H), Mul(cPrev, p.pholeFC)))
      && c == Add(Mul(g, i), Mul(cPrev, f))
      && o == Map(k.sigmoid, Add(GatePart(z, SliceO, H), Mul(c, p.pholeOC)))
      && m == Mul(h, o)
  {
    ForwardBufferStep(k, p, pre, S, T, r);
    var buf := ForwardBuffer(k, p, pre, S, T);
    CellEquations(k, p, pre[r - S], buf[r - S]);
  }

  /**
   * The first step starts from the zero state: in block 1 the cell state is
   * g * i and the gates see only the non-recurrent pre-activation.
   */
  lemma FirstStep(k: Kernels, p: LstmParams, pre: Mat, S: nat, T: nat, r: nat)
    requires ValidParams(p) && S > 0 && IsMat(pre, T * S, 4 * p.cellDim) && S <= T * S && S <= r < 2 * S
    ensures r < (T + 2) * S && r - S < T * S
    ensures var H, row, z := p.cellDim, ForwardBuffer(k, p, pre, S, T)[r], pre[r - S];
      var g, i, f := Slice(row, SliceG, H), Slice(row, SliceI, H), Slice(row, SliceF, H);
      && g == Map(k.tanh, GatePart(z, SliceG, H))
      && i == Map(k.sigmoid, GatePart(z, SliceI, H))
      && f == Map(k.sigmoid, GatePart(z, SliceF, H))
      && Slice(row, SliceC, H) == Mul(g, i)
  {
    MulSucc(T, S);
    var z := pre[r - S];
    assert ForwardBuffer(k, p, pre, S, T)[r] == CellRow(k, p, z, Zeros(7 * p.cellDim)) by {
      ForwardSentinelRow(k, p, pre, S, T, r - S);
      ForwardBufferStep(k, p, pre, S, T, r);
    }
    ZeroStateCell(k, p, z);
  }

  /** A step from the all-zero row. */
  lemma ZeroStateCell(k: Kernels, p: LstmParams, pre: Vec)
    requires ValidParams(p) && |pre| == 4 * p.cellDim
    ensures var H, row := p.cellDim, CellRow(k, p, pre, Zeros(7 * p.cellDim));
      var g, i, f := Slice(row, SliceG, H), Slice(row, SliceI, H), Slice(row, SliceF, H);
      && g == Map(k.tanh, GatePart(pre, SliceG, H))
      && i == Map(k.sigmoid, GatePart(pre, SliceI, H))
      && f == Map(k.sigmoid, GatePart(pre, SliceF, H))
      && Slice(row, SliceC, H) == Mul(g, i)
  {
    var H, prev := p.cellDim, Zeros(7 * p.cellDim);
    var z := Recurrent(p, pre, prev);
    CellEquations(k, p, pre, prev);
    var cPrev := Slice(prev, SliceC, H);
    forall q | 0 <= q < 4 * H
      ensures z[q] == pre[q]
    {
      DotZeros(Slice(prev, SliceM, H), p.weiGifoM[q]);
    }
    assert z == pre;
    var row := CellRow(k, p, pre, prev);
    var g, i, f := Slice(row, SliceG, H), Slice(row, SliceI, H), Slice(row, SliceF, H);
    assert cPrev == Zeros(H);
    MulZeros(cPrev, p.pholeIC);
    MulZeros(cPrev, p.pholeFC);
    MulZeros(cPrev, f);
    AddZeros(GatePart(z, SliceI, H), Mul(cPrev, p.pholeIC));
    AddZeros(GatePart(z, SliceF, H), Mul(cPrev, p.pholeFC));
    AddZeros(Mul(g, i), Mul(cPrev, f));
  }

  /** A forward row of stream s depends only on the pre-activation rows of stream s. */
  lemma {:induction false} ForwardRowIndependence(k: Kernels, p: LstmParams, pre: Mat, pre': Mat, S: nat, T: nat, r: nat)
    requires ValidParams(p) && S > 0 && IsMat(pre, T * S, 4 * p.cellDim) && IsMat(pre', T * S, 4 * p.cellDim)
    requires forall i :: 0 <= i < T * S && i % S == r % S ==> pre[i] == pre'[i]
    ensures ForwardRow(k, p, pre, S, T, r) == ForwardRow(k, p, pre', S, T, r)
    decreases r
  {
    hide CellRow;
    MulSucc(T, S);
    if S <= r < (T + 1) * S {
      assert (r - S) % S == r % S by {
        BlockShift(S, r);
      }
      assert pre[r - S] == pre'[r - S];
      ForwardRowIndependence(k, p, pre, pre', S, T, r - S);
    }
  }

  /** Inputs that agree on stream s have pre-activations that agree on stream s. */
  lemma PreactsStreamIndependence(p: LstmParams, x: Mat, x': Mat, S: nat, s: nat)
    requires ValidParams(p) && |x| == |x'| && S > 0
    requires forall i :: 0 <= i < |x| && i % S == s ==> x[i] == x'[i]
    ensures forall i :: 0 <= i < |x| && i % S == s ==> Preacts(p, x)[i] == Preacts(p, x')[i]
  {
    forall i | 0 <= i < |x| && i % S == s
      ensures Preacts(p, x)[i] == Preacts(p, x')[i]
    {
      assert x[i] == x'[i];
    }
  }

  /** Two inputs that agree on stream s give buffers and outputs that agree on stream s. */
  lemma ForwardStreamIndependence(k: Kernels, p: LstmParams, x: Mat, x': Mat, S: nat, T: nat, s: nat)
    requires ValidParams(p) && S > 0 && s < S && |x| == T * S && |x'| == T * S
    requires forall i :: 0 <= i < T * S && i % S == s ==> x[i] == x'[i]
    ensures forall r :: 0 <= r < (T + 2) * S && r % S == s ==>
      ForwardBuffer(k, p, Preacts(p, x), S, T)[r] == ForwardBuffer(k, p, Preacts(p, x'), S, T)[r]
    ensures forall r :: 0 <= r < T * S && r % S == s ==>
      ForwardOutput(k, p, Preacts(p, x), S, T)[r] == ForwardOutput(k, p, Preacts(p, x'), S, T)[r]
  {
    MulSucc(T, S);
    var pre, pre' := Preacts(p, x), Preacts(p, x');
    PreactsStreamIndependence(p, x, x', S, s);
    forall r | 0 <= r < (T + 2) * S && r % S == s
      ensures ForwardBuffer(k, p, pre, S, T)[r] == ForwardBuffer(k, p, pre', S, T)[r]
    {
      ForwardRowIndependence(k, p, pre, pre', S, T, r);
    }
    forall r | 0 <= r < T * S && r % S == s
      ensures ForwardOutput(k, p, pre, S, T)[r] == ForwardOutput(k, p, pre', S, T)[r]
    {
      BlockShift(S, r + S);
      ForwardRowIndependence(k, p, pre, pre', S, T, r + S);
    }
  }

  /**
   * Backward rows of stream s depend only on the forward rows and output
   * errors of stream s.
   */
  lemma {:induction false} BackStreamIndependence(k: Kernels, p: LstmParams, Y: Mat, Y': Mat, OD: Mat, OD': Mat,
                                                  S: nat, T: nat, r: nat)
    requires ValidParams(p) && S > 0 && r < (T + 2) * S
    requires IsMat(Y, (T + 2) * S, 7 * p.cellDim) && IsMat(OD, T * S, p.cellDim)
    requires IsMat(Y', (T + 2) * S, 7 * p.cellDim) && IsMat(OD', T * S, p.cellDim)
    requires forall i :: 0 <= i < (T + 2) * S && i % S == r % S ==> Y[i] == Y'[i]
    requires forall i :: 0 <= i < T * S && i % S == r % S ==> OD[i] == OD'[i]
    ensures BackRow(k, p, Y, OD, S, T, r) == BackRow(k, p, Y', OD', S, T, r)
    decreases (T + 2) * S - r
  {
    MulSucc(T, S);
    if S <= r < (T + 1) * S {
      assert (r - S) % S == r % S && (r + S) % S == r % S by {
        BlockShift(S, r);
        BlockShift(S, r + S);
      }
      BackStreamIndependence(k, p, Y, Y', OD, OD', S, T, r + S);
      assert Y[r - S] == Y'[r - S] && Y[r] == Y'[r] && Y[r + S] == Y'[r + S] && OD[r - S] == OD'[r - S];
      var d, d' := BackRow(k, p, Y, OD, S, T, r + S), BackRow(k, p, Y', OD', S, T, r + S);
      assert BackRow(k, p, Y, OD, S, T, r) == BackCell(k, p, Y[r], Y[r - S], Y[r + S], OD[r - S], d);
      assert BackRow(k, p, Y', OD', S, T, r) == BackCell(k, p, Y'[r], Y'[r - S], Y'[r + S], OD'[r - S], d');
    }
  }

  /** Two backward passes whose inputs agree on stream s give error buffers that agree on stream s. */
  lemma BackwardStreamIndependence(k: Kernels, p: LstmParams, Y: Mat, Y': Mat, OD: Mat, OD': Mat, S: nat, T: nat, s: nat)
    requires ValidParams(p) && S > 0 && s < S
    requires IsMat(Y, (T + 2) * S, 7 * p.cellDim) && IsMat(OD, T * S, p.cellDim)
    requires IsMat(Y', (T + 2) * S, 7 * p.cellDim) && IsMat(OD', T * S, p.cellDim)
    requires forall i :: 0 <= i < (T + 2) * S && i % S == s ==> Y[i] == Y'[i]
    requires forall i :: 0 <= i < T * S && i % S == s ==> OD[i] == OD'[i]
    ensures forall r :: 0 <= r < (T + 2) * S && r % S == s ==>
      BackwardBuffer(k, p, Y, OD, S, T)[r] == BackwardBuffer(k, p, Y', OD', S, T)[r]
  {
    forall r | 0 <= r < (T + 2) * S && r % S == s
      ensures BackwardBuffer(k, p, Y, OD, S, T)[r] == BackwardBuffer(k, p, Y', OD', S, T)[r]
    {
      BackStreamIndependence(k, p, Y, Y', OD, OD', S, T, r);
    }
  }

  /**
   * At the last step T nothing comes back from the zero block T + 1: the
   * error of m is exactly the output error, and the error of c is the error
   * arriving through h plus the output gate's error through the o peephole.
   */
  lemma LastStepOutputError(k: Kernels, p: LstmParams, Y: Mat, OD: Mat, S: nat, T: nat, r: nat)
    requires ValidParams(p) && S > 0
    requires IsMat(Y, (T + 2) * S, 7 * p.cellDim) && IsMat(OD, T * S, p.cellDim)
    requires T * S <= r < (T + 1) * S && S <= r
    ensures r < (T + 2) * S && r - S < T * S
    ensures Slice(BackwardBuffer(k, p, Y, OD, S, T)[r], SliceM, p.cellDim) == OD[r - S]
    ensures var H, row := p.cellDim, BackwardBuffer(k, p, Y, OD, S, T)[r];
      Slice(row, SliceC, H) == Add(Slice(row, SliceH, H), Mul(Slice(row, SliceO, H), p.pholeOC))
  {
    hide BackCell;
    MulSucc(T, S);
    BackwardBufferStep(k, p, Y, OD, S, T, r);
    BackwardSentinelRow(k, p, Y, OD, S, T, r + S);
    LastCellErrors(k, p, Y[r], Y[r - S], Y[r + S], OD[r - S]);
  }

  /** The backward cell with a zero error row from the next step. */
  lemma LastCellErrors(k: Kernels, p: LstmParams, y: Vec, yPrev: Vec, yNext: Vec, od: Vec)
    requires ValidParams(p) && |y| == 7 * p.cellDim && |yPrev| == 7 * p.cellDim && |yNext| == 7 * p.cellDim
    requires |od| == p.cellDim
    ensures var H, row := p.cellDim, BackCell(k, p, y, yPrev, yNext, od, Zeros(7 * p.cellDim));
      && Slice(row, SliceM, H) == od
      && Slice(row, SliceC, H) == Add(Slice(row, SliceH, H), Mul(Slice(row, SliceO, H), p.pholeOC))
  {
    var H := p.cellDim;
    var dNext := Zeros(7 * H);
    var back := Times(Gifo(dNext, H), p.weiGifoM, H);
    forall c | 0 <= c < H
      ensures back[c] == 0.0
    {
      DotZeros(Gifo(dNext, H), Col(p.weiGifoM, c));
    }
    var dM := Add(od, back);
    assert dM == od;
    var dH := Map2(k.diffTanh, Slice(y, SliceH, H), Mul(dM, Slice(y, SliceO, H)));
    var dO := Map2(k.diffSigmoid, Slice(y, SliceO, H), Mul(dM, Slice(y, SliceH, H)));
    var dC := Add(Add(Add(Add(dH, Mul(Slice(dNext, SliceC, H), Slice(yNext, SliceF, H))),
                          Mul(Slice(dNext, SliceI, H), p.pholeIC)),
                      Mul(Slice(dNext, SliceF, H), p.pholeFC)),
                  Mul(dO, p.pholeOC));
    // every error term from the next step is a zero vector
    assert Slice(dNext, SliceC, H) == Slice(dNext, SliceI, H) == Slice(dNext, SliceF, H) == Zeros(H);
    MulZeros(Zeros(H), Slice(yNext, SliceF, H));
    MulZeros(Zeros(H), p.pholeIC);
    MulZeros(Zeros(H), p.pholeFC);
    AddZeros(dH, Zeros(H));
    assert dC == Add(dH, Mul(dO, p.pholeOC));
    var dF := Map2(k.diffSigmoid, Slice(y, SliceF, H), Mul(dC, Slice(yPrev, SliceC, H)));
    var dI := Map2(k.diffSigmoid, Slice(y, SliceI, H), Mul(dC, Slice(y, SliceG, H)));
    var dG := Map2(k.diffTanh, Slice(y, SliceG, H), Mul(dC, Slice(y, SliceI, H)));
    BackCellFrom(k, p, y, yPrev, yNext, od, dNext, dG, dI, dF, dO, dC, dH, dM);
    Row7Slices(dG, dI, dF, dO, dC, dH, dM, H);
  }

  /** With zero momentum an accumulator holds just the latest raw gradient. */
  lemma BlendZeroMomentum(corr: Mat, g: Mat)
    requires SameShape(corr, g)
    ensures Blend(0.0, corr, g) == g
  {
    var b := Blend(0.0, corr, g);
    forall i | 0 <= i < |g|
      ensures b[i] == g[i]
    {
    }
  }

  /**
   * Two momentum updates: the older gradient is weighted by mmt, the
   * accumulator from before both by mmt squared.
   */
  lemma BlendTwice(mmt: real, corr: Mat, g1: Mat, g2: Mat)
    requires SameShape(corr, g1) && SameShape(corr, g2)
    ensures var b := Blend(mmt, Blend(mmt, corr, g1), g2);
      SameShape(b, corr) &&
      forall i, j :: 0 <= i < |corr| && 0 <= j < |corr[i]| ==>
        b[i][j] == mmt * mmt * corr[i][j] + mmt * g1[i][j] + g2[i][j]
  {
  }
}
