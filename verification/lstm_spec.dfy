/**
 * What the batched peephole LSTM layer computes, stated one stream at a time.
 *
 * A buffer row is 7 * H wide (H = cell_dim) and holds seven H-wide slices in
 * the order g, i, f, o, c, h, m. Both buffers are time-major: row t * S + s is
 * stream s at time step t, for 0 <= t <= T + 1; blocks 0 and T + 1 are zero
 * sentinels. The recurrences below are written per stream, so a buffer
 * defined from them mixes no streams by construction; the layer's methods
 * are proved to produce exactly these buffers.
 */
module LstmSpec {
  import opened CuMatrix

  // Column slices of a buffer row, in layout order.
  const SliceG: nat := 0
  const SliceI: nat := 1
  const SliceF: nat := 2
  const SliceO: nat := 3
  const SliceC: nat := 4
  const SliceH: nat := 5
  const SliceM: nat := 6

  datatype Option<T> = None | Some(value: T)

  /** The parameters the layer inherits from its parent cell. */
  datatype LstmParams = LstmParams(
    cellDim: nat,
    inputDim: nat,
    weiGifoX: Mat,   // 4H x inputDim, input to gates
    weiGifoM: Mat,   // 4H x H, recurrent cell output to gates
    bias: Vec,       // 4H
    pholeIC: Vec,    // H, peephole into the input gate
    pholeFC: Vec,    // H, peephole into the forget gate
    pholeOC: Vec)    // H, peephole into the output gate

  predicate ValidParams(p: LstmParams) {
    && IsMat(p.weiGifoX, 4 * p.cellDim, p.inputDim)
    && IsMat(p.weiGifoM, 4 * p.cellDim, p.cellDim)
    && |p.bias| == 4 * p.cellDim
    && |p.pholeIC| == p.cellDim && |p.pholeFC| == p.cellDim && |p.pholeOC| == p.cellDim
  }

  /**
   * The number of time steps T of a batch of `rows` input rows over S
   * streams: defined only when S divides rows, and then every row index
   * r < rows lies in one of the blocks 0..T-1.
   */
  function StepCount(rows: nat, S: nat): (T: Option<nat>)
    ensures T.Some? <==> S > 0 && rows % S == 0
    ensures T.Some? ==> T.value * S == rows && forall r :: 0 <= r < rows ==> r / S < T.value
  {
    if S > 0 && rows % S == 0 then
      var T := rows / S;
      assert forall r :: 0 <= r < rows ==> r / S < T by {
        forall r | 0 <= r < rows
          ensures r / S < T
        {
          RowBlock(T, S, r);
        }
      }
      Some(T)
    else None
  }

  /** Slice k (0 = g, ..., 6 = m) of a buffer row. */
  function Slice(row: Vec, k: nat, H: nat): (r: Vec)
    requires k < 7 && |row| == 7 * H
    ensures |r| == H
  {
    row[k * H..k * H + H]
  }

  /** The first four slices (g, i, f, o) of a buffer row. */
  function Gifo(row: Vec, H: nat): (r: Vec)
    requires |row| == 7 * H
    ensures |r| == 4 * H
  {
    row[..4 * H]
  }

  /** Gate k (0 = g, ..., 3 = o) of a 4H-wide vector of gate values. */
  function GatePart(z: Vec, k: nat, H: nat): (r: Vec)
    requires k < 4 && |z| == 4 * H
    ensures |r| == H
  {
    MulLe(k + 1, 4, H);
    z[k * H..k * H + H]
  }

  /** The column view of slice k of a block of buffer rows. */
  function SliceCols(m: Mat, k: nat, H: nat): (b: Mat)
    requires k < 7 && forall r :: 0 <= r < |m| ==> |m[r]| == 7 * H
    ensures IsMat(b, |m|, H) && forall r :: 0 <= r < |m| ==> b[r] == Slice(m[r], k, H)
  {
    MulLe(k + 1, 7, H);
    ColRange(m, k * H, H)
  }

  /** The column view of gate k of a block of 4H-wide gate rows. */
  function GateCols(m: Mat, k: nat, H: nat): (b: Mat)
    requires k < 4 && forall r :: 0 <= r < |m| ==> |m[r]| == 4 * H
    ensures IsMat(b, |m|, H) && forall r :: 0 <= r < |m| ==> b[r] == GatePart(m[r], k, H)
  {
    MulLe(k + 1, 4, H);
    ColRange(m, k * H, H)
  }

  /** The column view of the four gate slices of a block of buffer rows. */
  function GifoCols(m: Mat, H: nat): (b: Mat)
    requires forall r :: 0 <= r < |m| ==> |m[r]| == 7 * H
    ensures IsMat(b, |m|, 4 * H) && forall r :: 0 <= r < |m| ==> b[r] == Gifo(m[r], H)
  {
    ColRange(m, 0, 4 * H)
  }

  /** The row whose seven slices are the given vectors. */
  function Row7(g: Vec, i: Vec, f: Vec, o: Vec, c: Vec, h: Vec, m: Vec): Vec {
    g + i + f + o + c + h + m
  }

  /** The row block whose seven column slices are the given S x H blocks. */
  function Rows7(g: Mat, i: Mat, f: Mat, o: Mat, c: Mat, h: Mat, m: Mat): (b: Mat)
    requires |g| == |i| == |f| == |o| == |c| == |h| == |m|
    ensures |b| == |g| && forall s :: 0 <= s < |g| ==> b[s] == Row7(g[s], i[s], f[s], o[s], c[s], h[s], m[s])
  {
    seq(|g|, s requires 0 <= s < |g| => Row7(g[s], i[s], f[s], o[s], c[s], h[s], m[s]))
  }

  lemma Row7Slices(g: Vec, i: Vec, f: Vec, o: Vec, c: Vec, h: Vec, m: Vec, H: nat)
    requires |g| == |i| == |f| == |o| == |c| == |h| == |m| == H
    ensures var row := Row7(g, i, f, o, c, h, m);
      && |row| == 7 * H
      && Slice(row, SliceG, H) == g && Slice(row, SliceI, H) == i && Slice(row, SliceF, H) == f
      && Slice(row, SliceO, H) == o && Slice(row, SliceC, H) == c && Slice(row, SliceH, H) == h
      && Slice(row, SliceM, H) == m && Gifo(row, H) == g + i + f + o
  {
    var row := Row7(g, i, f, o, c, h, m);
    assert row == (g + i + f + o) + c + h + m;
  }

  // ---------------------------------------------------------------------
  // Forward pass
  // ---------------------------------------------------------------------

  /** Non-recurrent gate pre-activation of one input row: x W_x^T + bias. */
  function Preact(p: LstmParams, x: Vec): (r: Vec)
    requires ValidParams(p)
    ensures |r| == 4 * p.cellDim
  {
    Add(TimesTransposed(x, p.weiGifoX), p.bias)
  }

  /**
   * The non-recurrent pre-activations of all input rows, computed for every
   * frame before the time loop starts.
   */
  function Preacts(p: LstmParams, x: Mat): (pre: Mat)
    requires ValidParams(p)
    ensures IsMat(pre, |x|, 4 * p.cellDim)
    ensures forall i :: 0 <= i < |x| ==> pre[i] == Preact(p, x[i])
  {
    seq(|x|, i requires 0 <= i < |x| => Preact(p, x[i]))
  }

  /** All four gate pre-activations: `pre` plus the previous m times W_m^T. */
  function Recurrent(p: LstmParams, pre: Vec, prev: Vec): (z: Vec)
    requires ValidParams(p) && |pre| == 4 * p.cellDim && |prev| == 7 * p.cellDim
    ensures |z| == 4 * p.cellDim
  {
    Add(pre, TimesTransposed(Slice(prev, SliceM, p.cellDim), p.weiGifoM))
  }

  /**
   * One time step of one stream: from the non-recurrent pre-activation `pre`
   * and the previous row `prev` (its c and m slices), the new 7H row.
   * The input and forget peepholes read c(t-1); the output peephole reads c(t).
   */
  function CellRow(k: Kernels, p: LstmParams, pre: Vec, prev: Vec): (row: Vec)
    requires ValidParams(p) && |pre| == 4 * p.cellDim && |prev| == 7 * p.cellDim
    ensures |row| == 7 * p.cellDim
  {
    var H := p.cellDim;
    var z := Recurrent(p, pre, prev);
    var cPrev := Slice(prev, SliceC, H);
    var g := Map(k.tanh, GatePart(z, SliceG, H));
    var i := Map(k.sigmoid, Add(GatePart(z, SliceI, H), Mul(cPrev, p.pholeIC)));
    var f := Map(k.sigmoid, Add(GatePart(z, SliceF, H), Mul(cPrev, p.pholeFC)));
    var c := Add(Mul(g, i), Mul(cPrev, f));
    var h := Map(k.tanh, c);
    var o := Map(k.sigmoid, Add(GatePart(z, SliceO, H), Mul(c, p.pholeOC)));
    var m := Mul(h, o);
    Row7(g, i, f, o, c, h, m)
  }

  /** A row whose slices satisfy the cell equations is the cell row. */
  lemma CellRowFrom(k: Kernels, p: LstmParams, pre: Vec, prev: Vec,
                    g: Vec, i: Vec, f: Vec, o: Vec, c: Vec, h: Vec, m: Vec)
    requires ValidParams(p) && |pre| == 4 * p.cellDim && |prev| == 7 * p.cellDim
    requires var H, z, cPrev := p.cellDim, Recurrent(p, pre, prev), Slice(prev, SliceC, p.cellDim);
      && g == Map(k.tanh, GatePart(z, SliceG, H))
      && i == Map(k.sigmoid, Add(GatePart(z, SliceI, H), Mul(cPrev, p.pholeIC)))
      && f == Map(k.sigmoid, Add(GatePart(z, SliceF, H), Mul(cPrev, p.pholeFC)))
      && c == Add(Mul(g, i), Mul(cPrev, f))
      && h == Map(k.tanh, c)
      && o == Map(k.sigmoid, Add(GatePart(z, SliceO, H), Mul(c, p.pholeOC)))
      && m == Mul(h, o)
    ensures CellRow(k, p, pre, prev) == Row7(g, i, f, o, c, h, m)
  {
  }

  /** Row of one stream at time step t (t = 0 is the zero initial state), from its input rows `xs`. */
  function StreamRow(k: Kernels, p: LstmParams, xs: seq<Vec>, t: nat): (row: Vec)
    requires ValidParams(p) && t <= |xs|
    ensures |row| == 7 * p.cellDim
    decreases t
  {
    if t == 0 then Zeros(7 * p.cellDim)
    else CellRow(k, p, Preact(p, xs[t - 1]), StreamRow(k, p, xs, t - 1))
  }

  /**
   * Row r of the propagation buffer over the T * S pre-activation rows
   * `pre`. Rows of blocks 1..T are the cell row of their pre-activation
   * after the row one block earlier (r - S), the same stream at the
   * previous step; the sentinel blocks 0 and T + 1 are zero.
   */
  function ForwardRow(k: Kernels, p: LstmParams, pre: Mat, S: nat, T: nat, r: nat): (row: Vec)
    requires ValidParams(p) && S > 0 && IsMat(pre, T * S, 4 * p.cellDim)
    ensures |row| == 7 * p.cellDim
    decreases r
  {
    MulSucc(T, S);
    if S <= r < (T + 1) * S
    then CellRow(k, p, pre[r - S], ForwardRow(k, p, pre, S, T, r - S))
    else Zeros(7 * p.cellDim)
  }

  /**
   * The propagation buffer after a forward pass whose T * S input rows have
   * the pre-activations `pre` (see `Preacts`).
   */
  function ForwardBuffer(k: Kernels, p: LstmParams, pre: Mat, S: nat, T: nat): (buf: Mat)
    requires ValidParams(p) && S > 0 && IsMat(pre, T * S, 4 * p.cellDim)
    ensures IsMat(buf, (T + 2) * S, 7 * p.cellDim)
    ensures forall r :: 0 <= r < (T + 2) * S ==> buf[r] == ForwardRow(k, p, pre, S, T, r)
  {
    seq((T + 2) * S, r requires 0 <= r < (T + 2) * S => ForwardRow(k, p, pre, S, T, r))
  }

  /** The layer output: the m slices of blocks 1..T of the propagation buffer. */
  function ForwardOutput(k: Kernels, p: LstmParams, pre: Mat, S: nat, T: nat): (out: Mat)
    requires ValidParams(p) && S > 0 && IsMat(pre, T * S, 4 * p.cellDim)
    ensures IsMat(out, T * S, p.cellDim)
    ensures (T + 2) * S == T * S + S + S
    ensures forall i :: 0 <= i < T * S ==> out[i] == Slice(ForwardBuffer(k, p, pre, S, T)[S + i], SliceM, p.cellDim)
  {
    MulSucc(T, S);
    MSlices(ForwardBuffer(k, p, pre, S, T), S, T * S, p.cellDim)
  }

  /** The m slices of rows lo..lo + n of a buffer of 7H-wide rows, row by row. */
  function MSlices(buf: Mat, lo: nat, n: nat, H: nat): (out: Mat)
    requires lo + n <= |buf| && forall r :: 0 <= r < |buf| ==> |buf[r]| == 7 * H
    ensures IsMat(out, n, H) && forall i :: 0 <= i < n ==> out[i] == Slice(buf[lo + i], SliceM, H)
  {
    var out := seq(n, i requires 0 <= i < n => Slice(buf[lo + i], SliceM, H));
    forall i | 0 <= i < n
      ensures |out[i]| == H
    {
      assert out[i] == Slice(buf[lo + i], SliceM, H);
    }
    out
  }

  /**
   * Block t of the forward rows over the pre-activations of x, stream s:
   * that stream's own recurrence at step t for 1 <= t <= T, and zero in the
   * sentinel blocks 0 and T + 1.
   */
  lemma {:induction false} ForwardRowAt(k: Kernels, p: LstmParams, x: Mat, S: nat, T: nat, t: nat, s: nat)
    requires ValidParams(p) && |x| == T * S && t <= T + 1 && s < S
    ensures ForwardRow(k, p, Preacts(p, x), S, T, t * S + s) ==
      if 1 <= t <= T then StreamRow(k, p, Stream(x, S, s, T), t) else Zeros(7 * p.cellDim)
    decreases t
  {
    MulSucc(T, S);
    var r := t * S + s;
    if 1 <= t <= T {
      MulSucc(t - 1, S);
      MulAtLeast(t, S);
      BlockRow(T, S, t - 1, s);
      BlockRow(T + 1, S, t, s);
      ForwardRowAt(k, p, x, S, T, t - 1, s);
      var pre, xs := Preacts(p, x), Stream(x, S, s, T);
      assert pre[r - S] == Preact(p, xs[t - 1]);
    } else {
      BlockRow(T + 2, S, t, s);
      if t != 0 {
        assert (T + 1) * S <= r;
      }
    }
  }

  /** The same, read in the forward buffer. */
  lemma ForwardBufferAt(k: Kernels, p: LstmParams, x: Mat, S: nat, T: nat, t: nat, s: nat)
    requires ValidParams(p) && |x| == T * S && t <= T + 1 && s < S
    ensures t * S + s < (T + 2) * S
    ensures ForwardBuffer(k, p, Preacts(p, x), S, T)[t * S + s] ==
      if 1 <= t <= T then StreamRow(k, p, Stream(x, S, s, T), t) else Zeros(7 * p.cellDim)
  {
    BlockRow(T + 2, S, t, s);
    var pre := Preacts(p, x);
    assert ForwardBuffer(k, p, pre, S, T)[t * S + s] == ForwardRow(k, p, pre, S, T, t * S + s);
    ForwardRowAt(k, p, x, S, T, t, s);
  }

  /** The rows of the sentinel blocks 0 and T + 1 are zero. */
  lemma ForwardSentinelRow(k: Kernels, p: LstmParams, pre: Mat, S: nat, T: nat, r: nat)
    requires ValidParams(p) && S > 0 && IsMat(pre, T * S, 4 * p.cellDim)
    requires r < S || (T + 1) * S <= r < (T + 2) * S
    ensures ForwardBuffer(k, p, pre, S, T)[r] == Zeros(7 * p.cellDim)
  {
    MulSucc(T, S);
  }

  /** Every row of blocks 1..T is the cell row of its pre-activation after the row one block earlier. */
  lemma ForwardBufferStep(k: Kernels, p: LstmParams, pre: Mat, S: nat, T: nat, r: nat)
    requires ValidParams(p) && S > 0 && IsMat(pre, T * S, 4 * p.cellDim) && S <= r < (T + 1) * S
    ensures r < (T + 2) * S && r - S < T * S
    ensures var buf := ForwardBuffer(k, p, pre, S, T);
      buf[r] == CellRow(k, p, pre[r - S], buf[r - S])
  {
    MulSucc(T, S);
  }

  /** Output row t * S + s is the m slice of stream s at step t + 1. */
  lemma ForwardOutputAt(k: Kernels, p: LstmParams, x: Mat, S: nat, T: nat, t: nat, s: nat)
    requires ValidParams(p) && |x| == T * S && t < T && s < S
    ensures t * S + s < T * S
    ensures ForwardOutput(k, p, Preacts(p, x), S, T)[t * S + s] ==
      Slice(StreamRow(k, p, Stream(x, S, s, T), t + 1), SliceM, p.cellDim)
  {
    hide CellRow;
    BlockRow(T, S, t, s);
    MulSucc(t, S);
    MulSucc(T, S);
    var pre, r := Preacts(p, x), t * S + s;
    assert ForwardOutput(k, p, pre, S, T)[r] == Slice(ForwardBuffer(k, p, pre, S, T)[r + S], SliceM, p.cellDim);
    assert r + S == (t + 1) * S + s;
    ForwardBufferAt(k, p, x, S, T, t + 1, s);
  }

  // ---------------------------------------------------------------------
  // Backward pass
  // ---------------------------------------------------------------------

  /**
   * One time step of back-propagation through one stream. `y`, `yPrev` and
   * `yNext` are the forward rows at t, t - 1 and t + 1, `od` the error coming
   * from the layer above at t, and `dNext` the finished error row at t + 1.
   * The result holds the errors of g, i, f, o, c, h, m at t.
   */
  function BackCell(k: Kernels, p: LstmParams, y: Vec, yPrev: Vec, yNext: Vec, od: Vec, dNext: Vec): (row: Vec)
    requires ValidParams(p) && |y| == 7 * p.cellDim && |yPrev| == 7 * p.cellDim && |yNext| == 7 * p.cellDim
    requires |od| == p.cellDim && |dNext| == 7 * p.cellDim
    ensures |row| == 7 * p.cellDim
  {
    var H := p.cellDim;
    // m: from the layer above and from the gates at t + 1
    var dM := Add(od, Times(Gifo(dNext, H), p.weiGifoM, H));
    var dH := Map2(k.diffTanh, Slice(y, SliceH, H), Mul(dM, Slice(y, SliceO, H)));
    var dO := Map2(k.diffSigmoid, Slice(y, SliceO, H), Mul(dM, Slice(y, SliceH, H)));
    // c: through h, through c(t + 1) and the forget gate at t + 1, and through the three peepholes
    var dC := Add(Add(Add(Add(dH, Mul(Slice(dNext, SliceC, H), Slice(yNext, SliceF, H))),
                          Mul(Slice(dNext, SliceI, H), p.pholeIC)),
                      Mul(Slice(dNext, SliceF, H), p.pholeFC)),
                  Mul(dO, p.pholeOC));
    var dF := Map2(k.diffSigmoid, Slice(y, SliceF, H), Mul(dC, Slice(yPrev, SliceC, H)));
    var dI := Map2(k.diffSigmoid, Slice(y, SliceI, H), Mul(dC, Slice(y, SliceG, H)));
    var dG := Map2(k.diffTanh, Slice(y, SliceG, H), Mul(dC, Slice(y, SliceI, H)));
    Row7(dG, dI, dF, dO, dC, dH, dM)
  }

  /** A row whose slices satisfy the backward cell equations is the backward cell row. */
  lemma BackCellFrom(k: Kernels, p: LstmParams, y: Vec, yPrev: Vec, yNext: Vec, od: Vec, dNext: Vec,
                     dG: Vec, dI: Vec, dF: Vec, dO: Vec, dC: Vec, dH: Vec, dM: Vec)
    requires ValidParams(p) && |y| == 7 * p.cellDim && |yPrev| == 7 * p.cellDim && |yNext| == 7 * p.cellDim
    requires |od| == p.cellDim && |dNext| == 7 * p.cellDim
    requires var H := p.cellDim;
      && dM == Add(od, Times(Gifo(dNext, H), p.weiGifoM, H))
      && dH == Map2(k.diffTanh, Slice(y, SliceH, H), Mul(dM, Slice(y, SliceO, H)))
      && dO == Map2(k.diffSigmoid, Slice(y, SliceO, H), Mul(dM, Slice(y, SliceH, H)))
      && dC == Add(Add(Add(Add(dH, Mul(Slice(dNext, SliceC, H), Slice(yNext, SliceF, H))),
                           Mul(Slice(dNext, SliceI, H), p.pholeIC)),
                       Mul(Slice(dNext, SliceF, H), p.pholeFC)),
                   Mul(dO, p.pholeOC))
      && dF == Map2(k.diffSigmoid, Slice(y, SliceF, H), Mul(dC, Slice(yPrev, SliceC, H)))
      && dI == Map2(k.diffSigmoid, Slice(y, SliceI, H), Mul(dC, Slice(y, SliceG, H)))
      && dG == Map2(k.diffTanh, Slice(y, SliceG, H), Mul(dC, Slice(y, SliceI, H)))
    ensures BackCell(k, p, y, yPrev, yNext, od, dNext) == Row7(dG, dI, dF, dO, dC, dH, dM)
  {
  }

  /**
   * Row r of the back-propagation buffer over the forward buffer Y and the
   * output errors OD (T * S rows of H). Rows of blocks 1..T are computed from
   * the finished row one block later (r + S), the same stream at t + 1; the
   * sentinel blocks 0 and T + 1 are zero.
   */
  function BackRow(k: Kernels, p: LstmParams, Y: Mat, OD: Mat, S: nat, T: nat, r: nat): (row: Vec)
    requires ValidParams(p) && S > 0 && r < (T + 2) * S
    requires IsMat(Y, (T + 2) * S, 7 * p.cellDim) && IsMat(OD, T * S, p.cellDim)
    ensures |row| == 7 * p.cellDim
    decreases (T + 2) * S - r
  {
    MulSucc(T, S);
    if S <= r < (T + 1) * S
    then BackCell(k, p, Y[r], Y[r - S], Y[r + S], OD[r - S], BackRow(k, p, Y, OD, S, T, r + S))
    else Zeros(7 * p.cellDim)
  }

  /** The back-propagation buffer after a backward pass. */
  function BackwardBuffer(k: Kernels, p: LstmParams, Y: Mat, OD: Mat, S: nat, T: nat): (buf: Mat)
    requires ValidParams(p) && S > 0
    requires IsMat(Y, (T + 2) * S, 7 * p.cellDim) && IsMat(OD, T * S, p.cellDim)
    ensures IsMat(buf, (T + 2) * S, 7 * p.cellDim)
    ensures forall r :: 0 <= r < (T + 2) * S ==> buf[r] == BackRow(k, p, Y, OD, S, T, r)
  {
    seq((T + 2) * S, r requires 0 <= r < (T + 2) * S => BackRow(k, p, Y, OD, S, T, r))
  }

  /** Every row of blocks 1..T is the backward cell of its neighbours and the finished row one block later. */
  lemma BackwardBufferStep(k: Kernels, p: LstmParams, Y: Mat, OD: Mat, S: nat, T: nat, r: nat)
    requires ValidParams(p) && S > 0
    requires IsMat(Y, (T + 2) * S, 7 * p.cellDim) && IsMat(OD, T * S, p.cellDim)
    requires S <= r < (T + 1) * S
    ensures r + S < (T + 2) * S && r - S < T * S
    ensures var buf := BackwardBuffer(k, p, Y, OD, S, T);
      buf[r] == BackCell(k, p, Y[r], Y[r - S], Y[r + S], OD[r - S], buf[r + S])
  {
    MulSucc(T, S);
  }

  /** The rows of the sentinel blocks 0 and T + 1 of the backward buffer are zero. */
  lemma BackwardSentinelRow(k: Kernels, p: LstmParams, Y: Mat, OD: Mat, S: nat, T: nat, r: nat)
    requires ValidParams(p) && S > 0
    requires IsMat(Y, (T + 2) * S, 7 * p.cellDim) && IsMat(OD, T * S, p.cellDim)
    requires r < S || (T + 1) * S <= r < (T + 2) * S
    ensures BackwardBuffer(k, p, Y, OD, S, T)[r] == Zeros(7 * p.cellDim)
  {
    MulSucc(T, S);
  }

  // ---------------------------------------------------------------------
  // Gradients
  // ---------------------------------------------------------------------

  /** Error back-propagated to input row i (step i / S + 1): its gate errors times W_x. */
  function InputGradient(p: LstmParams, D: Mat, S: nat, T: nat): (g: Mat)
    requires ValidParams(p) && S > 0 && IsMat(D, (T + 2) * S, 7 * p.cellDim)
    ensures |g| == T * S
    ensures forall i :: 0 <= i < T * S ==> g[i] == Times(Gifo(D[S + i], p.cellDim), p.weiGifoX, p.inputDim)
  {
    MulSucc(T, S);
    seq(T * S, i requires 0 <= i < T * S => Times(Gifo(D[S + i], p.cellDim), p.weiGifoX, p.inputDim))
  }

  /**
   * Raw gradient of W_x: entry (j, c) pairs gate error j of blocks 1..T with
   * input column c of the same step.
   */
  function GradWeiGifoX(p: LstmParams, D: Mat, x: Mat, S: nat, T: nat): (g: Mat)
    requires ValidParams(p) && S > 0 && IsMat(D, (T + 2) * S, 7 * p.cellDim) && IsMat(x, T * S, p.inputDim)
    ensures IsMat(g, 4 * p.cellDim, p.inputDim)
  {
    MulSucc(T, S);
    seq(4 * p.cellDim, j requires 0 <= j < 4 * p.cellDim =>
      seq(p.inputDim, c requires 0 <= c < p.inputDim => Dot(ColSeg(D, S, T * S, j), ColSeg(x, 0, T * S, c))))
  }

  /**
   * Raw gradient of W_m: entry (j, c) pairs gate error j of blocks 1..T with
   * the m output c of blocks 0..T - 1, the recurrent input of the same step.
   */
  function GradWeiGifoM(p: LstmParams, D: Mat, Y: Mat, S: nat, T: nat): (g: Mat)
    requires ValidParams(p) && S > 0 && IsMat(D, (T + 2) * S, 7 * p.cellDim) && IsMat(Y, (T + 2) * S, 7 * p.cellDim)
    ensures IsMat(g, 4 * p.cellDim, p.cellDim)
  {
    MulSucc(T, S);
    var H := p.cellDim;
    seq(4 * H, j requires 0 <= j < 4 * H =>
      seq(H, c requires 0 <= c < H => Dot(ColSeg(D, S, T * S, j), ColSeg(Y, 0, T * S, 6 * H + c))))
  }

  /** Raw gradient of the bias: the column sums of the gate errors of blocks 1..T. */
  function GradBias(p: LstmParams, D: Mat, S: nat, T: nat): (g: Vec)
    requires ValidParams(p) && S > 0 && IsMat(D, (T + 2) * S, 7 * p.cellDim)
    ensures |g| == 4 * p.cellDim
  {
    MulSucc(T, S);
    seq(4 * p.cellDim, j requires 0 <= j < 4 * p.cellDim => Sum(ColSeg(D, S, T * S, j)))
  }

  /**
   * Raw gradient of a peephole: entry c pairs the gate error in slice `gate`
   * of blocks 1..T with the cell state c of the blocks starting at `cBlock`
   * (0 for the input and forget gates, which read c(t - 1); 1 for the output
   * gate, which reads c(t)).
   */
  function GradPeephole(p: LstmParams, D: Mat, Y: Mat, S: nat, T: nat, gate: nat, cBlock: nat): (g: Vec)
    requires ValidParams(p) && S > 0 && gate < 7 && cBlock <= 1
    requires IsMat(D, (T + 2) * S, 7 * p.cellDim) && IsMat(Y, (T + 2) * S, 7 * p.cellDim)
    ensures |g| == p.cellDim
  {
    MulSucc(T, S);
    var H := p.cellDim;
    seq(H, c requires 0 <= c < H =>
      Dot(ColSeg(D, S, T * S, gate * H + c), ColSeg(Y, cBlock * S, T * S, SliceC * H + c)))
  }

  /** The momentum update of an accumulator: mmt * corr + raw gradient. */
  function Blend(mmt: real, corr: Mat, g: Mat): (r: Mat)
    requires SameShape(corr, g)
    ensures SameShape(r, corr)
    ensures forall i, j :: 0 <= i < |corr| && 0 <= j < |corr[i]| ==> r[i][j] == mmt * corr[i][j] + g[i][j]
  {
    seq(|corr|, i requires 0 <= i < |corr| => BlendVec(mmt, corr[i], g[i]))
  }

  function BlendVec(mmt: real, corr: Vec, g: Vec): (r: Vec)
    requires |corr| == |g|
    ensures |r| == |corr| && forall j :: 0 <= j < |corr| ==> r[j] == mmt * corr[j] + g[j]
  {
    seq(|corr|, j requires 0 <= j < |corr| => mmt * corr[j] + g[j])
  }
}
