/**
 * The batched peephole LSTM layer `LstmParallel`: S streams run in lockstep
 * through one time-major propagation buffer of (T + 2) * S rows by 7 * H
 * columns, and one back-propagation buffer of the same shape.
 *
 * Each time step updates the seven H-wide column views (g, i, f, o, c, h, m)
 * of one row block in place. The views of a block are pairwise disjoint, so
 * here they are read into local S x H matrices, updated by the library
 * operations in the order of the source, and written back as one row block.
 */
module LstmParallelLayer {
  import opened CuMatrix
  import opened LstmSpec

  class LstmParallel {
    // Dimensions and parameters of the parent cell.
    const inputDim: nat
    const cellDim: nat
    var weiGifoX: Mat
    var weiGifoM: Mat
    var bias: Vec
    var pholeIC: Vec
    var pholeFC: Vec
    var pholeOC: Vec
    // Momentum-blended gradient accumulators, one per parameter.
    var weiGifoXCorr: Mat
    var weiGifoMCorr: Mat
    var biasCorr: Vec
    var pholeICCorr: Vec
    var pholeFCCorr: Vec
    var pholeOCCorr: Vec
    // The momentum of the training options.
    var momentum: real
    // Stream lengths; only their count S is used.
    var sequenceLengths: seq<int>
    // Activation buffer, kept for the backward pass, and error buffer.
    var propagateBuf: Mat
    var backpropagateBuf: Mat

    function Params(): LstmParams
      reads this
    {
      LstmParams(cellDim, inputDim, weiGifoX, weiGifoM, bias, pholeIC, pholeFC, pholeOC)
    }

    ghost predicate Valid()
      reads this
    {
      && ValidParams(Params())
      && IsMat(weiGifoXCorr, 4 * cellDim, inputDim)
      && IsMat(weiGifoMCorr, 4 * cellDim, cellDim)
      && |biasCorr| == 4 * cellDim
      && |pholeICCorr| == cellDim && |pholeFCCorr| == cellDim && |pholeOCCorr| == cellDim
    }

    /** Installs the stream lengths; the next passes run |lengths| streams in parallel. */
    method SetSeqLengths(lengths: seq<int>)
      modifies this`sequenceLengths
      ensures sequenceLengths == lengths && Valid() == old(Valid())
    {
      sequenceLengths := lengths;
    }

    /**
     * The forward pass over S = |sequenceLengths| streams of T = rows / S
     * steps each: the buffer is rebuilt from zero, filled with the
     * non-recurrent gate inputs, then stepped through t = 1..T; the output is
     * the m slice of blocks 1..T.
     */
    method PropagateFnc(k: Kernels, input: Mat) returns (out: Mat)
      requires Valid()
      requires StepCount(|input|, |sequenceLengths|).Some? && IsMat(input, |input|, inputDim)
      modifies this`propagateBuf
      ensures Valid()
      ensures var S := |sequenceLengths|;
        && propagateBuf == ForwardBuffer(k, Params(), Preacts(Params(), input), S, |input| / S)
        && out == ForwardOutput(k, Params(), Preacts(Params(), input), S, |input| / S)
    {
      var S := |sequenceLengths|;
      var T := |input| / S;
      assert |input| == T * S;
      MulSucc(T, S);
      ForwardPass(k, input, S, T);
      out := OutputOf(k, Params(), Preacts(Params(), input), S, T, propagateBuf);
    }

    /**
     * The propagation buffer of the forward pass: rebuilt from zero, blocks
     * 1..T filled with the non-recurrent gate inputs, then stepped through
     * t = 1..T.
     */
    method ForwardPass(k: Kernels, input: Mat, S: nat, T: nat)
      requires Valid() && S > 0 && |input| == T * S && (T + 2) * S == T * S + S + S
      requires IsMat(input, |input|, inputDim)
      modifies this`propagateBuf
      ensures propagateBuf == ForwardBuffer(k, Params(), Preacts(Params(), input), S, T)
    {
      var H := cellDim;
      // a fresh zero buffer, sentinel blocks included
      propagateBuf := ZeroMat((T + 2) * S, 7 * H);
      // pre-activations of all frames at once, before the time loop
      var yGifo := GateInputs(Params(), input, GifoCols(RowRange(propagateBuf, S, T * S), H));
      PendingStart(k, Params(), yGifo, S, T);
      propagateBuf := SetSub(propagateBuf, S, 0, yGifo);
      var t := 1;
      while t <= T
        invariant 1 <= t <= T + 1
        invariant propagateBuf == PendingForward(k, Params(), yGifo, S, T, t * S)
      {
        ForwardBlock(k, yGifo, S, T, t);
        t := t + 1;
      }
      PendingDone(k, Params(), yGifo, S, T);
    }

    /** Time step t of the forward pass: block t becomes final, the later blocks stay pending. */
    method ForwardBlock(k: Kernels, pre: Mat, S: nat, T: nat, t: nat)
      requires Valid() && S > 0 && IsMat(pre, T * S, 4 * cellDim) && 1 <= t <= T
      requires propagateBuf == PendingForward(k, Params(), pre, S, T, t * S)
      modifies this`propagateBuf
      ensures propagateBuf == PendingForward(k, Params(), pre, S, T, (t + 1) * S)
    {
      var lo := t * S;
      BlockRow(T + 1, S, t, 0);
      MulSucc(t, S);
      MulSucc(T, S);
      ghost var before := propagateBuf;
      ForwardStep(k, S, lo);
      PendingAdvance(k, Params(), pre, S, T, lo, before, propagateBuf);
    }

    /**
     * One forward time step: rewrites the row block of S rows starting at row
     * `lo` (= t * S) from itself and from the block before it (time t - 1).
     */
    method ForwardStep(k: Kernels, S: nat, lo: nat)
      requires Valid() && S > 0 && lo >= S
      requires lo + S <= |propagateBuf|
      requires forall r :: 0 <= r < |propagateBuf| ==> |propagateBuf[r]| == 7 * cellDim
      modifies this`propagateBuf
      ensures |propagateBuf| == old(|propagateBuf|)
      ensures forall r {:trigger propagateBuf[r]} :: 0 <= r < |propagateBuf| ==>
        propagateBuf[r] == (if lo <= r < lo + S
                            then CellRow(k, Params(), Gifo(old(propagateBuf[r]), cellDim), old(propagateBuf[r - S]))
                            else old(propagateBuf[r]))
    {
      hide CellRow;
      var H := cellDim;
      ghost var buf0 := propagateBuf;
      var yAll := RowRange(propagateBuf, lo, S);
      var yPrev := RowRange(propagateBuf, lo - S, S);
      var block := StepBlock(k, Params(), yAll, yPrev);
      propagateBuf := SetSub(propagateBuf, lo, 0, block);
      forall r {:trigger propagateBuf[r]} | lo <= r < lo + S
        ensures propagateBuf[r] == CellRow(k, Params(), Gifo(buf0[r], H), buf0[r - S])
      {
        var s := r - lo;
        assert yAll[s] == buf0[r] && yPrev[s] == buf0[r - S];
        assert |block[s]| == 7 * H;
        assert Splice(buf0[r], 0, block[s]) == block[s];
      }
    }

    /**
     * The backward pass: the error buffer is rebuilt from zero, the output
     * errors are copied into the m slice of blocks 1..T, and the blocks are
     * stepped through t = T..1. Then the input errors are computed and every
     * accumulator becomes momentum times itself plus its raw gradient. The
     * forward buffer must come from a forward pass over the same batch; the
     * forward output `output` is not read.
     */
    method BackpropagateFnc(k: Kernels, input: Mat, output: Mat, outDiff: Mat, inDiff0: Mat) returns (inDiff: Mat)
      requires Valid()
      requires StepCount(|input|, |sequenceLengths|).Some?
      requires var S := |sequenceLengths|; IsMat(propagateBuf, (|input| / S + 2) * S, 7 * cellDim)
      requires IsMat(input, |input|, inputDim) && IsMat(outDiff, |input|, cellDim) && IsMat(inDiff0, |input|, inputDim)
      modifies this`backpropagateBuf, this`weiGifoXCorr, this`weiGifoMCorr, this`biasCorr
      modifies this`pholeICCorr, this`pholeFCCorr, this`pholeOCCorr
      ensures Valid() && Params() == old(Params())
      ensures var S, Y := |sequenceLengths|, propagateBuf; var T := |input| / S;
        && backpropagateBuf == BackwardBuffer(k, Params(), Y, outDiff, S, T)
        && inDiff == InputGradient(Params(), backpropagateBuf, S, T)
        && weiGifoXCorr == Blend(momentum, old(weiGifoXCorr), GradWeiGifoX(Params(), backpropagateBuf, input, S, T))
        && weiGifoMCorr == Blend(momentum, old(weiGifoMCorr), GradWeiGifoM(Params(), backpropagateBuf, Y, S, T))
        && biasCorr == BlendVec(momentum, old(biasCorr), GradBias(Params(), backpropagateBuf, S, T))
        && pholeICCorr == BlendVec(momentum, old(pholeICCorr), GradPeephole(Params(), backpropagateBuf, Y, S, T, SliceI, 0))
        && pholeFCCorr == BlendVec(momentum, old(pholeFCCorr), GradPeephole(Params(), backpropagateBuf, Y, S, T, SliceF, 0))
        && pholeOCCorr == BlendVec(momentum, old(pholeOCCorr), GradPeephole(Params(), backpropagateBuf, Y, S, T, SliceO, 1))
    {
      var S := |sequenceLengths|;
      var T := |input| / S;
      var H := cellDim;
      assert |input| == T * S;
      MulSucc(T, S);
      BackwardPass(k, outDiff, S, T);
      var dGifo := GifoCols(RowRange(backpropagateBuf, S, T * S), H);
      // in_diff = gate errors of blocks 1..T times W_x
      inDiff := AddMatMat(1.0, dGifo, NoTrans, weiGifoX, NoTrans, 0.0, inDiff0);
      InputGradientFrom(Params(), backpropagateBuf, S, T, inDiff0);
      UpdateAccumulators(input, S, T);
    }

    /**
     * The error buffer of the backward pass: rebuilt from zero, the output
     * errors copied into the m slice of blocks 1..T, then the blocks stepped
     * through t = T..1. Blocks 0 and T + 1 stay zero.
     */
    method BackwardPass(k: Kernels, outDiff: Mat, S: nat, T: nat)
      requires Valid() && S > 0 && (T + 2) * S == T * S + S + S
      requires IsMat(propagateBuf, (T + 2) * S, 7 * cellDim) && IsMat(outDiff, T * S, cellDim)
      modifies this`backpropagateBuf
      ensures backpropagateBuf == BackwardBuffer(k, Params(), propagateBuf, outDiff, S, T)
    {
      var H := cellDim;
      // a fresh zero error buffer
      backpropagateBuf := ZeroMat((T + 2) * S, 7 * H);
      // the output errors go to the m slice of blocks 1..T
      BackStart(k, Params(), propagateBuf, outDiff, S, T);
      backpropagateBuf := SetSub(backpropagateBuf, S, 6 * H, outDiff);
      MulSucc(T, S);
      BackwardSteps(k, outDiff, S, T);
      BackDone(k, Params(), propagateBuf, outDiff, S, T);
    }

    /** Steps the error buffer through t = T..1; afterwards every row of blocks 1..T is final. */
    method BackwardSteps(k: Kernels, outDiff: Mat, S: nat, T: nat)
      requires Valid() && S > 0 && (T + 2) * S == T * S + S + S && (T + 1) * S == T * S + S
      requires IsMat(propagateBuf, (T + 2) * S, 7 * cellDim) && IsMat(outDiff, T * S, cellDim)
      requires backpropagateBuf == PendingBackward(k, Params(), propagateBuf, outDiff, S, T, (T + 1) * S)
      modifies this`backpropagateBuf
      ensures backpropagateBuf == PendingBackward(k, Params(), propagateBuf, outDiff, S, T, S)
    {
      var t := T;
      while t >= 1
        invariant 0 <= t <= T
        invariant backpropagateBuf == PendingBackward(k, Params(), propagateBuf, outDiff, S, T, (t + 1) * S)
      {
        BackwardBlock(k, outDiff, S, T, t);
        t := t - 1;
      }
      assert (t + 1) * S == S;
    }

    /** Time step t of the backward pass: block t becomes final, the earlier blocks stay pending. */
    method BackwardBlock(k: Kernels, outDiff: Mat, S: nat, T: nat, t: nat)
      requires Valid() && S > 0 && (T + 2) * S == T * S + S + S && 1 <= t <= T
      requires IsMat(propagateBuf, (T + 2) * S, 7 * cellDim) && IsMat(outDiff, T * S, cellDim)
      requires backpropagateBuf == PendingBackward(k, Params(), propagateBuf, outDiff, S, T, (t + 1) * S)
      modifies this`backpropagateBuf
      ensures backpropagateBuf == PendingBackward(k, Params(), propagateBuf, outDiff, S, T, t * S)
    {
      var lo := t * S;
      MulSucc(t, S);
      MulAtLeast(t, S);
      MulLe(t, T, S);
      PendingSeed(k, Params(), propagateBuf, outDiff, S, T, (t + 1) * S);
      ghost var before := backpropagateBuf;
      BackwardStep(k, S, lo);
      PendingRetreat(k, Params(), propagateBuf, outDiff, S, T, lo, before, backpropagateBuf);
    }

    /** The momentum updates of the six accumulators from the finished error buffer. */
    method UpdateAccumulators(input: Mat, S: nat, T: nat)
      requires Valid() && S > 0 && (T + 2) * S == T * S + S + S
      requires IsMat(propagateBuf, (T + 2) * S, 7 * cellDim) && IsMat(backpropagateBuf, (T + 2) * S, 7 * cellDim)
      requires IsMat(input, T * S, inputDim)
      modifies this`weiGifoXCorr, this`weiGifoMCorr, this`biasCorr, this`pholeICCorr, this`pholeFCCorr, this`pholeOCCorr
      ensures Valid()
      ensures var D, Y := backpropagateBuf, propagateBuf;
        && weiGifoXCorr == Blend(momentum, old(weiGifoXCorr), GradWeiGifoX(Params(), D, input, S, T))
        && weiGifoMCorr == Blend(momentum, old(weiGifoMCorr), GradWeiGifoM(Params(), D, Y, S, T))
        && biasCorr == BlendVec(momentum, old(biasCorr), GradBias(Params(), D, S, T))
        && pholeICCorr == BlendVec(momentum, old(pholeICCorr), GradPeephole(Params(), D, Y, S, T, SliceI, 0))
        && pholeFCCorr == BlendVec(momentum, old(pholeFCCorr), GradPeephole(Params(), D, Y, S, T, SliceF, 0))
        && pholeOCCorr == BlendVec(momentum, old(pholeOCCorr), GradPeephole(Params(), D, Y, S, T, SliceO, 1))
    {
      var mmt := momentum;
      var D, Y := backpropagateBuf, propagateBuf;
      var x := AccumulateWeiGifoX(Params(), D, input, S, T, mmt, weiGifoXCorr);
      var m := AccumulateWeiGifoM(Params(), D, Y, S, T, mmt, weiGifoMCorr);
      var b := AccumulateBias(Params(), D, S, T, mmt, biasCorr);
      var ic := AccumulatePeephole(Params(), D, Y, S, T, SliceI, 0, mmt, pholeICCorr);
      var fc := AccumulatePeephole(Params(), D, Y, S, T, SliceF, 0, mmt, pholeFCCorr);
      var oc := AccumulatePeephole(Params(), D, Y, S, T, SliceO, 1, mmt, pholeOCCorr);
      weiGifoXCorr, weiGifoMCorr, biasCorr, pholeICCorr, pholeFCCorr, pholeOCCorr := x, m, b, ic, fc, oc;
    }

    /**
     * One backward time step: rewrites the row block of S rows starting at
     * row `lo` (= t * S) from the forward rows at t - 1, t, t + 1, its own
     * output errors and the finished error block at t + 1. Its c slice must
     * still be zero, as d_c is accumulated into.
     */
    method BackwardStep(k: Kernels, S: nat, lo: nat)
      requires Valid() && S > 0 && lo >= S
      requires lo + 2 * S <= |backpropagateBuf| && |propagateBuf| == |backpropagateBuf|
      requires forall r :: 0 <= r < |propagateBuf| ==> |propagateBuf[r]| == 7 * cellDim
      requires forall r :: 0 <= r < |backpropagateBuf| ==> |backpropagateBuf[r]| == 7 * cellDim
      requires forall r :: lo <= r < lo + S ==> Slice(backpropagateBuf[r], SliceC, cellDim) == Zeros(cellDim)
      modifies this`backpropagateBuf
      ensures |backpropagateBuf| == old(|backpropagateBuf|)
      ensures forall r {:trigger backpropagateBuf[r]} :: lo <= r < lo + S ==>
        backpropagateBuf[r] == BackCell(k, Params(), propagateBuf[r], propagateBuf[r - S], propagateBuf[r + S],
                                        Slice(old(backpropagateBuf[r]), SliceM, cellDim), old(backpropagateBuf[r + S]))
      ensures forall r {:trigger backpropagateBuf[r]} :: 0 <= r < |backpropagateBuf| && !(lo <= r < lo + S) ==>
        backpropagateBuf[r] == old(backpropagateBuf[r])
    {
      hide BackCell;
      var H := cellDim;
      ghost var buf0 := backpropagateBuf;
      var y, yPrev, yNext := RowRange(propagateBuf, lo, S), RowRange(propagateBuf, lo - S, S), RowRange(propagateBuf, lo + S, S);
      var d, dNext := RowRange(backpropagateBuf, lo, S), RowRange(backpropagateBuf, lo + S, S);
      var block := BackBlock(k, Params(), y, yPrev, yNext, d, dNext);
      backpropagateBuf := SetSub(backpropagateBuf, lo, 0, block);
      BackStepRows(k, Params(), propagateBuf, buf0, S, lo, y, yPrev, yNext, d, dNext, block, backpropagateBuf);
    }
  }

  /** Writing the stepped block back puts the backward cell of each of its rows in place. */
  lemma BackStepRows(k: Kernels, p: LstmParams, Y: Mat, D: Mat, S: nat, lo: nat,
                     y: Mat, yPrev: Mat, yNext: Mat, d: Mat, dNext: Mat, block: Mat, after: Mat)
    requires ValidParams(p) && S <= lo && lo + 2 * S <= |D| && |Y| == |D|
    requires forall r :: 0 <= r < |D| ==> |D[r]| == 7 * p.cellDim
    requires forall r :: 0 <= r < |Y| ==> |Y[r]| == 7 * p.cellDim
    requires y == RowRange(Y, lo, S) && yPrev == RowRange(Y, lo - S, S) && yNext == RowRange(Y, lo + S, S)
    requires d == RowRange(D, lo, S) && dNext == RowRange(D, lo + S, S)
    requires IsMat(block, S, 7 * p.cellDim)
    requires forall s :: 0 <= s < S ==>
      block[s] == BackCell(k, p, y[s], yPrev[s], yNext[s], Slice(d[s], SliceM, p.cellDim), dNext[s])
    requires after == SetSub(D, lo, 0, block)
    ensures forall r {:trigger after[r]} :: lo <= r < lo + S ==>
      after[r] == BackCell(k, p, Y[r], Y[r - S], Y[r + S], Slice(D[r], SliceM, p.cellDim), D[r + S])
  {
    hide BackCell;
    forall r | lo <= r < lo + S
      ensures after[r] == BackCell(k, p, Y[r], Y[r - S], Y[r + S], Slice(D[r], SliceM, p.cellDim), D[r + S])
    {
      var s := r - lo;
      assert y[s] == Y[r] && yPrev[s] == Y[r - S] && yNext[s] == Y[r + S];
      assert d[s] == D[r] && dNext[s] == D[r + S];
      assert Splice(D[r], 0, block[s]) == block[s];
    }
  }

  /**
   * The back-propagation buffer part way through the backward pass: rows
   * from `lo` on are final, the rows of the remaining blocks 1..t hold only
   * their output errors in the m slice, and block 0 is zero.
   */
  ghost function PendingBackward(k: Kernels, p: LstmParams, Y: Mat, OD: Mat, S: nat, T: nat, lo: nat): (buf: Mat)
    requires ValidParams(p) && S > 0 && S <= lo <= (T + 1) * S
    requires IsMat(Y, (T + 2) * S, 7 * p.cellDim) && IsMat(OD, T * S, p.cellDim)
    ensures IsMat(buf, (T + 2) * S, 7 * p.cellDim)
  {
    seq((T + 2) * S, r requires 0 <= r < (T + 2) * S => PendingBackRow(k, p, Y, OD, S, T, lo, r))
  }

  ghost function PendingBackRow(k: Kernels, p: LstmParams, Y: Mat, OD: Mat, S: nat, T: nat, lo: nat, r: nat): (row: Vec)
    requires ValidParams(p) && S > 0 && S <= lo <= (T + 1) * S && r < (T + 2) * S
    requires IsMat(Y, (T + 2) * S, 7 * p.cellDim) && IsMat(OD, T * S, p.cellDim)
    ensures |row| == 7 * p.cellDim
  {
    MulSucc(T, S);
    if lo <= r then BackwardBuffer(k, p, Y, OD, S, T)[r]
    else if S <= r then Zeros(6 * p.cellDim) + OD[r - S]
    else Zeros(7 * p.cellDim)
  }

  /** A pending row has a zero c slice and its output error in the m slice. */
  lemma PendingSeed(k: Kernels, p: LstmParams, Y: Mat, OD: Mat, S: nat, T: nat, lo: nat)
    requires ValidParams(p) && S > 0 && 2 * S <= lo <= (T + 1) * S
    requires IsMat(Y, (T + 2) * S, 7 * p.cellDim) && IsMat(OD, T * S, p.cellDim)
    ensures var buf := PendingBackward(k, p, Y, OD, S, T, lo);
      forall r :: lo - S <= r < lo ==>
        Slice(buf[r], SliceC, p.cellDim) == Zeros(p.cellDim) && Slice(buf[r], SliceM, p.cellDim) == OD[r - S]
  {
    var H := p.cellDim;
    var buf := PendingBackward(k, p, Y, OD, S, T, lo);
    forall r | lo - S <= r < lo
      ensures Slice(buf[r], SliceC, H) == Zeros(H) && Slice(buf[r], SliceM, H) == OD[r - S]
    {
      assert buf[r] == Zeros(6 * H) + OD[r - S];
    }
  }

  /** Copying the output errors into the m slice of blocks 1..T of a zero buffer starts the pass. */
  lemma BackStart(k: Kernels, p: LstmParams, Y: Mat, OD: Mat, S: nat, T: nat)
    requires ValidParams(p) && S > 0 && (T + 2) * S == T * S + S + S
    requires IsMat(Y, (T + 2) * S, 7 * p.cellDim) && IsMat(OD, T * S, p.cellDim)
    ensures SetSub(ZeroMat((T + 2) * S, 7 * p.cellDim), S, 6 * p.cellDim, OD) == PendingBackward(k, p, Y, OD, S, T, (T + 1) * S)
  {
    var H := p.cellDim;
    var z := ZeroMat((T + 2) * S, 7 * H);
    var buf := SetSub(z, S, 6 * H, OD);
    var want := PendingBackward(k, p, Y, OD, S, T, (T + 1) * S);
    forall r | 0 <= r < (T + 2) * S
      ensures buf[r] == want[r]
    {
      if (T + 1) * S <= r {
        BackwardSentinelRow(k, p, Y, OD, S, T, r);
      } else if S <= r {
        assert Splice(z[r], 6 * H, OD[r - S]) == Zeros(6 * H) + OD[r - S];
      }
    }
  }

  /** One backward step over block lo / S turns the pending rows of that block into final ones. */
  lemma PendingRetreat(k: Kernels, p: LstmParams, Y: Mat, OD: Mat, S: nat, T: nat, lo: nat, before: Mat, after: Mat)
    requires ValidParams(p) && S > 0 && S <= lo && lo + S <= (T + 1) * S && (T + 2) * S == T * S + S + S
    requires IsMat(Y, (T + 2) * S, 7 * p.cellDim) && IsMat(OD, T * S, p.cellDim)
    requires before == PendingBackward(k, p, Y, OD, S, T, lo + S)
    requires |after| == |before|
    requires forall r {:trigger after[r]} :: lo <= r < lo + S ==>
      after[r] == BackCell(k, p, Y[r], Y[r - S], Y[r + S], Slice(before[r], SliceM, p.cellDim), before[r + S])
    requires forall r {:trigger after[r]} :: 0 <= r < |after| && !(lo <= r < lo + S) ==> after[r] == before[r]
    ensures after == PendingBackward(k, p, Y, OD, S, T, lo)
  {
    var want := PendingBackward(k, p, Y, OD, S, T, lo);
    forall r | 0 <= r < |after|
      ensures after[r] == want[r]
    {
      if lo <= r < lo + S {
        RetreatRow(k, p, Y, OD, S, T, lo, r);
        assert after[r] == BackCell(k, p, Y[r], Y[r - S], Y[r + S], Slice(before[r], SliceM, p.cellDim), before[r + S]);
      } else {
        KeepRow(k, p, Y, OD, S, T, lo, r);
        assert after[r] == before[r];
      }
    }
  }

  /** A row of the stepped block becomes its backward cell. */
  lemma RetreatRow(k: Kernels, p: LstmParams, Y: Mat, OD: Mat, S: nat, T: nat, lo: nat, r: nat)
    requires ValidParams(p) && S > 0 && S <= lo && lo + S <= (T + 1) * S && (T + 2) * S == T * S + S + S
    requires IsMat(Y, (T + 2) * S, 7 * p.cellDim) && IsMat(OD, T * S, p.cellDim)
    requires lo <= r < lo + S
    ensures var before, want := PendingBackward(k, p, Y, OD, S, T, lo + S), PendingBackward(k, p, Y, OD, S, T, lo);
      want[r] == BackCell(k, p, Y[r], Y[r - S], Y[r + S], Slice(before[r], SliceM, p.cellDim), before[r + S])
  {
    hide BackCell;
    var H := p.cellDim;
    var BB := BackwardBuffer(k, p, Y, OD, S, T);
    var before := PendingBackward(k, p, Y, OD, S, T, lo + S);
    BackwardBufferStep(k, p, Y, OD, S, T, r);
    assert before[r] == Zeros(6 * H) + OD[r - S];
    assert Slice(before[r], SliceM, H) == OD[r - S];
    assert before[r + S] == BB[r + S];
  }

  /** Rows outside the stepped block keep their value. */
  lemma KeepRow(k: Kernels, p: LstmParams, Y: Mat, OD: Mat, S: nat, T: nat, lo: nat, r: nat)
    requires ValidParams(p) && S > 0 && S <= lo && lo + S <= (T + 1) * S && (T + 2) * S == T * S + S + S
    requires IsMat(Y, (T + 2) * S, 7 * p.cellDim) && IsMat(OD, T * S, p.cellDim)
    requires r < (T + 2) * S && !(lo <= r < lo + S)
    ensures PendingBackward(k, p, Y, OD, S, T, lo)[r] == PendingBackward(k, p, Y, OD, S, T, lo + S)[r]
  {
  }

  /** After the step at t = 1 every row is final. */
  lemma BackDone(k: Kernels, p: LstmParams, Y: Mat, OD: Mat, S: nat, T: nat)
    requires ValidParams(p) && S > 0 && (T + 1) * S == T * S + S
    requires IsMat(Y, (T + 2) * S, 7 * p.cellDim) && IsMat(OD, T * S, p.cellDim)
    ensures PendingBackward(k, p, Y, OD, S, T, S) == BackwardBuffer(k, p, Y, OD, S, T)
  {
    var buf := BackwardBuffer(k, p, Y, OD, S, T);
    var got := PendingBackward(k, p, Y, OD, S, T, S);
    forall r | 0 <= r < (T + 2) * S
      ensures got[r] == buf[r]
    {
      if r < S {
        BackwardSentinelRow(k, p, Y, OD, S, T, r);
      }
    }
  }

  /** The input errors computed from the finished buffer are the input gradient. */
  lemma InputGradientFrom(p: LstmParams, D: Mat, S: nat, T: nat, dst: Mat)
    requires ValidParams(p) && S > 0 && (T + 2) * S == T * S + S + S
    requires IsMat(D, (T + 2) * S, 7 * p.cellDim) && IsMat(dst, T * S, p.inputDim)
    ensures AddMatMat(1.0, GifoCols(RowRange(D, S, T * S), p.cellDim), NoTrans, p.weiGifoX, NoTrans, 0.0, dst)
            == InputGradient(p, D, S, T)
  {
    var A := GifoCols(RowRange(D, S, T * S), p.cellDim);
    var got := AddMatMat(1.0, A, NoTrans, p.weiGifoX, NoTrans, 0.0, dst);
    var want := InputGradient(p, D, S, T);
    forall i | 0 <= i < T * S
      ensures got[i] == want[i]
    {
      AddMatMatRowNN(A, p.weiGifoX, dst, i);
    }
  }

  /**
   * corr := dGifo^T * x + mmt * corr, where dGifo is the gate-error slice of
   * blocks 1..T: the accumulator becomes the momentum blend of the raw
   * gradient of the input weights.
   */
  method AccumulateWeiGifoX(p: LstmParams, D: Mat, x: Mat, S: nat, T: nat, mmt: real, corr: Mat) returns (r: Mat)
    requires ValidParams(p) && S > 0 && (T + 2) * S == T * S + S + S
    requires IsMat(D, (T + 2) * S, 7 * p.cellDim) && IsMat(x, T * S, p.inputDim)
    requires IsMat(corr, 4 * p.cellDim, p.inputDim)
    ensures r == Blend(mmt, corr, GradWeiGifoX(p, D, x, S, T))
  {
    hide Dot;
    var H := p.cellDim;
    var A := ColRange(RowRange(D, S, T * S), 0, 4 * H);
    r := AddMatMat(1.0, A, Trans, x, NoTrans, mmt, corr);
    var want := Blend(mmt, corr, GradWeiGifoX(p, D, x, S, T));
    forall j | 0 <= j < 4 * H
      ensures r[j] == want[j]
    {
      ColOfView(D, S, T * S, 0, 4 * H, j);
      assert OpRow(A, Trans, j) == ColSeg(D, S, T * S, j);
      forall c | 0 <= c < p.inputDim
        ensures r[j][c] == want[j][c]
      {
        ColOfMat(x, c);
        assert r[j][c] == Dot(ColSeg(D, S, T * S, j), ColSeg(x, 0, T * S, c)) + mmt * corr[j][c];
      }
    }
  }

  /**
   * corr := dGifo^T * m + mmt * corr, with m the cell outputs of blocks
   * 0..T-1 (the recurrent inputs of blocks 1..T).
   */
  method AccumulateWeiGifoM(p: LstmParams, D: Mat, Y: Mat, S: nat, T: nat, mmt: real, corr: Mat) returns (r: Mat)
    requires ValidParams(p) && S > 0 && (T + 2) * S == T * S + S + S
    requires IsMat(D, (T + 2) * S, 7 * p.cellDim) && IsMat(Y, (T + 2) * S, 7 * p.cellDim)
    requires IsMat(corr, 4 * p.cellDim, p.cellDim)
    ensures r == Blend(mmt, corr, GradWeiGifoM(p, D, Y, S, T))
  {
    hide Dot;
    var H := p.cellDim;
    var A := ColRange(RowRange(D, S, T * S), 0, 4 * H);
    var B := ColRange(RowRange(Y, 0, T * S), 6 * H, H);
    r := AddMatMat(1.0, A, Trans, B, NoTrans, mmt, corr);
    var want := Blend(mmt, corr, GradWeiGifoM(p, D, Y, S, T));
    forall j | 0 <= j < 4 * H
      ensures r[j] == want[j]
    {
      ColOfView(D, S, T * S, 0, 4 * H, j);
      assert OpRow(A, Trans, j) == ColSeg(D, S, T * S, j);
      forall c | 0 <= c < H
        ensures r[j][c] == want[j][c]
      {
        ColOfView(Y, 0, T * S, 6 * H, H, c);
        assert OpCol(B, NoTrans, c) == ColSeg(Y, 0, T * S, 6 * H + c);
        assert r[j][c] == Dot(ColSeg(D, S, T * S, j), ColSeg(Y, 0, T * S, 6 * H + c)) + mmt * corr[j][c];
      }
    }
  }

  /** corr := (column sums of dGifo) + mmt * corr. */
  method AccumulateBias(p: LstmParams, D: Mat, S: nat, T: nat, mmt: real, corr: Vec) returns (r: Vec)
    requires ValidParams(p) && S > 0 && (T + 2) * S == T * S + S + S
    requires IsMat(D, (T + 2) * S, 7 * p.cellDim) && |corr| == 4 * p.cellDim
    ensures r == BlendVec(mmt, corr, GradBias(p, D, S, T))
  {
    var A := ColRange(RowRange(D, S, T * S), 0, 4 * p.cellDim);
    r := AddRowSumMat(1.0, A, mmt, corr);
    var want := BlendVec(mmt, corr, GradBias(p, D, S, T));
    forall j | 0 <= j < 4 * p.cellDim
      ensures r[j] == want[j]
    {
      ColOfView(D, S, T * S, 0, 4 * p.cellDim, j);
    }
  }

  /**
   * corr := diag(dGate^T * c) + mmt * corr, where dGate is the error slice
   * `gate` of blocks 1..T and c the cell states of the T blocks starting at
   * block cBlock.
   */
  method AccumulatePeephole(p: LstmParams, D: Mat, Y: Mat, S: nat, T: nat, gate: nat, cBlock: nat, mmt: real, corr: Vec)
    returns (r: Vec)
    requires ValidParams(p) && S > 0 && (T + 2) * S == T * S + S + S && gate < 7 && cBlock <= 1
    requires IsMat(D, (T + 2) * S, 7 * p.cellDim) && IsMat(Y, (T + 2) * S, 7 * p.cellDim) && |corr| == p.cellDim
    ensures r == BlendVec(mmt, corr, GradPeephole(p, D, Y, S, T, gate, cBlock))
  {
    hide Dot;
    var H := p.cellDim;
    PeepholeOffsets(gate, H, cBlock, S, T);
    var c0, r0 := gate * H, cBlock * S;
    var A := ColRange(RowRange(D, S, T * S), c0, H);
    var B := ColRange(RowRange(Y, r0, T * S), SliceC * H, H);
    r := AddDiagMatMat(1.0, A, Trans, B, NoTrans, mmt, corr);
    DiagOfViews(D, S, c0, Y, r0, SliceC * H, T * S, H, mmt, corr);
    var g := GradPeephole(p, D, Y, S, T, gate, cBlock);
    assert forall c :: 0 <= c < H ==> g[c] == Dot(ColSeg(D, S, T * S, c0 + c), ColSeg(Y, r0, T * S, SliceC * H + c));
  }

  /** The column slice of a gate and the T blocks from block cBlock lie inside the buffers. */
  lemma PeepholeOffsets(gate: nat, H: nat, cBlock: nat, S: nat, T: nat)
    requires gate < 7 && cBlock <= 1
    ensures gate * H + H <= 7 * H && cBlock * S + T * S <= (T + 2) * S
  {
    MulLe(gate + 1, 7, H);
    MulSucc(T, S);
    if cBlock == 1 { assert cBlock * S == S; } else { assert cBlock * S == 0; }
  }

  /**
   * The propagation buffer part way through the forward pass over the
   * pre-activations `pre`: rows before `lo` are final, the rows of the
   * remaining blocks 1..T hold only their non-recurrent gate inputs, and the
   * last block is zero.
   */
  ghost function PendingForward(k: Kernels, p: LstmParams, pre: Mat, S: nat, T: nat, lo: nat): (buf: Mat)
    requires ValidParams(p) && S > 0 && IsMat(pre, T * S, 4 * p.cellDim) && S <= lo
    ensures IsMat(buf, (T + 2) * S, 7 * p.cellDim)
  {
    seq((T + 2) * S, r requires 0 <= r < (T + 2) * S => PendingRow(k, p, pre, S, T, lo, r))
  }

  ghost function PendingRow(k: Kernels, p: LstmParams, pre: Mat, S: nat, T: nat, lo: nat, r: nat): (row: Vec)
    requires ValidParams(p) && S > 0 && IsMat(pre, T * S, 4 * p.cellDim) && S <= lo && r < (T + 2) * S
    ensures |row| == 7 * p.cellDim
  {
    MulSucc(T, S);
    if r < lo then ForwardBuffer(k, p, pre, S, T)[r]
    else if r < (T + 1) * S then pre[r - S] + Zeros(3 * p.cellDim)
    else Zeros(7 * p.cellDim)
  }

  /** The non-recurrent gate inputs of every input row: x W_x^T + bias, written into `dst`. */
  method GateInputs(p: LstmParams, input: Mat, dst: Mat) returns (yGifo: Mat)
    requires ValidParams(p) && IsMat(input, |input|, p.inputDim) && IsMat(dst, |input|, 4 * p.cellDim)
    ensures yGifo == Preacts(p, input)
  {
    yGifo := AddMatMat(1.0, input, NoTrans, p.weiGifoX, Trans, 0.0, dst);
    var y1 := yGifo;
    yGifo := AddVecToRows(1.0, p.bias, 1.0, yGifo);
    forall i | 0 <= i < |input|
      ensures yGifo[i] == Preact(p, input[i])
    {
      AddMatMatRowNT(input, p.weiGifoX, dst, i);
      AddVecToRowsRow(p.bias, y1, i);
    }
  }

  /** Writing the gate inputs into blocks 1..T of a zero buffer starts the pass. */
  lemma PendingStart(k: Kernels, p: LstmParams, pre: Mat, S: nat, T: nat)
    requires ValidParams(p) && S > 0 && IsMat(pre, T * S, 4 * p.cellDim)
    requires (T + 2) * S == T * S + S + S
    ensures SetSub(ZeroMat((T + 2) * S, 7 * p.cellDim), S, 0, pre) == PendingForward(k, p, pre, S, T, S)
  {
    MulSucc(T, S);
    var H := p.cellDim;
    var z := ZeroMat((T + 2) * S, 7 * H);
    var buf := SetSub(z, S, 0, pre);
    var want := PendingForward(k, p, pre, S, T, S);
    forall r | 0 <= r < (T + 2) * S
      ensures buf[r] == want[r]
    {
      if r < S || (T + 1) * S <= r {
        ForwardSentinelRow(k, p, pre, S, T, r);
      } else {
        assert Splice(z[r], 0, pre[r - S]) == pre[r - S] + Zeros(3 * H);
      }
    }
  }

  /** One forward step over block lo / S turns the pending rows of that block into final ones. */
  lemma PendingAdvance(k: Kernels, p: LstmParams, pre: Mat, S: nat, T: nat, lo: nat, before: Mat, after: Mat)
    requires ValidParams(p) && S > 0 && IsMat(pre, T * S, 4 * p.cellDim) && S <= lo && lo + S <= (T + 1) * S
    requires before == PendingForward(k, p, pre, S, T, lo)
    requires |after| == |before|
    requires forall r {:trigger after[r]} :: 0 <= r < |after| ==>
      after[r] == (if lo <= r < lo + S then CellRow(k, p, Gifo(before[r], p.cellDim), before[r - S]) else before[r])
    ensures after == PendingForward(k, p, pre, S, T, lo + S)
  {
    var want := PendingForward(k, p, pre, S, T, lo + S);
    forall r | 0 <= r < |after|
      ensures after[r] == want[r]
    {
      if lo <= r < lo + S {
        ForwardBufferStep(k, p, pre, S, T, r);
        assert before[r] == pre[r - S] + Zeros(3 * p.cellDim);
        assert Gifo(before[r], p.cellDim) == pre[r - S];
        assert before[r - S] == ForwardBuffer(k, p, pre, S, T)[r - S];
        assert want[r] == ForwardBuffer(k, p, pre, S, T)[r];
      } else {
        assert before[r] == PendingRow(k, p, pre, S, T, lo, r);
        assert want[r] == PendingRow(k, p, pre, S, T, lo + S, r);
      }
    }
  }

  /** After the last step every row is final. */
  lemma PendingDone(k: Kernels, p: LstmParams, pre: Mat, S: nat, T: nat)
    requires ValidParams(p) && S > 0 && IsMat(pre, T * S, 4 * p.cellDim) && (T + 1) * S == T * S + S
    ensures PendingForward(k, p, pre, S, T, (T + 1) * S) == ForwardBuffer(k, p, pre, S, T)
  {
    MulSucc(T, S);
    var buf := ForwardBuffer(k, p, pre, S, T);
    var got := PendingForward(k, p, pre, S, T, (T + 1) * S);
    forall r | 0 <= r < (T + 2) * S
      ensures got[r] == buf[r]
    {
      if (T + 1) * S <= r {
        ForwardSentinelRow(k, p, pre, S, T, r);
      }
    }
  }

  /** The layer output: the m slice of blocks 1..T of the finished buffer. */
  method OutputOf(k: Kernels, p: LstmParams, pre: Mat, S: nat, T: nat, buf: Mat) returns (out: Mat)
    requires ValidParams(p) && S > 0 && IsMat(pre, T * S, 4 * p.cellDim) && (T + 2) * S == T * S + S + S
    requires buf == ForwardBuffer(k, p, pre, S, T)
    ensures out == ForwardOutput(k, p, pre, S, T)
  {
    out := SliceCols(RowRange(buf, S, T * S), SliceM, p.cellDim);
  }

  /** One forward step over a block of rows: row s becomes the cell row of yAll[s] after yPrev[s]. */
  method StepBlock(k: Kernels, p: LstmParams, yAll: Mat, yPrev: Mat) returns (block: Mat)
    requires ValidParams(p) && IsMat(yAll, |yPrev|, 7 * p.cellDim) && IsMat(yPrev, |yPrev|, 7 * p.cellDim)
    ensures |block| == |yAll|
    ensures forall s :: 0 <= s < |yAll| ==> block[s] == CellRow(k, p, Gifo(yAll[s], p.cellDim), yPrev[s])
  {
    var H := p.cellDim;
    var yGifo := StepRecurrent(p, yAll, yPrev);
    var cPrev := SliceCols(yPrev, SliceC, H);
    var yG, yI, yF, yOIn := StepGates(k, p, yGifo, cPrev);
    var yC, yH, yO, yM := StepCell(k, p, yG, yI, yF, yOIn, cPrev, SliceCols(yAll, SliceC, H), SliceCols(yAll, SliceM, H));
    block := Rows7(yG, yI, yF, yO, yC, yH, yM);
    forall s | 0 <= s < |yAll|
      ensures block[s] == CellRow(k, p, Gifo(yAll[s], H), yPrev[s])
    {
      CellRowFrom(k, p, Gifo(yAll[s], H), yPrev[s], yG[s], yI[s], yF[s], yO[s], yC[s], yH[s], yM[s]);
    }
  }

  /**
   * The gate part of one forward step over a block of rows: from the gate
   * pre-activations and the previous cell state, the input and forget gates
   * peep at c(t - 1), and g, i, f are squashed. The output gate is returned
   * before its peephole and squashing.
   */
  method StepGates(k: Kernels, p: LstmParams, yGifo: Mat, cPrev: Mat)
    returns (yG: Mat, yI: Mat, yF: Mat, yO: Mat)
    requires ValidParams(p) && IsMat(yGifo, |cPrev|, 4 * p.cellDim) && IsMat(cPrev, |cPrev|, p.cellDim)
    ensures IsMat(yG, |cPrev|, p.cellDim) && IsMat(yI, |cPrev|, p.cellDim)
    ensures IsMat(yF, |cPrev|, p.cellDim) && IsMat(yO, |cPrev|, p.cellDim)
    ensures forall s :: 0 <= s < |cPrev| ==>
      var H, z := p.cellDim, yGifo[s];
      && yG[s] == Map(k.tanh, GatePart(z, SliceG, H))
      && yI[s] == Map(k.sigmoid, Add(GatePart(z, SliceI, H), Mul(cPrev[s], p.pholeIC)))
      && yF[s] == Map(k.sigmoid, Add(GatePart(z, SliceF, H), Mul(cPrev[s], p.pholeFC)))
      && yO[s] == GatePart(z, SliceO, H)
  {
    var H := p.cellDim;
    yG, yI, yF, yO := GateCols(yGifo, SliceG, H), GateCols(yGifo, SliceI, H), GateCols(yGifo, SliceF, H), GateCols(yGifo, SliceO, H);
    // input and forget gates peep at c(t - 1)
    var yI0, yF0, yG0 := yI, yF, yG;
    yI := AddMatDiagVec(1.0, cPrev, p.pholeIC, 1.0, yI);
    yF := AddMatDiagVec(1.0, cPrev, p.pholeFC, 1.0, yF);
    var yI1, yF1 := yI, yF;
    yI := Sigmoid(k, yI);
    yF := Sigmoid(k, yF);
    yG := Tanh(k, yG);
    forall s | 0 <= s < |cPrev|
      ensures && yG[s] == Map(k.tanh, GatePart(yGifo[s], SliceG, H))
              && yI[s] == Map(k.sigmoid, Add(GatePart(yGifo[s], SliceI, H), Mul(cPrev[s], p.pholeIC)))
              && yF[s] == Map(k.sigmoid, Add(GatePart(yGifo[s], SliceF, H), Mul(cPrev[s], p.pholeFC)))
    {
      AddMatDiagVecRow(cPrev, p.pholeIC, yI0, s);
      AddMatDiagVecRow(cPrev, p.pholeFC, yF0, s);
      ApplyRow(k.sigmoid, yI1, s);
      ApplyRow(k.sigmoid, yF1, s);
      ApplyRow(k.tanh, yG0, s);
    }
  }

  /** The gate pre-activations of a block plus the recurrent term m(t - 1) W_m^T. */
  method StepRecurrent(p: LstmParams, yAll: Mat, yPrev: Mat) returns (yGifo: Mat)
    requires ValidParams(p) && IsMat(yAll, |yPrev|, 7 * p.cellDim) && IsMat(yPrev, |yPrev|, 7 * p.cellDim)
    ensures IsMat(yGifo, |yAll|, 4 * p.cellDim)
    ensures forall s :: 0 <= s < |yAll| ==> yGifo[s] == Recurrent(p, Gifo(yAll[s], p.cellDim), yPrev[s])
  {
    var H := p.cellDim;
    var yGifo0, yMPrev := GifoCols(yAll, H), SliceCols(yPrev, SliceM, H);
    // add the recurrence of the previous cell output to all four gates
    yGifo := AddMatMat(1.0, yMPrev, NoTrans, p.weiGifoM, Trans, 1.0, yGifo0);
    forall s | 0 <= s < |yAll|
      ensures yGifo[s] == Recurrent(p, Gifo(yAll[s], H), yPrev[s])
    {
      AddMatMatRowNT(yMPrev, p.weiGifoM, yGifo0, s);
    }
  }

  /**
   * The cell part of one forward step: c = g .* i + c(t - 1) .* f, h = tanh(c),
   * the output gate peeps at the new c, and m = h .* o. The two products
   * written with beta 0 overwrite the current c and m columns, yCCur and yMCur.
   */
  method StepCell(k: Kernels, p: LstmParams, yG: Mat, yI: Mat, yF: Mat, yO: Mat, cPrev: Mat, yCCur: Mat, yMCur: Mat)
    returns (yC: Mat, yH: Mat, yO': Mat, yM: Mat)
    requires ValidParams(p)
    requires IsMat(yG, |yG|, p.cellDim) && IsMat(yI, |yG|, p.cellDim) && IsMat(yF, |yG|, p.cellDim)
    requires IsMat(yO, |yG|, p.cellDim) && IsMat(cPrev, |yG|, p.cellDim)
    requires IsMat(yCCur, |yG|, p.cellDim) && IsMat(yMCur, |yG|, p.cellDim)
    ensures IsMat(yC, |yG|, p.cellDim) && IsMat(yH, |yG|, p.cellDim)
    ensures IsMat(yO', |yG|, p.cellDim) && IsMat(yM, |yG|, p.cellDim)
    ensures forall s :: 0 <= s < |yG| ==>
      && yC[s] == Add(Mul(yG[s], yI[s]), Mul(cPrev[s], yF[s]))
      && yH[s] == Map(k.tanh, yC[s])
      && yO'[s] == Map(k.sigmoid, Add(yO[s], Mul(yC[s], p.pholeOC)))
      && yM[s] == Mul(yH[s], yO'[s])
  {
    // c = g .* i + c(t - 1) .* f
    var yC0 := AddMatDotMat(1.0, yG, yI, 0.0, yCCur);
    yC := AddMatDotMat(1.0, cPrev, yF, 1.0, yC0);
    // h = tanh(c)
    yH := Tanh(k, yC);
    // o = sigmoid(o + c .* phole_o_c)
    var yO1 := AddMatDiagVec(1.0, yC, p.pholeOC, 1.0, yO);
    yO' := Sigmoid(k, yO1);
    // m = h .* o
    yM := AddMatDotMat(1.0, yH, yO', 0.0, yMCur);
    forall s | 0 <= s < |yG|
      ensures && yC[s] == Add(Mul(yG[s], yI[s]), Mul(cPrev[s], yF[s]))
              && yH[s] == Map(k.tanh, yC[s])
              && yO'[s] == Map(k.sigmoid, Add(yO[s], Mul(yC[s], p.pholeOC)))
              && yM[s] == Mul(yH[s], yO'[s])
    {
      AddMatDotMatRow(yG, yI, yCCur, s);
      AddMatDotMatRow(cPrev, yF, yC0, s);
      ApplyRow(k.tanh, yC, s);
      AddMatDiagVecRow(yC, p.pholeOC, yO, s);
      ApplyRow(k.sigmoid, yO1, s);
      AddMatDotMatRow(yH, yO', yMCur, s);
    }
  }

  // ---------------------------------------------------------------------
  // Backward time step over a block of rows
  // ---------------------------------------------------------------------

  /** d_m plus the gate errors of the next step times W_m. */
  method BackRecurrent(p: LstmParams, d: Mat, dNext: Mat) returns (dM: Mat)
    requires ValidParams(p) && IsMat(d, |d|, 7 * p.cellDim) && IsMat(dNext, |d|, 7 * p.cellDim)
    ensures IsMat(dM, |d|, p.cellDim)
    ensures forall s :: 0 <= s < |d| ==>
      dM[s] == Add(Slice(d[s], SliceM, p.cellDim), Times(Gifo(dNext[s], p.cellDim), p.weiGifoM, p.cellDim))
  {
    var H := p.cellDim;
    var dNextGifo, dM0 := GifoCols(dNext, H), SliceCols(d, SliceM, H);
    dM := AddMatMat(1.0, dNextGifo, NoTrans, p.weiGifoM, NoTrans, 1.0, dM0);
    forall s | 0 <= s < |d|
      ensures dM[s] == Add(Slice(d[s], SliceM, H), Times(Gifo(dNext[s], H), p.weiGifoM, H))
    {
      AddMatMatRowNN(dNextGifo, p.weiGifoM, dM0, s);
    }
  }

  /** The errors of h and of the output gate, from d_m. */
  method BackOutput(k: Kernels, p: LstmParams, y: Mat, d: Mat, dM: Mat) returns (dH: Mat, dO: Mat)
    requires ValidParams(p) && IsMat(y, |d|, 7 * p.cellDim) && IsMat(d, |d|, 7 * p.cellDim) && IsMat(dM, |d|, p.cellDim)
    ensures IsMat(dH, |d|, p.cellDim) && IsMat(dO, |d|, p.cellDim)
    ensures forall s :: 0 <= s < |d| ==>
      && dH[s] == Map2(k.diffTanh, Slice(y[s], SliceH, p.cellDim), Mul(dM[s], Slice(y[s], SliceO, p.cellDim)))
      && dO[s] == Map2(k.diffSigmoid, Slice(y[s], SliceO, p.cellDim), Mul(dM[s], Slice(y[s], SliceH, p.cellDim)))
  {
    var H := p.cellDim;
    var yO, yH := SliceCols(y, SliceO, H), SliceCols(y, SliceH, H);
    // d_h
    dH := BackGate(k.diffTanh, yH, dM, yO, SliceCols(d, SliceH, H));
    // d_o
    dO := BackGate(k.diffSigmoid, yO, dM, yH, SliceCols(d, SliceO, H));
  }

  /**
   * The error of c, accumulated into the zero d_c slice of d: through h,
   * through c(t + 1) and the forget gate at t + 1, and through the three
   * peepholes.
   */
  method BackCellState(p: LstmParams, yNext: Mat, d: Mat, dNext: Mat, dH: Mat, dO: Mat) returns (dC: Mat)
    requires ValidParams(p)
    requires IsMat(yNext, |d|, 7 * p.cellDim) && IsMat(d, |d|, 7 * p.cellDim) && IsMat(dNext, |d|, 7 * p.cellDim)
    requires IsMat(dH, |d|, p.cellDim) && IsMat(dO, |d|, p.cellDim)
    requires forall s :: 0 <= s < |d| ==> Slice(d[s], SliceC, p.cellDim) == Zeros(p.cellDim)
    ensures IsMat(dC, |d|, p.cellDim)
    ensures forall s :: 0 <= s < |d| ==> var H := p.cellDim;
      dC[s] == Add(Add(Add(Add(dH[s], Mul(Slice(dNext[s], SliceC, H), Slice(yNext[s], SliceF, H))),
                           Mul(Slice(dNext[s], SliceI, H), p.pholeIC)),
                       Mul(Slice(dNext[s], SliceF, H), p.pholeFC)),
                   Mul(dO[s], p.pholeOC))
  {
    var H := p.cellDim;
    var dC0, dNextC, yNextF := SliceCols(d, SliceC, H), SliceCols(dNext, SliceC, H), SliceCols(yNext, SliceF, H);
    var dNextI, dNextF := SliceCols(dNext, SliceI, H), SliceCols(dNext, SliceF, H);
    dC := AddMat(1.0, dH, dC0);
    var dC1 := dC;
    dC := AddMatDotMat(1.0, dNextC, yNextF, 1.0, dC);
    var dC2 := dC;
    dC := AddMatDiagVec(1.0, dNextI, p.pholeIC, 1.0, dC);
    var dC3 := dC;
    dC := AddMatDiagVec(1.0, dNextF, p.pholeFC, 1.0, dC);
    var dC4 := dC;
    dC := AddMatDiagVec(1.0, dO, p.pholeOC, 1.0, dC);
    forall s | 0 <= s < |d|
      ensures dC[s] == Add(Add(Add(Add(dH[s], Mul(dNextC[s], yNextF[s])), Mul(dNextI[s], p.pholeIC)),
                               Mul(dNextF[s], p.pholeFC)),
                           Mul(dO[s], p.pholeOC))
    {
      AddMatRow(dH, dC0, s);
      assert dC1[s] == dH[s];
      AddMatDotMatRow(dNextC, yNextF, dC1, s);
      AddMatDiagVecRow(dNextI, p.pholeIC, dC2, s);
      AddMatDiagVecRow(dNextF, p.pholeFC, dC3, s);
      AddMatDiagVecRow(dO, p.pholeOC, dC4, s);
    }
  }

  /** The errors of the forget, input and cell-input gates, from d_c. */
  method BackGates(k: Kernels, p: LstmParams, y: Mat, yPrev: Mat, d: Mat, dC: Mat) returns (dF: Mat, dI: Mat, dG: Mat)
    requires ValidParams(p)
    requires IsMat(y, |d|, 7 * p.cellDim) && IsMat(yPrev, |d|, 7 * p.cellDim) && IsMat(d, |d|, 7 * p.cellDim)
    requires IsMat(dC, |d|, p.cellDim)
    ensures IsMat(dF, |d|, p.cellDim) && IsMat(dI, |d|, p.cellDim) && IsMat(dG, |d|, p.cellDim)
    ensures forall s :: 0 <= s < |d| ==> var H := p.cellDim;
      && dF[s] == Map2(k.diffSigmoid, Slice(y[s], SliceF, H), Mul(dC[s], Slice(yPrev[s], SliceC, H)))
      && dI[s] == Map2(k.diffSigmoid, Slice(y[s], SliceI, H), Mul(dC[s], Slice(y[s], SliceG, H)))
      && dG[s] == Map2(k.diffTanh, Slice(y[s], SliceG, H), Mul(dC[s], Slice(y[s], SliceI, H)))
  {
    var H := p.cellDim;
    var yG, yI, yF, cPrev := SliceCols(y, SliceG, H), SliceCols(y, SliceI, H), SliceCols(y, SliceF, H), SliceCols(yPrev, SliceC, H);
    // d_f
    dF := BackGate(k.diffSigmoid, yF, dC, cPrev, SliceCols(d, SliceF, H));
    // d_i
    dI := BackGate(k.diffSigmoid, yI, dC, yG, SliceCols(d, SliceI, H));
    // d_g
    dG := BackGate(k.diffTanh, yG, dC, yI, SliceCols(d, SliceG, H));
  }

  /**
   * The error of one unit: the incoming error times `other`, written into
   * `dst`, then passed back through the unit's squashing function at its
   * forward value y (DiffSigmoid or DiffTanh).
   */
  method BackGate(f: (real, real) -> real, y: Mat, dIn: Mat, other: Mat, dst: Mat) returns (dX: Mat)
    requires SameShape(y, dIn) && SameShape(other, dIn) && SameShape(dst, dIn)
    ensures SameShape(dX, dIn)
    ensures forall s :: 0 <= s < |dIn| ==> dX[s] == Map2(f, y[s], Mul(dIn[s], other[s]))
  {
    dX := AddMatDotMat(1.0, dIn, other, 0.0, dst);
    var dX0 := dX;
    dX := ApplyDiff(f, y, dX);
    forall s | 0 <= s < |dIn|
      ensures dX[s] == Map2(f, y[s], Mul(dIn[s], other[s]))
    {
      AddMatDotMatRow(dIn, other, dst, s);
      ApplyDiffRow(f, y, dX0, s);
    }
  }

  /**
   * One backward step over a block of rows: row s becomes the backward cell
   * row of y[s] (time t), yPrev[s] (t - 1), yNext[s] (t + 1), the output
   * error held in the m slice of d[s], and the finished error row dNext[s].
   */
  method BackBlock(k: Kernels, p: LstmParams, y: Mat, yPrev: Mat, yNext: Mat, d: Mat, dNext: Mat) returns (block: Mat)
    requires ValidParams(p)
    requires IsMat(y, |d|, 7 * p.cellDim) && IsMat(yPrev, |d|, 7 * p.cellDim) && IsMat(yNext, |d|, 7 * p.cellDim)
    requires IsMat(d, |d|, 7 * p.cellDim) && IsMat(dNext, |d|, 7 * p.cellDim)
    requires forall s :: 0 <= s < |d| ==> Slice(d[s], SliceC, p.cellDim) == Zeros(p.cellDim)
    ensures |block| == |d|
    ensures forall s :: 0 <= s < |d| ==>
      block[s] == BackCell(k, p, y[s], yPrev[s], yNext[s], Slice(d[s], SliceM, p.cellDim), dNext[s])
  {
    var H := p.cellDim;
    var dM := BackRecurrent(p, d, dNext);
    var dH, dO := BackOutput(k, p, y, d, dM);
    var dC := BackCellState(p, yNext, d, dNext, dH, dO);
    var dF, dI, dG := BackGates(k, p, y, yPrev, d, dC);
    block := Rows7(dG, dI, dF, dO, dC, dH, dM);
    forall s | 0 <= s < |d|
      ensures block[s] == BackCell(k, p, y[s], yPrev[s], yNext[s], Slice(d[s], SliceM, H), dNext[s])
    {
      BackCellFrom(k, p, y[s], yPrev[s], yNext[s], Slice(d[s], SliceM, H), dNext[s], dG[s], dI[s], dF[s], dO[s], dC[s], dH[s], dM[s]);
    }
  }
}
