/**
 * The dense matrix operations that the batched LSTM layer calls on the GPU
 * matrix library, stated over real numbers. Every operation follows the
 * library's "destination += ..." convention: the destination matrix C (or
 * vector v) is an argument, fixes the shape of the result, and is scaled by
 * beta. A sub-matrix view (RowRange, ColRange) is a copy here; writing a view
 * back into its parent is SetSub.
 */
module CuMatrix {

  type Vec = seq<real>
  type Mat = seq<Vec>

  /** The elementwise kernels, left abstract. `diffSigmoid(y, d)` and
      `diffTanh(y, d)` take the forward value y and the incoming error d. */
  datatype Kernels = Kernels(
    sigmoid: real -> real,
    tanh: real -> real,
    diffSigmoid: (real, real) -> real,
    diffTanh: (real, real) -> real)

  datatype MatrixTransposeType = NoTrans | Trans

  predicate IsMat(m: Mat, rows: nat, cols: nat) {
    |m| == rows && forall r :: 0 <= r < |m| ==> |m[r]| == cols
  }

  predicate SameShape(a: Mat, b: Mat) {
    |a| == |b| && forall r :: 0 <= r < |a| ==> |a[r]| == |b[r]|
  }

  function Zeros(n: nat): (v: Vec)
    ensures |v| == n && forall i :: 0 <= i < n ==> v[i] == 0.0
  {
    seq(n, i => 0.0)
  }

  /** A matrix freshly resized with kSetZero. */
  function ZeroMat(rows: nat, cols: nat): (m: Mat)
    ensures IsMat(m, rows, cols)
    ensures forall r :: 0 <= r < rows ==> m[r] == Zeros(cols)
  {
    seq(rows, r => Zeros(cols))
  }

  function RowRange(m: Mat, r0: nat, n: nat): (b: Mat)
    requires r0 + n <= |m|
    ensures |b| == n && forall i :: 0 <= i < n ==> b[i] == m[r0 + i]
  {
    m[r0..r0 + n]
  }

  function ColRange(m: Mat, c0: nat, n: nat): (b: Mat)
    requires forall r :: 0 <= r < |m| ==> c0 + n <= |m[r]|
    ensures |b| == |m| && forall r :: 0 <= r < |m| ==> b[r] == m[r][c0..c0 + n]
  {
    seq(|m|, r requires 0 <= r < |m| => m[r][c0..c0 + n])
  }

  /** Column c of m (rows too short for c read as 0). */
  function Col(m: Mat, c: nat): (v: Vec)
    ensures |v| == |m|
    ensures forall r :: 0 <= r < |m| && c < |m[r]| ==> v[r] == m[r][c]
  {
    seq(|m|, r requires 0 <= r < |m| => if c < |m[r]| then m[r][c] else 0.0)
  }

  /** Inner product over the common length of u and v. */
  function Dot(u: Vec, v: Vec): real
    decreases |u|
  {
    if |u| == 0 || |v| == 0 then 0.0 else u[0] * v[0] + Dot(u[1..], v[1..])
  }

  /** A zero vector contributes nothing to an inner product. */
  lemma {:induction false} DotZeros(u: Vec, v: Vec)
    requires forall i :: 0 <= i < |u| ==> u[i] == 0.0
    ensures Dot(u, v) == 0.0
    decreases |u|
  {
    if |u| != 0 && |v| != 0 {
      DotZeros(u[1..], v[1..]);
    }
  }

  /** Multiplying elementwise by a zero vector gives a zero vector. */
  lemma MulZeros(u: Vec, v: Vec)
    requires |u| == |v| && u == Zeros(|u|)
    ensures Mul(u, v) == Zeros(|u|)
  {
    forall i | 0 <= i < |u|
      ensures Mul(u, v)[i] == 0.0
    {
      assert u[i] == 0.0;
    }
  }

  /** Adding a zero vector changes nothing. */
  lemma AddZeros(u: Vec, z: Vec)
    requires |u| == |z| && z == Zeros(|u|)
    ensures Add(u, z) == u
  {
  }

  /** Sum of the entries of v. */
  function Sum(v: Vec): real
    decreases |v|
  {
    if |v| == 0 then 0.0 else v[0] + Sum(v[1..])
  }

  /** Row r of op(m). */
  function OpRow(m: Mat, t: MatrixTransposeType, r: nat): Vec {
    if t == NoTrans then (if r < |m| then m[r] else []) else Col(m, r)
  }

  /** Column c of op(m). */
  function OpCol(m: Mat, t: MatrixTransposeType, c: nat): Vec {
    if t == NoTrans then Col(m, c) else (if c < |m| then m[c] else [])
  }

  /** C := alpha * op(A) * op(B) + beta * C */
  function AddMatMat(alpha: real, A: Mat, ta: MatrixTransposeType, B: Mat, tb: MatrixTransposeType,
                     beta: real, C: Mat): (R: Mat)
    ensures SameShape(R, C)
  {
    seq(|C|, r requires 0 <= r < |C| =>
      seq(|C[r]|, c requires 0 <= c < |C[r]| =>
        alpha * Dot(OpRow(A, ta, r), OpCol(B, tb, c)) + beta * C[r][c]))
  }

  /** Every row of C := alpha * v + beta * row. */
  function AddVecToRows(alpha: real, v: Vec, beta: real, C: Mat): (R: Mat)
    requires forall r :: 0 <= r < |C| ==> |C[r]| == |v|
    ensures SameShape(R, C)
  {
    seq(|C|, r requires 0 <= r < |C| =>
      seq(|C[r]|, c requires 0 <= c < |C[r]| => alpha * v[c] + beta * C[r][c]))
  }

  /** C := alpha * A * diag(v) + beta * C */
  function AddMatDiagVec(alpha: real, A: Mat, v: Vec, beta: real, C: Mat): (R: Mat)
    requires SameShape(A, C)
    requires forall r :: 0 <= r < |C| ==> |C[r]| == |v|
    ensures SameShape(R, C)
  {
    seq(|C|, r requires 0 <= r < |C| =>
      seq(|C[r]|, c requires 0 <= c < |C[r]| => alpha * A[r][c] * v[c] + beta * C[r][c]))
  }

  /** C := alpha * (A .* B) + beta * C, with .* the elementwise product. */
  function AddMatDotMat(alpha: real, A: Mat, B: Mat, beta: real, C: Mat): (R: Mat)
    requires SameShape(A, C) && SameShape(B, C)
    ensures SameShape(R, C)
  {
    seq(|C|, r requires 0 <= r < |C| =>
      seq(|C[r]|, c requires 0 <= c < |C[r]| => alpha * A[r][c] * B[r][c] + beta * C[r][c]))
  }

  /** C := C + alpha * A */
  function AddMat(alpha: real, A: Mat, C: Mat): (R: Mat)
    requires SameShape(A, C)
    ensures SameShape(R, C)
  {
    seq(|C|, r requires 0 <= r < |C| =>
      seq(|C[r]|, c requires 0 <= c < |C[r]| => C[r][c] + alpha * A[r][c]))
  }

  /** Elementwise f applied to src. */
  function Apply(f: real -> real, src: Mat): (R: Mat)
    ensures SameShape(R, src)
  {
    seq(|src|, r requires 0 <= r < |src| =>
      seq(|src[r]|, c requires 0 <= c < |src[r]| => f(src[r][c])))
  }

  function Sigmoid(k: Kernels, src: Mat): (R: Mat)
    ensures SameShape(R, src)
  {
    Apply(k.sigmoid, src)
  }

  function Tanh(k: Kernels, src: Mat): (R: Mat)
    ensures SameShape(R, src)
  {
    Apply(k.tanh, src)
  }

  /** Elementwise f(value, diff). */
  function ApplyDiff(f: (real, real) -> real, value: Mat, diff: Mat): (R: Mat)
    requires SameShape(value, diff)
    ensures SameShape(R, diff)
  {
    seq(|diff|, r requires 0 <= r < |diff| =>
      seq(|diff[r]|, c requires 0 <= c < |diff[r]| => f(value[r][c], diff[r][c])))
  }

  /** v := alpha * (sum of the rows of A) + beta * v */
  function AddRowSumMat(alpha: real, A: Mat, beta: real, v: Vec): (R: Vec)
    ensures |R| == |v|
  {
    seq(|v|, c requires 0 <= c < |v| => alpha * Sum(Col(A, c)) + beta * v[c])
  }

  /** v := alpha * diag(op(A) * op(B)) + beta * v */
  function AddDiagMatMat(alpha: real, A: Mat, ta: MatrixTransposeType, B: Mat, tb: MatrixTransposeType,
                         beta: real, v: Vec): (R: Vec)
    ensures |R| == |v|
  {
    seq(|v|, c requires 0 <= c < |v| => alpha * Dot(OpRow(A, ta, c), OpCol(B, tb, c)) + beta * v[c])
  }

  /** Row `row` with the entries from column c0 on replaced by v. */
  function Splice(row: Vec, c0: nat, v: Vec): (r: Vec)
    requires c0 + |v| <= |row|
    ensures |r| == |row|
    ensures forall i :: 0 <= i < |row| ==> r[i] == if c0 <= i < c0 + |v| then v[i - c0] else row[i]
  {
    row[..c0] + v + row[c0 + |v|..]
  }

  /** m with the block b written at row r0, column c0 (an in-place write through a view). */
  function SetSub(m: Mat, r0: nat, c0: nat, b: Mat): (R: Mat)
    requires r0 + |b| <= |m|
    requires forall i :: 0 <= i < |b| ==> c0 + |b[i]| <= |m[r0 + i]|
    ensures |R| == |m|
    ensures forall r :: 0 <= r < |m| ==> R[r] == if r0 <= r < r0 + |b| then Splice(m[r], c0, b[r - r0]) else m[r]
  {
    seq(|m|, r requires 0 <= r < |m| => if r0 <= r < r0 + |b| then Splice(m[r], c0, b[r - r0]) else m[r])
  }

  /** Entries of column c in rows r0..r0 + n - 1 of m, top to bottom. */
  function ColSeg(m: Mat, r0: nat, n: nat, c: nat): (v: Vec)
    requires r0 + n <= |m| && forall i :: r0 <= i < r0 + n ==> c < |m[i]|
    ensures |v| == n && forall i :: 0 <= i < n ==> v[i] == m[r0 + i][c]
  {
    seq(n, i requires 0 <= i < n => m[r0 + i][c])
  }

  /** A column of a view is a column segment of the parent matrix. */
  lemma ColOfView(m: Mat, r0: nat, n: nat, c0: nat, w: nat, j: nat)
    requires r0 + n <= |m| && (forall i :: r0 <= i < r0 + n ==> c0 + w <= |m[i]|) && j < w
    ensures Col(ColRange(RowRange(m, r0, n), c0, w), j) == ColSeg(m, r0, n, c0 + j)
  {
  }

  /** The diagonal of (column view of D)^T (column view of Y) pairs column cD + c of D with column cY + c of Y. */
  lemma DiagOfViews(D: Mat, rD: nat, cD: nat, Y: Mat, rY: nat, cY: nat, n: nat, w: nat, beta: real, v: Vec)
    requires rD + n <= |D| && forall i :: rD <= i < rD + n ==> cD + w <= |D[i]|
    requires rY + n <= |Y| && forall i :: rY <= i < rY + n ==> cY + w <= |Y[i]|
    requires |v| == w
    ensures var R := AddDiagMatMat(1.0, ColRange(RowRange(D, rD, n), cD, w), Trans, ColRange(RowRange(Y, rY, n), cY, w), NoTrans, beta, v);
      |R| == w && forall c :: 0 <= c < w ==> R[c] == Dot(ColSeg(D, rD, n, cD + c), ColSeg(Y, rY, n, cY + c)) + beta * v[c]
  {
    hide Dot;
    var A, B := ColRange(RowRange(D, rD, n), cD, w), ColRange(RowRange(Y, rY, n), cY, w);
    var R := AddDiagMatMat(1.0, A, Trans, B, NoTrans, beta, v);
    forall c | 0 <= c < w
      ensures R[c] == Dot(ColSeg(D, rD, n, cD + c), ColSeg(Y, rY, n, cY + c)) + beta * v[c]
    {
      assert R[c] == 1.0 * Dot(OpRow(A, Trans, c), OpCol(B, NoTrans, c)) + beta * v[c];
      ColOfView(D, rD, n, cD, w, c);
      ColOfView(Y, rY, n, cY, w, c);
    }
  }

  lemma ColOfMat(m: Mat, c: nat)
    requires forall i :: 0 <= i < |m| ==> c < |m[i]|
    ensures Col(m, c) == ColSeg(m, 0, |m|, c)
  {
  }

  // ---------------------------------------------------------------------
  // Vector arithmetic
  // ---------------------------------------------------------------------

  function Add(u: Vec, v: Vec): (r: Vec)
    requires |u| == |v|
    ensures |r| == |u| && forall i :: 0 <= i < |u| ==> r[i] == u[i] + v[i]
  {
    seq(|u|, i requires 0 <= i < |u| => u[i] + v[i])
  }

  /** Elementwise (Hadamard) product. */
  function Mul(u: Vec, v: Vec): (r: Vec)
    requires |u| == |v|
    ensures |r| == |u| && forall i :: 0 <= i < |u| ==> r[i] == u[i] * v[i]
  {
    seq(|u|, i requires 0 <= i < |u| => u[i] * v[i])
  }

  function Map(f: real -> real, u: Vec): (r: Vec)
    ensures |r| == |u| && forall i :: 0 <= i < |u| ==> r[i] == f(u[i])
  {
    seq(|u|, i requires 0 <= i < |u| => f(u[i]))
  }

  function Map2(f: (real, real) -> real, y: Vec, d: Vec): (r: Vec)
    requires |y| == |d|
    ensures |r| == |d| && forall i :: 0 <= i < |d| ==> r[i] == f(y[i], d[i])
  {
    seq(|d|, i requires 0 <= i < |d| => f(y[i], d[i]))
  }

  /** The row vector v times W transposed: entry j is v . W[j]. */
  function TimesTransposed(v: Vec, W: Mat): (r: Vec)
    ensures |r| == |W| && forall j :: 0 <= j < |W| ==> r[j] == Dot(v, W[j])
  {
    seq(|W|, j requires 0 <= j < |W| => Dot(v, W[j]))
  }

  /** The row vector v times W (n columns): entry c is v . (column c of W). */
  function Times(v: Vec, W: Mat, n: nat): (r: Vec)
    ensures |r| == n && forall c :: 0 <= c < n ==> r[c] == Dot(v, Col(W, c))
  {
    seq(n, c requires 0 <= c < n => Dot(v, Col(W, c)))
  }

  // ---------------------------------------------------------------------
  // Each matrix operation acts row by row: row r of the result is the vector
  // operation on row r of the operands.
  // ---------------------------------------------------------------------

  lemma AddMatMatRowNT(A: Mat, W: Mat, C: Mat, r: nat)
    requires r < |C| && r < |A| && |C[r]| == |W|
    ensures AddMatMat(1.0, A, NoTrans, W, Trans, 1.0, C)[r] == Add(C[r], TimesTransposed(A[r], W))
    ensures AddMatMat(1.0, A, NoTrans, W, Trans, 0.0, C)[r] == TimesTransposed(A[r], W)
  {
  }

  lemma AddMatMatRowNN(A: Mat, W: Mat, C: Mat, r: nat)
    requires r < |C| && r < |A|
    ensures AddMatMat(1.0, A, NoTrans, W, NoTrans, 1.0, C)[r] == Add(C[r], Times(A[r], W, |C[r]|))
    ensures AddMatMat(1.0, A, NoTrans, W, NoTrans, 0.0, C)[r] == Times(A[r], W, |C[r]|)
  {
  }

  lemma AddMatRow(A: Mat, C: Mat, r: nat)
    requires SameShape(A, C) && r < |C|
    ensures AddMat(1.0, A, C)[r] == Add(C[r], A[r])
  {
  }

  lemma ApplyDiffRow(f: (real, real) -> real, V: Mat, D: Mat, r: nat)
    requires SameShape(V, D) && r < |D|
    ensures ApplyDiff(f, V, D)[r] == Map2(f, V[r], D[r])
  {
  }

  lemma AddVecToRowsRow(v: Vec, C: Mat, r: nat)
    requires (forall i :: 0 <= i < |C| ==> |C[i]| == |v|) && r < |C|
    ensures AddVecToRows(1.0, v, 1.0, C)[r] == Add(C[r], v)
  {
  }

  lemma AddMatDiagVecRow(A: Mat, v: Vec, C: Mat, r: nat)
    requires SameShape(A, C) && (forall i :: 0 <= i < |C| ==> |C[i]| == |v|) && r < |C|
    ensures AddMatDiagVec(1.0, A, v, 1.0, C)[r] == Add(C[r], Mul(A[r], v))
  {
  }

  lemma AddMatDotMatRow(A: Mat, B: Mat, C: Mat, r: nat)
    requires SameShape(A, C) && SameShape(B, C) && r < |C|
    ensures AddMatDotMat(1.0, A, B, 0.0, C)[r] == Mul(A[r], B[r])
    ensures AddMatDotMat(1.0, A, B, 1.0, C)[r] == Add(C[r], Mul(A[r], B[r]))
  {
  }

  lemma ApplyRow(f: real -> real, A: Mat, r: nat)
    requires r < |A|
    ensures Apply(f, A)[r] == Map(f, A[r])
  {
  }

  // ---------------------------------------------------------------------
  // Time-major row blocks: row t * S + s holds stream s at time step t.
  // ---------------------------------------------------------------------

  /** Row of stream s in row block t, or [] past the end of m. */
  function At(m: Mat, S: nat, t: nat, s: nat): Vec {
    if t * S + s < |m| then m[t * S + s] else []
  }

  /** The rows of stream s in blocks 0..n - 1, in time order. */
  function Stream(m: Mat, S: nat, s: nat, n: nat): (xs: seq<Vec>)
    ensures |xs| == n && forall t :: 0 <= t < n ==> xs[t] == At(m, S, t, s)
  {
    seq(n, t requires 0 <= t < n => At(m, S, t, s))
  }

  lemma BlockRow(nb: nat, S: nat, t: nat, s: nat)
    requires t < nb && s < S
    ensures t * S + s < nb * S
    ensures t * S + S <= nb * S
  {
    assert (nb - t - 1) * S >= 0;
  }

  lemma BlockDivMod(S: nat, t: nat, s: nat)
    requires s < S
    ensures (t * S + s) / S == t && (t * S + s) % S == s
  {
    var r := t * S + s;
    var q, m := r / S, r % S;
    assert r == q * S + m && 0 <= m < S;
    assert (q - t) * S == s - m;
    if q > t {
      MulAtLeast(q - t, S);
    } else if q < t {
      MulAtLeast(t - q, S);
    }
  }

  lemma MulAtLeast(a: int, S: nat)
    requires a >= 1
    ensures a * S >= S
  {
    assert (a - 1) * S >= 0;
  }

  /** One block earlier: row r - S is the same stream at the previous time step. */
  lemma BlockShift(S: nat, r: nat)
    requires S > 0 && r >= S
    ensures (r - S) / S == r / S - 1 && (r - S) % S == r % S
  {
    var q, m := r / S, r % S;
    assert r == q * S + m && q >= 1;
    assert r - S == (q - 1) * S + m;
    BlockDivMod(S, q - 1, m);
  }

  lemma MulLe(a: nat, b: nat, S: nat)
    requires a <= b
    ensures a * S <= b * S
  {
    assert (b - a) * S >= 0;
  }

  lemma MulSucc(T: nat, S: nat)
    ensures (T + 1) * S == T * S + S && (T + 2) * S == T * S + S + S
  {
  }

  lemma RowBlock(nb: nat, S: nat, r: nat)
    requires r < nb * S
    ensures S > 0 && r / S < nb && r % S < S && r == (r / S) * S + r % S
  {
  }
}
