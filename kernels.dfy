/**
 * The dense kernels the stage solver and the setup code call
 * (include/qp/matrix_vector.h, include/qp/qpdunes_utils.h).
 *
 * scalarProd, multiplyCTy and addVectorScaledVector are given their
 * mathematical meaning, which the comments of the calling code state
 * ("qStep = C.T*lambdaK1", "pStep = c*lambdaK1"). The kernels whose result
 * depends on a storage format the shown code does not fix (the Cholesky
 * factor of a stage Hessian, the quadratic form, sparsity detection) are
 * fields of an Externals record that callers pass in.
 */
module Kernels {
  import opened QpTypes
  import BlockLayout

  /** Sum of x[i]*y[i] over i < n (scalarProd). */
  function Dot(x: seq<real>, y: seq<real>, n: nat): real
    requires n <= |x| && n <= |y|
  {
    if n == 0 then 0.0 else Dot(x, y, n - 1) + x[n - 1] * y[n - 1]
  }

  /** x + s*y entry by entry (addVectorScaledVector). */
  function AddScaled(x: seq<real>, s: real, y: seq<real>): (r: seq<real>)
    requires |x| <= |y|
    ensures |r| == |x|
  {
    seq(|x|, i requires 0 <= i < |x| => x[i] + s * y[i])
  }

  /** The first nX entries of x followed by zeros up to length n: the vector [x; 0]. */
  function PadWithZeros(x: seq<real>, nX: nat, n: nat): (r: seq<real>)
    requires nX <= |x| && nX <= n
    ensures |r| == n
  {
    seq(n, i requires 0 <= i < n => if i < nX then x[i] else 0.0)
  }

  /** Row i of a row-major matrix with nCols columns. */
  function Row(C: seq<real>, nCols: nat, nRows: nat, i: nat): (r: seq<real>)
    requires i < nRows && nRows * nCols <= |C|
    ensures |r| == nCols
  {
    BlockLayout.MulMonotone(i + 1, nRows, nCols);
    C[i * nCols .. (i + 1) * nCols]
  }

  /**
   * C^T * y for the nX x nV matrix C (multiplyCTy): the sum over the first
   * m rows of y[i] times row i of C.
   */
  function CTyRows(C: seq<real>, nX: nat, nV: nat, y: seq<real>, m: nat): (r: seq<real>)
    requires m <= nX && nX <= |y| && nX * nV <= |C|
    ensures |r| == nV
  {
    if m == 0 then Zeros(nV)
    else AddScaled(CTyRows(C, nX, nV, y, m - 1), y[m - 1], Row(C, nV, nX, m - 1))
  }

  function MultiplyCTy(C: seq<real>, nX: nat, nV: nat, y: seq<real>): (r: seq<real>)
    requires nX <= |y| && nX * nV <= |C|
    ensures |r| == nV
  {
    CTyRows(C, nX, nV, y, nX)
  }

  /** C * z for the nX x nV matrix C (multiplyCz). */
  function MultiplyCz(C: seq<real>, nX: nat, nV: nat, z: seq<real>): (r: seq<real>)
    requires nV <= |z| && nX * nV <= |C|
    ensures |r| == nX
  {
    seq(nX, i requires 0 <= i < nX => Dot(Row(C, nV, nX, i), z, nV))
  }

  /** The scalar product is linear in its first argument. */
  lemma {:induction false} DotAddScaled(x: seq<real>, s: real, y: seq<real>, z: seq<real>, n: nat)
    requires |x| <= |y| && n <= |x| && n <= |z|
    ensures Dot(AddScaled(x, s, y), z, n) == Dot(x, z, n) + s * Dot(y, z, n)
  {
    if n > 0 {
      DotAddScaled(x, s, y, z, n - 1);
      var a := AddScaled(x, s, y);
      assert a[n - 1] * z[n - 1] == x[n - 1] * z[n - 1] + s * (y[n - 1] * z[n - 1]);
    }
  }

  /** Entries that are zero do not contribute to a scalar product. */
  lemma {:induction false} DotZeros(z: seq<real>, n: nat)
    requires n <= |z|
    ensures Dot(Zeros(n), z, n) == 0.0
  {
    if n > 0 {
      DotPrefix(Zeros(n), Zeros(n - 1), z, n - 1);
      DotZeros(z, n - 1);
    }
  }

  /** A scalar product only reads the first n entries of its arguments. */
  lemma {:induction false} DotPrefix(x: seq<real>, x': seq<real>, z: seq<real>, n: nat)
    requires n <= |x| && n <= |x'| && n <= |z|
    requires forall i :: 0 <= i < n ==> x[i] == x'[i]
    ensures Dot(x, z, n) == Dot(x', z, n)
  {
    if n > 0 {
      DotPrefix(x, x', z, n - 1);
    }
  }

  /** A vector padded with zeros after nX entries acts as its first nX entries. */
  lemma {:induction false} DotPadWithZeros(x: seq<real>, nX: nat, z: seq<real>, n: nat)
    requires nX <= |x| && nX <= n && n <= |z|
    ensures Dot(PadWithZeros(x, nX, n), z, n) == Dot(x, z, nX)
  {
    if n > nX {
      DotPadWithZeros(x, nX, z, n - 1);
      DotPrefix(PadWithZeros(x, nX, n), PadWithZeros(x, nX, n - 1), z, n - 1);
    } else {
      DotPrefix(PadWithZeros(x, nX, n), x, z, n);
    }
  }

  /** The scalar product is symmetric. */
  lemma {:induction false} DotSymmetric(x: seq<real>, y: seq<real>, n: nat)
    requires n <= |x| && n <= |y|
    ensures Dot(x, y, n) == Dot(y, x, n)
  {
    if n > 0 {
      DotSymmetric(x, y, n - 1);
    }
  }

  /** Adding row m-1 of C, scaled by y[m-1], adds y[m-1] times that row's product with z. */
  lemma CTyRowsStep(C: seq<real>, nX: nat, nV: nat, y: seq<real>, z: seq<real>, m: nat)
    requires 0 < m <= nX && nX <= |y| && nX * nV <= |C| && nV <= |z|
    ensures Dot(CTyRows(C, nX, nV, y, m), z, nV)
         == Dot(CTyRows(C, nX, nV, y, m - 1), z, nV) + y[m - 1] * Dot(Row(C, nV, nX, m - 1), z, nV)
  {
    DotOfAddScaled(CTyRows(C, nX, nV, y, m), CTyRows(C, nX, nV, y, m - 1), y[m - 1], Row(C, nV, nX, m - 1), z, nV);
  }

  /** DotAddScaled for a vector known to be x + s*y. */
  lemma DotOfAddScaled(a: seq<real>, x: seq<real>, s: real, y: seq<real>, z: seq<real>, n: nat)
    requires |x| <= |y| && n <= |x| && n <= |z|
    requires a == AddScaled(x, s, y)
    ensures Dot(a, z, n) == Dot(x, z, n) + s * Dot(y, z, n)
  {
    DotAddScaled(x, s, y, z, n);
  }

  /**
   * Transposition: <C^T y, z> = <y, C z>. This is what makes the dualised
   * linear term C^T lambda reproduce the coupling term lambda^T (C z).
   */
  lemma {:induction false} CTyTransposes(C: seq<real>, nX: nat, nV: nat, y: seq<real>, z: seq<real>, m: nat)
    requires m <= nX && nX <= |y| && nX * nV <= |C| && nV <= |z|
    ensures Dot(CTyRows(C, nX, nV, y, m), z, nV) == Dot(y, MultiplyCz(C, nX, nV, z), m)
  {
    if m == 0 {
      DotZeros(z, nV);
    } else {
      CTyTransposes(C, nX, nV, y, z, m - 1);
      CTyRowsStep(C, nX, nV, y, z, m);
      CzStep(C, nX, nV, y, z, m);
    }
  }

  /** Row m-1 of C z is that row's product with z, so <y, C z> grows by y[m-1] times it. */
  lemma CzStep(C: seq<real>, nX: nat, nV: nat, y: seq<real>, z: seq<real>, m: nat)
    requires 0 < m <= nX && nX <= |y| && nX * nV <= |C| && nV <= |z|
    ensures Dot(y, MultiplyCz(C, nX, nV, z), m)
         == Dot(y, MultiplyCz(C, nX, nV, z), m - 1) + y[m - 1] * Dot(Row(C, nV, nX, m - 1), z, nV)
  {
  }

  /**
   * Kernels whose bodies are not part of this model, supplied by the caller:
   * multiplyInvHz (solve with the stage's Cholesky factor, with its status),
   * factorizeH, multiplyzHz (z^T H z in H's storage format),
   * qpDUNES_detectMatrixSparsity, qpDUNES_updateSimpleBoundVector,
   * qpDUNES_setupScaledIdentityMatrix, qpDUNES_setMatrixNull (whose effect
   * on the sparsity tag is not shown), and the status of the qpOASES setup.
   */
  datatype Externals = Externals(
    multiplyInvHz: (Matrix, seq<real>) -> (ReturnCode, seq<real>),
    factorizeH: (Matrix, nat) -> Matrix,
    multiplyzHz: (Matrix, seq<real>) -> real,
    detectMatrixSparsity: (seq<real>, nat, nat) -> SparsityType,
    updateSimpleBoundVector: (seq<real>, Option<seq<real>>, Option<seq<real>>, Option<seq<real>>) -> seq<real>,
    setupScaledIdentityMatrix: (nat, real) -> Matrix,
    setMatrixNull: Matrix -> Matrix,
    qpOasesSetupStatus: ReturnCode
  ) {
    /** The vector kernels write as many entries as they are given. */
    ghost predicate WellSized() {
      && (forall m: Matrix, z: seq<real> :: |multiplyInvHz(m, z).1| == |z|)
      && (forall to: seq<real>, d: Option<seq<real>>, x: Option<seq<real>>, u: Option<seq<real>> ::
            |updateSimpleBoundVector(to, d, x, u)| == |to|)
    }
  }
}
