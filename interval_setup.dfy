/**
 * One stage ("interval") of the multistage QP and the routines of
 * src/setup_qp.c that fill in its data: qpDUNES_allocInterval,
 * qpDUNES_setupRegularInterval, qpDUNES_setupFinalInterval and
 * qpDUNES_setupSimpleBoundedInterval.
 *
 * Stages 0..nI-1 are regular: their nV = nZ = nX + nU variables are a
 * state and a control, and C = [A|B], c give the dynamics
 * x_{k+1} = A x_k + B u_k + c. Stage nI is final: nV = nX, no dynamics.
 * A data argument that may be NULL is an Option; Some(v) means v is read.
 */
module IntervalSetup {
  import opened QpTypes
  import opened Kernels
  import BlockLayout
  import ClippingSolver

  /** prefix written over the front of to (to grows if prefix is longer). */
  function Overwrite(prefix: seq<real>, to: seq<real>): (r: seq<real>)
    ensures |r| == if |prefix| <= |to| then |to| else |prefix|
    ensures r[..|prefix|] == prefix
    ensures |prefix| <= |to| ==> r[|prefix|..] == to[|prefix|..]
  {
    prefix + (if |prefix| <= |to| then to[|prefix|..] else [])
  }

  /**
   * qpDUNES_updateVector / qpDUNES_updateMatrixData: the first n entries of
   * from are copied when from is given; otherwise nothing changes.
   */
  function Updated(to: seq<real>, from: Option<seq<real>>, n: nat): (r: seq<real>)
    requires from.Some? ==> n <= |from.value|
    ensures n <= |to| ==> |r| == |to|
    ensures |to| <= |r|
    ensures from.None? ==> r == to
    ensures from.Some? ==> n <= |r| && r[..n] == from.value[..n]
    ensures from.Some? && n <= |to| ==> r[n..] == to[n..]
  {
    if from.Some? then Overwrite(from.value[..n], to) else to
  }

  /*
   * ---------------------------------------------------------------------
   * Hessian of a regular stage
   * ---------------------------------------------------------------------
   */

  /**
   * The sparsity of a Hessian assembled from Q, R and S: S present, or a
   * dense Q or R, makes it dense; Q and R both identity keep it the
   * identity; every other combination is treated as diagonal.
   */
  function AssembledHessianSparsity(sGiven: bool, sparsityQ: SparsityType, sparsityR: SparsityType): SparsityType {
    if sGiven then Dense
    else if sparsityQ == Dense || sparsityR == Dense then Dense
    else if sparsityQ == Identity && sparsityR == Identity then Identity
    else Diagonal
  }

  /** The sparsity a block gets: detected when it is given, the identity when it is absent. */
  function BlockSparsity(ext: Externals, M: Option<seq<real>>, n: nat): SparsityType {
    if M.Some? then ext.detectMatrixSparsity(M.value, n, n) else Identity
  }

  /** Entry (i, i) of the row-major n x n matrix M. */
  function DiagonalEntry(M: seq<real>, n: nat, i: nat): real
    requires i < n && n * n <= |M|
  {
    BlockLayout.RowMajorInBounds(i, i, n, n);
    M[BlockLayout.RowMajor(i, i, n)]
  }

  /** The diagonal of blockdiag(Q, R); an identity block contributes ones. */
  function HessianDiagonal(Q: Option<seq<real>>, R: Option<seq<real>>, sparsityQ: SparsityType, sparsityR: SparsityType,
                           nX: nat, nU: nat): (r: seq<real>)
    requires sparsityQ != Identity ==> Q.Some? && nX * nX <= |Q.value|
    requires sparsityR != Identity ==> R.Some? && nU * nU <= |R.value|
    ensures |r| == nX + nU
  {
    seq(nX + nU, i requires 0 <= i < nX + nU =>
      if i < nX then (if sparsityQ == Identity then 1.0 else DiagonalEntry(Q.value, nX, i))
      else (if sparsityR == Identity then 1.0 else DiagonalEntry(R.value, nU, i - nX)))
  }

  /**
   * The Hessian after step (1) of setupRegularInterval. A given H keeps an
   * already known sparsity tag and takes its entries. An assembled
   * diagonal Hessian stores its diagonal in row 0. The dense fill is not
   * modelled: its entries are left as they were, and such a Hessian is
   * rejected right after.
   */
  function RegularHessian(ext: Externals, H: Matrix, H_: Option<seq<real>>, Q: Option<seq<real>>,
                          R: Option<seq<real>>, S: Option<seq<real>>, nX: nat, nU: nat): (r: Matrix)
    requires H_.Some? ==> (nX + nU) * (nX + nU) <= |H_.value|
    requires Q.Some? ==> nX * nX <= |Q.value|
    requires R.Some? ==> nU * nU <= |R.value|
  {
    var nZ := nX + nU;
    if H_.Some? then
      Matrix(if H.sparsity == MatrixUndefined then ext.detectMatrixSparsity(H_.value, nZ, nZ) else H.sparsity,
             Updated(H.data, H_, nZ * nZ))
    else
      var sQ := BlockSparsity(ext, Q, nX);
      var sR := BlockSparsity(ext, R, nU);
      var tag := AssembledHessianSparsity(S.Some?, sQ, sR);
      Matrix(tag, if tag == Diagonal then Overwrite(HessianDiagonal(Q, R, sQ, sR, nX, nU), H.data) else H.data)
  }

  /**
   * An assembled Hessian passes the clipping test (>= DIAGONAL) exactly
   * when S is absent and neither Q nor R is dense; it is then the identity
   * when both blocks are, and diagonal otherwise.
   */
  lemma AssembledHessianAdmitted(sGiven: bool, sparsityQ: SparsityType, sparsityR: SparsityType)
    ensures AtLeastDiagonal(AssembledHessianSparsity(sGiven, sparsityQ, sparsityR))
        <==> !sGiven && sparsityQ != Dense && sparsityR != Dense
    ensures AssembledHessianSparsity(sGiven, sparsityQ, sparsityR) == Identity
        <==> !sGiven && sparsityQ == Identity && sparsityR == Identity
  {
    AtLeastDiagonalExactly(AssembledHessianSparsity(sGiven, sparsityQ, sparsityR));
  }

  /**
   * The Hessian classification of setupRegularInterval: a given H keeps a
   * known tag, and one built from blocks passes the clipping test exactly
   * when S is absent and neither Q nor R is detected dense.
   */
  lemma RegularHessianClassification(ext: Externals, H: Matrix, H_: Option<seq<real>>, Q: Option<seq<real>>,
                                     R: Option<seq<real>>, S: Option<seq<real>>, nX: nat, nU: nat)
    requires H_.Some? ==> (nX + nU) * (nX + nU) <= |H_.value|
    requires Q.Some? ==> nX * nX <= |Q.value|
    requires R.Some? ==> nU * nU <= |R.value|
    ensures H_.Some? && H.sparsity != MatrixUndefined ==>
      RegularHessian(ext, H, H_, Q, R, S, nX, nU).sparsity == H.sparsity
    ensures H_.None? ==>
      (AtLeastDiagonal(RegularHessian(ext, H, H_, Q, R, S, nX, nU).sparsity) <==>
       S.None? && BlockSparsity(ext, Q, nX) != Dense && BlockSparsity(ext, R, nU) != Dense)
    ensures H_.None? && Q.None? && R.None? && S.None? ==>
      RegularHessian(ext, H, H_, Q, R, S, nX, nU) == H.(sparsity := Identity)
  {
    if H_.None? {
      AssembledHessianAdmitted(S.Some?, BlockSparsity(ext, Q, nX), BlockSparsity(ext, R, nU));
    }
  }

  /**
   * An assembled diagonal Hessian holds Q(i,i), or 1 for an identity or
   * missing Q, at accH(0, i) for i < nX, and R(i-nX, i-nX), or 1, at
   * accH(0, i) for nX <= i < nX+nU.
   */
  lemma DiagonalHessianRowZero(ext: Externals, H: Matrix, Q: Option<seq<real>>, R: Option<seq<real>>,
                               S: Option<seq<real>>, nX: nat, nU: nat, i: nat)
    requires Q.Some? ==> nX * nX <= |Q.value|
    requires R.Some? ==> nU * nU <= |R.value|
    requires RegularHessian(ext, H, None, Q, R, S, nX, nU).sparsity == Diagonal
    requires i < nX + nU
    ensures BlockLayout.AccH(nX + nU, 0, i) < |RegularHessian(ext, H, None, Q, R, S, nX, nU).data|
    ensures i < nX ==>
      RegularHessian(ext, H, None, Q, R, S, nX, nU).data[BlockLayout.AccH(nX + nU, 0, i)]
        == if BlockSparsity(ext, Q, nX) == Identity then 1.0 else DiagonalEntry(Q.value, nX, i)
    ensures nX <= i ==>
      RegularHessian(ext, H, None, Q, R, S, nX, nU).data[BlockLayout.AccH(nX + nU, 0, i)]
        == if BlockSparsity(ext, R, nU) == Identity then 1.0 else DiagonalEntry(R.value, nU, i - nX)
  {
    var d := HessianDiagonal(Q, R, BlockSparsity(ext, Q, nX), BlockSparsity(ext, R, nU), nX, nU);
    var r := RegularHessian(ext, H, None, Q, R, S, nX, nU);
    assert r.data[..nX + nU] == d;
    assert r.data[..nX + nU][i] == r.data[i];
  }

  /*
   * ---------------------------------------------------------------------
   * Dynamics C = [A|B]
   * ---------------------------------------------------------------------
   */

  /** Offset o of the row-major nX x (nX+nU) matrix [A|B]. */
  function StackedEntry(A: seq<real>, B: seq<real>, nX: nat, nU: nat, o: nat): real
    requires o < nX * (nX + nU) && nX * nX <= |A| && nX * nU <= |B|
  {
    var nZ := nX + nU;
    BlockLayout.RowOfOffset(o, nX, nZ);
    var i, j := o / nZ, o % nZ;
    if j < nX then
      BlockLayout.RowMajorInBounds(i, j, nX, nX);
      A[BlockLayout.RowMajor(i, j, nX)]
    else
      BlockLayout.RowMajorInBounds(i, j - nX, nX, nU);
      B[BlockLayout.RowMajor(i, j - nX, nU)]
  }

  /** accC(i, j) of [A|B] is A(i, j) for j < nX and B(i, j-nX) after. */
  lemma StackedEntryAt(A: seq<real>, B: seq<real>, nX: nat, nU: nat, i: nat, j: nat)
    requires i < nX && j < nX + nU && nX * nX <= |A| && nX * nU <= |B|
    ensures BlockLayout.AccC(nX + nU, i, j) < nX * (nX + nU)
    ensures j < nX ==> BlockLayout.RowMajor(i, j, nX) < nX * nX
    ensures nX <= j ==> BlockLayout.RowMajor(i, j - nX, nU) < nX * nU
    ensures StackedEntry(A, B, nX, nU, BlockLayout.AccC(nX + nU, i, j))
         == if j < nX then A[BlockLayout.RowMajor(i, j, nX)] else B[BlockLayout.RowMajor(i, j - nX, nU)]
  {
    BlockLayout.AccCInBounds(nX, nX + nU, i, j);
    BlockLayout.RowMajorRoundTrip(i, j, 0, nX + nU);
    if j < nX {
      BlockLayout.RowMajorInBounds(i, j, nX, nX);
    } else {
      BlockLayout.RowMajorInBounds(i, j - nX, nX, nU);
    }
  }

  /** r is base with its first nX*(nX+nU) entries replaced by [A|B] in row-major order. */
  predicate StackedOver(r: seq<real>, base: seq<real>, A: seq<real>, B: seq<real>, nX: nat, nU: nat)
    requires nX * nX <= |A| && nX * nU <= |B|
  {
    && |r| == |base| && nX * (nX + nU) <= |r|
    && r[nX * (nX + nU)..] == base[nX * (nX + nU)..]
    && forall o :: 0 <= o < nX * (nX + nU) ==> r[o] == StackedEntry(A, B, nX, nU, o)
  }

  /**
   * Writes [A|B] into the first nX*(nX+nU) entries of C's storage, row by
   * row, A's columns before B's.
   */
  method AssembleC(data: seq<real>, A: seq<real>, B: seq<real>, nX: nat, nU: nat) returns (r: seq<real>)
    requires nX * (nX + nU) <= |data| && nX * nX <= |A| && nX * nU <= |B|
    ensures StackedOver(r, data, A, B, nX, nU)
  {
    var nZ := nX + nU;
    r := data;
    ghost var off := 0;
    for ii := 0 to nX
      invariant off == ii * nZ && off <= nX * nZ
      invariant |r| == |data|
      invariant forall o :: 0 <= o < off ==> r[o] == StackedEntry(A, B, nX, nU, o)
      invariant forall o :: off <= o < |r| ==> r[o] == data[o]
    {
      for jj := 0 to nX
        invariant off == ii * nZ + jj && off <= nX * nZ
        invariant |r| == |data|
        invariant forall o :: 0 <= o < off ==> r[o] == StackedEntry(A, B, nX, nU, o)
        invariant forall o :: off <= o < |r| ==> r[o] == data[o]
      {
        StackedEntryAt(A, B, nX, nU, ii, jj);
        r := r[BlockLayout.AccC(nZ, ii, jj) := A[BlockLayout.RowMajor(ii, jj, nX)]];
        off := off + 1;
      }
      for jj := 0 to nU
        invariant off == ii * nZ + nX + jj && off <= nX * nZ
        invariant |r| == |data|
        invariant forall o :: 0 <= o < off ==> r[o] == StackedEntry(A, B, nX, nU, o)
        invariant forall o :: off <= o < |r| ==> r[o] == data[o]
      {
        StackedEntryAt(A, B, nX, nU, ii, nX + jj);
        r := r[BlockLayout.AccC(nZ, ii, nX + jj) := B[BlockLayout.RowMajor(ii, jj, nU)]];
        off := off + 1;
      }
      assert off == (ii + 1) * nZ;
    }
  }

  /*
   * ---------------------------------------------------------------------
   * The stage record
   * ---------------------------------------------------------------------
   */

  /** Data arguments of setupRegularInterval, each possibly NULL. */
  datatype RegularInput = RegularInput(
    H: Option<seq<real>>, Q: Option<seq<real>>, R: Option<seq<real>>, S: Option<seq<real>>,
    g: Option<seq<real>>, C: Option<seq<real>>, A: Option<seq<real>>, B: Option<seq<real>>,
    c: Option<seq<real>>, zLow: Option<seq<real>>, zUpp: Option<seq<real>>,
    xLow: Option<seq<real>>, xUpp: Option<seq<real>>, uLow: Option<seq<real>>, uUpp: Option<seq<real>>,
    D: Option<seq<real>>, dLow: Option<seq<real>>, dUpp: Option<seq<real>>)
  {
    /** Every given array has at least the entries the routine reads from it. */
    predicate LargeEnough(nX: nat, nU: nat, nD: nat) {
      var nZ := nX + nU;
      && (H.Some? ==> nZ * nZ <= |H.value|)
      && (Q.Some? ==> nX * nX <= |Q.value|)
      && (R.Some? ==> nU * nU <= |R.value|)
      && (g.Some? ==> nZ <= |g.value|)
      && (C.Some? ==> nX * nZ <= |C.value|)
      && (A.Some? ==> nX * nX <= |A.value|)
      && (B.Some? ==> nX * nU <= |B.value|)
      && (c.Some? ==> nX <= |c.value|)
      && (D.Some? ==> nD * nZ <= |D.value|)
      && (dLow.Some? ==> nD <= |dLow.value|)
      && (dUpp.Some? ==> nD <= |dUpp.value|)
    }
  }

  /** Data arguments of setupFinalInterval, each possibly NULL. */
  datatype FinalInput = FinalInput(
    H: Option<seq<real>>, g: Option<seq<real>>, zLow: Option<seq<real>>, zUpp: Option<seq<real>>,
    D: Option<seq<real>>, dLow: Option<seq<real>>, dUpp: Option<seq<real>>)
  {
    predicate LargeEnough(nV: nat, nD: nat) {
      && (H.Some? ==> nV * nV <= |H.value|)
      && (g.Some? ==> nV <= |g.value|)
      && (zLow.Some? ==> nV <= |zLow.value|)
      && (zUpp.Some? ==> nV <= |zUpp.value|)
      && (D.Some? ==> nD * nV <= |D.value|)
      && (dLow.Some? ==> nD <= |dLow.value|)
      && (dUpp.Some? ==> nD <= |dUpp.value|)
    }
  }

  /** A matrix given as an argument: detected tag unless one is known, entries copied. */
  function GivenMatrix(ext: Externals, M: Matrix, from: seq<real>, nRows: nat, nCols: nat): Matrix
    requires nRows * nCols <= |from|
  {
    Matrix(if M.sparsity == MatrixUndefined then ext.detectMatrixSparsity(from, nRows, nCols) else M.sparsity,
           Updated(M.data, Some(from), nRows * nCols))
  }

  /** The vector set up from an argument, or zeros when it is NULL (setupVector / setupZeroVector). */
  function VectorOrZeros(from: Option<seq<real>>, n: nat): (r: seq<real>)
    requires from.Some? ==> n <= |from.value|
    ensures |r| == n
  {
    if from.Some? then from.value[..n] else Zeros(n)
  }

  /** Data arguments of updateIntervalData, each possibly NULL. */
  datatype StageData = StageData(
    H: Option<seq<real>>, g: Option<seq<real>>, C: Option<seq<real>>, c: Option<seq<real>>,
    zLow: Option<seq<real>>, zUpp: Option<seq<real>>,
    D: Option<seq<real>>, dLow: Option<seq<real>>, dUpp: Option<seq<real>>)
  {
    /** Every given array has at least the entries updateIntervalData reads from it. */
    predicate LargeEnough(nX: nat, nZ: nat, nV: nat, nD: nat) {
      && (H.Some? ==> nV * nV <= |H.value|)
      && (g.Some? ==> nV <= |g.value|)
      && (C.Some? ==> nX * nZ <= |C.value|)
      && (c.Some? ==> nX <= |c.value|)
      && (zLow.Some? ==> nV <= |zLow.value|)
      && (zUpp.Some? ==> nV <= |zUpp.value|)
      && (D.Some? ==> nD * nV <= |D.value|)
      && (dLow.Some? ==> nD <= |dLow.value|)
      && (dUpp.Some? ==> nD <= |dUpp.value|)
    }

    /** Whether the objective or a matrix changed, which re-runs the stage QP setup. */
    predicate ChangesStageQP() {
      H.Some? || g.Some? || D.Some?
    }
  }

  /** The stage data that qpDUNES_updateIntervalData may overwrite. */
  datatype StageValues = StageValues(
    H: Matrix, g: seq<real>, C: Matrix, c: seq<real>, zLow: seq<real>, zUpp: seq<real>,
    D: Matrix, dLow: seq<real>, dUpp: seq<real>)
  {
    /** The vectors that updateIntervalData overwrites have their allocated lengths. */
    predicate Sized(nV: nat, nD: nat) {
      |g| == nV && |zLow| == nV && |zUpp| == nV && |dLow| == nD && |dUpp| == nD
    }
  }

  /**
   * The data of a freshly allocated stage: zeroed storage of its sizes
   * (H nV x nV, C nX x nV, D nD x nV) with unknown sparsity.
   */
  function AllocatedValues(nX: nat, nV: nat, nD: nat): (v: StageValues)
    ensures v.Sized(nV, nD)
    ensures |v.H.data| == nV * nV && |v.C.data| == nX * nV && |v.c| == nX && |v.D.data| == nD * nV
    ensures v.H.sparsity == MatrixUndefined && v.C.sparsity == MatrixUndefined && v.D.sparsity == MatrixUndefined
  {
    StageValues(
      Matrix(MatrixUndefined, Zeros(nV * nV)), Zeros(nV), Matrix(MatrixUndefined, Zeros(nX * nV)), Zeros(nX),
      Zeros(nV), Zeros(nV), Matrix(MatrixUndefined, Zeros(nD * nV)), Zeros(nD), Zeros(nD))
  }

  /** No new data at all: every argument NULL. */
  const NoData := StageData(None, None, None, None, None, None, None, None, None)

  /**
   * The copy step of qpDUNES_updateIntervalData on values: every given
   * array overwrites the leading entries of its field (D only when D is
   * given); the sparsity tags are kept.
   */
  function CopiedValues(v: StageValues, d: StageData, nX: nat, nZ: nat, nV: nat, nD: nat): (r: StageValues)
    requires d.LargeEnough(nX, nZ, nV, nD)
    ensures r.H.sparsity == v.H.sparsity && r.C.sparsity == v.C.sparsity && r.D.sparsity == v.D.sparsity
    ensures d == NoData ==> r == v
  {
    StageValues(
      v.H.(data := Updated(v.H.data, d.H, nV * nV)), Updated(v.g, d.g, nV),
      v.C.(data := Updated(v.C.data, d.C, nX * nZ)), Updated(v.c, d.c, nX),
      Updated(v.zLow, d.zLow, nV), Updated(v.zUpp, d.zUpp, nV),
      if d.D.Some? then v.D.(data := Updated(v.D.data, d.D, nD * nV)) else v.D,
      Updated(v.dLow, d.dLow, nD), Updated(v.dUpp, d.dUpp, nD))
  }

  /** The copy keeps every overwritten vector at its allocated length. */
  lemma CopiedValuesKeepSizes(v: StageValues, d: StageData, nX: nat, nZ: nat, nV: nat, nD: nat)
    requires d.LargeEnough(nX, nZ, nV, nD) && v.Sized(nV, nD)
    ensures CopiedValues(v, d, nX, nZ, nV, nD).Sized(nV, nD)
  {
  }

  /** Copying the same data again changes nothing. */
  lemma {:induction false} UpdatedIdempotent(to: seq<real>, from: Option<seq<real>>, n: nat)
    requires from.Some? ==> n <= |from.value|
    ensures Updated(Updated(to, from, n), from, n) == Updated(to, from, n)
  {
    if from.Some? {
      var once := Updated(to, from, n);
      var twice := Updated(once, from, n);
      assert |twice| == |once|;
      forall k | 0 <= k < |once|
        ensures twice[k] == once[k]
      {
        if k < n {
          assert twice[..n][k] == once[..n][k];
        } else {
          assert twice[n..][k - n] == once[n..][k - n];
        }
      }
    }
  }

  /** updateIntervalData's copy step is idempotent: the same data copied twice gives the same stage. */
  lemma CopiedValuesIdempotent(v: StageValues, d: StageData, nX: nat, nZ: nat, nV: nat, nD: nat)
    requires d.LargeEnough(nX, nZ, nV, nD)
    ensures CopiedValues(CopiedValues(v, d, nX, nZ, nV, nD), d, nX, nZ, nV, nD) == CopiedValues(v, d, nX, nZ, nV, nD)
  {
    var once := CopiedValues(v, d, nX, nZ, nV, nD);
    var twice := CopiedValues(once, d, nX, nZ, nV, nD);
    UpdatedIdempotent(v.H.data, d.H, nV * nV);
    UpdatedIdempotent(v.g, d.g, nV);
    UpdatedIdempotent(v.C.data, d.C, nX * nZ);
    UpdatedIdempotent(v.c, d.c, nX);
    assert twice.H == once.H && twice.g == once.g && twice.C == once.C && twice.c == once.c;
    UpdatedIdempotent(v.zLow, d.zLow, nV);
    UpdatedIdempotent(v.zUpp, d.zUpp, nV);
    UpdatedIdempotent(v.D.data, d.D, nD * nV);
    UpdatedIdempotent(v.dLow, d.dLow, nD);
    UpdatedIdempotent(v.dUpp, d.dUpp, nD);
  }

  /** The stage's solver state, which setupStageQP rewrites. */
  datatype SolverValues = SolverValues(
    solver: QpSolverKind, cholH: Matrix, q: seq<real>, lambdaK: Vector, lambdaK1: Vector,
    clipping: ClippingWorkspace)

  /**
   * The refactorisation decision of updateIntervalData, as seen in the
   * stage's solver state going from before to after: unchanged when
   * neither the objective nor a matrix changed; a new H brings its
   * supplied factor or is refactorised (for the clipping solver); an
   * unchanged H keeps its factor.
   */
  predicate RefactorDecided(before: SolverValues, after: SolverValues, ext: Externals, H: Matrix, nV: nat,
                            d: StageData, cholFactor: Option<Matrix>)
  {
    && (!d.ChangesStageQP() ==> after == before)
    && (d.H.None? ==> after.cholH == before.cholH)
    && (d.H.Some? && cholFactor.Some? ==> after.cholH == cholFactor.value)
    && (d.H.Some? && cholFactor.None? && after.solver == SolverClipping ==> after.cholH == ext.factorizeH(H, nV))
  }

  /** The final stage's Hessian: detected and copied when given, regParam * I otherwise. */
  function FinalHessian(ext: Externals, opts: Options, H: Matrix, H_: Option<seq<real>>, nX: nat, nV: nat): Matrix
    requires H_.Some? ==> nV * nV <= |H_.value|
  {
    if H_.Some? then Matrix(ext.detectMatrixSparsity(H_.value, nV, nV), Updated(H.data, H_, nV * nV))
    else ext.setupScaledIdentityMatrix(nX, opts.regParam)
  }

  /*
   * ---------------------------------------------------------------------
   * Multipliers and the stage QP's first-order term
   * ---------------------------------------------------------------------
   */

  /**
   * Block k of the global multiplier vector (nX entries from offset k*nX):
   * the multiplier of the coupling between stages k and k+1.
   */
  function MultiplierBlock(lambda: seq<real>, k: nat, nX: nat): (r: seq<real>)
    requires (k + 1) * nX <= |lambda|
    ensures |r| == nX
    ensures forall i :: 0 <= i < nX ==> r[i] == lambda[k * nX + i]
  {
    lambda[k * nX .. (k + 1) * nX]
  }

  /** qpDUNES_updateVector of a multiplier piece from block k: the first nX entries, the flag kept. */
  function Loaded(v: Vector, lambda: seq<real>, k: nat, nX: nat): (r: Vector)
    requires (k + 1) * nX <= |lambda|
    ensures r.isDefined == v.isDefined
    ensures nX <= |v.data| ==> |r.data| == |v.data|
    ensures nX <= |r.data| && forall i :: 0 <= i < nX ==> r.data[i] == lambda[k * nX + i]
  {
    v.(data := Updated(v.data, Some(MultiplierBlock(lambda, k, nX)), nX))
  }

  /** Blocks 0..nI-1 of an nX*nI vector are in range. */
  lemma BlockInRange(k: nat, nX: nat, nI: nat)
    requires k < nI
    ensures (k + 1) * nX <= nX * nI
  {
    BlockLayout.MulMonotone(k + 1, nI, nX);
  }

  /** Loading the same block twice is loading it once. */
  lemma LoadedIdempotent(v: Vector, lambda: seq<real>, k: nat, nX: nat)
    requires (k + 1) * nX <= |lambda|
    ensures Loaded(Loaded(v, lambda, k, nX), lambda, k, nX) == Loaded(v, lambda, k, nX)
  {
    UpdatedIdempotent(v.data, Some(MultiplierBlock(lambda, k, nX)), nX);
  }

  /**
   * A stage's solver state s after the multiplier refresh of a stage with
   * the given id (setupAllLocalQPs step 1, repeated in setupStageQP):
   * lambdaK takes block id-1 if there is a predecessor, lambdaK1 block id
   * if there is a successor; everything else is kept.
   */
  function LoadedInto(s: SolverValues, lambda: seq<real>, id: nat, nX: nat, nI: nat): (r: SolverValues)
    requires id <= nI && |lambda| == nX * nI
    ensures r.solver == s.solver && r.cholH == s.cholH && r.q == s.q && r.clipping == s.clipping
    ensures r.lambdaK.isDefined == s.lambdaK.isDefined && r.lambdaK1.isDefined == s.lambdaK1.isDefined
    ensures id > 0 ==> id * nX <= |lambda| && nX <= |r.lambdaK.data| && r.lambdaK.data[..nX] == MultiplierBlock(lambda, id - 1, nX)
    ensures id == 0 ==> r.lambdaK == s.lambdaK
    ensures id < nI ==> (id + 1) * nX <= |lambda| && nX <= |r.lambdaK1.data| && r.lambdaK1.data[..nX] == MultiplierBlock(lambda, id, nX)
    ensures id == nI ==> r.lambdaK1 == s.lambdaK1
  {
    var k := if id > 0 then LoadedK(s.lambdaK, lambda, id, nX, nI) else s.lambdaK;
    var k1 := if id < nI then LoadedK1(s.lambdaK1, lambda, id, nX, nI) else s.lambdaK1;
    s.(lambdaK := k, lambdaK1 := k1)
  }

  /** lambdaK of stage id > 0 after the refresh: block id-1 in front. */
  function LoadedK(v: Vector, lambda: seq<real>, id: nat, nX: nat, nI: nat): (r: Vector)
    requires 0 < id <= nI && |lambda| == nX * nI
    ensures id * nX <= |lambda|
    ensures r.isDefined == v.isDefined && nX <= |r.data| && r.data[..nX] == MultiplierBlock(lambda, id - 1, nX)
  {
    BlockInRange(id - 1, nX, nI);
    var r := Loaded(v, lambda, id - 1, nX);
    assert r.data[..nX] == MultiplierBlock(lambda, id - 1, nX);
    r
  }

  /** lambdaK1 of stage id < nI after the refresh: block id in front. */
  function LoadedK1(v: Vector, lambda: seq<real>, id: nat, nX: nat, nI: nat): (r: Vector)
    requires id < nI && |lambda| == nX * nI
    ensures (id + 1) * nX <= |lambda|
    ensures r.isDefined == v.isDefined && nX <= |r.data| && r.data[..nX] == MultiplierBlock(lambda, id, nX)
  {
    BlockInRange(id, nX, nI);
    var r := Loaded(v, lambda, id, nX);
    assert r.data[..nX] == MultiplierBlock(lambda, id, nX);
    r
  }

  /** Refreshing the multipliers a second time changes nothing. */
  lemma LoadedIntoIdempotent(s: SolverValues, lambda: seq<real>, id: nat, nX: nat, nI: nat)
    requires id <= nI && |lambda| == nX * nI
    ensures LoadedInto(LoadedInto(s, lambda, id, nX, nI), lambda, id, nX, nI) == LoadedInto(s, lambda, id, nX, nI)
  {
    if id > 0 {
      BlockInRange(id - 1, nX, nI);
      LoadedIdempotent(s.lambdaK, lambda, id - 1, nX);
    }
    if id < nI {
      BlockInRange(id, nX, nI);
      LoadedIdempotent(s.lambdaK1, lambda, id, nX);
    }
  }

  /**
   * The stage QP's linear term once the multipliers are dualised:
   * g + C' lambdaK1 - [lambdaK; 0] (the clipping solver's qStep after g is added).
   */
  function StageGradient(C: seq<real>, g: seq<real>, nX: nat, nV: nat, lambdaK: Vector, lambdaK1: Vector): (r: seq<real>)
    requires nX <= nV && nV <= |g|
    requires lambdaK.isDefined ==> nX <= |lambdaK.data|
    requires lambdaK1.isDefined ==> nX <= |lambdaK1.data| && nX * nV <= |C|
    ensures |r| == nV
  {
    AddScaled(ClippingSolver.DualisedLinearTerm(C, nX, nV, lambdaK, lambdaK1), 1.0, g)
  }

  /**
   * The dualised stage objective is the stage's share of the Lagrangian:
   * for every stage vector z (state part x),
   * StageGradient'z + pStep = g'z + lambdaK1'(C z + c) - lambdaK'x,
   * undefined multiplier pieces counting as zero.
   */
  lemma {:induction false} StageGradientIsLagrangianTerm(C: seq<real>, c: seq<real>, g: seq<real>, nX: nat, nV: nat,
                                                         lambdaK: Vector, lambdaK1: Vector, z: seq<real>)
    requires nX <= nV && nV <= |g| && nV <= |z|
    requires lambdaK.isDefined ==> nX <= |lambdaK.data|
    requires lambdaK1.isDefined ==> nX <= |lambdaK1.data| && nX * nV <= |C| && nX <= |c|
    ensures Dot(StageGradient(C, g, nX, nV, lambdaK, lambdaK1), z, nV) + ClippingSolver.DualisedConstant(c, nX, lambdaK1)
         == Dot(g, z, nV)
          + (if lambdaK1.isDefined
             then Dot(lambdaK1.data, MultiplyCz(C, nX, nV, z), nX) + Dot(lambdaK1.data, c, nX)
             else 0.0)
          - (if lambdaK.isDefined then Dot(lambdaK.data, z, nX) else 0.0)
  {
    var d := ClippingSolver.DualisedLinearTerm(C, nX, nV, lambdaK, lambdaK1);
    DotAddScaled(d, 1.0, g, z, nV);
    ClippingSolver.DualisedTermsPriceCoupling(C, c, nX, nV, lambdaK, lambdaK1, z);
  }

  /** The stage solver a stage ends up with (setupAllLocalQPs, setupStageQP). */
  function ChosenSolver(current: QpSolverKind, sparsityH: SparsityType, nD: nat): (s: QpSolverKind)
    ensures s != SolverUndefined
    ensures current != SolverUndefined ==> s == current
    ensures current == SolverUndefined ==> (s == SolverClipping <==> AtLeastDiagonal(sparsityH) && nD == 0)
  {
    if current == SolverUndefined then
      (if AtLeastDiagonal(sparsityH) && nD == 0 then SolverClipping else SolverQpoases)
    else current
  }

  /** What a stage's setup is judged by: its id, sizes, data and solver state. */
  datatype StageView = StageView(id: nat, nD: nat, nV: nat, data: StageValues, state: SolverValues)

  /**
   * A stage v after qpDUNES_setupAllLocalQPs, from the solver state before:
   * its solver is chosen, its multipliers are refreshed, and a clipping
   * stage holds a Hessian factor (stage 0's factor chol0 on an inner stage
   * of an LTI problem, its own factor otherwise), q = 0, the dualised
   * linear term, and the presolve's unconstrained step dz, with
   * zUnconstrained reset when that solve succeeded; a qpOASES stage has
   * q = g and keeps factor and workspace.
   */
  ghost predicate StageSetUp(v: StageView, before: SolverValues, ext: Externals, lambda: seq<real>,
                             nX: nat, nI: nat, isLTI: bool, chol0: Matrix)
  {
    && ext.WellSized() && v.id <= nI && |lambda| == nX * nI && nX <= v.nV && v.nV <= |v.data.g|
    && (v.state.lambdaK.isDefined ==> nX <= |v.state.lambdaK.data|)
    && (v.state.lambdaK1.isDefined ==> nX <= |v.state.lambdaK1.data| && nX * v.nV <= |v.data.C.data| && nX <= |v.data.c|)
    && var loaded := LoadedInto(before, lambda, v.id, nX, nI);
    && v.state.solver == ChosenSolver(before.solver, v.data.H.sparsity, v.nD)
    && v.state.lambdaK == loaded.lambdaK && v.state.lambdaK1 == loaded.lambdaK1
    && (v.state.solver == SolverClipping ==>
          && v.state.cholH == (if isLTI && 0 < v.id < nI then chol0 else ext.factorizeH(v.data.H, v.nV))
          && v.state.q == Zeros(v.nV)
          && v.state.clipping.qStep == StageGradient(v.data.C.data, v.data.g, nX, v.nV, v.state.lambdaK, v.state.lambdaK1)
          && v.state.clipping.pStep == ClippingSolver.DualisedConstant(v.data.c, nX, v.state.lambdaK1)
          && UnconstrainedStepTaken(v, before.clipping, ext))
    && (v.state.solver == SolverQpoases ==>
          v.state.cholH == before.cholH && v.state.q == v.data.g && v.state.clipping == before.clipping)
  }

  /**
   * The solver state qpDUNES_setupStageQP leaves, from the state s whose
   * multipliers are already reloaded and the factor cholH the stage holds:
   * a clipping stage gets q = 0, the dualised linear term qStep and
   * constant pStep, the unconstrained step dz = -H^{-1} qStep, and a zero
   * zUnconstrained when that solve succeeded; any other stage becomes a
   * qpOASES stage with q = g and keeps its workspace.
   */
  function Rebuilt(s: SolverValues, data: StageValues, nV: nat, nX: nat, ext: Externals, cholH: Matrix): (r: SolverValues)
    requires ext.WellSized() && nX <= nV && nV <= |data.g|
    requires s.lambdaK.isDefined ==> nX <= |s.lambdaK.data|
    requires s.lambdaK1.isDefined ==> nX * nV <= |data.C.data| && nX <= |s.lambdaK1.data| && nX <= |data.c|
    ensures r.lambdaK == s.lambdaK && r.lambdaK1 == s.lambdaK1 && r.cholH == cholH
  {
    if s.solver == SolverClipping then
      var qStep := StageGradient(data.C.data, data.g, nX, nV, s.lambdaK, s.lambdaK1);
      var solved := ext.multiplyInvHz(cholH, qStep);
      s.(cholH := cholH, q := Zeros(nV),
         clipping := ClippingWorkspace(if IsOk(solved.0) then Zeros(nV) else s.clipping.zUnconstrained,
                                       ClippingSolver.Negated(solved.1, nV), qStep,
                                       ClippingSolver.DualisedConstant(data.c, nX, s.lambdaK1)))
    else
      s.(solver := SolverQpoases, cholH := cholH, q := data.g)
  }

  /**
   * A stage v after qpDUNES_setupStageQP, from the solver state before
   * (the Hessian factor aside, which the caller decides): the multipliers
   * are reloaded from lambda (LoadedInto) and the rest of the state is
   * Rebuilt from them.
   */
  ghost predicate StageQPRebuilt(v: StageView, before: SolverValues, ext: Externals, lambda: seq<real>,
                                 nX: nat, nI: nat)
  {
    && ext.WellSized() && v.id <= nI && |lambda| == nX * nI && nX <= v.nV && v.nV <= |v.data.g|
    && var loaded := LoadedInto(before, lambda, v.id, nX, nI);
    && (loaded.lambdaK.isDefined ==> nX <= |loaded.lambdaK.data|)
    && (loaded.lambdaK1.isDefined ==> nX * v.nV <= |v.data.C.data| && nX <= |loaded.lambdaK1.data| && nX <= |v.data.c|)
    && v.state == Rebuilt(loaded, v.data, v.nV, nX, ext, v.state.cholH)
  }

  /** StageQPRebuilt does not depend on the factor held before: setupStageQP's result ignores it. */
  lemma RebuiltWhateverFactorBefore(v: StageView, before: SolverValues, c: Matrix, ext: Externals,
                                    lambda: seq<real>, nX: nat, nI: nat)
    requires StageQPRebuilt(v, before.(cholH := c), ext, lambda, nX, nI)
    ensures StageQPRebuilt(v, before, ext, lambda, nX, nI)
  {
    assert LoadedInto(before.(cholH := c), lambda, v.id, nX, nI) == LoadedInto(before, lambda, v.id, nX, nI).(cholH := c);
  }

  /**
   * The presolve of a clipping stage (the end of setupStageQP): dz is the
   * negated solve of H dz = -qStep through the stage's factor, and
   * zUnconstrained is reset to zero when that solve succeeded and kept
   * (from the workspace before) when it failed.
   */
  ghost predicate UnconstrainedStepTaken(v: StageView, before: ClippingWorkspace, ext: Externals)
  {
    && ext.WellSized() && |v.state.clipping.qStep| == v.nV
    && var solved := ext.multiplyInvHz(v.state.cholH, v.state.clipping.qStep);
    && v.state.clipping.dz == ClippingSolver.Negated(solved.1, v.nV)
    && v.state.clipping.zUnconstrained == (if IsOk(solved.0) then Zeros(v.nV) else before.zUnconstrained)
  }

  /**
   * After setupAllLocalQPs, neighbouring stages k and k+1 price their
   * coupling with the same multiplier: lambdaK1 of stage k and lambdaK of
   * stage k+1 both start with block k of lambda.
   */
  lemma NeighboursShareMultiplier(a: StageView, b: StageView, beforeA: SolverValues, beforeB: SolverValues,
                                  ext: Externals, lambda: seq<real>, nX: nat, nI: nat, isLTI: bool,
                                  cholA: Matrix, cholB: Matrix)
    requires StageSetUp(a, beforeA, ext, lambda, nX, nI, isLTI, cholA)
    requires StageSetUp(b, beforeB, ext, lambda, nX, nI, isLTI, cholB)
    requires b.id == a.id + 1
    ensures (a.id + 1) * nX <= |lambda|
    ensures nX <= |a.state.lambdaK1.data| && nX <= |b.state.lambdaK.data|
    ensures a.state.lambdaK1.data[..nX] == b.state.lambdaK.data[..nX] == MultiplierBlock(lambda, a.id, nX)
  {
  }

  /**
   * The stage seen as v holds the stage data sd copied over data0 (for a
   * stage of width nV), its solver state went from solver0 as
   * refactorisation decides, and when H, g or D was given its stage QP was
   * set up again from the multipliers lambda (StageQPRebuilt).
   */
  ghost predicate StageUpdated(v: StageView, data0: StageValues, solver0: SolverValues, ext: Externals,
                               sd: StageData, lambda: seq<real>, nX: nat, nZ: nat, nV: nat, nI: nat)
  {
    && sd.LargeEnough(nX, nZ, nV, 0)
    && v.data == CopiedValues(data0, sd, nX, nZ, nV, 0)
    && RefactorDecided(solver0, v.state, ext, v.data.H, nV, sd, None)
    && (sd.ChangesStageQP() ==> StageQPRebuilt(v, solver0, ext, lambda, nX, nI))
  }

  /** The clipping solver's per-stage workspace (qpSolverClipping_t). */
  datatype ClippingWorkspace = ClippingWorkspace(zUnconstrained: seq<real>, dz: seq<real>, qStep: seq<real>, pStep: real)

  /**
   * One stage of the problem (interval_t). The stage QP's data H, g, C,
   * c, zLow, zUpp, D, dLow, dUpp are held together in data.
   */
  class Interval {
    var id: nat
    var nD: nat
    var nV: nat
    var data: StageValues
    var cholH: Matrix
    var q: seq<real>
    var p: real
    var z: seq<real>
    var y: seq<real>
    var solver: QpSolverKind
    var clipping: ClippingWorkspace
    var lambdaK: Vector
    var lambdaK1: Vector

    /** Every vector has the length allocInterval gives it. */
    ghost predicate Valid(nX: nat)
      reads this`data, this`nV, this`nD
      reads this`q, this`z, this`y, this`clipping, this`lambdaK, this`lambdaK1
    {
      data.Sized(nV, nD) && WorkSized(nX)
    }

    /** The solver's vectors and the multiplier pieces have their allocated lengths. */
    ghost predicate WorkSized(nX: nat)
      reads this`q, this`z, this`y, this`clipping, this`lambdaK, this`lambdaK1, this`nV, this`nD
    {
      && |q| == nV && |z| == nV && |y| == 2 * nV + 2 * nD
      && |clipping.qStep| == nV && |clipping.zUnconstrained| == nV && |clipping.dz| == nV
      && |lambdaK.data| == nX && |lambdaK1.data| == nX
    }

    /** The dynamics of a regular stage have their allocated sizes. */
    ghost predicate HasDynamics(nX: nat)
      reads this`data, this`nV
    {
      nX * nV <= |data.C.data| && |data.c| == nX
    }

    /**
     * The stage fits a position of width nV = width: no affine constraints,
     * storage of its sizes, dynamics unless it is the final stage, and no
     * outgoing multiplier if it is.
     */
    ghost predicate Fits(nX: nat, width: nat, final: bool)
      reads this`nD, this`nV, this`data, this`q, this`z, this`y, this`clipping, this`lambdaK, this`lambdaK1
    {
      && nD == 0
      && nV == width
      && Valid(nX)
      && (!final ==> HasDynamics(nX))
      && (final ==> !lambdaK1.isDefined)
    }

    /** The stage's id, sizes, data and solver state as a value. */
    function View(): StageView
      reads this`id, this`nD, this`nV, this`data, this`solver, this`cholH, this`q, this`lambdaK, this`lambdaK1, this`clipping
    {
      StageView(id, nD, nV, data, SolverState())
    }

    /** The stage's solver state as a value. */
    function SolverState(): SolverValues
      reads this`solver, this`cholH, this`q, this`lambdaK, this`lambdaK1, this`clipping
    {
      SolverValues(solver, cholH, q, lambdaK, lambdaK1, clipping)
    }

    /**
     * qpDUNES_allocInterval: zeroed storage of the stage's sizes, unknown
     * sparsity, both multiplier pieces defined, no stage solver chosen.
     */
    constructor Alloc(nX: nat, nV: nat, nD: nat)
      ensures this.nD == nD && this.nV == nV && id == 0
      ensures data == AllocatedValues(nX, nV, nD)
      ensures cholH == Matrix(MatrixUndefined, Zeros(nV * nV)) && q == Zeros(nV) && p == 0.0
      ensures z == Zeros(nV) && y == Zeros(2 * nV + 2 * nD)
      ensures lambdaK == Vector(true, Zeros(nX)) && lambdaK1 == Vector(true, Zeros(nX))
      ensures clipping == ClippingWorkspace(Zeros(nV), Zeros(nV), Zeros(nV), 0.0)
      ensures solver == SolverUndefined
      ensures Valid(nX) && HasDynamics(nX)
    {
      id := 0;
      this.nD := nD;
      this.nV := nV;
      data := AllocatedValues(nX, nV, nD);
      cholH := Matrix(MatrixUndefined, Zeros(nV * nV));
      q := Zeros(nV);
      p := 0.0;
      z := Zeros(nV);
      y := Zeros(2 * nV + 2 * nD);
      solver := SolverUndefined;
      clipping := ClippingWorkspace(Zeros(nV), Zeros(nV), Zeros(nV), 0.0);
      lambdaK := Vector(true, Zeros(nX));
      lambdaK1 := Vector(true, Zeros(nX));
    }

    /**
     * The Hessian step of setupRegularInterval: take or assemble H, then
     * reject it unless it is at least diagonal.
     */
    method SetRegularHessian(ext: Externals, inp: RegularInput, nX: nat, nU: nat) returns (status: ReturnCode)
      requires inp.LargeEnough(nX, nU, nD)
      modifies this`data
      ensures data == old(data).(H := RegularHessian(ext, old(data.H), inp.H, inp.Q, inp.R, inp.S, nX, nU))
      ensures status == Ok <==> AtLeastDiagonal(data.H.sparsity)
      ensures status != Ok ==> status == ErrInvalidArgument
    {
      data := data.(H := RegularHessian(ext, data.H, inp.H, inp.Q, inp.R, inp.S, nX, nU));
      if !AtLeastDiagonal(data.H.sparsity) {
        return ErrInvalidArgument;
      }
      status := Ok;
    }

    /**
     * The dynamics step of setupRegularInterval: an unknown tag becomes
     * dense; C is copied, or assembled from A and B, or missing (an error,
     * with c untouched).
     */
    method SetDynamics(C_: Option<seq<real>>, A_: Option<seq<real>>, B_: Option<seq<real>>, c_: Option<seq<real>>,
                       nX: nat, nU: nat) returns (status: ReturnCode)
      requires nX * (nX + nU) <= |data.C.data|
      requires C_.Some? ==> nX * (nX + nU) <= |C_.value|
      requires A_.Some? ==> nX * nX <= |A_.value|
      requires B_.Some? ==> nX * nU <= |B_.value|
      requires c_.Some? ==> nX <= |c_.value|
      modifies this`data
      ensures data == old(data).(C := data.C, c := data.c)
      ensures data.C.sparsity == (if old(data.C.sparsity) == MatrixUndefined then Dense else old(data.C.sparsity))
      ensures status == Ok <==> C_.Some? || (A_.Some? && B_.Some?)
      ensures status != Ok ==> status == ErrInvalidArgument && data.C.data == old(data.C.data) && data.c == old(data.c)
      ensures C_.Some? ==> data.C.data == Updated(old(data.C.data), C_, nX * (nX + nU))
      ensures C_.None? && status == Ok ==> StackedOver(data.C.data, old(data.C.data), A_.value, B_.value, nX, nU)
      ensures status == Ok ==> data.c == VectorOrZeros(c_, nX)
    {
      var C := data.C;
      if C.sparsity == MatrixUndefined {
        C := C.(sparsity := Dense);
      }
      if C_.Some? {
        C := C.(data := Updated(C.data, C_, nX * (nX + nU)));
      } else if A_.Some? && B_.Some? {
        var assembled := AssembleC(C.data, A_.value, B_.value, nX, nU);
        C := C.(data := assembled);
      } else {
        data := data.(C := C);
        return ErrInvalidArgument;
      }
      data := data.(C := C, c := VectorOrZeros(c_, nX));
      status := Ok;
    }

    /**
     * The affine-constraint step both stage kinds end with: a given D is
     * copied (its tag detected if unknown), a missing one nulled; the
     * constraint bounds are updated when given.
     */
    method SetConstraints(ext: Externals, D_: Option<seq<real>>, dLow_: Option<seq<real>>, dUpp_: Option<seq<real>>)
      requires D_.Some? ==> nD * nV <= |D_.value|
      requires dLow_.Some? ==> nD <= |dLow_.value|
      requires dUpp_.Some? ==> nD <= |dUpp_.value|
      modifies this`data
      ensures data == old(data).(
        D := if D_.Some? then GivenMatrix(ext, old(data.D), D_.value, nD, nV) else ext.setMatrixNull(old(data.D)),
        dLow := Updated(old(data.dLow), dLow_, nD), dUpp := Updated(old(data.dUpp), dUpp_, nD))
    {
      var D := if D_.Some? then GivenMatrix(ext, data.D, D_.value, nD, nV) else ext.setMatrixNull(data.D);
      data := data.(D := D, dLow := Updated(data.dLow, dLow_, nD), dUpp := Updated(data.dUpp, dUpp_, nD));
    }

    /**
     * The last steps of setupRegularInterval: the bounds start at -/+ infty
     * before the given stage, state or control bounds are applied; then the
     * affine constraints.
     */
    method SetRegularBounds(ext: Externals, opts: Options, inp: RegularInput)
      requires inp.D.Some? ==> nD * nV <= |inp.D.value|
      requires inp.dLow.Some? ==> nD <= |inp.dLow.value|
      requires inp.dUpp.Some? ==> nD <= |inp.dUpp.value|
      modifies this`data
      ensures data == old(data).(
        zLow := ext.updateSimpleBoundVector(Uniform(-opts.infty, nV), inp.zLow, inp.xLow, inp.uLow),
        zUpp := ext.updateSimpleBoundVector(Uniform(opts.infty, nV), inp.zUpp, inp.xUpp, inp.uUpp),
        D := if inp.D.Some? then GivenMatrix(ext, old(data.D), inp.D.value, nD, nV) else ext.setMatrixNull(old(data.D)),
        dLow := Updated(old(data.dLow), inp.dLow, nD), dUpp := Updated(old(data.dUpp), inp.dUpp, nD))
    {
      data := data.(
        zLow := ext.updateSimpleBoundVector(Uniform(-opts.infty, nV), inp.zLow, inp.xLow, inp.uLow),
        zUpp := ext.updateSimpleBoundVector(Uniform(opts.infty, nV), inp.zUpp, inp.xUpp, inp.uUpp));
      SetConstraints(ext, inp.D, inp.dLow, inp.dUpp);
    }

    /**
     * Everything setupRegularInterval does once the Hessian is accepted:
     * g, the dynamics, the bounds and the affine constraints. Missing
     * dynamics stop it after g and C's tag are set.
     */
    method SetRegularData(ext: Externals, opts: Options, nX: nat, nU: nat, inp: RegularInput)
        returns (status: ReturnCode)
      requires nV == nX + nU && HasDynamics(nX)
      requires inp.LargeEnough(nX, nU, nD)
      modifies this`data
      ensures data.H == old(data.H)
      ensures status == Ok <==> inp.C.Some? || (inp.A.Some? && inp.B.Some?)
      ensures status != Ok ==> status == ErrInvalidArgument
      ensures data.g == VectorOrZeros(inp.g, nV)
      ensures data.C.sparsity == (if old(data.C.sparsity) == MatrixUndefined then Dense else old(data.C.sparsity))
      ensures status != Ok ==> data == old(data).(g := data.g, C := data.C) && data.C.data == old(data.C.data)
      ensures inp.C.Some? ==> data.C.data == Updated(old(data.C.data), inp.C, nX * nV)
      ensures status == Ok && inp.C.None? ==>
        StackedOver(data.C.data, old(data.C.data), inp.A.value, inp.B.value, nX, nU)
      ensures status == Ok ==> data.c == VectorOrZeros(inp.c, nX)
      ensures status == Ok ==>
        && data.zLow == ext.updateSimpleBoundVector(Uniform(-opts.infty, nV), inp.zLow, inp.xLow, inp.uLow)
        && data.zUpp == ext.updateSimpleBoundVector(Uniform(opts.infty, nV), inp.zUpp, inp.xUpp, inp.uUpp)
      ensures status == Ok ==>
        data.D == if inp.D.Some? then GivenMatrix(ext, old(data.D), inp.D.value, nD, nV)
                  else ext.setMatrixNull(old(data.D))
      ensures status == Ok ==>
        data.dLow == Updated(old(data.dLow), inp.dLow, nD) && data.dUpp == Updated(old(data.dUpp), inp.dUpp, nD)
    {
      data := data.(g := VectorOrZeros(inp.g, nV));
      status := SetDynamics(inp.C, inp.A, inp.B, inp.c, nX, nU);
      if status != Ok {
        return;
      }
      SetRegularBounds(ext, opts, inp);
    }

    /**
     * qpDUNES_setupRegularInterval. The Hessian is taken or assembled and
     * rejected unless at least diagonal, which leaves everything else as it
     * was; the rest is SetRegularData.
     */
    method SetupRegular(ext: Externals, opts: Options, nX: nat, nU: nat, inp: RegularInput)
        returns (status: ReturnCode)
      requires nV == nX + nU && HasDynamics(nX)
      requires inp.LargeEnough(nX, nU, nD)
      modifies this`data
      ensures data.H == RegularHessian(ext, old(data.H), inp.H, inp.Q, inp.R, inp.S, nX, nU)
      ensures status == Ok <==> AtLeastDiagonal(data.H.sparsity) && (inp.C.Some? || (inp.A.Some? && inp.B.Some?))
      ensures status != Ok ==> status == ErrInvalidArgument
      ensures !AtLeastDiagonal(data.H.sparsity) ==> data == old(data).(H := data.H)
      ensures AtLeastDiagonal(data.H.sparsity) ==> data.g == VectorOrZeros(inp.g, nV)
      ensures AtLeastDiagonal(data.H.sparsity) ==>
        data.C.sparsity == (if old(data.C.sparsity) == MatrixUndefined then Dense else old(data.C.sparsity))
      ensures status != Ok ==> data == old(data).(H := data.H, g := data.g, C := data.C)
      ensures status != Ok ==> data.C.data == old(data.C.data)
      ensures status == Ok && inp.C.Some? ==> data.C.data == Updated(old(data.C.data), inp.C, nX * nV)
      ensures status == Ok && inp.C.None? ==>
        StackedOver(data.C.data, old(data.C.data), inp.A.value, inp.B.value, nX, nU)
      ensures status == Ok ==> data.c == VectorOrZeros(inp.c, nX)
      ensures status == Ok ==>
        && data.zLow == ext.updateSimpleBoundVector(Uniform(-opts.infty, nV), inp.zLow, inp.xLow, inp.uLow)
        && data.zUpp == ext.updateSimpleBoundVector(Uniform(opts.infty, nV), inp.zUpp, inp.xUpp, inp.uUpp)
      ensures status == Ok ==>
        data.D == if inp.D.Some? then GivenMatrix(ext, old(data.D), inp.D.value, nD, nV)
                  else ext.setMatrixNull(old(data.D))
      ensures status == Ok ==>
        data.dLow == Updated(old(data.dLow), inp.dLow, nD) && data.dUpp == Updated(old(data.dUpp), inp.dUpp, nD)
    {
      status := SetRegularHessian(ext, inp, nX, nU);
      if status != Ok {
        return;
      }
      status := SetRegularData(ext, opts, nX, nU, inp);
    }

    /**
     * qpDUNES_setupFinalInterval: no dynamics and no sparsity check; a
     * missing Hessian becomes regParam times the identity.
     */
    method SetupFinal(ext: Externals, opts: Options, nX: nat, inp: FinalInput) returns (status: ReturnCode)
      requires inp.LargeEnough(nV, nD)
      modifies this`data
      ensures data == old(data).(
        H := FinalHessian(ext, opts, old(data.H), inp.H, nX, nV),
        g := VectorOrZeros(inp.g, nV),
        zLow := Updated(Uniform(-opts.infty, nV), inp.zLow, nV),
        zUpp := Updated(Uniform(opts.infty, nV), inp.zUpp, nV),
        D := if inp.D.Some? then GivenMatrix(ext, old(data.D), inp.D.value, nD, nV) else ext.setMatrixNull(old(data.D)),
        dLow := Updated(old(data.dLow), inp.dLow, nD), dUpp := Updated(old(data.dUpp), inp.dUpp, nD))
      ensures status == Ok
    {
      data := data.(
        H := FinalHessian(ext, opts, data.H, inp.H, nX, nV),
        g := VectorOrZeros(inp.g, nV),
        zLow := Updated(Uniform(-opts.infty, nV), inp.zLow, nV),
        zUpp := Updated(Uniform(opts.infty, nV), inp.zUpp, nV));
      SetConstraints(ext, inp.D, inp.dLow, inp.dUpp);
      status := Ok;
    }

    /**
     * qpDUNES_setupSimpleBoundedInterval: with R present a regular stage
     * from Q, R, S, A, B, c and the state and control bounds; without R the
     * final stage with Q as its Hessian and the state bounds. Neither has
     * affine constraints, so D is nulled.
     */
    method SetupSimpleBounded(ext: Externals, opts: Options, nX: nat, nU: nat,
                              Q: Option<seq<real>>, R: Option<seq<real>>, S: Option<seq<real>>,
                              A: Option<seq<real>>, B: Option<seq<real>>, c_: Option<seq<real>>,
                              xLow: Option<seq<real>>, xUpp: Option<seq<real>>,
                              uLow: Option<seq<real>>, uUpp: Option<seq<real>>)
        returns (status: ReturnCode)
      requires R.Some? ==> nV == nX + nU && HasDynamics(nX) && nU * nU <= |R.value|
      requires R.Some? && Q.Some? ==> nX * nX <= |Q.value|
      requires R.Some? && A.Some? ==> nX * nX <= |A.value|
      requires R.Some? && B.Some? ==> nX * nU <= |B.value|
      requires R.Some? && c_.Some? ==> nX <= |c_.value|
      requires R.None? && Q.Some? ==> nV * nV <= |Q.value|
      requires R.None? && xLow.Some? ==> nV <= |xLow.value|
      requires R.None? && xUpp.Some? ==> nV <= |xUpp.value|
      modifies this`data
      ensures R.Some? ==> data.H == RegularHessian(ext, old(data.H), None, Q, R, S, nX, nU)
      ensures R.Some? ==> (status == Ok <==> AtLeastDiagonal(data.H.sparsity) && A.Some? && B.Some?)
      ensures R.Some? && !AtLeastDiagonal(data.H.sparsity) ==> data == old(data).(H := data.H)
      ensures R.Some? && AtLeastDiagonal(data.H.sparsity) ==>
        && data.g == Zeros(nV)
        && data.C.sparsity == (if old(data.C.sparsity) == MatrixUndefined then Dense else old(data.C.sparsity))
      ensures R.Some? && status != Ok ==>
        data == old(data).(H := data.H, g := data.g, C := data.C) && data.C.data == old(data.C.data)
      ensures R.Some? && status == Ok ==>
        && StackedOver(data.C.data, old(data.C.data), A.value, B.value, nX, nU)
        && data.c == VectorOrZeros(c_, nX)
        && data.D == ext.setMatrixNull(old(data.D))
        && data.zLow == ext.updateSimpleBoundVector(Uniform(-opts.infty, nV), None, xLow, uLow)
        && data.zUpp == ext.updateSimpleBoundVector(Uniform(opts.infty, nV), None, xUpp, uUpp)
        && data.dLow == old(data.dLow) && data.dUpp == old(data.dUpp)
      ensures R.None? ==> status == Ok && data == old(data).(
        H := FinalHessian(ext, opts, old(data.H), Q, nX, nV),
        g := Zeros(nV),
        zLow := Updated(Uniform(-opts.infty, nV), xLow, nV),
        zUpp := Updated(Uniform(opts.infty, nV), xUpp, nV),
        D := ext.setMatrixNull(old(data.D)))
      ensures status != Ok ==> status == ErrInvalidArgument
    {
      if R.Some? {
        status := SetupRegular(ext, opts, nX, nU,
          RegularInput(None, Q, R, S, None, None, A, B, c_, None, None, xLow, xUpp, uLow, uUpp, None, None, None));
      } else {
        status := SetupFinal(ext, opts, nX, FinalInput(Q, None, xLow, xUpp, None, None, None));
      }
    }

    /**
     * Set or clear the definedness flag of the incoming multiplier piece
     * lambdaK; its values are kept.
     */
    method MarkIncoming(defined: bool, ghost nX: nat, ghost width: nat, ghost final: bool)
      requires Fits(nX, width, final)
      modifies this`lambdaK
      ensures lambdaK == old(lambdaK).(isDefined := defined)
      ensures Fits(nX, width, final)
    {
      lambdaK := lambdaK.(isDefined := defined);
    }

    /**
     * The multiplier refresh of setupStageQP: a stage with a predecessor
     * takes block id-1 as lambdaK, one with a successor block id as lambdaK1.
     */
    method LoadMultipliers(lambda: seq<real>, nX: nat, nI: nat)
      requires id <= nI && |lambda| == nX * nI
      modifies this`lambdaK, this`lambdaK1
      ensures id > 0 ==> id * nX <= |lambda| && lambdaK == Loaded(old(lambdaK), lambda, id - 1, nX)
      ensures id == 0 ==> lambdaK == old(lambdaK)
      ensures id < nI ==> (id + 1) * nX <= |lambda| && lambdaK1 == Loaded(old(lambdaK1), lambda, id, nX)
      ensures id == nI ==> lambdaK1 == old(lambdaK1)
    {
      if id > 0 {
        BlockInRange(id - 1, nX, nI);
        lambdaK := Loaded(lambdaK, lambda, id - 1, nX);
      }
      if id < nI {
        BlockInRange(id, nX, nI);
        lambdaK1 := Loaded(lambdaK1, lambda, id, nX);
      }
    }

    /**
     * The first-order data of the clipping branch: q reset to zero,
     * qStep = StageGradient and pStep from the loaded multipliers.
     */
    method FormStageTerms(nX: nat)
      requires Valid(nX) && nX <= nV
      requires lambdaK1.isDefined ==> nX * nV <= |data.C.data| && nX <= |data.c|
      modifies this`q, this`clipping
      ensures q == Zeros(nV)
      ensures clipping == old(clipping).(qStep := StageGradient(data.C.data, data.g, nX, nV, lambdaK, lambdaK1),
                                         pStep := ClippingSolver.DualisedConstant(data.c, nX, lambdaK1))
    {
      q := Zeros(nV);
      var qs := new real[nV];
      var pStep, _ := ClippingSolver.UpdateStageData(qs, data.C.data, data.c, nX, nV, lambdaK, lambdaK1);
      clipping := clipping.(qStep := AddScaled(qs[..], 1.0, data.g), pStep := pStep);
    }

    /**
     * The solve of the clipping branch: factorise H if asked to, take the
     * unconstrained step dz = -H^{-1} qStep, and reset zUnconstrained
     * unless the solve failed, whose status is passed on.
     */
    method SolveStage(ext: Externals, refactor: bool) returns (status: ReturnCode)
      requires |clipping.qStep| == nV && ext.WellSized()
      modifies this`cholH, this`clipping
      ensures cholH == if refactor then ext.factorizeH(data.H, nV) else old(cholH)
      ensures status == ext.multiplyInvHz(cholH, clipping.qStep).0
      ensures clipping.qStep == old(clipping.qStep) && clipping.pStep == old(clipping.pStep)
      ensures clipping.dz == ClippingSolver.Negated(ext.multiplyInvHz(cholH, clipping.qStep).1, nV)
      ensures clipping.zUnconstrained == if IsOk(status) then Zeros(nV) else old(clipping.zUnconstrained)
    {
      if refactor {
        cholH := ext.factorizeH(data.H, nV);
      }
      var dzs := new real[nV];
      assert clipping.qStep[..nV] == clipping.qStep;
      status := ClippingSolver.SolveUnconstrained(ext, dzs, cholH, clipping.qStep, nV);
      clipping := clipping.(dz := dzs[..]);
      if !IsOk(status) {
        return;
      }
      clipping := clipping.(zUnconstrained := Zeros(nV));
    }

    /**
     * The clipping branch of setupStageQP once the multipliers are loaded:
     * FormStageTerms, then SolveStage.
     */
    method SetupClipping(ext: Externals, nX: nat, refactor: bool) returns (status: ReturnCode)
      requires Valid(nX) && nX <= nV && ext.WellSized()
      requires lambdaK1.isDefined ==> nX * nV <= |data.C.data| && nX <= |data.c|
      modifies this`cholH, this`q, this`clipping
      ensures cholH == if refactor then ext.factorizeH(data.H, nV) else old(cholH)
      ensures q == Zeros(nV)
      ensures clipping.qStep == StageGradient(data.C.data, data.g, nX, nV, lambdaK, lambdaK1)
      ensures clipping.pStep == ClippingSolver.DualisedConstant(data.c, nX, lambdaK1)
      ensures status == ext.multiplyInvHz(cholH, clipping.qStep).0
      ensures clipping.dz == ClippingSolver.Negated(ext.multiplyInvHz(cholH, clipping.qStep).1, nV)
      ensures clipping.zUnconstrained == if IsOk(status) then Zeros(nV) else old(clipping.zUnconstrained)
      ensures WorkSized(nX)
    {
      FormStageTerms(nX);
      status := SolveStage(ext, refactor);
    }

    /**
     * qpDUNES_setupStageQP: a stage marked for the clipping solver is
     * prepared for it (SetupClipping); any other stage is handed to
     * qpOASES with q = g, whose setup status is returned.
     */
    method SetupStageQP(ext: Externals, lambda: seq<real>, nX: nat, nI: nat, refactor: bool)
        returns (status: ReturnCode)
      requires Valid(nX) && nX <= nV && ext.WellSized()
      requires id <= nI && |lambda| == nX * nI
      requires lambdaK1.isDefined ==> nX * nV <= |data.C.data| && nX <= |data.c|
      modifies this`solver, this`cholH, this`lambdaK, this`lambdaK1, this`q, this`clipping
      ensures solver == if old(solver) == SolverClipping then SolverClipping else SolverQpoases
      ensures id > 0 ==> id * nX <= |lambda| && lambdaK == Loaded(old(lambdaK), lambda, id - 1, nX)
      ensures id == 0 ==> lambdaK == old(lambdaK)
      ensures id < nI ==> (id + 1) * nX <= |lambda| && lambdaK1 == Loaded(old(lambdaK1), lambda, id, nX)
      ensures id == nI ==> lambdaK1 == old(lambdaK1)
      ensures WorkSized(nX)
      ensures solver == SolverClipping ==>
        && cholH == (if refactor then ext.factorizeH(data.H, nV) else old(cholH))
        && q == Zeros(nV)
        && clipping.qStep == StageGradient(data.C.data, data.g, nX, nV, lambdaK, lambdaK1)
        && clipping.pStep == ClippingSolver.DualisedConstant(data.c, nX, lambdaK1)
        && status == ext.multiplyInvHz(cholH, clipping.qStep).0
        && clipping.dz == ClippingSolver.Negated(ext.multiplyInvHz(cholH, clipping.qStep).1, nV)
        && clipping.zUnconstrained == (if IsOk(status) then Zeros(nV) else old(clipping.zUnconstrained))
      ensures solver == SolverQpoases ==>
        cholH == old(cholH) && q == data.g && clipping == old(clipping) && status == ext.qpOasesSetupStatus
      ensures SolverState() == Rebuilt(LoadedInto(old(SolverState()), lambda, id, nX, nI), data, nV, nX, ext, cholH)
    {
      if solver == SolverClipping {
        LoadMultipliers(lambda, nX, nI);
        status := SetupClipping(ext, nX, refactor);
      } else {
        solver := SolverQpoases;
        q := data.g;
        LoadMultipliers(lambda, nX, nI);
        status := ext.qpOasesSetupStatus;
      }
    }

    /** Step (1) of qpDUNES_setupAllLocalQPs on one stage that fits its place: it still fits. */
    method LoadFitting(lambda: seq<real>, nX: nat, nI: nat, ghost width: nat, ghost final: bool)
      requires Fits(nX, width, final) && id <= nI && |lambda| == nX * nI
      modifies this`lambdaK, this`lambdaK1
      ensures Fits(nX, width, final)
      ensures SolverState() == LoadedInto(old(SolverState()), lambda, id, nX, nI)
    {
      LoadMultipliers(lambda, nX, nI);
    }

    /**
     * Step (2) of qpDUNES_setupAllLocalQPs on one stage whose multipliers
     * were refreshed from the solver state before: a stage with no solver
     * gets clipping if H is at least diagonal and there are no affine
     * constraints, qpOASES otherwise; an inner clipping stage of an LTI
     * problem copies stage 0's factor chol0 instead of refactorising; then
     * the stage QP is set up (its status is not looked at).
     */
    method SetupLocal(ext: Externals, lambda: seq<real>, nX: nat, nI: nat, isLTI: bool, chol0: Matrix,
                      ghost before: SolverValues, ghost width: nat, ghost final: bool)
      requires Fits(nX, width, final) && nX <= nV && ext.WellSized()
      requires id <= nI && |lambda| == nX * nI
      requires SolverState() == LoadedInto(before, lambda, id, nX, nI)
      modifies this`solver, this`cholH, this`lambdaK, this`lambdaK1, this`q, this`clipping
      ensures Fits(nX, width, final)
      ensures StageSetUp(View(), before, ext, lambda, nX, nI, isLTI, chol0)
    {
      var refactor := DecideSolver(nI, isLTI, chol0);
      var _ := SetupStageQP(ext, lambda, nX, nI, refactor);
      LoadedIntoIdempotent(before, lambda, id, nX, nI);
    }

    /**
     * Parts (a) and (b) of step (2) of qpDUNES_setupAllLocalQPs: choose
     * the solver, and copy chol0 instead of refactorising on an inner
     * clipping stage of an LTI problem.
     */
    method DecideSolver(nI: nat, isLTI: bool, chol0: Matrix) returns (refactor: bool)
      requires id <= nI
      modifies this`solver, this`cholH
      ensures solver == ChosenSolver(old(solver), data.H.sparsity, nD)
      ensures refactor <==> !(solver == SolverClipping && isLTI && 0 < id < nI)
      ensures cholH == if refactor then old(cholH) else chol0
    {
      solver := ChosenSolver(solver, data.H.sparsity, nD);
      refactor := true;
      if solver == SolverClipping && isLTI && id != 0 && id != nI {
        cholH := chol0;
        refactor := false;
      }
    }

    /** The copy step of qpDUNES_updateIntervalData (a NULL argument leaves its field alone). */
    method CopyData(nX: nat, nZ: nat, d: StageData)
      requires Valid(nX) && d.LargeEnough(nX, nZ, nV, nD)
      modifies this`data
      ensures data == CopiedValues(old(data), d, nX, nZ, nV, nD)
      ensures Valid(nX)
      ensures |old(data.C.data)| <= |data.C.data| && |old(data.c)| <= |data.c|
    {
      CopiedValuesKeepSizes(data, d, nX, nZ, nV, nD);
      data := CopiedValues(data, d, nX, nZ, nV, nD);
    }

    /**
     * The refactorisation decision of updateIntervalData: when the stage QP
     * changed, a new H comes with its supplied factor or is refactorised;
     * an unchanged H keeps its factor. The stage QP is then set up again.
     */
    method RefreshStage(ext: Externals, lambda: seq<real>, nX: nat, nI: nat, d: StageData, cholFactor: Option<Matrix>)
      requires Valid(nX) && nX <= nV && ext.WellSized()
      requires id <= nI && |lambda| == nX * nI
      requires lambdaK1.isDefined ==> nX * nV <= |data.C.data| && nX <= |data.c|
      modifies this`solver, this`cholH, this`lambdaK, this`lambdaK1, this`q, this`clipping
      ensures Valid(nX)
      ensures RefactorDecided(old(SolverState()), SolverState(), ext, data.H, nV, d, cholFactor)
      ensures d.ChangesStageQP() ==> StageQPRebuilt(View(), old(SolverState()), ext, lambda, nX, nI)
      ensures lambdaK.isDefined == old(lambdaK.isDefined) && lambdaK1.isDefined == old(lambdaK1.isDefined)
    {
      if d.ChangesStageQP() {
        RebuildStage(ext, lambda, nX, nI, d, cholFactor);
      }
    }

    /** The branch of RefreshStage taken when H, g or D changed: place the factor, then setupStageQP. */
    method RebuildStage(ext: Externals, lambda: seq<real>, nX: nat, nI: nat, d: StageData, cholFactor: Option<Matrix>)
      requires Valid(nX) && nX <= nV && ext.WellSized() && d.ChangesStageQP()
      requires id <= nI && |lambda| == nX * nI
      requires lambdaK1.isDefined ==> nX * nV <= |data.C.data| && nX <= |data.c|
      modifies this`solver, this`cholH, this`lambdaK, this`lambdaK1, this`q, this`clipping
      ensures Valid(nX)
      ensures RefactorDecided(old(SolverState()), SolverState(), ext, data.H, nV, d, cholFactor)
      ensures StageQPRebuilt(View(), old(SolverState()), ext, lambda, nX, nI)
      ensures lambdaK.isDefined == old(lambdaK.isDefined) && lambdaK1.isDefined == old(lambdaK1.isDefined)
    {
      ghost var before := SolverState();
      var refactor := false;
      if d.H.Some? {
        if cholFactor.Some? {
          cholH := cholFactor.value;
        } else {
          refactor := true;
        }
      }
      ghost var placed := SolverState();
      var _ := SetupStageQP(ext, lambda, nX, nI, refactor);
      assert placed == before.(cholH := placed.cholH);
      RebuiltWhateverFactorBefore(View(), before, placed.cholH, ext, lambda, nX, nI);
    }

    /**
     * qpDUNES_updateIntervalData: copy the given data, then refresh the
     * stage QP when its objective or matrices changed. Always OK.
     */
    method UpdateData(ext: Externals, lambda: seq<real>, nX: nat, nZ: nat, nI: nat, d: StageData,
                      cholFactor: Option<Matrix>) returns (status: ReturnCode)
      requires Valid(nX) && nX <= nV && ext.WellSized()
      requires id <= nI && |lambda| == nX * nI
      requires lambdaK1.isDefined ==> nX * nV <= |data.C.data| && nX <= |data.c|
      requires d.LargeEnough(nX, nZ, nV, nD)
      modifies this`data, this`solver, this`cholH, this`lambdaK, this`lambdaK1, this`q, this`clipping
      ensures data == CopiedValues(old(data), d, nX, nZ, nV, nD)
      ensures Valid(nX)
      ensures old(HasDynamics(nX)) ==> HasDynamics(nX)
      ensures lambdaK.isDefined == old(lambdaK.isDefined) && lambdaK1.isDefined == old(lambdaK1.isDefined)
      ensures RefactorDecided(old(SolverState()), SolverState(), ext, data.H, nV, d, cholFactor)
      ensures d.ChangesStageQP() ==> StageQPRebuilt(View(), old(SolverState()), ext, lambda, nX, nI)
      ensures status == Ok
    {
      CopyData(nX, nZ, d);
      RefreshStage(ext, lambda, nX, nI, d, cholFactor);
      status := Ok;
    }

    /** updateIntervalData on a stage that fits its place, without a supplied factor: it still fits. */
    method UpdateFitting(ext: Externals, lambda: seq<real>, nX: nat, nZ: nat, nI: nat, d: StageData,
                         ghost width: nat, ghost final: bool) returns (status: ReturnCode)
      requires Fits(nX, width, final) && nX <= nV && ext.WellSized()
      requires id <= nI && |lambda| == nX * nI
      requires d.LargeEnough(nX, nZ, nV, 0)
      modifies this`data, this`solver, this`cholH, this`lambdaK, this`lambdaK1, this`q, this`clipping
      ensures Fits(nX, width, final)
      ensures data == CopiedValues(old(data), d, nX, nZ, nV, 0)
      ensures RefactorDecided(old(SolverState()), SolverState(), ext, data.H, nV, d, None)
      ensures d.ChangesStageQP() ==> StageQPRebuilt(View(), old(SolverState()), ext, lambda, nX, nI)
      ensures status == Ok
    {
      status := UpdateData(ext, lambda, nX, nZ, nI, d, None);
    }
  }
}
