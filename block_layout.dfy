/**
 * Index arithmetic of the matrix access macros of include/qp/types.h.
 *
 * The Newton Hessian and its Cholesky factor are symmetric block-tridiagonal
 * matrices with nI diagonal blocks of size nX x nX. They are stored as nI
 * stacked slabs of nX rows and 2*nX columns: in slab K the sub-diagonal block
 * L_K (block column offset L = -1) comes first and the diagonal block D_K
 * (L = 0) second; the sub-diagonal part of slab 0 is unused.
 */
module BlockLayout {

  /** Generic row-major access M[i*dim + j] (accM). */
  function RowMajor(i: int, j: int, dim: int): int {
    i * dim + j
  }

  /** Offset of entry (I, J) of block (K, K+L) in the slab storage (accHessian). */
  function AccHessian(nX: nat, k: int, l: int, i: int, j: int): int {
    k * 2 * nX * nX + i * 2 * nX + (1 + l) * nX + j
  }

  /** Offset of entry (I, J) of the nV x nV stage Hessian (accH). */
  function AccH(nV: nat, i: int, j: int): int {
    RowMajor(i, j, nV)
  }

  /** Offset of entry (I, J) of the nX x nZ dynamics matrix C = [A|B] (accC). */
  function AccC(nZ: nat, i: int, j: int): int {
    RowMajor(i, j, nZ)
  }

  predicate IsBlockColumn(l: int) {
    l == -1 || l == 0
  }

  /** Product of non-negative numbers, monotone in its first factor. */
  lemma MulMonotone(a: int, b: int, m: int)
    requires 0 <= a <= b && 0 <= m
    ensures 0 <= a * m <= b * m
  {
    assert b * m == a * m + (b - a) * m;
  }

  /**
   * Row-major storage with dim columns is a bijection between the cells
   * [0, rows) x [0, dim) and the offsets [0, rows*dim).
   */
  lemma {:induction false} RowMajorInBounds(i: int, j: int, rows: int, dim: int)
    requires 0 <= i < rows && 0 <= j < dim
    ensures 0 <= RowMajor(i, j, dim) < rows * dim
  {
    MulMonotone(i, rows - 1, dim);
    assert rows * dim == (rows - 1) * dim + dim;
  }

  /** Moving one row down in a row-major layout skips at least dim offsets. */
  lemma MulStep(a: int, b: int, m: int)
    requires a < b && 0 <= m
    ensures a * m + m <= b * m
  {
    MulMonotone(0, b - a - 1, m);
    assert b * m == a * m + m + (b - a - 1) * m;
  }

  lemma {:induction false} RowMajorInjective(i: int, j: int, i': int, j': int, dim: int)
    requires 0 <= j < dim && 0 <= j' < dim
    requires RowMajor(i, j, dim) == RowMajor(i', j', dim)
    ensures i == i' && j == j'
  {
    if i < i' {
      MulStep(i, i', dim);
    } else if i' < i {
      MulStep(i', i, dim);
    }
  }

  /** Reading an offset back as (row, column) undoes RowMajor, in both directions. */
  lemma {:induction false} RowMajorRoundTrip(i: int, j: int, o: int, dim: int)
    requires 0 < dim
    requires 0 <= i && 0 <= j < dim
    requires 0 <= o
    ensures RowMajor(i, j, dim) / dim == i && RowMajor(i, j, dim) % dim == j
    ensures RowMajor(o / dim, o % dim, dim) == o
  {
    var x := RowMajor(i, j, dim);
    assert x == (x / dim) * dim + x % dim;
    RowMajorInjective(i, j, x / dim, x % dim, dim);
  }

  /** accH stays inside the nV*nV buffer allocated for H. */
  lemma AccHInBounds(nV: nat, i: int, j: int)
    requires 0 <= i < nV && 0 <= j < nV
    ensures 0 <= AccH(nV, i, j) < nV * nV
  {
    RowMajorInBounds(i, j, nV, nV);
  }

  /** accC stays inside the nX*nZ buffer of C. */
  lemma AccCInBounds(nX: nat, nZ: nat, i: int, j: int)
    requires 0 <= i < nX && 0 <= j < nZ
    ensures 0 <= AccC(nZ, i, j) < nX * nZ
  {
    RowMajorInBounds(i, j, nX, nZ);
  }

  /**
   * The slab storage is a row-major matrix with 2*nX columns whose row
   * K*nX + I is row I of slab K and whose column (1+L)*nX + J is column J
   * of block L.
   */
  lemma {:induction false} AccHessianIsSlabRowMajor(nX: nat, k: int, l: int, i: int, j: int)
    ensures AccHessian(nX, k, l, i, j) == RowMajor(k * nX + i, (1 + l) * nX + j, 2 * nX)
  {
    calc {
      RowMajor(k * nX + i, (1 + l) * nX + j, 2 * nX);
      (k * nX + i) * (2 * nX) + (1 + l) * nX + j;
      { assert (k * nX + i) * (2 * nX) == k * nX * (2 * nX) + i * (2 * nX); }
      k * nX * (2 * nX) + i * (2 * nX) + (1 + l) * nX + j;
      { assert k * nX * (2 * nX) == k * 2 * nX * nX; }
      AccHessian(nX, k, l, i, j);
    }
  }

  /** Within a slab row, block L = -1 takes columns [0, nX) and block L = 0 columns [nX, 2nX). */
  lemma SlabColumns(nX: nat, l: int, j: int)
    requires IsBlockColumn(l) && 0 <= j < nX
    ensures l == -1 ==> 0 <= (1 + l) * nX + j < nX
    ensures l == 0 ==> nX <= (1 + l) * nX + j < 2 * nX
  {
  }

  /**
   * For 0 <= K < nI, L in {-1, 0} and 0 <= I, J < nX the offset lies in the
   * (2*nX)*(nX*nI) entries allocated for the Newton Hessian and its factor.
   */
  lemma {:induction false} AccHessianInBounds(nX: nat, nI: nat, k: int, l: int, i: int, j: int)
    requires 0 <= k < nI && IsBlockColumn(l) && 0 <= i < nX && 0 <= j < nX
    ensures 0 <= AccHessian(nX, k, l, i, j) < (nX * 2) * (nX * nI)
  {
    var row, col := RowMajor(k, i, nX), RowMajor(1 + l, j, nX);
    AccHessianIsSlabRowMajor(nX, k, l, i, j);
    SlabColumns(nX, l, j);
    RowMajorInBounds(k, i, nI, nX);
    RowMajorInBounds(row, col, nI * nX, 2 * nX);
    assert AccHessian(nX, k, l, i, j) < (nI * nX) * (2 * nX);
    assert (nI * nX) * (2 * nX) == (nX * 2) * (nX * nI);
  }

  /** No two entries of the block-tridiagonal storage share an offset. */
  lemma {:induction false} AccHessianInjective(nX: nat, k: int, l: int, i: int, j: int,
                                               k': int, l': int, i': int, j': int)
    requires 0 <= k && IsBlockColumn(l) && 0 <= i < nX && 0 <= j < nX
    requires 0 <= k' && IsBlockColumn(l') && 0 <= i' < nX && 0 <= j' < nX
    requires AccHessian(nX, k, l, i, j) == AccHessian(nX, k', l', i', j')
    ensures k == k' && l == l' && i == i' && j == j'
  {
    AccHessianIsSlabRowMajor(nX, k, l, i, j);
    AccHessianIsSlabRowMajor(nX, k', l', i', j');
    MulMonotone(0, k, nX);
    MulMonotone(0, k', nX);
    SlabColumns(nX, l, j);
    SlabColumns(nX, l', j');
    RowMajorInjective(k * nX + i, (1 + l) * nX + j, k' * nX + i', (1 + l') * nX + j', 2 * nX);
    RowMajorInjective(k, i, k', i', nX);
    RowMajorInjective(1 + l, j, 1 + l', j', nX);
  }

  /** Block index, block column, row and column of an in-bounds offset. */
  datatype HessianCell = HessianCell(k: int, l: int, i: int, j: int)

  function DecodeHessianOffset(nX: nat, o: int): (c: HessianCell)
    requires 0 < nX && 0 <= o
  {
    var row := o / (2 * nX);
    var col := o % (2 * nX);
    HessianCell(row / nX, col / nX - 1, row % nX, col % nX)
  }

  /** Decoding the offset of a stored cell gives back that cell. */
  lemma {:induction false} DecodeAccHessian(nX: nat, k: int, l: int, i: int, j: int)
    requires 0 < nX
    requires 0 <= k && IsBlockColumn(l) && 0 <= i < nX && 0 <= j < nX
    ensures 0 <= AccHessian(nX, k, l, i, j)
    ensures DecodeHessianOffset(nX, AccHessian(nX, k, l, i, j)) == HessianCell(k, l, i, j)
  {
    var row, col := RowMajor(k, i, nX), RowMajor(1 + l, j, nX);
    AccHessianIsSlabRowMajor(nX, k, l, i, j);
    MulMonotone(0, k, nX);
    SlabColumns(nX, l, j);
    RowMajorRoundTrip(row, col, 0, 2 * nX);
    var o := AccHessian(nX, k, l, i, j);
    assert o / (2 * nX) == row && o % (2 * nX) == col;
    RowMajorRoundTrip(k, i, 0, nX);
    RowMajorRoundTrip(1 + l, j, 0, nX);
  }

  /** Division with remainder by a positive divisor. */
  lemma DivMod(o: int, d: int)
    requires 0 <= o && 0 < d
    ensures o == (o / d) * d + o % d && 0 <= o % d < d && 0 <= o / d
  {
  }

  /** An offset inside a rows x dim row-major buffer lies in a row below rows. */
  lemma RowOfOffset(o: int, rows: int, dim: int)
    requires 0 < dim && 0 <= rows && 0 <= o < rows * dim
    ensures 0 <= o / dim < rows && 0 <= o % dim < dim
    ensures RowMajor(o / dim, o % dim, dim) == o
  {
    DivMod(o, dim);
    if o / dim >= rows {
      MulMonotone(rows, o / dim, dim);
    }
  }

  /** Every offset of the (2*nX)*(nX*nI) buffer is the offset of exactly one decoded cell. */
  lemma {:induction false} AccHessianOfDecode(nX: nat, nI: nat, o: int)
    requires 0 < nX
    requires 0 <= o < (nX * 2) * (nX * nI)
    ensures var c := DecodeHessianOffset(nX, o);
      0 <= c.k < nI && IsBlockColumn(c.l) && 0 <= c.i < nX && 0 <= c.j < nX &&
      AccHessian(nX, c.k, c.l, c.i, c.j) == o
  {
    var c := DecodeHessianOffset(nX, o);
    var row, col := o / (2 * nX), o % (2 * nX);
    DivMod(o, 2 * nX);
    DivMod(row, nX);
    DivMod(col, nX);
    var b := col / nX;
    assert b < 2 by {
      if b >= 2 {
        MulMonotone(2, b, nX);
      }
    }
    assert (nX * nI) * (2 * nX) == (nX * 2) * (nX * nI);
    assert row < nX * nI by {
      if row >= nX * nI {
        MulMonotone(nX * nI, row, 2 * nX);
      }
    }
    assert c.k < nI by {
      if c.k >= nI {
        MulMonotone(nI, c.k, nX);
      }
    }
    AccHessianIsSlabRowMajor(nX, c.k, c.l, c.i, c.j);
    assert (1 + c.l) * nX + c.j == col;
    assert c.k * nX + c.i == row;
  }
}
