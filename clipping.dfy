/**
 * The clipping stage-QP solver (src/stage_qp_solver_clipping.c).
 *
 * A stage QP  min 1/2 z'Hz + q'z + p  s.t.  zLow <= z <= zUpp  with a
 * diagonal (or identity) Hessian is solved in closed form: the
 * unconstrained minimiser is clipped to the box. The gaps
 * mu[2i] = zLow[i] - z[i] and mu[2i+1] = z[i] - zUpp[i] serve as
 * pseudo-multipliers: non-negative means active, negative inactive.
 *
 * Vectors the C code writes through its arguments are arrays here; vectors it
 * only reads are passed as their values. Each routine reads index i
 * before it writes index i, so passing an interval's own vector as an
 * output (as the line search does) gives the same result as passing a
 * copy.
 */
module ClippingSolver {
  import opened QpTypes
  import opened Kernels

  /*
   * ---------------------------------------------------------------------
   * Minimum over optional candidates, shared by the ratio test and the
   * active-set step search.
   * ---------------------------------------------------------------------
   */

  /** Replace the incumbent by a candidate only if the candidate is strictly smaller. */
  function Admit(cur: real, cand: Option<real>): real {
    if cand.Some? && cand.value < cur then cand.value else cur
  }

  /** The incumbent after offering cs[0], ..., cs[n-1] in order, starting from start. */
  function FoldMin(start: real, cs: seq<Option<real>>, n: nat): real
    requires n <= |cs|
  {
    if n == 0 then start else Admit(FoldMin(start, cs, n - 1), cs[n - 1])
  }

  /** The fold never rises above its starting value. */
  lemma {:induction false} FoldMinBelowStart(start: real, cs: seq<Option<real>>, n: nat)
    requires n <= |cs|
    ensures FoldMin(start, cs, n) <= start
  {
    if n > 0 {
      FoldMinBelowStart(start, cs, n - 1);
    }
  }

  /** The fold is at most every candidate offered. */
  lemma {:induction false} FoldMinLeast(start: real, cs: seq<Option<real>>, n: nat)
    requires n <= |cs|
    ensures forall k :: 0 <= k < n && cs[k].Some? ==> FoldMin(start, cs, n) <= cs[k].value
  {
    if n > 0 {
      FoldMinLeast(start, cs, n - 1);
    }
  }

  /** The fold is the starting value or one of the candidates offered. */
  lemma {:induction false} FoldMinAttained(start: real, cs: seq<Option<real>>, n: nat)
    requires n <= |cs|
    ensures FoldMin(start, cs, n) == start
         || exists k :: 0 <= k < n && cs[k] == Some(FoldMin(start, cs, n))
  {
    if n > 0 {
      FoldMinAttained(start, cs, n - 1);
      if FoldMin(start, cs, n) != FoldMin(start, cs, n - 1) {
        assert cs[n - 1] == Some(FoldMin(start, cs, n));
      }
    }
  }

  /** Two candidate lists offering the same values, in any order, give the same minimum. */
  lemma FoldMinSameCandidates(start: real, cs: seq<Option<real>>, n: nat, ds: seq<Option<real>>, m: nat)
    requires n <= |cs| && m <= |ds|
    requires forall k :: 0 <= k < n && cs[k].Some? ==> exists l :: 0 <= l < m && ds[l] == cs[k]
    requires forall l :: 0 <= l < m && ds[l].Some? ==> exists k :: 0 <= k < n && cs[k] == ds[l]
    ensures FoldMin(start, cs, n) == FoldMin(start, ds, m)
  {
    FoldMinNoMoreThan(start, cs, n, ds, m);
    FoldMinNoMoreThan(start, ds, m, cs, n);
  }

  /** If every candidate of cs is offered by ds, the fold over ds is at most the fold over cs. */
  lemma FoldMinNoMoreThan(start: real, cs: seq<Option<real>>, n: nat, ds: seq<Option<real>>, m: nat)
    requires n <= |cs| && m <= |ds|
    requires forall k :: 0 <= k < n && cs[k].Some? ==> exists l :: 0 <= l < m && ds[l] == cs[k]
    ensures FoldMin(start, ds, m) <= FoldMin(start, cs, n)
  {
    var r := FoldMin(start, cs, n);
    FoldMinBelowStart(start, ds, m);
    FoldMinLeast(start, ds, m);
    FoldMinAttained(start, cs, n);
    if r != start {
      var k :| 0 <= k < n && cs[k] == Some(r);
      var l :| 0 <= l < m && ds[l] == cs[k];
      assert ds[l].Some? && ds[l].value == r;
    }
  }

  /*
   * ---------------------------------------------------------------------
   * directQpSolver_saturateVector
   * ---------------------------------------------------------------------
   */

  /**
   * The clipping rule for one entry: the lower bound is tested first, so an
   * entry within tol of both bounds goes to the lower one.
   */
  function SaturateEntry(v: real, l: real, u: real, tol: real): real {
    if l - v >= -tol then l
    else if v - u >= -tol then u
    else v
  }

  /** The first nV entries of v clipped to [lb, ub]; later entries as they were. */
  function Saturated(v: seq<real>, lb: seq<real>, ub: seq<real>, tol: real, nV: nat): (r: seq<real>)
    requires nV <= |v| && nV <= |lb| && nV <= |ub|
    ensures |r| == |v|
  {
    seq(|v|, k requires 0 <= k < |v| => if k < nV then SaturateEntry(v[k], lb[k], ub[k], tol) else v[k])
  }

  /** Gap k of v to its bounds: even k the lower gap, odd k the upper gap of entry k/2. */
  function Gap(v: seq<real>, lb: seq<real>, ub: seq<real>, k: nat): real
    requires k / 2 < |v| && k / 2 < |lb| && k / 2 < |ub|
  {
    if k % 2 == 0 then lb[k / 2] - v[k / 2] else v[k / 2] - ub[k / 2]
  }

  /** mu with its first 2*nV entries replaced by the gaps of v. */
  function BoundGaps(mu: seq<real>, v: seq<real>, lb: seq<real>, ub: seq<real>, nV: nat): (r: seq<real>)
    requires 2 * nV <= |mu| && nV <= |v| && nV <= |lb| && nV <= |ub|
    ensures |r| == |mu|
  {
    seq(|mu|, k requires 0 <= k < |mu| => if k < 2 * nV then Gap(v, lb, ub, k) else mu[k])
  }

  /**
   * Records the gaps of the entry before clipping it, then clips it; only
   * the first nV entries of vec and the first 2*nV of mu are written.
   */
  method SaturateVector(vec: array<real>, mu: array<real>, lb: seq<real>, ub: seq<real>, nV: nat, tol: real)
      returns (status: ReturnCode)
    requires vec != mu
    requires nV <= vec.Length && 2 * nV <= mu.Length && nV <= |lb| && nV <= |ub|
    modifies vec, mu
    ensures vec[..] == Saturated(old(vec[..]), lb, ub, tol, nV)
    ensures mu[..] == BoundGaps(old(mu[..]), old(vec[..]), lb, ub, nV)
    ensures status == Ok
  {
    ghost var v0 := vec[..];
    ghost var mu0 := mu[..];
    for ii := 0 to nV
      invariant forall k :: 0 <= k < vec.Length ==>
        vec[k] == if k < ii then SaturateEntry(v0[k], lb[k], ub[k], tol) else v0[k]
      invariant forall k :: 0 <= k < mu.Length ==>
        mu[k] == if k < 2 * ii then Gap(v0, lb, ub, k) else mu0[k]
    {
      mu[2 * ii] := lb[ii] - vec[ii];
      mu[2 * ii + 1] := vec[ii] - ub[ii];
      if mu[2 * ii] >= -tol {
        vec[ii] := lb[ii];
      } else if mu[2 * ii + 1] >= -tol {
        vec[ii] := ub[ii];
      }
    }
    assert vec[..] == Saturated(v0, lb, ub, tol, nV);
    assert mu[..] == BoundGaps(mu0, v0, lb, ub, nV);
    status := Ok;
  }

  /** With ordered bounds and a non-negative tolerance, every clipped entry lies in its box. */
  lemma SaturatedWithinBounds(v: seq<real>, lb: seq<real>, ub: seq<real>, tol: real, nV: nat)
    requires nV <= |v| && nV <= |lb| && nV <= |ub|
    requires tol >= 0.0 && forall i :: 0 <= i < nV ==> lb[i] <= ub[i]
    ensures forall i :: 0 <= i < nV ==> lb[i] <= Saturated(v, lb, ub, tol, nV)[i] <= ub[i]
  {
  }

  /**
   * Clipping twice is clipping once, provided no box is narrower than the
   * tolerance without being a single point.
   */
  lemma SaturatedIdempotent(v: seq<real>, lb: seq<real>, ub: seq<real>, tol: real, nV: nat)
    requires nV <= |v| && nV <= |lb| && nV <= |ub|
    requires tol >= 0.0
    requires forall i :: 0 <= i < nV ==> lb[i] == ub[i] || ub[i] - lb[i] > tol
    ensures Saturated(Saturated(v, lb, ub, tol, nV), lb, ub, tol, nV) == Saturated(v, lb, ub, tol, nV)
  {
  }

  /**
   * In a box narrower than the tolerance an entry sitting on the upper bound
   * is moved to the lower bound, so a second clipping changes the result of
   * the first.
   */
  lemma NarrowBoxNotIdempotent(l: real, u: real, tol: real)
    requires 0.0 < u - l <= tol
    ensures SaturateEntry(u + tol + 1.0, l, u, tol) == u
    ensures SaturateEntry(SaturateEntry(u + tol + 1.0, l, u, tol), l, u, tol) == l != u
  {
  }

  /*
   * ---------------------------------------------------------------------
   * clippingQpSolver_updateStageData
   * ---------------------------------------------------------------------
   */

  /**
   * The dualised linear term C' lambdaK1 - [lambdaK; 0]; an undefined
   * multiplier contributes nothing.
   */
  function DualisedLinearTerm(C: seq<real>, nX: nat, nV: nat, lambdaK: Vector, lambdaK1: Vector): (r: seq<real>)
    requires nX <= nV
    requires lambdaK.isDefined ==> nX <= |lambdaK.data|
    requires lambdaK1.isDefined ==> nX <= |lambdaK1.data| && nX * nV <= |C|
    ensures |r| == nV
  {
    var base := if lambdaK1.isDefined then MultiplyCTy(C, nX, nV, lambdaK1.data) else Zeros(nV);
    if lambdaK.isDefined then AddScaled(base, -1.0, PadWithZeros(lambdaK.data, nX, nV)) else base
  }

  /** The dualised constant term c' lambdaK1, zero when lambdaK1 is undefined. */
  function DualisedConstant(c: seq<real>, nX: nat, lambdaK1: Vector): real
    requires lambdaK1.isDefined ==> nX <= |lambdaK1.data| && nX <= |c|
  {
    if lambdaK1.isDefined then Dot(lambdaK1.data, c, nX) else 0.0
  }

  /** Writes the first n entries of src into dst (the kernels' stores into a result vector). */
  method Store(dst: array<real>, src: seq<real>, n: nat)
    requires n <= dst.Length && n <= |src|
    modifies dst
    ensures dst[..] == src[..n] + old(dst[n..])
  {
    for i := 0 to n
      invariant forall k :: 0 <= k < i ==> dst[k] == src[k]
      invariant forall k :: i <= k < dst.Length ==> dst[k] == old(dst[k])
    {
      dst[i] := src[i];
    }
    assert dst[..] == src[..n] + old(dst[n..]);
  }

  /** Forms qStep in place and returns pStep. */
  method UpdateStageData(qStep: array<real>, C: seq<real>, c: seq<real>, nX: nat, nV: nat,
                         lambdaK: Vector, lambdaK1: Vector)
      returns (pStep: real, status: ReturnCode)
    requires qStep.Length == nV && nX <= nV
    requires lambdaK.isDefined ==> nX <= |lambdaK.data|
    requires lambdaK1.isDefined ==> nX <= |lambdaK1.data| && nX * nV <= |C| && nX <= |c|
    modifies qStep
    ensures qStep[..] == DualisedLinearTerm(C, nX, nV, lambdaK, lambdaK1)
    ensures pStep == DualisedConstant(c, nX, lambdaK1)
    ensures status == Ok
  {
    var base := if lambdaK1.isDefined then MultiplyCTy(C, nX, nV, lambdaK1.data) else Zeros(nV);
    Store(qStep, base, nV);
    pStep := if lambdaK1.isDefined then Dot(lambdaK1.data, c, nX) else 0.0;
    if lambdaK.isDefined {
      for ii := 0 to nX
        invariant forall k :: 0 <= k < nV ==> qStep[k] == base[k] - (if k < ii then lambdaK.data[k] else 0.0)
      {
        qStep[ii] := qStep[ii] - lambdaK.data[ii];
      }
    }
    assert qStep[..] == DualisedLinearTerm(C, nX, nV, lambdaK, lambdaK1);
    status := Ok;
  }

  /** lambdaK only reaches the state part of qStep: entries nX..nV-1 do not depend on it. */
  lemma LambdaKOnlyShiftsStateBlock(C: seq<real>, nX: nat, nV: nat, lambdaK: Vector, lambdaK': Vector,
                                    lambdaK1: Vector, i: nat)
    requires nX <= i < nV
    requires lambdaK.isDefined ==> nX <= |lambdaK.data|
    requires lambdaK'.isDefined ==> nX <= |lambdaK'.data|
    requires lambdaK1.isDefined ==> nX <= |lambdaK1.data| && nX * nV <= |C|
    ensures DualisedLinearTerm(C, nX, nV, lambdaK, lambdaK1)[i] == DualisedLinearTerm(C, nX, nV, lambdaK', lambdaK1)[i]
  {
  }

  /**
   * The dualised terms price the stage coupling: for every stage vector z,
   * qStep'z + pStep = lambdaK1'(C z + c) - lambdaK'x, where x is the first
   * nX entries of z and undefined multipliers count as zero.
   */
  lemma {:induction false} DualisedTermsPriceCoupling(C: seq<real>, c: seq<real>, nX: nat, nV: nat,
                                                     lambdaK: Vector, lambdaK1: Vector, z: seq<real>)
    requires nX <= nV && nV <= |z|
    requires lambdaK.isDefined ==> nX <= |lambdaK.data|
    requires lambdaK1.isDefined ==> nX <= |lambdaK1.data| && nX * nV <= |C| && nX <= |c|
    ensures Dot(DualisedLinearTerm(C, nX, nV, lambdaK, lambdaK1), z, nV) + DualisedConstant(c, nX, lambdaK1)
         == (if lambdaK1.isDefined
             then Dot(lambdaK1.data, MultiplyCz(C, nX, nV, z), nX) + Dot(lambdaK1.data, c, nX)
             else 0.0)
          - (if lambdaK.isDefined then Dot(lambdaK.data, z, nX) else 0.0)
  {
    var base := if lambdaK1.isDefined then MultiplyCTy(C, nX, nV, lambdaK1.data) else Zeros(nV);
    if lambdaK1.isDefined {
      CTyTransposes(C, nX, nV, lambdaK1.data, z, nX);
    } else {
      DotZeros(z, nV);
    }
    if lambdaK.isDefined {
      DotAddScaled(base, -1.0, PadWithZeros(lambdaK.data, nX, nV), z, nV);
      DotPadWithZeros(lambdaK.data, nX, z, nV);
    }
  }

  /*
   * ---------------------------------------------------------------------
   * directQpSolver_solveUnconstrained
   * ---------------------------------------------------------------------
   */

  /** Negates the first n entries of v (negateVector). */
  function Negated(v: seq<real>, n: nat): (r: seq<real>)
    requires n <= |v|
    ensures |r| == n
  {
    seq(n, i requires 0 <= i < n => -v[i])
  }

  /**
   * dz := -H^{-1} qStep through the stage's Cholesky factor; the status of
   * the solve is passed on.
   */
  method SolveUnconstrained(ext: Externals, dz: array<real>, cholH: Matrix, qStep: seq<real>, nV: nat)
      returns (status: ReturnCode)
    requires ext.WellSized()
    requires nV <= dz.Length && nV <= |qStep|
    modifies dz
    ensures status == ext.multiplyInvHz(cholH, qStep[..nV]).0
    ensures dz[..] == Negated(ext.multiplyInvHz(cholH, qStep[..nV]).1, nV) + old(dz[nV..])
  {
    var solved := ext.multiplyInvHz(cholH, qStep[..nV]);
    status := solved.0;
    Store(dz, solved.1, nV);
    ghost var stored := dz[..];
    for i := 0 to nV
      invariant forall k :: 0 <= k < i ==> dz[k] == -solved.1[k]
      invariant forall k :: i <= k < dz.Length ==> dz[k] == stored[k]
    {
      dz[i] := -dz[i];
    }
    assert dz[..] == Negated(solved.1, nV) + old(dz[nV..]);
  }

  /**
   * If the solve inverts a linear H (hx == q), the step satisfies H dz = -q,
   * the stationarity condition of min 1/2 dz'H dz + q'dz.
   */
  lemma UnconstrainedStepIsStationary(mulH: seq<real> -> seq<real>, x: seq<real>, q: seq<real>)
    requires mulH(x) == q
    requires forall v :: |mulH(v)| == |v|
    requires forall v :: mulH(Negated(v, |v|)) == Negated(mulH(v), |mulH(v)|)
    ensures mulH(Negated(x, |x|)) == Negated(q, |q|)
  {
  }

  /**
   * The step SolveUnconstrained stores is stationary: when the factor
   * cholH inverts a linear Hessian H (H applied to the solve of v gives v
   * back), the stored dz satisfies H dz = -qStep on the first nV entries.
   */
  lemma SolvedStepIsStationary(ext: Externals, cholH: Matrix, mulH: seq<real> -> seq<real>,
                                                   qStep: seq<real>, nV: nat, dz: seq<real>)
    requires ext.WellSized() && nV <= |qStep| && nV <= |dz|
    requires forall v :: |mulH(v)| == |v|
    requires forall v :: mulH(Negated(v, |v|)) == Negated(mulH(v), |mulH(v)|)
    requires forall v :: mulH(ext.multiplyInvHz(cholH, v).1) == v
    requires dz[..nV] == Negated(ext.multiplyInvHz(cholH, qStep[..nV]).1, nV)
    ensures mulH(dz[..nV]) == Negated(qStep[..nV], nV)
  {
    var x := ext.multiplyInvHz(cholH, qStep[..nV]).1;
    assert |x| == nV;
    UnconstrainedStepIsStationary(mulH, x, qStep[..nV]);
  }

  /*
   * ---------------------------------------------------------------------
   * directQpSolver_doStep
   * ---------------------------------------------------------------------
   */

  /** The affine move of the unconstrained point: zU + alpha*dir on the first nV entries. */
  function MovedPoint(zU: seq<real>, alpha: real, dir: seq<real>, nV: nat): (r: seq<real>)
    requires nV <= |zU| && nV <= |dir|
    ensures |r| == nV
  {
    AddScaled(zU[..nV], alpha, dir)
  }

  /**
   * Moves the interval's unconstrained point by alpha along stepDir into zU,
   * clips it into z (in place when z and zU are the same vector), records
   * the gaps in mu, and moves q and p along their step directions.
   */
  method DoStep(ivZU: seq<real>, ivQ: seq<real>, ivP: real, qStep: seq<real>, pStep: real,
                zLow: seq<real>, zUpp: seq<real>, stepDir: seq<real>, alpha: real, nV: nat, tol: real,
                zU: array<real>, z: array<real>, mu: array<real>, q: array<real>)
      returns (p: real, status: ReturnCode)
    requires nV <= |ivZU| && nV <= |ivQ| && nV <= |qStep| && nV <= |stepDir|
    requires nV <= |zLow| && nV <= |zUpp|
    requires nV <= zU.Length && nV <= z.Length && 2 * nV <= mu.Length && nV <= q.Length
    requires mu != zU && mu != z && q != zU && q != z && q != mu
    modifies zU, z, mu, q
    ensures var u := MovedPoint(ivZU, alpha, stepDir, nV);
      && z[..] == Saturated(u + old(z[nV..]), zLow, zUpp, tol, nV)
      && (z != zU ==> zU[..] == u + old(zU[nV..]))
      && mu[..] == BoundGaps(old(mu[..]), u, zLow, zUpp, nV)
    ensures q[..] == AddScaled(ivQ[..nV], alpha, qStep) + old(q[nV..])
    ensures p == ivP + alpha * pStep
    ensures status == Ok
  {
    var u := MovedPoint(ivZU, alpha, stepDir, nV);
    Store(zU, u, nV);
    if z != zU {
      Store(z, zU[..], nV);
    }
    assert z[..] == u + old(z[nV..]);
    var saturateStatus := SaturateVector(z, mu, zLow, zUpp, nV, tol);
    Store(q, AddScaled(ivQ[..nV], alpha, qStep), nV);
    p := ivP + alpha * pStep;
    status := Ok;
  }

  /** A step of length zero reproduces the stored q, p and unconstrained point. */
  lemma ZeroStepKeepsData(ivZU: seq<real>, ivQ: seq<real>, ivP: real, qStep: seq<real>, pStep: real,
                          stepDir: seq<real>, nV: nat)
    requires nV <= |ivZU| && nV <= |ivQ| && nV <= |qStep| && nV <= |stepDir|
    ensures MovedPoint(ivZU, 0.0, stepDir, nV) == ivZU[..nV]
    ensures AddScaled(ivQ[..nV], 0.0, qStep) == ivQ[..nV]
    ensures ivP + 0.0 * pStep == ivP
  {
  }

  /*
   * ---------------------------------------------------------------------
   * clippingQpSolver_ratioTest
   * ---------------------------------------------------------------------
   */

  /**
   * Which lower bounds the ratio test lets through: as written only those
   * below infty*(-1 + eqTol), i.e. the ones standing for minus infinity;
   * corrected only the finite ones, mirroring the upper-bound test.
   */
  datatype LowerFilter = AsWritten | Corrected

  predicate LowerBoundAdmitted(l: real, eqTol: real, infty: real, filter: LowerFilter) {
    match filter
    case AsWritten => l < infty * (-1.0 + eqTol)
    case Corrected => l > infty * (-1.0 + eqTol)
  }

  /**
   * The step ratio to the lower bound of entry i, when the test admits it:
   * a step of that length along dir closes the lower gap mu[2i].
   */
  function LowerRatio(mu: seq<real>, dir: seq<real>, lb: seq<real>, i: nat, eqTol: real, infty: real,
                      filter: LowerFilter): (r: Option<real>)
    requires i < |dir| && i < |lb| && 2 * i + 1 < |mu|
    ensures r.Some? ==> r.value >= 0.0 && r.value * dir[i] == mu[2 * i]
  {
    if dir[i] == 0.0 then None
    else
      var ratio := mu[2 * i] / dir[i];
      if ratio >= 0.0 && mu[2 * i] < eqTol && LowerBoundAdmitted(lb[i], eqTol, infty, filter) then Some(ratio)
      else None
  }

  /** The step ratio to the upper bound of entry i: a step that closes the upper gap mu[2i+1]. */
  function UpperRatio(mu: seq<real>, dir: seq<real>, ub: seq<real>, i: nat, eqTol: real, infty: real): (r: Option<real>)
    requires i < |dir| && i < |ub| && 2 * i + 1 < |mu|
    ensures r.Some? ==> r.value >= 0.0 && r.value * dir[i] == -mu[2 * i + 1]
  {
    if dir[i] == 0.0 then None
    else
      var ratio := -mu[2 * i + 1] / dir[i];
      if ratio >= 0.0 && mu[2 * i + 1] < eqTol && ub[i] < infty * (1.0 - eqTol) then Some(ratio)
      else None
  }

  /** The candidates in the order the loop offers them: lower of 0, upper of 0, lower of 1, ... */
  function RatioCandidates(mu: seq<real>, dir: seq<real>, lb: seq<real>, ub: seq<real>, eqTol: real, infty: real,
                           filter: LowerFilter, nV: nat): (cs: seq<Option<real>>)
    requires nV <= |dir| && nV <= |lb| && nV <= |ub| && 2 * nV <= |mu|
    ensures |cs| == 2 * nV
  {
    seq(2 * nV, k requires 0 <= k < 2 * nV =>
      if k % 2 == 0 then LowerRatio(mu, dir, lb, k / 2, eqTol, infty, filter)
      else UpperRatio(mu, dir, ub, k / 2, eqTol, infty))
  }

  /** The shortest admitted step to an active-set change, at most infty. */
  function MinRatio(mu: seq<real>, dir: seq<real>, lb: seq<real>, ub: seq<real>, eqTol: real, infty: real,
                    filter: LowerFilter, nV: nat): real
    requires nV <= |dir| && nV <= |lb| && nV <= |ub| && 2 * nV <= |mu|
  {
    FoldMin(infty, RatioCandidates(mu, dir, lb, ub, eqTol, infty, filter, nV), 2 * nV)
  }

  /** The ratio test as written (src/stage_qp_solver_clipping.c:206-246). */
  method RatioTest(mu: seq<real>, dir: seq<real>, lb: seq<real>, ub: seq<real>, eqTol: real, infty: real, nV: nat)
      returns (minStep: real, status: ReturnCode)
    requires nV <= |dir| && nV <= |lb| && nV <= |ub| && 2 * nV <= |mu|
    ensures minStep == MinRatio(mu, dir, lb, ub, eqTol, infty, AsWritten, nV)
    ensures status == Ok
  {
    ghost var cs := RatioCandidates(mu, dir, lb, ub, eqTol, infty, AsWritten, nV);
    minStep := infty;
    for ii := 0 to nV
      invariant minStep == FoldMin(infty, cs, 2 * ii)
    {
      if dir[ii] != 0.0 {
        var stepRatio := mu[2 * ii] / dir[ii];
        if stepRatio >= 0.0 && stepRatio < minStep {
          if mu[2 * ii] < eqTol && lb[ii] < infty * (-1.0 + eqTol) {
            minStep := stepRatio;
          }
        }
        stepRatio := -mu[2 * ii + 1] / dir[ii];
        if stepRatio >= 0.0 && stepRatio < minStep {
          if mu[2 * ii + 1] < eqTol && ub[ii] < infty * (1.0 - eqTol) {
            minStep := stepRatio;
          }
        }
      }
    }
    status := Ok;
  }

  /** The ratio test with the lower-bound filter admitting finite bounds. */
  method RatioTestCorrected(mu: seq<real>, dir: seq<real>, lb: seq<real>, ub: seq<real>, eqTol: real, infty: real,
                            nV: nat)
      returns (minStep: real, status: ReturnCode)
    requires nV <= |dir| && nV <= |lb| && nV <= |ub| && 2 * nV <= |mu|
    ensures minStep == MinRatio(mu, dir, lb, ub, eqTol, infty, Corrected, nV)
    ensures status == Ok
  {
    ghost var cs := RatioCandidates(mu, dir, lb, ub, eqTol, infty, Corrected, nV);
    minStep := infty;
    for ii := 0 to nV
      invariant minStep == FoldMin(infty, cs, 2 * ii)
    {
      if dir[ii] != 0.0 {
        var stepRatio := mu[2 * ii] / dir[ii];
        if stepRatio >= 0.0 && stepRatio < minStep {
          if mu[2 * ii] < eqTol && lb[ii] > infty * (-1.0 + eqTol) {
            minStep := stepRatio;
          }
        }
        stepRatio := -mu[2 * ii + 1] / dir[ii];
        if stepRatio >= 0.0 && stepRatio < minStep {
          if mu[2 * ii + 1] < eqTol && ub[ii] < infty * (1.0 - eqTol) {
            minStep := stepRatio;
          }
        }
      }
    }
    status := Ok;
  }

  /**
   * With either filter the result lies in [0, infty], is at most every
   * admitted ratio, and is infty or one of them.
   */
  lemma MinRatioIsShortestAdmittedStep(mu: seq<real>, dir: seq<real>, lb: seq<real>, ub: seq<real>,
                                       eqTol: real, infty: real, filter: LowerFilter, nV: nat)
    requires nV <= |dir| && nV <= |lb| && nV <= |ub| && 2 * nV <= |mu|
    requires infty >= 0.0
    ensures var r := MinRatio(mu, dir, lb, ub, eqTol, infty, filter, nV);
      && 0.0 <= r <= infty
      && (forall i :: 0 <= i < nV && LowerRatio(mu, dir, lb, i, eqTol, infty, filter).Some? ==>
            r <= LowerRatio(mu, dir, lb, i, eqTol, infty, filter).value)
      && (forall i :: 0 <= i < nV && UpperRatio(mu, dir, ub, i, eqTol, infty).Some? ==>
            r <= UpperRatio(mu, dir, ub, i, eqTol, infty).value)
      && (r == infty ||
          exists i :: 0 <= i < nV &&
            (LowerRatio(mu, dir, lb, i, eqTol, infty, filter) == Some(r) ||
             UpperRatio(mu, dir, ub, i, eqTol, infty) == Some(r)))
  {
    var cs := RatioCandidates(mu, dir, lb, ub, eqTol, infty, filter, nV);
    var r := FoldMin(infty, cs, 2 * nV);
    FoldMinBelowStart(infty, cs, 2 * nV);
    FoldMinLeast(infty, cs, 2 * nV);
    FoldMinAttained(infty, cs, 2 * nV);
    forall i | 0 <= i < nV
      ensures cs[2 * i] == LowerRatio(mu, dir, lb, i, eqTol, infty, filter)
      ensures cs[2 * i + 1] == UpperRatio(mu, dir, ub, i, eqTol, infty)
    {
    }
    if r != infty {
      var k :| 0 <= k < 2 * nV && cs[k] == Some(r);
      assert k == 2 * (k / 2) || k == 2 * (k / 2) + 1;
    }
  }

  /** Swapping the two gaps of every entry (the gaps of -z to the box [-ub, -lb]). */
  function MirroredGaps(mu: seq<real>, nV: nat): (r: seq<real>)
    requires 2 * nV <= |mu|
    ensures |r| == 2 * nV
  {
    seq(2 * nV, k requires 0 <= k < 2 * nV => if k % 2 == 0 then mu[k + 1] else mu[k - 1])
  }

  /**
   * The corrected ratio test treats the lower and upper bounds alike:
   * reflecting the problem (z to -z, dir to -dir, [lb, ub] to [-ub, -lb])
   * leaves its result unchanged.
   */
  lemma CorrectedRatioTestIsMirrorSymmetric(mu: seq<real>, dir: seq<real>, lb: seq<real>, ub: seq<real>,
                                            eqTol: real, infty: real, nV: nat)
    requires nV <= |dir| && nV <= |lb| && nV <= |ub| && 2 * nV <= |mu|
    ensures MinRatio(MirroredGaps(mu, nV), Negated(dir, nV), Negated(ub, nV), Negated(lb, nV), eqTol, infty, Corrected, nV)
         == MinRatio(mu, dir, lb, ub, eqTol, infty, Corrected, nV)
  {
    var mu', dir', lb', ub' := MirroredGaps(mu, nV), Negated(dir, nV), Negated(ub, nV), Negated(lb, nV);
    var cs := RatioCandidates(mu, dir, lb, ub, eqTol, infty, Corrected, nV);
    var ds := RatioCandidates(mu', dir', lb', ub', eqTol, infty, Corrected, nV);
    forall i | 0 <= i < nV
      ensures ds[2 * i] == cs[2 * i + 1] && ds[2 * i + 1] == cs[2 * i]
    {
      MirroredCandidates(mu, dir, lb, ub, eqTol, infty, nV, i);
    }
    PairSwapOffersSameCandidates(cs, ds, nV);
    FoldMinSameCandidates(infty, cs, 2 * nV, ds, 2 * nV);
  }

  /** Two candidate lists that differ by swapping each pair offer the same candidates. */
  lemma PairSwapOffersSameCandidates(cs: seq<Option<real>>, ds: seq<Option<real>>, nV: nat)
    requires |cs| == 2 * nV && |ds| == 2 * nV
    requires forall i :: 0 <= i < nV ==> ds[2 * i] == cs[2 * i + 1] && ds[2 * i + 1] == cs[2 * i]
    ensures forall k :: 0 <= k < 2 * nV && cs[k].Some? ==> exists l :: 0 <= l < 2 * nV && ds[l] == cs[k]
    ensures forall l :: 0 <= l < 2 * nV && ds[l].Some? ==> exists k :: 0 <= k < 2 * nV && cs[k] == ds[l]
  {
    forall k | 0 <= k < 2 * nV && cs[k].Some?
      ensures exists l :: 0 <= l < 2 * nV && ds[l] == cs[k]
    {
      var i := k / 2;
      if k % 2 == 0 {
        assert k == 2 * i;
        assert ds[2 * i + 1] == cs[2 * i];
      } else {
        assert k == 2 * i + 1;
        assert ds[2 * i] == cs[2 * i + 1];
      }
    }
    forall l | 0 <= l < 2 * nV && ds[l].Some?
      ensures exists k :: 0 <= k < 2 * nV && cs[k] == ds[l]
    {
      var i := l / 2;
      if l % 2 == 0 {
        assert l == 2 * i;
        assert ds[2 * i] == cs[2 * i + 1];
      } else {
        assert l == 2 * i + 1;
        assert ds[2 * i + 1] == cs[2 * i];
      }
    }
  }

  /** Entry i's lower candidate in the mirrored problem is its upper candidate, and back. */
  lemma MirroredCandidates(mu: seq<real>, dir: seq<real>, lb: seq<real>, ub: seq<real>,
                           eqTol: real, infty: real, nV: nat, i: nat)
    requires nV <= |dir| && nV <= |lb| && nV <= |ub| && 2 * nV <= |mu| && i < nV
    ensures LowerRatio(MirroredGaps(mu, nV), Negated(dir, nV), Negated(ub, nV), i, eqTol, infty, Corrected)
         == UpperRatio(mu, dir, ub, i, eqTol, infty)
    ensures UpperRatio(MirroredGaps(mu, nV), Negated(dir, nV), Negated(lb, nV), i, eqTol, infty)
         == LowerRatio(mu, dir, lb, i, eqTol, infty, Corrected)
  {
    var mu' := MirroredGaps(mu, nV);
    assert mu'[2 * i] == mu[2 * i + 1] && mu'[2 * i + 1] == mu[2 * i];
    if dir[i] != 0.0 {
      assert mu[2 * i + 1] / -dir[i] == -mu[2 * i + 1] / dir[i];
      assert -mu[2 * i] / -dir[i] == mu[2 * i] / dir[i];
    }
  }

  /**
   * The point z = 1 has the finite lower bound 0 and no upper bound, and
   * moves down along dir = -1: it reaches its bound after a step of 1. The
   * test as written returns infty; the corrected test returns 1, which is
   * also what the written test returns for the mirrored problem.
   */
  lemma RatioTestAsWrittenIgnoresFiniteLowerBound()
    ensures MinRatio([-1.0, 1.0 - 1.0e12], [-1.0], [0.0], [1.0e12], 2.221e-16, 1.0e12, AsWritten, 1) == 1.0e12
    ensures MinRatio([-1.0, 1.0 - 1.0e12], [-1.0], [0.0], [1.0e12], 2.221e-16, 1.0e12, Corrected, 1) == 1.0
    ensures MinRatio([1.0 - 1.0e12, -1.0], [1.0], [-1.0e12], [0.0], 2.221e-16, 1.0e12, AsWritten, 1) == 1.0
  {
    var cs := RatioCandidates([-1.0, 1.0 - 1.0e12], [-1.0], [0.0], [1.0e12], 2.221e-16, 1.0e12, AsWritten, 1);
    assert cs[0] == None && cs[1] == None;
    var ds := RatioCandidates([-1.0, 1.0 - 1.0e12], [-1.0], [0.0], [1.0e12], 2.221e-16, 1.0e12, Corrected, 1);
    assert ds[0] == Some(1.0) && ds[1] == None;
    var es := RatioCandidates([1.0 - 1.0e12, -1.0], [1.0], [-1.0e12], [0.0], 2.221e-16, 1.0e12, AsWritten, 1);
    assert es[0] == None && es[1] == Some(1.0);
  }

  /*
   * ---------------------------------------------------------------------
   * directQpSolver_getMinStepsize
   * ---------------------------------------------------------------------
   */

  function Max(a: real, b: real): real {
    if a > b then a else b
  }

  /**
   * The step along dz after which entry i meets one of its bounds, read off
   * its gaps y[2i] = lb - z and y[2i+1] = z - ub; a zero gap gives none.
   */
  function ActiveSetChangeStep(dz: seq<real>, y: seq<real>, i: nat): (r: Option<real>)
    requires i < |dz| && 2 * i + 1 < |y|
    ensures r.Some? ==> r.value > 0.0 && (r.value * dz[i] == y[2 * i] || r.value * dz[i] == -y[2 * i + 1])
  {
    if y[2 * i] == 0.0 || y[2 * i + 1] == 0.0 then None
    else
      var m := Max(dz[i] / y[2 * i], dz[i] / -y[2 * i + 1]);
      if m > 0.0 then Some(1.0 / m) else None
  }

  function StepCandidates(dz: seq<real>, y: seq<real>, nV: nat): (cs: seq<Option<real>>)
    requires nV <= |dz| && 2 * nV <= |y|
    ensures |cs| == nV
  {
    seq(nV, i requires 0 <= i < nV => ActiveSetChangeStep(dz, y, i))
  }

  /** Shrinks alphaMin to the first active-set change along dz. */
  method GetMinStepsize(dz: seq<real>, y: seq<real>, nV: nat, alphaMin: real)
      returns (newAlphaMin: real, status: ReturnCode)
    requires nV <= |dz| && 2 * nV <= |y|
    ensures newAlphaMin == FoldMin(alphaMin, StepCandidates(dz, y, nV), nV)
    ensures status == Ok
  {
    newAlphaMin := alphaMin;
    for ii := 0 to nV
      invariant newAlphaMin == FoldMin(alphaMin, StepCandidates(dz, y, nV), ii)
    {
      if y[2 * ii] != 0.0 && y[2 * ii + 1] != 0.0 {
        var m := Max(dz[ii] / y[2 * ii], dz[ii] / -y[2 * ii + 1]);
        if m > 0.0 {
          var alphaAsChange := 1.0 / m;
          if alphaAsChange < newAlphaMin {
            newAlphaMin := alphaAsChange;
          }
        }
      }
    }
    status := Ok;
  }

  /**
   * The step size never grows, and when it shrinks it becomes a strictly
   * positive step to a bound that no other entry undercuts.
   */
  lemma MinStepsizeShrinksToFirstChange(dz: seq<real>, y: seq<real>, nV: nat, alphaMin: real)
    requires nV <= |dz| && 2 * nV <= |y|
    ensures var r := FoldMin(alphaMin, StepCandidates(dz, y, nV), nV);
      && r <= alphaMin
      && (r == alphaMin || (r > 0.0 && exists i :: 0 <= i < nV && ActiveSetChangeStep(dz, y, i) == Some(r)))
      && (forall i :: 0 <= i < nV && ActiveSetChangeStep(dz, y, i).Some? ==> r <= ActiveSetChangeStep(dz, y, i).value)
  {
    var cs := StepCandidates(dz, y, nV);
    var r := FoldMin(alphaMin, cs, nV);
    FoldMinBelowStart(alphaMin, cs, nV);
    FoldMinLeast(alphaMin, cs, nV);
    FoldMinAttained(alphaMin, cs, nV);
    forall i | 0 <= i < nV
      ensures cs[i] == ActiveSetChangeStep(dz, y, i)
    {
    }
    if r != alphaMin {
      var k :| 0 <= k < nV && cs[k] == Some(r);
      assert ActiveSetChangeStep(dz, y, k) == Some(r);
    }
  }

  /*
   * ---------------------------------------------------------------------
   * directQpSolver_getObjectiveValue
   * ---------------------------------------------------------------------
   */

  /** 1/2 z'Hz + q'z + p over the first nV entries. */
  function ObjectiveValue(ext: Externals, H: Matrix, z: seq<real>, q: seq<real>, p: real, nV: nat): (v: real)
    requires nV <= |z| && nV <= |q|
  {
    0.5 * ext.multiplyzHz(H, z[..nV]) + Dot(q, z, nV) + p
  }

  /**
   * getObjectiveValue reads only the stage's nV entries: points and linear
   * terms that agree there have the same objective value.
   */
  lemma ObjectiveReadsStageEntries(ext: Externals, H: Matrix, z: seq<real>, z': seq<real>,
                                   q: seq<real>, q': seq<real>, p: real, nV: nat)
    requires nV <= |z| && nV <= |z'| && nV <= |q| && nV <= |q'|
    requires forall i :: 0 <= i < nV ==> z[i] == z'[i] && q[i] == q'[i]
    ensures ObjectiveValue(ext, H, z, q, p, nV) == ObjectiveValue(ext, H, z', q', p, nV)
  {
    assert z[..nV] == z'[..nV];
    DotPrefix(q, q', z, nV);
    DotSymmetric(q', z, nV);
    DotPrefix(z, z', q', nV);
    DotSymmetric(z', q', nV);
  }

  /**
   * Along a step that moves q and p by alpha times qStep and pStep (as
   * doStep does), the objective at a fixed z changes by alpha times
   * qStep'z + pStep, the dual coupling term.
   */
  lemma {:induction false} ObjectiveAffineAlongStep(ext: Externals, H: Matrix, z: seq<real>, q: seq<real>, p: real,
                                                   qStep: seq<real>, pStep: real, alpha: real, nV: nat)
    requires nV <= |z| && nV <= |q| && nV <= |qStep|
    ensures ObjectiveValue(ext, H, z, AddScaled(q[..nV], alpha, qStep), p + alpha * pStep, nV)
         == ObjectiveValue(ext, H, z, q, p, nV) + alpha * (Dot(qStep, z, nV) + pStep)
  {
    DotAddScaled(q[..nV], alpha, qStep, z, nV);
    DotPrefix(q[..nV], q, z, nV);
  }
}
