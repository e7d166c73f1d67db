/**
 * The whole multistage QP (qpData_t) and the routines of src/setup_qp.c
 * that work on all of its stages: qpDUNES_setup, qpDUNES_indicateDataChange,
 * qpDUNES_updateData, qpDUNES_setupAllLocalQPs, the rolling-horizon shifts
 * qpDUNES_shiftIntervals and qpDUNES_shiftLambda, and
 * qpDUNES_setupDefaultOptions.
 *
 * The problem has nI regular stages 0..nI-1 and the final stage nI. The
 * global multiplier vector lambda holds nI blocks of nX entries; block k
 * prices the coupling x_{k+1} = A_k x_k + B_k u_k + c_k between stage k
 * and stage k+1.
 */
module ProblemSetup {
  import opened QpTypes
  import opened Kernels
  import BlockLayout
  import opened IntervalSetup

  /*
   * ---------------------------------------------------------------------
   * Default options
   * ---------------------------------------------------------------------
   */

  /**
   * qpDUNES_setupDefaultOptions. Its contract states the relations the
   * defaults are chosen to satisfy: the activeness tolerance is 1e4 times
   * the equality tolerance and the line search's minimal absolute progress
   * equals it, the reduction factor lies in (0, 1) and the increase factor
   * above 1, the tolerances are ordered zero < equality < stationarity,
   * the filter threshold INFTY*(1-equalityTolerance) is a positive number
   * below INFTY, and neither logging nor infeasibility checks are on.
   */
  function DefaultOptions(): (o: Options)
    ensures o.activenessTolerance == 10000.0 * o.equalityTolerance
    ensures o.lineSearchMinAbsProgress == o.equalityTolerance
    ensures 0.0 < o.lineSearchReductionFactor < 1.0 && o.lineSearchIncreaseFactor > 1.0
    ensures 0.0 < o.zero < o.equalityTolerance < o.newtonHessDiagRegTolerance < o.stationarityTolerance
    ensures o.regParam > o.newtonHessDiagRegTolerance
    ensures 1.0 < o.infty && 0.0 < o.infty * (1.0 - o.equalityTolerance) < o.infty
    ensures o.logLevel == LogOff && !o.checkForInfeasibility && o.nbrInitialGradientSteps == 0
    ensures o.maxIter > 0 && o.lineSearchNbrGridPoints > 0
  {
    var eqTol := 2.221 / 10000000000000000.0;
    Options(
      maxIter := 100,
      maxNumLineSearchIterations := 19,
      maxNumLineSearchRefinementIterations := 40,
      printLevel := 2,
      logLevel := LogOff,
      printIntervalHeader := 20,
      printIterationTiming := false,
      printLineSearchTiming := false,
      stationarityTolerance := 1.0 / 1000000.0,
      equalityTolerance := eqTol,
      newtonHessDiagRegTolerance := 1.0 / 10000000000.0,
      activenessTolerance := 10000.0 * eqTol,
      zero := 1.0 / 100000000000000000000000000000000000000000000000000.0,
      infty := 1000000000000.0,
      ascentCurvatureTolerance := 1.0 / 1000000.0,
      nbrInitialGradientSteps := 0,
      checkForInfeasibility := false,
      regType := RegLevenbergMarquardt,
      regParam := 1.0 / 1000000.0,
      nwtnHssnFacAlg := BandReverse,
      lsType := AcceleratedGradientBisectionLs,
      lineSearchReductionFactor := 0.1,
      lineSearchIncreaseFactor := 1.5,
      lineSearchMinAbsProgress := eqTol,
      lineSearchMinRelProgress := 1.0 / 100000000000000.0,
      lineSearchStationarityTolerance := 1.0 / 1000.0,
      lineSearchMaxStepSize := 1.0,
      lineSearchNbrGridPoints := 5,
      qpOasesTerminationTolerance := 1.0 / 1000000000000.0
    )
  }

  /*
   * ---------------------------------------------------------------------
   * Counting affine constraints
   * ---------------------------------------------------------------------
   */

  /** nD[0] + ... + nD[n-1]. */
  function ConstraintSum(nD: seq<nat>, n: nat): nat
    requires n <= |nD|
  {
    if n == 0 then 0 else ConstraintSum(nD, n - 1) + nD[n - 1]
  }

  /** The sum of constraint counts is zero exactly when every stage has none. */
  lemma {:induction false} ConstraintSumZero(nD: seq<nat>, n: nat)
    requires n <= |nD|
    ensures ConstraintSum(nD, n) == 0 <==> forall k :: 0 <= k < n ==> nD[k] == 0
  {
    if n > 0 {
      ConstraintSumZero(nD, n - 1);
    }
  }

  /**
   * The constraint total of qpDUNES_setup: the sum of nD over all nI+1
   * stages when the array is given, zero when it is NULL.
   */
  method CountConstraints(nD: Option<seq<nat>>, nI: nat) returns (nDttl: nat)
    requires nD.Some? ==> nI + 1 <= |nD.value|
    ensures nD.Some? ==> nDttl == ConstraintSum(nD.value, nI + 1)
    ensures nDttl == 0 <==> nD.None? || forall k :: 0 <= k <= nI ==> nD.value[k] == 0
  {
    nDttl := 0;
    if nD.Some? {
      var ii := 0;
      while ii < nI + 1
        invariant 0 <= ii <= nI + 1
        invariant nDttl == ConstraintSum(nD.value, ii)
      {
        nDttl := nDttl + nD.value[ii];
        ii := ii + 1;
      }
      ConstraintSumZero(nD.value, nI + 1);
    }
  }

  /*
   * ---------------------------------------------------------------------
   * The rolling-horizon shift on values
   * ---------------------------------------------------------------------
   */

  /**
   * The first n entries rotated left by one place (entry 0 moves to place
   * n-1); entries from n on stay where they are.
   */
  function RotateLeft<T>(s: seq<T>, n: nat): (r: seq<T>)
    requires 1 <= n <= |s|
    ensures |r| == |s|
    ensures forall k :: 0 <= k < n - 1 ==> r[k] == s[k + 1]
    ensures r[n - 1] == s[0]
    ensures forall k :: n <= k < |s| ==> r[k] == s[k]
  {
    s[1..n] + [s[0]] + s[n..]
  }

  /** The inverse rotation: entry n-1 moves to place 0. */
  function RotateRight<T>(s: seq<T>, n: nat): (r: seq<T>)
    requires 1 <= n <= |s|
    ensures |r| == |s|
  {
    [s[n - 1]] + s[..n - 1] + s[n..]
  }

  /** Rotating right undoes rotating left, and the other way round. */
  lemma RotationsInverse<T>(s: seq<T>, n: nat)
    requires 1 <= n <= |s|
    ensures RotateRight(RotateLeft(s, n), n) == s
    ensures RotateLeft(RotateRight(s, n), n) == s
  {
    var l := RotateLeft(s, n);
    assert l[..n - 1] == s[1..n];
    assert l[n..] == s[n..];
    assert [s[0]] + s[1..n] + s[n..] == s;
    var r := RotateRight(s, n);
    assert r[1..n] == s[..n - 1];
    assert r[n..] == s[n..];
    assert s[..n - 1] + [s[n - 1]] + s[n..] == s;
  }

  /** Rotation moves entries, it neither adds nor drops any. */
  lemma RotateLeftPermutes<T>(s: seq<T>, n: nat)
    requires 1 <= n <= |s|
    ensures multiset(RotateLeft(s, n)) == multiset(s)
  {
    assert s == [s[0]] + s[1..n] + s[n..];
  }

  /** No entry occurs twice. */
  predicate Distinct<T(==)>(s: seq<T>)
  {
    forall i, j :: 0 <= i < j < |s| ==> s[i] != s[j]
  }

  /** Rotating keeps the entries distinct. */
  lemma RotateLeftDistinct<T>(s: seq<T>, n: nat)
    requires 1 <= n <= |s| && Distinct(s)
    ensures Distinct(RotateLeft(s, n))
  {
    var r := RotateLeft(s, n);
    forall i, j | 0 <= i < j < |r|
      ensures r[i] != r[j]
    {
      var i' := if i < n - 1 then i + 1 else if i == n - 1 then 0 else i;
      var j' := if j < n - 1 then j + 1 else if j == n - 1 then 0 else j;
      assert r[i] == s[i'] && r[j] == s[j'] && i' != j';
    }
  }

  /**
   * The multiplier vector after qpDUNES_shiftLambda: every block k < nI-1
   * holds the old block k+1, the last block keeps its values.
   */
  function ShiftedBlocks(s: seq<real>, nX: nat, nI: nat): (r: seq<real>)
    requires 1 <= nI && |s| == nX * nI
    ensures |r| == |s|
  {
    seq(|s|, i requires 0 <= i < |s| => if i < (nI - 1) * nX then s[i + nX] else s[i])
  }

  /** The block after block k starts nX entries later. */
  lemma BlockStep(k: nat, nX: nat)
    ensures (k + 1) * nX == k * nX + nX
  {
  }

  /** A vector that matches the shift below and above the last block is the shift. */
  lemma ShiftedBlocksFromHalves(t: seq<real>, s: seq<real>, nX: nat, nI: nat)
    requires 1 <= nI && |s| == nX * nI && |t| == |s|
    requires forall i :: 0 <= i < (nI - 1) * nX ==> t[i] == s[i + nX]
    requires forall i :: (nI - 1) * nX <= i < |t| ==> t[i] == s[i]
    ensures t == ShiftedBlocks(s, nX, nI)
  {
  }

  /**
   * Block by block: after the shift, block k is the old block k+1 for
   * every k < nI-1, and the last block is unchanged.
   */
  lemma ShiftedBlocksMoveBlocks(s: seq<real>, nX: nat, nI: nat, k: nat)
    requires 1 <= nI && |s| == nX * nI && k < nI
    ensures (k + 1) * nX <= |s|
    ensures k < nI - 1 ==>
              && (k + 2) * nX <= |s|
              && MultiplierBlock(ShiftedBlocks(s, nX, nI), k, nX) == MultiplierBlock(s, k + 1, nX)
    ensures k == nI - 1 ==> MultiplierBlock(ShiftedBlocks(s, nX, nI), k, nX) == MultiplierBlock(s, k, nX)
  {
    BlockInRange(k, nX, nI);
    var r := ShiftedBlocks(s, nX, nI);
    if k < nI - 1 {
      BlockInRange(k + 1, nX, nI);
      BlockLayout.MulMonotone(k + 1, nI - 1, nX);
      assert (k + 2) * nX == (k + 1) * nX + nX;
      forall i | 0 <= i < nX
        ensures MultiplierBlock(r, k, nX)[i] == MultiplierBlock(s, k + 1, nX)[i]
      {
        assert k * nX + i < (k + 1) * nX;
      }
    } else {
      forall i | 0 <= i < nX
        ensures MultiplierBlock(r, k, nX)[i] == MultiplierBlock(s, k, nX)[i]
      {
        assert k * nX + i >= (nI - 1) * nX;
      }
    }
  }

  /*
   * ---------------------------------------------------------------------
   * The active-set record reset by qpDUNES_indicateDataChange
   * ---------------------------------------------------------------------
   */

  /** The dummy status written to force a Hessian refactorisation. */
  const DataChanged: int := -42

  /**
   * The rows after indicateDataChange: in row k, each of the first limits[k]
   * entries becomes DataChanged; all other entries keep their values.
   */
  function Marked(rows: seq<seq<int>>, limits: seq<nat>): (r: seq<seq<int>>)
    requires |limits| <= |rows|
    requires forall k :: 0 <= k < |limits| ==> limits[k] <= |rows[k]|
    ensures |r| == |rows|
    ensures forall k :: 0 <= k < |r| ==> |r[k]| == |rows[k]|
  {
    seq(|rows|, k requires 0 <= k < |rows| =>
      seq(|rows[k]|, i requires 0 <= i < |rows[k]| =>
        if k < |limits| && i < limits[k] then DataChanged else rows[k][i]))
  }

  /** Marking twice is marking once. */
  lemma MarkedIdempotent(rows: seq<seq<int>>, limits: seq<nat>)
    requires |limits| <= |rows|
    requires forall k :: 0 <= k < |limits| ==> limits[k] <= |rows[k]|
    ensures Marked(Marked(rows, limits), limits) == Marked(rows, limits)
  {
    var once := Marked(rows, limits);
    var twice := Marked(once, limits);
    forall k | 0 <= k < |rows|
      ensures twice[k] == once[k]
    {
    }
  }

  /** The inner loop of indicateDataChange on one row: its first limit entries become DataChanged. */
  method MarkRow(row: seq<int>, limit: nat) returns (r: seq<int>)
    requires limit <= |row|
    ensures |r| == |row|
    ensures forall i :: 0 <= i < |r| ==> r[i] == if i < limit then DataChanged else row[i]
  {
    r := row;
    var ii := 0;
    while ii < limit
      invariant 0 <= ii <= limit && |r| == |row|
      invariant forall i :: 0 <= i < |r| ==> r[i] == if i < ii then DataChanged else row[i]
    {
      r := r[ii := DataChanged];
      ii := ii + 1;
    }
  }

  /*
   * ---------------------------------------------------------------------
   * Allocation
   * ---------------------------------------------------------------------
   */

  /** The constraint count stage k is allocated with: nD[k], or 0 without an nD array. */
  function StageConstraints(nD: Option<seq<nat>>, k: nat): nat
    requires nD.Some? ==> k < |nD.value|
  {
    if nD.Some? then nD.value[k] else 0
  }

  /** A row of n zero entries. */
  function ZeroRow(n: nat): (r: seq<int>)
    ensures |r| == n && forall i :: 0 <= i < n ==> r[i] == 0
  {
    seq(n, _ => 0)
  }

  /**
   * The active-set rows qpDUNES_setup allocates, zeroed: nD[k] + nV(k)
   * entries when iterations are logged, nD[k] + nZ entries otherwise.
   */
  function StatusRows(opts: Options, nI: nat, nX: nat, nZ: nat, nD: Option<seq<nat>>): (rows: seq<seq<int>>)
    requires nD.Some? ==> nI + 1 <= |nD.value|
    ensures |rows| == nI + 1
    ensures forall k :: 0 <= k < nI ==> |rows[k]| == StageConstraints(nD, k) + nZ
    ensures |rows[nI]| == StageConstraints(nD, nI) + if LogLevelOrdinal(opts.logLevel) >= 1 then nX else nZ
    ensures forall k, i :: 0 <= k <= nI && 0 <= i < |rows[k]| ==> rows[k][i] == 0
  {
    seq(nI + 1, k requires 0 <= k <= nI =>
      ZeroRow(StageConstraints(nD, k) + if LogLevelOrdinal(opts.logLevel) >= 1 && k == nI then nX else nZ))
  }

  /**
   * A stage as qpDUNES_allocInterval leaves it, numbered id: zeroed data of
   * its sizes, no stage solver chosen, zero multiplier pieces, the outgoing
   * one defined and the incoming one defined as given.
   */
  ghost predicate AllocatedAs(s: Interval, id: nat, nX: nat, nV: nat, nD: nat, incoming: bool)
    reads s
  {
    && s.id == id && s.nD == nD && s.nV == nV && s.solver == SolverUndefined
    && s.data == AllocatedValues(nX, nV, nD) && s.Valid(nX) && s.HasDynamics(nX)
    && s.lambdaK == Vector(incoming, Zeros(nX)) && s.lambdaK1 == Vector(true, Zeros(nX))
  }

  /** Regular stage ii of qpDUNES_setup; stage 0 has no incoming multiplier. */
  method AllocRegularStage(ii: nat, nX: nat, nZ: nat, nD: nat) returns (stage: Interval)
    ensures fresh(stage) && AllocatedAs(stage, ii, nX, nZ, nD, ii > 0)
  {
    stage := new Interval.Alloc(nX, nZ, nD);
    stage.id := ii;
    if ii == 0 {
      stage.lambdaK := stage.lambdaK.(isDefined := false);
    }
  }

  /**
   * The loop of qpDUNES_setup allocating the regular stages 0..nI-1 with
   * width nZ; stage 0 is marked as having no incoming multiplier.
   */
  method AllocRegularStages(nI: nat, nX: nat, nZ: nat, nD: Option<seq<nat>>) returns (st: seq<Interval>)
    requires nD.Some? ==> nI + 1 <= |nD.value|
    ensures |st| == nI && Distinct(st)
    ensures forall k :: 0 <= k < nI ==> fresh(st[k]) && AllocatedAs(st[k], k, nX, nZ, StageConstraints(nD, k), k > 0)
  {
    st := [];
    var ii := 0;
    while ii < nI
      invariant 0 <= ii <= nI && |st| == ii && Distinct(st)
      invariant forall k :: 0 <= k < ii ==> fresh(st[k]) && AllocatedAs(st[k], k, nX, nZ, StageConstraints(nD, k), k > 0)
    {
      var stage := AllocRegularStage(ii, nX, nZ, StageConstraints(nD, ii));
      DistinctAppend(st, stage);
      st := st + [stage];
      ii := ii + 1;
    }
  }

  /** The data of the final stage as qpDUNES_setup leaves it: zeroed, with C nulled and c freed. */
  function FinalAllocatedValues(ext: Externals, nX: nat, nD: nat): StageValues
  {
    var v := AllocatedValues(nX, nX, nD);
    v.(C := ext.setMatrixNull(v.C), c := [])
  }

  /** The data qpDUNES_setup leaves in stage k: width nZ for a regular stage, the final stage's otherwise. */
  function AllocatedData(ext: Externals, k: nat, nI: nat, nX: nat, nZ: nat): StageValues
  {
    if k < nI then AllocatedValues(nX, nZ, 0) else FinalAllocatedValues(ext, nX, 0)
  }

  /**
   * The final stage of qpDUNES_setup: width nX, its dynamics C nulled and
   * c freed, no outgoing multiplier, and an incoming one unless it is also
   * stage 0.
   */
  method AllocFinalStage(ext: Externals, nI: nat, nX: nat, nD: nat) returns (last: Interval)
    ensures fresh(last)
    ensures last.id == nI && last.nD == nD && last.nV == nX && last.solver == SolverUndefined
    ensures last.data == FinalAllocatedValues(ext, nX, nD)
    ensures last.Valid(nX)
    ensures last.lambdaK == Vector(nI > 0, Zeros(nX)) && last.lambdaK1 == Vector(false, Zeros(nX))
  {
    last := new Interval.Alloc(nX, nX, nD);
    last.id := nI;
    last.data := last.data.(C := ext.setMatrixNull(last.data.C), c := []);
    last.lambdaK := last.lambdaK.(isDefined := nI > 0);
    last.lambdaK1 := last.lambdaK1.(isDefined := false);
  }

  /** Appending an entry that does not occur keeps the entries distinct. */
  lemma DistinctAppend<T>(s: seq<T>, x: T)
    requires Distinct(s) && forall k :: 0 <= k < |s| ==> s[k] != x
    ensures Distinct(s + [x])
  {
  }

  /**
   * The stage array of qpDUNES_setup once no stage has affine constraints:
   * nI+1 fresh, distinct stages numbered with their positions, fitting
   * their places, stage 0 without incoming and stage nI without outgoing
   * multiplier; every stage holds the zeroed data of its width with
   * undefined sparsity tags, and no stage solver is chosen yet.
   */
  method NewStageArray(ext: Externals, nI: nat, nX: nat, nZ: nat, nD: Option<seq<nat>>) returns (a: array<Interval>)
    requires nD.Some? ==> nI + 1 <= |nD.value| && forall k :: 0 <= k <= nI ==> nD.value[k] == 0
    ensures fresh(a) && a.Length == nI + 1 && Distinct(a[..])
    ensures forall k :: 0 <= k <= nI ==> fresh(a[k]) && a[k].id == k
    ensures forall k :: 0 <= k < nI ==> a[k].Fits(nX, nZ, false)
    ensures a[nI].Fits(nX, nX, true)
    ensures forall k :: 0 <= k <= nI ==> (a[k].lambdaK.isDefined <==> k > 0) && (a[k].lambdaK1.isDefined <==> k < nI)
    ensures forall k :: 0 <= k <= nI ==> a[k].solver == SolverUndefined && a[k].data == AllocatedData(ext, k, nI, nX, nZ)
  {
    var regular := AllocRegularStages(nI, nX, nZ, nD);
    var last := AllocFinalStage(ext, nI, nX, StageConstraints(nD, nI));
    DistinctAppend(regular, last);
    var st := regular + [last];
    a := new Interval[nI + 1](k requires 0 <= k <= nI => st[k]);
    assert a[..] == st;
  }

  /** A fresh zeroed vector of n entries (calloc). */
  method NewZeros(n: nat) returns (a: array<real>)
    ensures fresh(a) && a[..] == Zeros(n)
  {
    a := new real[n](_ => 0.0);
  }

  /*
   * ---------------------------------------------------------------------
   * Problem data split into stages
   * ---------------------------------------------------------------------
   */

  /**
   * The nine data arrays of qpDUNES_updateData, each NULL (None) or
   * holding the data of all stages one after the other.
   */
  datatype ProblemData = ProblemData(
    H: Option<seq<real>>, g: Option<seq<real>>, C: Option<seq<real>>, c: Option<seq<real>>,
    zLow: Option<seq<real>>, zUpp: Option<seq<real>>,
    D: Option<seq<real>>, dLow: Option<seq<real>>, dUpp: Option<seq<real>>)
  {
    /**
     * Every given array holds nI regular stages and the final stage: nZ x nZ
     * Hessians and nZ-vectors on the regular stages, nX x nX and nX on the
     * final one, and nX x nZ dynamics and nX offsets on the regular stages.
     */
    predicate LargeEnough(nI: nat, nX: nat, nZ: nat) {
      && (H.Some? ==> nI * (nZ * nZ) + nX * nX <= |H.value|)
      && (g.Some? ==> nI * nZ + nX <= |g.value|)
      && (C.Some? ==> nI * (nX * nZ) <= |C.value|)
      && (c.Some? ==> nI * nX <= |c.value|)
      && (zLow.Some? ==> nI * nZ + nX <= |zLow.value|)
      && (zUpp.Some? ==> nI * nZ + nX <= |zUpp.value|)
    }
  }

  /** offsetArray: the array from entry off on; NULL stays NULL. */
  function Offset(a: Option<seq<real>>, off: nat): (r: Option<seq<real>>)
    requires a.Some? ==> off <= |a.value|
    ensures r.Some? <==> a.Some?
    ensures r.Some? ==> |r.value| == |a.value| - off && forall i :: 0 <= i < |r.value| ==> r.value[i] == a.value[off + i]
  {
    if a.Some? then Some(a.value[off..]) else None
  }

  /** Block k of m entries lies within nI such blocks. */
  lemma SliceBounds(k: nat, nI: nat, m: nat)
    requires k < nI
    ensures k * m + m <= nI * m
  {
    BlockLayout.MulStep(k, nI, m);
  }

  /** The constraint arrays reach at least dOffset rows. */
  predicate ConstraintRowsFrom(d: ProblemData, nZ: nat, dOffset: nat) {
    && (d.D.Some? ==> dOffset * nZ <= |d.D.value|)
    && (d.dLow.Some? ==> dOffset <= |d.dLow.value|)
    && (d.dUpp.Some? ==> dOffset <= |d.dUpp.value|)
  }

  /**
   * The stage data qpDUNES_updateData passes for regular stage k: every
   * array offset to stage k's block, the constraint arrays by dOffset rows,
   * the constraints of earlier stages.
   */
  function RegularSlice(d: ProblemData, k: nat, nI: nat, nX: nat, nZ: nat, dOffset: nat): (r: StageData)
    requires k < nI && d.LargeEnough(nI, nX, nZ) && ConstraintRowsFrom(d, nZ, dOffset)
    ensures r.LargeEnough(nX, nZ, nZ, 0)
  {
    SliceBounds(k, nI, nZ * nZ);
    SliceBounds(k, nI, nZ);
    SliceBounds(k, nI, nX * nZ);
    SliceBounds(k, nI, nX);
    StageData(
      Offset(d.H, k * (nZ * nZ)), Offset(d.g, k * nZ), Offset(d.C, k * (nX * nZ)), Offset(d.c, k * nX),
      Offset(d.zLow, k * nZ), Offset(d.zUpp, k * nZ),
      Offset(d.D, dOffset * nZ), Offset(d.dLow, dOffset), Offset(d.dUpp, dOffset))
  }

  /** The stage data qpDUNES_updateData passes for the final stage: no dynamics. */
  function FinalSlice(d: ProblemData, nI: nat, nX: nat, nZ: nat, dOffset: nat): (r: StageData)
    requires d.LargeEnough(nI, nX, nZ) && ConstraintRowsFrom(d, nZ, dOffset)
    ensures r.LargeEnough(nX, nZ, nX, 0) && r.C.None? && r.c.None?
  {
    StageData(
      Offset(d.H, nI * (nZ * nZ)), Offset(d.g, nI * nZ), None, None,
      Offset(d.zLow, nI * nZ), Offset(d.zUpp, nI * nZ),
      Offset(d.D, dOffset * nZ), Offset(d.dLow, dOffset), Offset(d.dUpp, dOffset))
  }

  /** The stage data of stage k, regular or final. */
  function StageSlice(d: ProblemData, k: nat, nI: nat, nX: nat, nZ: nat, dOffset: nat): (r: StageData)
    requires k <= nI && d.LargeEnough(nI, nX, nZ) && ConstraintRowsFrom(d, nZ, dOffset)
    ensures k < nI ==> r.LargeEnough(nX, nZ, nZ, 0)
    ensures k == nI ==> r.LargeEnough(nX, nZ, nX, 0) && r.C.None? && r.c.None?
  {
    if k < nI then RegularSlice(d, k, nI, nX, nZ, dOffset) else FinalSlice(d, nI, nX, nZ, dOffset)
  }

  /** Without any data array, every stage receives no data. */
  lemma StageSliceOfNothing(k: nat, nI: nat, nX: nat, nZ: nat, dOffset: nat)
    requires k <= nI
    ensures StageSlice(ProblemData(None, None, None, None, None, None, None, None, None), k, nI, nX, nZ, dOffset) == NoData
  {
  }

  /**
   * The stage QP of stage k changes exactly when the Hessian, the gradient
   * or the constraint matrix of the problem is given.
   */
  lemma StageSliceChangesStageQP(d: ProblemData, k: nat, nI: nat, nX: nat, nZ: nat, dOffset: nat)
    requires k <= nI && d.LargeEnough(nI, nX, nZ) && ConstraintRowsFrom(d, nZ, dOffset)
    ensures StageSlice(d, k, nI, nX, nZ, dOffset).ChangesStageQP() <==> d.H.Some? || d.g.Some? || d.D.Some?
  {
  }

  /*
   * ---------------------------------------------------------------------
   * The problem
   * ---------------------------------------------------------------------
   */

  /**
   * The stage views, regular and final, are each updated (StageUpdated)
   * from the snapshots data0 and solver0 with their blocks of d.
   */
  ghost predicate UpdatedViews(views: seq<StageView>, ext: Externals, d: ProblemData, data0: seq<StageValues>,
                               solver0: seq<SolverValues>, lambda: seq<real>, nI: nat, nX: nat, nZ: nat)
  {
    && |views| == nI + 1 && |data0| == nI + 1 && |solver0| == nI + 1
    && d.LargeEnough(nI, nX, nZ)
    && (forall k :: 0 <= k <= nI ==>
          StageUpdated(views[k], data0[k], solver0[k], ext, StageSlice(d, k, nI, nX, nZ, 0), lambda, nX, nZ,
            if k < nI then nZ else nX, nI))
  }

  /**
   * The stage views 0..kk-1 are set up (StageSetUp) from their snapshots
   * in before, stage 0's factor being the one copied, and the views kk..nI
   * hold the multiplier refresh of their snapshots.
   */
  ghost predicate SetUpBelow(kk: nat, views: seq<StageView>, before: seq<SolverValues>, ext: Externals,
                             lambda: seq<real>, nX: nat, nI: nat, isLTI: bool)
  {
    && kk <= nI + 1 && |views| == nI + 1 && |before| == nI + 1 && |lambda| == nX * nI
    && (forall j {:trigger StageSetUp(views[j], before[j], ext, lambda, nX, nI, isLTI, views[0].state.cholH)} ::
          0 <= j < kk ==> StageSetUp(views[j], before[j], ext, lambda, nX, nI, isLTI, views[0].state.cholH))
    && (forall j :: kk <= j <= nI ==> views[j].id == j)
    && (forall j {:trigger LoadedInto(before[j], lambda, j, nX, nI)} ::
          kk <= j <= nI ==> views[j].state == LoadedInto(before[j], lambda, j, nX, nI))
  }

  /** Stage 0 never copies a factor, so the one offered does not matter. */
  lemma StageSetUpOfFirstStage(v: StageView, before: SolverValues, ext: Externals, lambda: seq<real>,
                               nX: nat, nI: nat, isLTI: bool, chol0: Matrix, chol0': Matrix)
    requires v.id == 0 && StageSetUp(v, before, ext, lambda, nX, nI, isLTI, chol0)
    ensures StageSetUp(v, before, ext, lambda, nX, nI, isLTI, chol0')
  {
  }

  /** Setting up stage kk, with stage 0's factor on offer, extends SetUpBelow by one stage. */
  lemma SetUpBelowStep(kk: nat, views: seq<StageView>, views': seq<StageView>, before: seq<SolverValues>,
                       ext: Externals, lambda: seq<real>, nX: nat, nI: nat, isLTI: bool, chol0: Matrix)
    requires kk <= nI && SetUpBelow(kk, views, before, ext, lambda, nX, nI, isLTI)
    requires |views'| == nI + 1 && forall j :: 0 <= j <= nI && j != kk ==> views'[j] == views[j]
    requires views'[kk].id == kk && StageSetUp(views'[kk], before[kk], ext, lambda, nX, nI, isLTI, chol0)
    requires kk > 0 ==> chol0 == views[0].state.cholH
    ensures SetUpBelow(kk + 1, views', before, ext, lambda, nX, nI, isLTI)
  {
    if kk == 0 {
      StageSetUpOfFirstStage(views'[0], before[0], ext, lambda, nX, nI, isLTI, chol0, views'[0].state.cholH);
    }
  }

  /**
   * The problem data (qpData_t): dimensions, options, the stages (an array
   * of stage references, so that shifting moves references and not data),
   * the global multipliers lambda, the active-set record of the log that
   * indicateDataChange resets, and the incumbent objective value.
   */
  class Problem {
    var nI: nat
    var nX: nat
    var nU: nat
    var nZ: nat
    var nDttl: nat
    var options: Options
    var intervals: array<Interval>
    var lambda: array<real>
    var prevIeqStatus: seq<seq<int>>
    var optObjVal: real

    /** The stage objects. */
    ghost function Stages(): set<Interval>
      reads this`intervals, intervals
    {
      set k | 0 <= k < intervals.Length :: intervals[k]
    }

    /** nI+1 distinct stages, each with its position as id. */
    ghost predicate Numbered()
      reads this`nI, this`intervals, intervals, Stages()`id
    {
      && intervals.Length == nI + 1
      && Distinct(intervals[..])
      && (forall k :: 0 <= k < intervals.Length ==> intervals[k].id == k)
    }

    /**
     * The invariant every routine below keeps: nZ = nX + nU, nI+1 distinct
     * stages whose ids are their positions, regular stages first and the
     * final stage last, nX*nI multipliers, and an active-set row per stage
     * with room for its nD + nV entries.
     */
    ghost predicate Valid()
      reads this, intervals, Stages()
    {
      && nZ == nX + nU
      && intervals.Length == nI + 1
      && lambda.Length == nX * nI
      && |prevIeqStatus| == nI + 1
      && Numbered()
      && (forall k :: 0 <= k < nI ==> intervals[k].Fits(nX, nZ, false))
      && intervals[nI].Fits(nX, nX, true)
      && (forall k :: 0 <= k < nI ==> nZ <= |prevIeqStatus[k]|)
      && nX <= |prevIeqStatus[nI]|
    }

    /**
     * The definedness of the multiplier pieces as qpDUNES_setup leaves it:
     * every lambdaK but that of stage 0 and every lambdaK1 but that of
     * stage nI is defined.
     */
    ghost predicate MultipliersAsSetUp()
      reads this`nI, this`intervals, intervals, Stages()`lambdaK, Stages()`lambdaK1
    {
      && intervals.Length == nI + 1
      && (forall k :: 0 <= k <= nI ==> (intervals[k].lambdaK.isDefined <==> k > 0))
      && (forall k :: 0 <= k <= nI ==> (intervals[k].lambdaK1.isDefined <==> k < nI))
    }

    /**
     * The definedness after the stages were rotated and before their flags
     * are corrected: the stage from position 0, now at nI-1, still has no
     * lambdaK; every other lambdaK and every regular lambdaK1 is defined.
     */
    ghost predicate RotatedMultipliers()
      reads this`nI, this`intervals, intervals, Stages()`lambdaK, Stages()`lambdaK1
    {
      && intervals.Length == nI + 1
      && (forall k :: 0 <= k <= nI ==> (intervals[k].lambdaK.isDefined <==> k != nI - 1))
      && (forall k :: 0 <= k <= nI ==> (intervals[k].lambdaK1.isDefined <==> k < nI))
    }

    /** How many entries of stage k's active-set row indicateDataChange resets: nD + nV. */
    ghost function Limits(): (l: seq<nat>)
      reads this, intervals, Stages()
      ensures |l| == intervals.Length
    {
      var a := intervals;
      seq(a.Length, k requires 0 <= k < a.Length reads a, a[..] => a[k].nD + a[k].nV)
    }

    /**
     * A placeholder record that exists before qpDUNES_setup, which
     * overwrites it: default options, no regular stage and one empty
     * final stage.
     */
    constructor Empty()
      ensures nI == 0 && nX == 0 && nU == 0 && nZ == 0 && nDttl == 0
      ensures intervals.Length == 1 && lambda.Length == 0 && prevIeqStatus == [[]]
    {
      nI, nX, nU, nZ, nDttl := 0, 0, 0, 0, 0;
      options := DefaultOptions();
      var stage := new Interval.Alloc(0, 0, 0);
      intervals := new Interval[1](_ => stage);
      lambda := new real[0];
      prevIeqStatus := [[]];
      optObjVal := 0.0;
    }

    /**
     * qpDUNES_indicateDataChange: in each stage's row of the previous
     * active set, the first nD + nV entries become DataChanged, so that the
     * next active-set comparison differs and the Newton Hessian is
     * refactorised.
     */
    method IndicateDataChange()
      requires Valid()
      modifies this`prevIeqStatus
      ensures prevIeqStatus == Marked(old(prevIeqStatus), Limits())
      ensures Valid()
    {
      ghost var rows := prevIeqStatus;
      ghost var limits := Limits();
      assert forall k :: 0 <= k < |limits| ==> limits[k] <= |rows[k]|;
      var kk := 0;
      while kk < nI + 1
        invariant 0 <= kk <= nI + 1 && |prevIeqStatus| == |rows|
        invariant forall k :: 0 <= k < kk ==> prevIeqStatus[k] == Marked(rows, limits)[k]
        invariant forall k :: kk <= k < |rows| ==> prevIeqStatus[k] == rows[k]
      {
        var row := MarkRow(prevIeqStatus[kk], intervals[kk].nD + intervals[kk].nV);
        prevIeqStatus := prevIeqStatus[kk := row];
        kk := kk + 1;
      }
    }

    /**
     * qpDUNES_setup: take the given options or the defaults, set the
     * dimensions and count the affine constraints. A nonzero count is
     * rejected with ERR_INVALID_ARGUMENT. Otherwise allocate the nI+1
     * stages, zero multipliers, set the incumbent objective to -INFTY,
     * allocate the active-set rows and mark them changed.
     */
    method Setup(ext: Externals, nI: nat, nX: nat, nU: nat, nD: Option<seq<nat>>, opts: Option<Options>)
        returns (status: ReturnCode)
      requires nD.Some? ==> nI + 1 <= |nD.value|
      modifies this
      ensures options == if opts.Some? then opts.value else DefaultOptions()
      ensures this.nI == nI && this.nX == nX && this.nU == nU && nZ == nX + nU
      ensures nDttl == if nD.Some? then ConstraintSum(nD.value, nI + 1) else 0
      ensures status == Ok <==> nDttl == 0
      ensures status != Ok ==> status == ErrInvalidArgument
      ensures status != Ok ==>
        intervals == old(intervals) && lambda == old(lambda) && prevIeqStatus == old(prevIeqStatus) && optObjVal == old(optObjVal)
      ensures status == Ok ==> Valid() && MultipliersAsSetUp()
      ensures status == Ok ==> fresh(intervals) && fresh(lambda) && lambda[..] == Zeros(nX * nI)
      ensures status == Ok ==> optObjVal == -options.infty
      ensures status == Ok ==> prevIeqStatus == Marked(StatusRows(options, nI, nX, nZ, nD), Limits())
      ensures status == Ok ==> AsAllocated(ext)
    {
      options := if opts.Some? then opts.value else DefaultOptions();
      this.nI, this.nX, this.nU, nZ := nI, nX, nU, nX + nU;
      nDttl := CountConstraints(nD, nI);
      if nDttl != 0 {
        return ErrInvalidArgument;
      }
      AllocateMarked(ext, nD);
      status := Ok;
    }

    /** The allocation of qpDUNES_setup followed by its call of indicateDataChange. */
    method AllocateMarked(ext: Externals, nD: Option<seq<nat>>)
      requires nZ == nX + nU
      requires nD.Some? ==> nI + 1 <= |nD.value| && forall k :: 0 <= k <= nI ==> nD.value[k] == 0
      modifies this`intervals, this`lambda, this`optObjVal, this`prevIeqStatus
      ensures Valid() && MultipliersAsSetUp()
      ensures fresh(intervals) && fresh(lambda) && lambda[..] == Zeros(nX * nI)
      ensures optObjVal == -options.infty
      ensures prevIeqStatus == Marked(StatusRows(options, nI, nX, nZ, nD), Limits())
      ensures AsAllocated(ext)
    {
      Allocate(ext, nD);
      IndicateDataChange();
    }

    /**
     * The allocation part of qpDUNES_setup: the stages, zero multipliers,
     * the incumbent objective -INFTY and the zeroed active-set rows.
     */
    method Allocate(ext: Externals, nD: Option<seq<nat>>)
      requires nZ == nX + nU
      requires nD.Some? ==> nI + 1 <= |nD.value| && forall k :: 0 <= k <= nI ==> nD.value[k] == 0
      modifies this`intervals, this`lambda, this`optObjVal, this`prevIeqStatus
      ensures Valid() && MultipliersAsSetUp()
      ensures fresh(intervals) && fresh(lambda) && lambda[..] == Zeros(nX * nI)
      ensures optObjVal == -options.infty
      ensures prevIeqStatus == StatusRows(options, nI, nX, nZ, nD)
      ensures AsAllocated(ext)
    {
      intervals := NewStageArray(ext, nI, nX, nZ, nD);
      lambda := NewZeros(nX * nI);
      optObjVal := -options.infty;
      prevIeqStatus := StatusRows(options, nI, nX, nZ, nD);
    }

    /**
     * The stages as qpDUNES_setup allocates them: no stage solver chosen,
     * the regular stages holding zeroed data of width nZ and the final
     * stage zeroed data of width nX without dynamics, every sparsity tag
     * undefined.
     */
    ghost predicate AsAllocated(ext: Externals)
      reads this`intervals, this`nI, this`nX, this`nZ, intervals, Stages()`solver, Stages()`data
    {
      && intervals.Length == nI + 1
      && forall k :: 0 <= k <= nI ==> intervals[k].solver == SolverUndefined && intervals[k].data == AllocatedData(ext, k, nI, nX, nZ)
    }

    /** Every regular stage fits a regular place and the final stage the final place. */
    ghost predicate StagesFit()
      reads this, intervals, Stages()
    {
      && intervals.Length == nI + 1
      && (forall k :: 0 <= k < nI ==> intervals[k].Fits(nX, nZ, false))
      && intervals[nI].Fits(nX, nX, true)
    }

    /**
     * qpDUNES_updateIntervalData on stage k with no Cholesky factor given:
     * the stage takes the data and its QP is set up again when needed; all
     * stages still fit their places, and the other stages are untouched.
     */
    method UpdateStage(ext: Externals, k: nat, sd: StageData) returns (status: ReturnCode)
      requires StagesFit() && Numbered() && k <= nI && lambda.Length == nX * nI
      requires nX <= nZ && ext.WellSized()
      requires sd.LargeEnough(nX, nZ, if k < nI then nZ else nX, 0)
      modifies {intervals[k]}`data, {intervals[k]}`solver, {intervals[k]}`cholH, {intervals[k]}`lambdaK
      modifies {intervals[k]}`lambdaK1, {intervals[k]}`q, {intervals[k]}`clipping
      ensures StagesFit() && Numbered()
      ensures intervals[k].data == CopiedValues(old(intervals[k].data), sd, nX, nZ, intervals[k].nV, 0)
      ensures RefactorDecided(old(intervals[k].SolverState()), intervals[k].SolverState(), ext,
        intervals[k].data.H, intervals[k].nV, sd, None)
      ensures sd.ChangesStageQP() ==>
        StageQPRebuilt(intervals[k].View(), old(intervals[k].SolverState()), ext, lambda[..], nX, nI)
      ensures forall j :: 0 <= j <= nI && j != k ==>
        intervals[j].data == old(intervals[j].data) && intervals[j].SolverState() == old(intervals[j].SolverState())
      ensures status == Ok
    {
      ghost var s := intervals[..];
      assert forall j :: 0 <= j <= nI && j != k ==> s[j] != s[k];
      status := intervals[k].UpdateFitting(ext, lambda[..], nX, nZ, nI, sd, if k < nI then nZ else nX, k == nI);
    }

    /** The stages' data, in stage order. */
    ghost function StageData(): (r: seq<StageValues>)
      reads this, intervals, Stages()
      ensures |r| == intervals.Length && forall k :: 0 <= k < |r| ==> r[k] == intervals[k].data
    {
      var a := intervals;
      seq(a.Length, k requires 0 <= k < a.Length reads a, a[..] => a[k].data)
    }

    /** The stages' solver states, in stage order. */
    ghost function SolverStates(): (r: seq<SolverValues>)
      reads this, intervals, Stages()
      ensures |r| == intervals.Length && forall k :: 0 <= k < |r| ==> r[k] == intervals[k].SolverState()
    {
      var a := intervals;
      seq(a.Length, k requires 0 <= k < a.Length reads a, a[..] => a[k].SolverState())
    }

    /**
     * Stages 0..kk-1 are updated from the snapshots data0 and solver0 with
     * their blocks of d, and stages kk..nI still hold the snapshots.
     */
    ghost predicate UpdatedBelow(kk: nat, ext: Externals, d: ProblemData, data0: seq<StageValues>, solver0: seq<SolverValues>)
      reads this, intervals, lambda, Stages()
    {
      && kk <= nI && intervals.Length == nI + 1 && |data0| == nI + 1 && |solver0| == nI + 1
      && d.LargeEnough(nI, nX, nZ)
      && (forall j :: 0 <= j < kk ==>
            StageUpdated(intervals[j].View(), data0[j], solver0[j], ext, StageSlice(d, j, nI, nX, nZ, 0), lambda[..], nX, nZ, nZ, nI))
      && (forall j :: kk <= j <= nI ==> intervals[j].data == data0[j] && intervals[j].SolverState() == solver0[j])
    }

    /** One pass of the loop of qpDUNES_updateData: regular stage kk takes its block of d. */
    method UpdateNextStage(ext: Externals, kk: nat, d: ProblemData, ghost data0: seq<StageValues>, ghost solver0: seq<SolverValues>)
      requires StagesFit() && Numbered() && lambda.Length == nX * nI && kk < nI
      requires nX <= nZ && ext.WellSized()
      requires UpdatedBelow(kk, ext, d, data0, solver0)
      modifies {intervals[kk]}`data, {intervals[kk]}`solver, {intervals[kk]}`cholH, {intervals[kk]}`lambdaK
      modifies {intervals[kk]}`lambdaK1, {intervals[kk]}`q, {intervals[kk]}`clipping
      ensures StagesFit() && Numbered() && UpdatedBelow(kk + 1, ext, d, data0, solver0)
    {
      var sd := StageSlice(d, kk, nI, nX, nZ, 0);
      var _ := UpdateStage(ext, kk, sd);
    }

    /**
     * The loop of qpDUNES_updateData over the regular stages 0..nI-1: each
     * takes its block of the given arrays; the final stage is untouched.
     */
    method UpdateRegularStages(ext: Externals, d: ProblemData)
      requires StagesFit() && Numbered() && lambda.Length == nX * nI
      requires nX <= nZ && ext.WellSized() && d.LargeEnough(nI, nX, nZ)
      modifies Stages()`data, Stages()`solver, Stages()`cholH, Stages()`lambdaK, Stages()`lambdaK1
      modifies Stages()`q, Stages()`clipping
      ensures StagesFit() && Numbered() && UpdatedBelow(nI, ext, d, old(StageData()), old(SolverStates()))
    {
      ghost var data0, solver0 := StageData(), SolverStates();
      var kk := 0;
      while kk < nI
        invariant StagesFit() && Numbered() && UpdatedBelow(kk, ext, d, data0, solver0)
      {
        UpdateNextStage(ext, kk, d, data0, solver0);
        kk := kk + 1;
      }
    }

    /**
     * Every stage k, regular or final, is updated from the snapshots data0
     * and solver0 with its block of d.
     */
    ghost predicate UpdatedAll(ext: Externals, d: ProblemData, data0: seq<StageValues>, solver0: seq<SolverValues>)
      reads this`nI, this`nX, this`nZ, this`intervals, this`lambda, intervals, lambda, Stages()
    {
      && intervals.Length == nI + 1
      && UpdatedViews(Views(), ext, d, data0, solver0, lambda[..], nI, nX, nZ)
    }

    /** The last step of qpDUNES_updateData's stage updates: the final stage takes its block of d. */
    method UpdateFinalStage(ext: Externals, d: ProblemData, ghost data0: seq<StageValues>, ghost solver0: seq<SolverValues>)
      requires StagesFit() && Numbered() && lambda.Length == nX * nI
      requires nX <= nZ && ext.WellSized()
      requires UpdatedBelow(nI, ext, d, data0, solver0)
      modifies {intervals[nI]}`data, {intervals[nI]}`solver, {intervals[nI]}`cholH, {intervals[nI]}`lambdaK
      modifies {intervals[nI]}`lambdaK1, {intervals[nI]}`q, {intervals[nI]}`clipping
      ensures StagesFit() && Numbered() && UpdatedAll(ext, d, data0, solver0)
    {
      var _ := UpdateStage(ext, nI, StageSlice(d, nI, nI, nX, nZ, 0));
    }

    /** The stage updates of qpDUNES_updateData: every stage takes its block of d, and Valid() is kept. */
    method UpdateStages(ext: Externals, d: ProblemData)
      requires Valid() && ext.WellSized() && d.LargeEnough(nI, nX, nZ)
      modifies Stages()`data, Stages()`solver, Stages()`cholH, Stages()`lambdaK, Stages()`lambdaK1
      modifies Stages()`q, Stages()`clipping
      ensures Valid() && UpdatedAll(ext, d, old(StageData()), old(SolverStates()))
    {
      UpdateRegularStages(ext, d);
      UpdateFinalStage(ext, d, old(StageData()), old(SolverStates()));
    }

    /**
     * qpDUNES_updateData: split the given arrays into stage blocks, update
     * every stage in order (the final stage without dynamics), and mark the
     * active sets changed when H, C or D was given. Always OK.
     */
    method UpdateData(ext: Externals, d: ProblemData) returns (status: ReturnCode)
      requires Valid() && ext.WellSized() && d.LargeEnough(nI, nX, nZ)
      modifies Stages()`data, Stages()`solver, Stages()`cholH, Stages()`lambdaK, Stages()`lambdaK1
      modifies Stages()`q, Stages()`clipping, this`prevIeqStatus
      ensures Valid()
      ensures prevIeqStatus == if d.H.Some? || d.C.Some? || d.D.Some? then Marked(old(prevIeqStatus), Limits()) else old(prevIeqStatus)
      ensures UpdatedAll(ext, d, old(StageData()), old(SolverStates()))
      ensures status == Ok
    {
      UpdateStages(ext, d);
      MarkIfChanged(d.H.Some? || d.C.Some? || d.D.Some?, ext, d, old(StageData()), old(SolverStates()));
      status := Ok;
    }

    /** The tail of qpDUNES_updateData: indicateDataChange when the matrix data changed; the stages are untouched. */
    method MarkIfChanged(changed: bool, ghost ext: Externals, ghost d: ProblemData,
                         ghost data0: seq<StageValues>, ghost solver0: seq<SolverValues>)
      requires Valid() && UpdatedAll(ext, d, data0, solver0)
      modifies this`prevIeqStatus
      ensures Valid() && UpdatedAll(ext, d, data0, solver0)
      ensures prevIeqStatus == if changed then Marked(old(prevIeqStatus), Limits()) else old(prevIeqStatus)
    {
      ghost var views := Views();
      if changed {
        IndicateDataChange();
      }
      assert Views() == views;
    }

    /**
     * Stages 0..kk-1 hold the multiplier refresh of their snapshots in
     * before, and stages kk..nI still hold the snapshots.
     */
    ghost predicate LoadedBelow(kk: nat, before: seq<SolverValues>)
      reads this, intervals, Stages(), lambda
    {
      && kk <= nI + 1 && intervals.Length == nI + 1 && |before| == nI + 1 && lambda.Length == nX * nI
      && (forall j :: 0 <= j < kk ==> intervals[j].SolverState() == LoadedInto(before[j], lambda[..], j, nX, nI))
      && (forall j :: kk <= j <= nI ==> intervals[j].SolverState() == before[j])
    }

    /** One pass of step (1) of qpDUNES_setupAllLocalQPs: stage kk takes its multiplier blocks. */
    method LoadNextStage(kk: nat, ghost before: seq<SolverValues>)
      requires StagesFit() && Numbered() && kk <= nI && LoadedBelow(kk, before)
      modifies {intervals[kk]}`lambdaK, {intervals[kk]}`lambdaK1
      ensures StagesFit() && Numbered() && LoadedBelow(kk + 1, before)
    {
      ghost var s := intervals[..];
      assert forall j :: 0 <= j <= nI && j != kk ==> s[j] != s[kk];
      intervals[kk].LoadFitting(lambda[..], nX, nI, if kk < nI then nZ else nX, kk == nI);
    }

    /**
     * Step (1) of qpDUNES_setupAllLocalQPs, the initial multiplier guess:
     * stage 0 takes block 0 as lambdaK1, stage k in 1..nI-1 takes block
     * k-1 as lambdaK and block k as lambdaK1, and the final stage takes
     * block nI-1 as lambdaK.
     */
    method LoadAllMultipliers()
      requires StagesFit() && Numbered() && lambda.Length == nX * nI
      modifies Stages()`lambdaK, Stages()`lambdaK1
      ensures StagesFit() && Numbered() && LoadedBelow(nI + 1, old(SolverStates()))
    {
      ghost var before := SolverStates();
      var kk := 0;
      while kk <= nI
        invariant StagesFit() && Numbered() && LoadedBelow(kk, before)
      {
        LoadNextStage(kk, before);
        kk := kk + 1;
      }
    }

    /** The stages' views, in stage order. */
    ghost function Views(): (r: seq<StageView>)
      reads this`intervals, intervals, Stages()
      ensures |r| == intervals.Length && forall k :: 0 <= k < |r| ==> r[k] == intervals[k].View()
    {
      var a := intervals;
      seq(a.Length, k requires 0 <= k < a.Length reads a, a[..] => a[k].View())
    }

    /** The stages are seen as views. */
    ghost predicate ViewsAre(views: seq<StageView>)
      reads this, intervals, Stages()
    {
      intervals.Length == nI + 1 && |views| == nI + 1 && forall k :: 0 <= k <= nI ==> intervals[k].View() == views[k]
    }

    /**
     * Step (2) of qpDUNES_setupAllLocalQPs on stage k, whose multipliers
     * were refreshed from before, with chol0 as the factor to copy: all
     * stages still fit their places, and only stage k's view changes.
     */
    method SetupStage(ext: Externals, isLTI: bool, k: nat, chol0: Matrix, ghost before: SolverValues,
                      ghost views: seq<StageView>) returns (ghost views': seq<StageView>)
      requires StagesFit() && Numbered() && k <= nI && nX <= nZ && ext.WellSized() && lambda.Length == nX * nI
      requires ViewsAre(views) && views[k].state == LoadedInto(before, lambda[..], k, nX, nI)
      modifies {intervals[k]}`solver, {intervals[k]}`cholH, {intervals[k]}`lambdaK
      modifies {intervals[k]}`lambdaK1, {intervals[k]}`q, {intervals[k]}`clipping
      ensures StagesFit() && Numbered() && ViewsAre(views')
      ensures |views'| == |views| && forall j :: 0 <= j <= nI && j != k ==> views'[j] == views[j]
      ensures views'[k].id == k && StageSetUp(views'[k], before, ext, lambda[..], nX, nI, isLTI, chol0)
    {
      ghost var s := intervals[..];
      assert forall j :: 0 <= j <= nI && j != k ==> s[j] != s[k];
      intervals[k].SetupLocal(ext, lambda[..], nX, nI, isLTI, chol0, before, if k < nI then nZ else nX, k == nI);
      views' := views[k := intervals[k].View()];
    }

    /**
     * One pass of step (2) of qpDUNES_setupAllLocalQPs: stage k gets its
     * solver and its stage QP with stage 0's factor on offer, which
     * extends SetUpBelow by one stage.
     */
    method SetupNextStage(ext: Externals, isLTI: bool, k: nat, ghost before: seq<SolverValues>,
                          ghost views: seq<StageView>) returns (ghost views': seq<StageView>)
      requires StagesFit() && Numbered() && k <= nI && nX <= nZ && ext.WellSized() && lambda.Length == nX * nI
      requires ViewsAre(views) && SetUpBelow(k, views, before, ext, lambda[..], nX, nI, isLTI)
      modifies {intervals[k]}`solver, {intervals[k]}`cholH, {intervals[k]}`lambdaK
      modifies {intervals[k]}`lambdaK1, {intervals[k]}`q, {intervals[k]}`clipping
      ensures StagesFit() && Numbered() && ViewsAre(views') && SetUpBelow(k + 1, views', before, ext, lambda[..], nX, nI, isLTI)
    {
      var chol0 := intervals[0].cholH;
      views' := SetupStage(ext, isLTI, k, chol0, before[k], views);
      SetUpBelowStep(k, views, views', before, ext, lambda[..], nX, nI, isLTI, chol0);
    }

    /** Step (2) of qpDUNES_setupAllLocalQPs over the stages 0..nI in order. */
    method SetupAllStages(ext: Externals, isLTI: bool, ghost before: seq<SolverValues>)
      requires StagesFit() && Numbered() && nX <= nZ && ext.WellSized() && lambda.Length == nX * nI
      requires LoadedBelow(nI + 1, before)
      modifies Stages()`solver, Stages()`cholH, Stages()`lambdaK, Stages()`lambdaK1, Stages()`q, Stages()`clipping
      ensures StagesFit() && Numbered()
      ensures forall k :: 0 <= k <= nI ==>
        StageSetUp(intervals[k].View(), before[k], ext, lambda[..], nX, nI, isLTI, intervals[0].cholH)
    {
      ghost var views := Views();
      var kk := 0;
      while kk <= nI
        invariant StagesFit() && Numbered() && ViewsAre(views) && SetUpBelow(kk, views, before, ext, lambda[..], nX, nI, isLTI)
      {
        views := SetupNextStage(ext, isLTI, kk, before, views);
        kk := kk + 1;
      }
    }

    /**
     * qpDUNES_setupAllLocalQPs: refresh every stage's multipliers from
     * lambda, then give every stage its solver and set up its stage QP
     * (StageSetUp), inner clipping stages of an LTI problem sharing stage
     * 0's factor. Always OK. The source reads block 0 and block nI-1 of
     * lambda unconditionally, so it needs a regular stage.
     */
    method SetupAllLocalQPs(ext: Externals, isLTI: bool) returns (status: ReturnCode)
      requires Valid() && ext.WellSized() && 1 <= nI
      modifies Stages()`solver, Stages()`cholH, Stages()`lambdaK, Stages()`lambdaK1, Stages()`q, Stages()`clipping
      ensures Valid()
      ensures forall k :: 0 <= k <= nI ==>
        StageSetUp(intervals[k].View(), old(intervals[k].SolverState()), ext, lambda[..], nX, nI, isLTI, intervals[0].cholH)
      ensures status == Ok
    {
      LoadAllMultipliers();
      SetupAllStages(ext, isLTI, old(SolverStates()));
      status := Ok;
    }

    /**
     * The inner loop of qpDUNES_shiftLambda: the n entries from base take
     * the n entries that follow them, in increasing order.
     */
    method MoveBlockDown(base: nat, n: nat)
      requires base + 2 * n <= lambda.Length
      modifies lambda
      ensures forall i :: 0 <= i < lambda.Length ==>
        lambda[i] == if base <= i < base + n then old(lambda[i + n]) else old(lambda[i])
    {
      var ii := 0;
      while ii < n
        invariant 0 <= ii <= n
        invariant forall i :: 0 <= i < lambda.Length ==>
          lambda[i] == if base <= i < base + ii then old(lambda[i + n]) else old(lambda[i])
      {
        lambda[base + ii] := lambda[base + n + ii];
        ii := ii + 1;
      }
    }

    /**
     * qpDUNES_shiftLambda: block k of lambda takes block k+1 for every
     * k < nI-1, in increasing order; each read is ahead of every write
     * made so far, so it sees the old value.
     */
    method ShiftLambda() returns (status: ReturnCode)
      requires 1 <= nI && lambda.Length == nX * nI
      modifies lambda
      ensures lambda[..] == ShiftedBlocks(old(lambda[..]), nX, nI)
      ensures status == Ok
    {
      ghost var s := lambda[..];
      BlockStep(nI - 1, nX);
      var kk := 0;
      var base := 0;
      while kk < nI - 1
        invariant 0 <= kk <= nI - 1 && base == kk * nX && base + nX <= lambda.Length
        invariant forall i :: 0 <= i < base ==> lambda[i] == s[i + nX]
        invariant forall i :: base <= i < lambda.Length ==> lambda[i] == s[i]
      {
        BlockStep(kk, nX);
        BlockLayout.MulStep(kk + 1, nI, nX);
        MoveBlockDown(base, nX);
        assert forall i :: 0 <= i < base + nX ==> lambda[i] == s[i + nX];
        assert forall i :: base + nX <= i < lambda.Length ==> lambda[i] == s[i];
        kk := kk + 1;
        base := base + nX;
      }
      ShiftedBlocksFromHalves(lambda[..], s, nX, nI);
      status := Ok;
    }

    /**
     * The rotation of the stage array of qpDUNES_shiftIntervals: stage k takes the
     * stage object at k+1 for k < nI-1, the object from position 0 goes to
     * nI-1, and each moved stage is renumbered with its new position. The
     * final stage is untouched.
     */
    method RotateStages()
      requires Numbered() && 1 <= nI
      modifies intervals, Stages()`id
      ensures intervals[..] == RotateLeft(old(intervals[..]), nI)
      ensures Numbered()
    {
      ghost var s := intervals[..];
      var free := intervals[0];
      var kk := 0;
      while kk < nI - 1
        invariant 0 <= kk <= nI - 1
        invariant forall j :: 0 <= j < kk ==> intervals[j] == s[j + 1]
        invariant forall j :: kk <= j < intervals.Length ==> intervals[j] == s[j]
        invariant forall j :: 1 <= j <= kk ==> s[j].id == j - 1
        invariant forall j :: 0 <= j < intervals.Length && (j == 0 || j > kk) ==> s[j].id == j
      {
        intervals[kk] := intervals[kk + 1];
        intervals[kk].id := kk;
        kk := kk + 1;
      }
      intervals[nI - 1] := free;
      intervals[nI - 1].id := nI - 1;
      assert intervals[..] == RotateLeft(s, nI);
      RotateLeftDistinct(s, nI);
    }

    /** Set or clear the lambdaK flag of regular stage k; the invariant is kept. */
    method SetIncomingDefined(k: nat, defined: bool)
      requires Valid() && k < nI
      modifies {intervals[k]}`lambdaK
      ensures intervals[k].lambdaK == old(intervals[k].lambdaK).(isDefined := defined)
      ensures forall j :: 0 <= j < intervals.Length && j != k ==>
        intervals[j].lambdaK == old(intervals[j].lambdaK)
      ensures Valid()
    {
      ghost var s := intervals[..];
      assert forall j :: 0 <= j < intervals.Length && j != k ==> s[j] != s[k];
      intervals[k].MarkIncoming(defined, nX, nZ, false);
    }

    /** The rotation of the stages keeps the invariant. */
    method RotateValidStages()
      requires Valid() && 1 <= nI
      modifies intervals, Stages()`id
      ensures intervals[..] == RotateLeft(old(intervals[..]), nI)
      ensures Valid()
      ensures old(MultipliersAsSetUp()) ==> RotatedMultipliers()
    {
      RotateStages();
    }

    /**
     * The two flag writes of qpDUNES_shiftIntervals, in the source's order:
     * lambdaK of stage 0 undefined, then lambdaK of stage nI-1 defined.
     */
    method MarkShiftedIncoming()
      requires Valid() && 1 <= nI
      modifies {intervals[0], intervals[nI - 1]}`lambdaK
      ensures nI >= 2 ==> intervals[0].lambdaK == old(intervals[0].lambdaK).(isDefined := false)
      ensures intervals[nI - 1].lambdaK == old(intervals[nI - 1].lambdaK).(isDefined := true)
      ensures forall j :: 0 < j < nI - 1 || j == nI ==> intervals[j].lambdaK == old(intervals[j].lambdaK)
      ensures Valid()
      ensures old(RotatedMultipliers()) && nI >= 2 ==> MultipliersAsSetUp()
    {
      SetIncomingDefined(0, false);
      SetIncomingDefined(nI - 1, true);
    }

    /**
     * qpDUNES_shiftIntervals as written: rotate the regular stages, then
     * mark lambdaK undefined on stage 0 and defined on stage nI-1, in that
     * order. Multiplier values and all other stage data move with their
     * stage objects. With a single regular stage (nI == 1) the second write
     * undoes the first, so stage 0 is left with a defined lambdaK although
     * it has no predecessor.
     */
    method ShiftIntervals() returns (status: ReturnCode)
      requires Valid() && 1 <= nI
      modifies intervals, Stages()`id, Stages()`lambdaK
      ensures intervals[..] == RotateLeft(old(intervals[..]), nI)
      ensures Valid()
      ensures nI >= 2 ==> intervals[0].lambdaK == old(intervals[1].lambdaK).(isDefined := false)
      ensures forall k :: 2 <= k < nI ==> intervals[k - 1].lambdaK == old(intervals[k].lambdaK)
      ensures intervals[nI - 1].lambdaK == old(intervals[0].lambdaK).(isDefined := true)
      ensures intervals[nI].lambdaK == old(intervals[nI].lambdaK)
      ensures nI == 1 ==> intervals[0].lambdaK.isDefined
      ensures old(MultipliersAsSetUp()) && nI >= 2 ==> MultipliersAsSetUp()
      ensures status == Ok
    {
      RotateValidStages();
      MarkShiftedIncoming();
      status := Ok;
    }

    /**
     * The corrected flag writes: lambdaK of stage nI-1 defined first, then
     * lambdaK of stage 0 undefined, so that stage 0 ends without an
     * incoming multiplier also when nI == 1.
     */
    method MarkShiftedIncomingCorrected()
      requires Valid() && 1 <= nI
      modifies {intervals[0], intervals[nI - 1]}`lambdaK
      ensures intervals[0].lambdaK == old(intervals[0].lambdaK).(isDefined := false)
      ensures nI >= 2 ==> intervals[nI - 1].lambdaK == old(intervals[nI - 1].lambdaK).(isDefined := true)
      ensures forall j :: 0 < j < nI - 1 || j == nI ==> intervals[j].lambdaK == old(intervals[j].lambdaK)
      ensures Valid()
      ensures old(RotatedMultipliers()) ==> MultipliersAsSetUp()
    {
      SetIncomingDefined(nI - 1, true);
      SetIncomingDefined(0, false);
    }

    /**
     * qpDUNES_shiftIntervals with the two flag writes swapped: for every
     * nI >= 1 the shifted problem again has the multiplier definedness
     * that qpDUNES_setup establishes.
     */
    method ShiftIntervalsCorrected() returns (status: ReturnCode)
      requires Valid() && 1 <= nI
      modifies intervals, Stages()`id, Stages()`lambdaK
      ensures intervals[..] == RotateLeft(old(intervals[..]), nI)
      ensures Valid()
      ensures !intervals[0].lambdaK.isDefined
      ensures old(MultipliersAsSetUp()) ==> MultipliersAsSetUp()
      ensures status == Ok
    {
      RotateValidStages();
      MarkShiftedIncomingCorrected();
      status := Ok;
    }
  }
}
