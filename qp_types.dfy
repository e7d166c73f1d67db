/**
 * The enumerations and records of qpDUNES (include/qp/types.h) that the
 * setup code and the clipping stage solver depend on.
 */
module QpTypes {

  datatype Option<+T> = None | Some(value: T)

  /** Matrix sparsity tags, in declaration order (sparsityType_t). */
  datatype SparsityType =
    | MatrixUndefined
    | Dense
    | Sparse
    | Diagonal
    | Identity
    | AllZeros

  /** The integer value C gives each sparsity tag. */
  function SparsityOrdinal(s: SparsityType): (n: nat)
    ensures n <= 5
  {
    match s
    case MatrixUndefined => 0
    case Dense => 1
    case Sparse => 2
    case Diagonal => 3
    case Identity => 4
    case AllZeros => 5
  }

  /** The sparsity tag whose value is n, if there is one. */
  function SparsityFromOrdinal(n: int): (r: Option<SparsityType>)
    ensures r.Some? <==> 0 <= n <= 5
  {
    if n == 0 then Some(MatrixUndefined)
    else if n == 1 then Some(Dense)
    else if n == 2 then Some(Sparse)
    else if n == 3 then Some(Diagonal)
    else if n == 4 then Some(Identity)
    else if n == 5 then Some(AllZeros)
    else None
  }

  /** The C comparison `a < b` on sparsity tags. */
  predicate SparsityLess(a: SparsityType, b: SparsityType) {
    SparsityOrdinal(a) < SparsityOrdinal(b)
  }

  /** `s >= QPDUNES_DIAGONAL`: the test that admits a Hessian to the clipping solver. */
  predicate AtLeastDiagonal(s: SparsityType) {
    !SparsityLess(s, Diagonal)
  }

  /** The tags are numbered 0..5 without gaps, and the numbering can be undone. */
  lemma SparsityOrdinalRoundTrip(s: SparsityType, n: int)
    ensures SparsityFromOrdinal(SparsityOrdinal(s)) == Some(s)
    ensures 0 <= n <= 5 ==> SparsityOrdinal(SparsityFromOrdinal(n).value) == n
  {
  }

  /** The declaration order is a strict chain from UNDEFINED up to ALLZEROS. */
  lemma SparsityStrictChain()
    ensures SparsityLess(MatrixUndefined, Dense) && SparsityLess(Dense, Sparse)
    ensures SparsityLess(Sparse, Diagonal) && SparsityLess(Diagonal, Identity)
    ensures SparsityLess(Identity, AllZeros)
    ensures forall a: SparsityType :: !SparsityLess(a, a)
  {
  }

  /** `>= QPDUNES_DIAGONAL` selects exactly DIAGONAL, IDENTITY and ALLZEROS. */
  lemma AtLeastDiagonalExactly(s: SparsityType)
    ensures AtLeastDiagonal(s) <==> (s == Diagonal || s == Identity || s == AllZeros)
  {
  }

  /** Status codes (return_t). */
  datatype ReturnCode =
    | Unterminated
    | Ok
    | SuccOptimalSolutionFound
    | ErrStageQpInfeasible
    | ErrorStageCouplingInfeasible
    | ErrUnknownError
    | ErrUnknownMatrixSparsityType
    | ErrUnknownLsType
    | ErrInvalidArgument
    | ErrIterationLimitReached
    | ErrDivisionByZero
    | ErrNumberOfMaxLinesearchIterationsReached
    | ErrDeceededMinLinesearchStepsize
    | ErrExceededMaxLinesearchStepsize
    | ErrNewtonSystemNoAscentDirection
    | NoticeNewtonMatrixNotSetUp

  /**
   * The integer value of a status code. UNTERMINATED is declared first and
   * OK is explicitly given the value 0 as well, so the numbering restarts:
   * SUCC_OPTIMAL_SOLUTION_FOUND is 1 and every later code one more.
   */
  function Code(r: ReturnCode): (c: nat)
    ensures c <= 14
  {
    match r
    case Unterminated => 0
    case Ok => 0
    case SuccOptimalSolutionFound => 1
    case ErrStageQpInfeasible => 2
    case ErrorStageCouplingInfeasible => 3
    case ErrUnknownError => 4
    case ErrUnknownMatrixSparsityType => 5
    case ErrUnknownLsType => 6
    case ErrInvalidArgument => 7
    case ErrIterationLimitReached => 8
    case ErrDivisionByZero => 9
    case ErrNumberOfMaxLinesearchIterationsReached => 10
    case ErrDeceededMinLinesearchStepsize => 11
    case ErrExceededMaxLinesearchStepsize => 12
    case ErrNewtonSystemNoAscentDirection => 13
    case NoticeNewtonMatrixNotSetUp => 14
  }

  /** A status is OK exactly when its value is that of QPDUNES_OK. */
  predicate IsOk(r: ReturnCode) {
    Code(r) == Code(Ok)
  }

  /**
   * UNTERMINATED and OK share the value 0, SUCC_OPTIMAL_SOLUTION_FOUND is 1,
   * and apart from the first pair no two codes share a value.
   */
  lemma CodeValues(a: ReturnCode, b: ReturnCode)
    ensures Code(Unterminated) == 0 && Code(Ok) == 0 && Code(SuccOptimalSolutionFound) == 1
    ensures Code(a) == Code(b) ==> a == b || (IsOk(a) && IsOk(b))
    ensures IsOk(a) <==> (a == Unterminated || a == Ok)
  {
  }

  /** Stage QP solver choice (qp_solver_t). */
  datatype QpSolverKind = SolverUndefined | SolverClipping | SolverQpoases

  /** Log level (logLevel_t); the source compares it with `>=`. */
  datatype LogLevel = LogOff | LogIterations | LogAllData

  function LogLevelOrdinal(l: LogLevel): (n: nat)
    ensures n <= 2
  {
    match l
    case LogOff => 0
    case LogIterations => 1
    case LogAllData => 2
  }

  /** Newton Hessian regularisation types (nwtnHssnRegType_t). */
  datatype RegType =
    | RegLevenbergMarquardt
    | RegNormalizedLevenbergMarquardt
    | RegSingularDirections
    | RegUnconstrainedHessian
    | RegGradientStep

  /** Newton Hessian factorisation order (nwtnHssnFacAlg_t). */
  datatype FacAlg = BandForward | BandReverse

  /** Line search types (lineSearchType_t). */
  datatype LineSearchType =
    | BacktrackingLs
    | BacktrackingLsWithAsChange
    | GoldenSectionLs
    | GradientBisectionLs
    | AcceleratedGradientBisectionLs
    | GridLs
    | AcceleratedGridLs

  /** Solver options (qpOptions_t). */
  datatype Options = Options(
    maxIter: int,
    maxNumLineSearchIterations: int,
    maxNumLineSearchRefinementIterations: int,
    printLevel: int,
    logLevel: LogLevel,
    printIntervalHeader: int,
    printIterationTiming: bool,
    printLineSearchTiming: bool,
    stationarityTolerance: real,
    equalityTolerance: real,
    newtonHessDiagRegTolerance: real,
    activenessTolerance: real,
    zero: real,
    infty: real,
    ascentCurvatureTolerance: real,
    nbrInitialGradientSteps: int,
    checkForInfeasibility: bool,
    regType: RegType,
    regParam: real,
    nwtnHssnFacAlg: FacAlg,
    lsType: LineSearchType,
    lineSearchReductionFactor: real,
    lineSearchIncreaseFactor: real,
    lineSearchMinAbsProgress: real,
    lineSearchMinRelProgress: real,
    lineSearchStationarityTolerance: real,
    lineSearchMaxStepSize: real,
    lineSearchNbrGridPoints: int,
    qpOasesTerminationTolerance: real
  )

  /** A matrix: its sparsity tag and its row-major entries (matrix_t). */
  datatype Matrix = Matrix(sparsity: SparsityType, data: seq<real>)

  /** A vector with its definedness flag (vector_t; hasChanged is never read by the core). */
  datatype Vector = Vector(isDefined: bool, data: seq<real>)

  /** A vector of n zeros (qpDUNES_setupZeroVector). */
  function Zeros(n: nat): (r: seq<real>)
    ensures |r| == n && forall i :: 0 <= i < n ==> r[i] == 0.0
  {
    seq(n, _ => 0.0)
  }

  /** A vector of n copies of v (qpDUNES_setupUniformVector). */
  function Uniform(v: real, n: nat): (r: seq<real>)
    ensures |r| == n && forall i :: 0 <= i < n ==> r[i] == v
  {
    seq(n, _ => v)
  }
}
