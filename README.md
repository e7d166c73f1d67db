# qpDUNES problem setup and clipping stage solver, in Dafny

qpDUNES solves multistage quadratic programs, the kind that model
predictive control produces. It uses a dual Newton strategy: the coupling
constraints `x[k+1] = C[k] z[k] + c[k]` between neighbouring stages are
dualised with multipliers `lambda`, and every stage becomes a small
bounded QP. This project models two parts of the solver.

- **Problem setup** (`src/setup_qp.c`):
  - allocating the `nI + 1` stages;
  - filling a regular stage (Hessian classification, dynamics stacked from
    `A` and `B`, simple bounds, affine constraints), the final stage and a
    simply bounded stage;
  - updating the data of all stages;
  - marking the previous active set as changed;
  - loading the multiplier guess into the stages;
  - choosing the stage QP solver (clipping or qpOASES) and presolving each
    stage QP;
  - the receding-horizon shifts of the stages and of `lambda`;
  - the default options.
- **The clipping stage QP solver** (`src/stage_qp_solver_clipping.c`). It
  solves a stage QP with a diagonal Hessian by clipping the unconstrained
  minimiser to the box `zLow <= z <= zUpp`. Modelled: its update of the
  dualised linear and constant terms, the unconstrained solve, the
  step-size and ratio tests, the step, saturation, and the objective value.

The data types of `include/qp/types.h` are datatypes in `qp_types.dfy`:
sparsity types, solver kinds, return codes, options, matrices and vectors.

The files and their modules:

- `qp_types.dfy` (`QpTypes`): the enums and records of `types.h`.
- `block_layout.dfy` (`BlockLayout`): the index macros `accH`, `accC` and
  `accHessian`, with bounds, injectivity and round-trip lemmas.
- `kernels.dfy` (`Kernels`): the dense kernels the two C files call.
  - Scalar product, `C^T y`, `C z` and vector addition are given their
    mathematical meaning.
  - Kernels whose result depends on code outside the model are fields of
    an `Externals` record of functions passed in. These are: factorising
    the Hessian, multiplying by its inverse, detecting sparsity, filling
    bound vectors, setting a matrix to null, and the qpOASES setup status.
- `clipping.dfy` (`ClippingSolver`): the clipping solver. Its array
  routines are methods with loops, each proved against a function on
  sequences.
- `interval_setup.dfy` (`IntervalSetup`): `class Interval`, the stage
  record `interval_t`, with the per-stage setup, update and stage-QP
  routines as methods.
- `problem_setup.dfy` (`ProblemSetup`): `class Problem`, the solver record
  `qpData_t`. It holds an array of stages, the multiplier array `lambda`
  and the active-set record `prevIeqStatus`, and has the whole-problem
  routines as methods.

Floating-point numbers are modelled as `real`, so all arithmetic is exact.

## Model

| member | source | states |
|---|---|---|
| QpTypes.SparsityFromOrdinal | include/qp/types.h:153-161 | an ordinal denotes a sparsity type exactly when it lies in 0..5, the range of the enum |
| QpTypes.SparsityOrdinalRoundTrip | include/qp/types.h:153-161 | ordinal and sparsity type convert into each other without loss, both ways |
| QpTypes.SparsityStrictChain | include/qp/types.h:153-161 | the enum order UNDEFINED < DENSE < SPARSE < DIAGONAL < IDENTITY < ALLZEROS is a strict chain, the order the `>= QPDUNES_DIAGONAL` tests rely on |
| QpTypes.AtLeastDiagonalExactly | include/qp/types.h:153-161 | "sparsity >= DIAGONAL" holds exactly for DIAGONAL, IDENTITY and ALLZEROS |
| QpTypes.CodeValues | include/qp/types.h:215-235 | UNTERMINATED and OK share the value 0; no two other return codes share a value; SUCC_OPTIMAL_SOLUTION_FOUND is 1 |
| QpTypes.Zeros | include/qp/qpdunes_utils.h:296 | the zero vector of length n |
| BlockLayout.RowMajorInjective | include/qp/types.h:123-125 | the row-major offset `i*dim + j` of `accH`/`accC` determines row and column |
| BlockLayout.RowMajorRoundTrip | include/qp/types.h:123-125 | a row-major offset decodes back to its row and column, and every offset is the encoding of its decoding |
| BlockLayout.AccHInBounds | include/qp/types.h:123 | `accH(i,j)` stays inside the `nV*nV` Hessian for in-range indices |
| BlockLayout.AccCInBounds | include/qp/types.h:125 | `accC(i,j)` stays inside the `nX*nZ` dynamics matrix |
| BlockLayout.AccHessianIsSlabRowMajor | include/qp/types.h:119-121 | `accHessian(K,L,I,J)` is row `K*nX+I`, column `(1+L)*nX+J` of a row-major matrix of width `2*nX` |
| BlockLayout.AccHessianInBounds | include/qp/types.h:119-121 | for K < nI and L in {-1, 0}, `accHessian` stays inside the `(2*nX)*(nX*nI)` block-banded Newton Hessian allocated in setup |
| BlockLayout.AccHessianInjective | include/qp/types.h:119-121 | distinct (K, L, I, J) cells of the banded storage never share an offset |
| BlockLayout.DecodeAccHessian | include/qp/types.h:119-121 | decoding an `accHessian` offset gives back the cell it came from |
| BlockLayout.AccHessianOfDecode | include/qp/types.h:119-121 | every offset of the banded storage is the `accHessian` offset of exactly the in-range cell it decodes to |
| Kernels.DotAddScaled | include/qp/matrix_vector.h:159-164 | scalarProd is linear in the first argument under addVectorScaledVector |
| Kernels.DotSymmetric | include/qp/matrix_vector.h:436-439 | scalarProd is symmetric |
| Kernels.DotPadWithZeros | include/qp/matrix_vector.h:436-439 | padding a vector with zeros does not change its scalar product |
| Kernels.CTyTransposes | include/qp/matrix_vector.h:79-90 | `(C^T y) . z == y . (C z)`: the multiplyCTy product is the transpose of the dynamics map |
| ClippingSolver.SaturateVector | src/stage_qp_solver_clipping.c:174-198 | the loop leaves `vec` equal to the saturated vector and `mu` equal to the gaps `mu[2i] = zLow[i] - z[i]` and `mu[2i+1] = z[i] - zUpp[i]` of the unsaturated point (negative when the bound is inactive), and returns OK |
| ClippingSolver.SaturatedWithinBounds | src/stage_qp_solver_clipping.c:174-198 | for tolerance >= 0 and zLow <= zUpp, every saturated entry lies in its box |
| ClippingSolver.SaturatedIdempotent | src/stage_qp_solver_clipping.c:174-198 | saturating twice equals saturating once when every box is a point or wider than the activeness tolerance |
| ClippingSolver.NarrowBoxNotIdempotent | src/stage_qp_solver_clipping.c:174-198 | for a box narrower than the tolerance, a second saturation moves the entry from the upper to the lower bound |
| ClippingSolver.UpdateStageData | src/stage_qp_solver_clipping.c:42-77 | `qStep` becomes `C^T lambdaK1 - [lambdaK; 0]`, taking each part only when that multiplier is defined; `pStep` becomes `c . lambdaK1`, or 0; returns OK |
| ClippingSolver.LambdaKOnlyShiftsStateBlock | src/stage_qp_solver_clipping.c:66-71 | `lambdaK` affects only the first nX entries of `qStep` |
| ClippingSolver.DualisedTermsPriceCoupling | src/stage_qp_solver_clipping.c:42-77 | for every z, `qStep.z + pStep == lambdaK1.(C z + c) - lambdaK.x`: the dualised coupling terms of the stage |
| ClippingSolver.SolveUnconstrained | src/stage_qp_solver_clipping.c:87-98 | `dz` becomes minus the solution of `H dz = qStep` on the first nV entries and keeps the rest; the status is the solve's |
| ClippingSolver.SolvedStepIsStationary | src/stage_qp_solver_clipping.c:87-98 | when the factor inverts a linear H (H applied to the solve of v is v), the `dz` that SolveUnconstrained stores satisfies `H dz = -qStep` on the stage's nV entries, the stationarity condition of the unconstrained stage QP |
| ClippingSolver.DoStep | src/stage_qp_solver_clipping.c:134-165 | the step moves `zUnconstrained` by `alpha*dz`, saturates it into `z`, stores the bound gaps in `mu`, sets `q += alpha*qStep` and `p += alpha*pStep`, keeps every entry past nV, and returns OK |
| ClippingSolver.ZeroStepKeepsData | src/stage_qp_solver_clipping.c:134-165 | a zero step leaves the point, q and p unchanged |
| ClippingSolver.RatioTest | src/stage_qp_solver_clipping.c:206-246 | the loop returns the minimum of `infty` and every ratio the filters as written admit |
| ClippingSolver.RatioTestCorrected | src/stage_qp_solver_clipping.c:206-246 | the same loop with the lower-bound filter mirrored from the upper one |
| ClippingSolver.MinRatioIsShortestAdmittedStep | src/stage_qp_solver_clipping.c:206-246 | the result lies in [0, infty], is no larger than any admitted ratio, and is either infty or one of the admitted ratios |
| ClippingSolver.LowerRatio | src/stage_qp_solver_clipping.c:223-229 | an admitted lower-bound ratio is non-negative and is the step length at which `z + t*dir` reaches the lower bound |
| ClippingSolver.UpperRatio | src/stage_qp_solver_clipping.c:233-240 | an admitted upper-bound ratio is non-negative and is the step length at which `z + t*dir` reaches the upper bound |
| ClippingSolver.CorrectedRatioTestIsMirrorSymmetric | src/stage_qp_solver_clipping.c:206-246 | the corrected test gives the same step on the mirrored problem, with bounds negated and swapped and the direction negated |
| ClippingSolver.MirroredCandidates | src/stage_qp_solver_clipping.c:223-240 | mirroring turns each lower-bound candidate into the matching upper-bound candidate and back |
| ClippingSolver.RatioTestAsWrittenIgnoresFiniteLowerBound | src/stage_qp_solver_clipping.c:226 | an input where the as-written test skips a finite lower bound that the step hits at t = 1, while the corrected test returns 1 |
| ClippingSolver.ActiveSetChangeStep | src/stage_qp_solver_clipping.c:118-122 | a candidate step is positive and is where `dz` reaches one of the bound gaps |
| ClippingSolver.GetMinStepsize | src/stage_qp_solver_clipping.c:110-126 | the loop returns the minimum of the incoming `alphaMin` and all positive active-set-change steps; returns OK |
| ClippingSolver.MinStepsizeShrinksToFirstChange | src/stage_qp_solver_clipping.c:110-126 | the result never exceeds `alphaMin`, is no larger than any candidate, and is either `alphaMin` or the step of some active-set change |
| ClippingSolver.ObjectiveValue | src/stage_qp_solver_clipping.c:255-269 | getObjectiveValue: `z.Hz/2 + q.z + p` over the stage's nV entries; what it promises is stated by ObjectiveAffineAlongStep and ObjectiveReadsStageEntries |
| ClippingSolver.ObjectiveAffineAlongStep | src/stage_qp_solver_clipping.c:255-269 | at a fixed z, the update `q += alpha*qStep`, `p += alpha*pStep` changes the objective `z.Hz/2 + q.z + p` (ObjectiveValue) by `alpha*(qStep.z + pStep)` |
| ClippingSolver.ObjectiveReadsStageEntries | src/stage_qp_solver_clipping.c:255-269 | getObjectiveValue (ObjectiveValue) reads only the first nV entries of z and q: points and linear terms that agree there have the same objective |
| IntervalSetup.Overwrite | src/setup_qp.c:927-941 | writing a block over a vector puts the block in front and keeps the tail |
| IntervalSetup.Updated | src/setup_qp.c:927-941 | updateVector/updateMatrixData copy the first n entries when data is given, keep the rest, and change nothing when it is absent |
| IntervalSetup.UpdatedIdempotent | src/setup_qp.c:927-941 | applying the same update twice equals applying it once |
| IntervalSetup.HessianDiagonal | src/setup_qp.c:670-748 | the assembled diagonal has nX + nU entries |
| IntervalSetup.AssembledHessianAdmitted | src/setup_qp.c:634-753 | an assembled Hessian is at least diagonal exactly when S is absent and neither Q nor R is dense; it is the identity exactly when S is absent and Q and R are both identities |
| IntervalSetup.RegularHessianClassification | src/setup_qp.c:627-753 | a given H keeps its defined sparsity tag; an assembled H is admitted exactly under the rule above; with no Q, R or S the Hessian is the identity |
| IntervalSetup.DiagonalHessianRowZero | src/setup_qp.c:700-748 | for a diagonal assembled Hessian, the diagonal entry at `accH(0,i)` is Q's diagonal for state rows and R's diagonal for control rows, or 1 for an identity block |
| IntervalSetup.StackedEntryAt | src/setup_qp.c:776-786 | entry (i, j) of the stacked `C = [A B]` is `A(i,j)` for state columns and `B(i,j-nX)` for control columns |
| IntervalSetup.AssembleC | src/setup_qp.c:776-786 | the loop writes `[A B]` row by row into C and keeps the entries past `nX*nZ` |
| IntervalSetup.VectorOrZeros | src/setup_qp.c:757-763 | the linear term is copied when given and zero otherwise |
| IntervalSetup.CopiedValues | src/setup_qp.c:925-941 | the copy step keeps every sparsity tag, and changes nothing when no data is given |
| IntervalSetup.CopiedValuesKeepSizes | src/setup_qp.c:925-941 | copying keeps the stage's vectors at their allocated sizes |
| IntervalSetup.CopiedValuesIdempotent | src/setup_qp.c:925-941 | updating a stage twice with the same data equals updating it once |
| IntervalSetup.MultiplierBlock | src/setup_qp.c:983-989 | block k of `lambda` is entries `k*nX .. k*nX+nX-1` |
| IntervalSetup.Loaded | src/setup_qp.c:1062-1067 | loading a multiplier block keeps the definedness flag and the length, and overwrites the first nX entries with the block |
| IntervalSetup.LoadedIdempotent | src/setup_qp.c:1062-1067 | loading the same block twice equals loading it once |
| IntervalSetup.LoadedInto | src/setup_qp.c:983-989 | stage id receives block id-1 as `lambdaK` when id > 0 and block id as `lambdaK1` when id < nI; the first and last stages keep the part they lack; nothing else changes |
| IntervalSetup.LoadedIntoIdempotent | src/setup_qp.c:1062-1067 | reloading the multipliers in setupStageQP after setupAllLocalQPs loaded them changes nothing |
| IntervalSetup.StageGradientIsLagrangianTerm | src/setup_qp.c:1070-1072 | the presolve gradient `qStep + g` satisfies `qStep.z + pStep == g.z + lambdaK1.(C z + c) - lambdaK.x`: the stage's Lagrangian linear term |
| IntervalSetup.ChosenSolver | src/setup_qp.c:996-1012 | an undefined solver becomes clipping exactly when H is at least diagonal and nD == 0, and qpOASES otherwise; a defined choice is kept |
| IntervalSetup.NeighboursShareMultiplier | src/setup_qp.c:983-989 | after setup, stage k's `lambdaK1` and stage k+1's `lambdaK` both hold block k of `lambda` |
| IntervalSetup.Interval.Alloc | src/setup_qp.c:209-266 | a new stage: zero data with undefined sparsity tags, zero workspace, both multipliers defined and zero, solver undefined |
| IntervalSetup.Interval.SetRegularHessian | src/setup_qp.c:627-753 | the Hessian becomes the classified one; OK exactly when it is at least diagonal, ERR_INVALID_ARGUMENT otherwise |
| IntervalSetup.Interval.SetDynamics | src/setup_qp.c:766-798 | C is copied when given, otherwise stacked from A and B; c is copied or zeroed; an undefined C tag becomes DENSE; the error exactly when neither C nor both A and B are given, and then C's data and c are untouched |
| IntervalSetup.Interval.SetConstraints | src/setup_qp.c:808-824 | D is copied when given and set null otherwise; dLow and dUpp are updated |
| IntervalSetup.Interval.SetRegularBounds | src/setup_qp.c:801-824 | the bounds start at minus and plus infinity, and the given x, u or z bounds are written in; then the constraints are set |
| IntervalSetup.Interval.SetRegularData | src/setup_qp.c:757-826 | the linear term, dynamics, bounds and constraints of a regular stage, with the error path of the dynamics |
| IntervalSetup.Interval.SetupRegular | src/setup_qp.c:594-827 | setupRegularInterval: the Hessian first; when it is not at least diagonal, an error and nothing else changed; otherwise the remaining data as above, and OK exactly when the dynamics are given |
| IntervalSetup.Interval.SetupFinal | src/setup_qp.c:836-894 | setupFinalInterval: Hessian, linear term, bounds starting at plus and minus infinity, and constraints; C and c untouched; returns OK |
| IntervalSetup.Interval.SetupSimpleBounded | src/setup_qp.c:567-587 | with R given, a regular stage with zero g: OK exactly when the Hessian is at least diagonal and A and B are given, and then C stacked from A and B, c copied or zeroed, null D, the bounds from x and u, and dLow, dUpp kept; on each error path only H, g and C's tag change; without R, a final stage with Q as Hessian, zero g and bounds from x, always OK |
| IntervalSetup.Interval.LoadMultipliers | src/setup_qp.c:1062-1067 | loads block id-1 into `lambdaK` when id > 0 and block id into `lambdaK1` when id < nI |
| IntervalSetup.Interval.FormStageTerms | src/setup_qp.c:1069-1072 | q is reset to zero; `qStep` becomes the stage gradient and `pStep` the dualised constant |
| IntervalSetup.Interval.SolveStage | src/setup_qp.c:1055-1082 | factorises H only when asked; `dz` is the negated unconstrained solution; `zUnconstrained` is reset only on success |
| IntervalSetup.Interval.SetupStageQP | src/setup_qp.c:1042-1109 | the clipping path: refactor, load the multipliers, form the terms, solve, with the solve's status. The qpOASES path: q = g, the multipliers loaded, the factor untouched, with qpOASES's status. Both paths together: the new solver state is Rebuilt from the state with the multipliers reloaded |
| IntervalSetup.RebuiltWhateverFactorBefore | src/setup_qp.c:1042-1109 | the state setupStageQP leaves does not depend on the factor the stage held before, only on the one it holds when the setup runs |
| IntervalSetup.Interval.DecideSolver | src/setup_qp.c:994-1026 | the chosen solver; the factor is copied from stage 0 instead of refactorised exactly for clipping stages 0 < k < nI of an LTI problem |
| IntervalSetup.Interval.SetupLocal | src/setup_qp.c:994-1030 | after the solver choice and setupStageQP, the stage is set up as StageSetUp states against its state before: solver, reloaded multipliers, factor (copied or refactorised), q = 0, qStep, pStep, and the presolve (dz the negated solve of H dz = qStep, zUnconstrained zeroed when that solve succeeded) |
| IntervalSetup.Interval.CopyData | src/setup_qp.c:925-941 | the stage data becomes the copied values |
| IntervalSetup.Interval.RefreshStage | src/setup_qp.c:943-958 | nothing changes unless H, g or D changed; then the stage QP is set up again (StageQPRebuilt: multipliers reloaded from lambda; a clipping stage has q = 0, the dualised qStep and pStep and the negated unconstrained step dz; any other stage goes to qpOASES with q = g), refactorising only for a new H without a given factor; the multiplier flags are kept |
| IntervalSetup.Interval.RebuildStage | src/setup_qp.c:943-958 | when H, g or D changed: a new H takes its given factor or is refactorised, and the stage QP is set up again (StageQPRebuilt); the multiplier flags are kept |
| IntervalSetup.Interval.UpdateData | src/setup_qp.c:904-963 | updateIntervalData: the data is copied, the refactor decision holds, the stage QP is rebuilt from the new data when H, g or D changed (StageQPRebuilt), the flags are kept, returns OK |
| ProblemSetup.DefaultOptions | src/setup_qp.c:1165-1223 | the default options satisfy the relations the solver relies on: activeness tolerance `1e4` times the equality tolerance, `0 < zero < eqTol < regTol < stationarity tolerance`, line-search factors on the right side of 1, logging off |
| ProblemSetup.ConstraintSumZero | src/setup_qp.c:70-80 | `nDttl` is zero exactly when every stage has no affine constraints |
| ProblemSetup.CountConstraints | src/setup_qp.c:70-75 | the loop computes `nDttl`, the sum of `nD[0..nI]`, or 0 when nD is absent |
| ProblemSetup.RotateLeft | src/setup_qp.c:1124-1133 | the rotated stage array moves stage k+1 to k for k < nI-1, puts the old first stage at nI-1, and keeps the final stage |
| ProblemSetup.RotationsInverse | src/setup_qp.c:1124-1133 | rotating left and then right, or the other way round, gives back the array |
| ProblemSetup.RotateLeftPermutes | src/setup_qp.c:1124-1133 | the rotation is a permutation of the stages |
| ProblemSetup.RotateLeftDistinct | src/setup_qp.c:1124-1133 | the rotation keeps stages distinct, so no two slots alias one stage |
| ProblemSetup.ShiftedBlocksFromHalves | src/setup_qp.c:1148-1160 | the shifted multiplier vector is characterised by "entry i takes entry i+nX below `(nI-1)*nX`, the rest is kept" |
| ProblemSetup.ShiftedBlocksMoveBlocks | src/setup_qp.c:1148-1160 | after the shift, block k holds the old block k+1 for k < nI-1, and the last block is kept |
| ProblemSetup.Marked | src/setup_qp.c:448-459 | marking keeps the shape of the active-set record |
| ProblemSetup.MarkedIdempotent | src/setup_qp.c:448-459 | marking twice equals marking once |
| ProblemSetup.MarkRow | src/setup_qp.c:455-457 | the loop sets the first `nD+nV` entries of a row to -42 and keeps the rest |
| ProblemSetup.StatusRows | src/setup_qp.c:144-194 | the active-set record has nI+1 zero rows of length `nD[k]+nZ`; the final row has length `nD[nI]+nX` when logging is on |
| ProblemSetup.AllocRegularStages | src/setup_qp.c:85-95 | nI fresh, distinct regular stages numbered 0..nI-1 |
| ProblemSetup.AllocFinalStage | src/setup_qp.c:98-113 | a fresh final stage numbered nI, of size nX, with C null, c empty and `lambdaK1` undefined |
| ProblemSetup.NewStageArray | src/setup_qp.c:82-113 | nI+1 distinct fresh stages; only stage 0 lacks `lambdaK`, and only stage nI lacks `lambdaK1`; every stage holds zeroed data with MATRIX_UNDEFINED tags (the final one with C nulled and c freed) and solver UNDEFINED |
| ProblemSetup.StageSlice | src/setup_qp.c:539-553 | the slice for stage k fits that stage's sizes; the final stage gets no C and no c |
| ProblemSetup.StageSliceOfNothing | src/setup_qp.c:539-553 | with no data given, every stage slice is empty |
| ProblemSetup.StageSliceChangesStageQP | src/setup_qp.c:539-553 | a stage's QP is set up again exactly when H, g or D is given |
| ProblemSetup.SetUpBelowStep | src/setup_qp.c:993-1032 | the loop invariant of setupAllLocalQPs's solver loop advances by one stage |
| ProblemSetup.Problem.Empty | include/qp/types.h:654-697 | an empty solver record with one stage |
| ProblemSetup.Problem.IndicateDataChange | src/setup_qp.c:448-459 | the active-set record becomes marked with -42 on each stage's first `nD+nV` entries |
| ProblemSetup.Problem.Setup | src/setup_qp.c:40-202 | options given or default; dimensions stored; `nDttl` summed; ERR_INVALID_ARGUMENT and nothing allocated exactly when `nDttl != 0`; otherwise valid fresh stages as allocated (AsAllocated: zeroed data, MATRIX_UNDEFINED tags, solver UNDEFINED), `lambda` zero, `optObjVal == -infty`, and the marked active-set record |
| ProblemSetup.Problem.Allocate | src/setup_qp.c:82-194 | allocation of stages, multipliers and the zero active-set record; the stages are AsAllocated: zeroed data of their widths, MATRIX_UNDEFINED tags and solver UNDEFINED |
| IntervalSetup.Interval.UpdateFitting | src/setup_qp.c:904-963 | updateIntervalData on a stage that fits its place: it still fits, its data is the copied slice, the refactor decision holds, and the stage QP is rebuilt (StageQPRebuilt) when H, g or D changed; returns OK |
| ProblemSetup.Problem.UpdateStage | src/setup_qp.c:537-553 | one stage is updated with its data slice and, when H, g or D changed, its stage QP is rebuilt from the new data (StageQPRebuilt); every other stage is unchanged |
| ProblemSetup.Problem.UpdateRegularStages | src/setup_qp.c:536-546 | the loop updates stages 0..nI-1, each from its slice, with the stage QP rebuilt where H, g or D changed (StageUpdated) |
| ProblemSetup.Problem.UpdateFinalStage | src/setup_qp.c:547-553 | the final stage is updated without C and c, with its stage QP rebuilt where H, g or D changed (StageUpdated) |
| ProblemSetup.Problem.UpdateStages | src/setup_qp.c:536-553 | the regular stages then the final stage are updated, so every stage satisfies StageUpdated: copied slice, refactor decision, and the stage QP rebuilt where H, g or D changed |
| ProblemSetup.Problem.UpdateData | src/setup_qp.c:520-562 | every stage's data is the copied slice with the refactor decision of updateIntervalData, and its stage QP is rebuilt from the new data and lambda where H, g or D changed (StageUpdated); the active-set record is marked exactly when H, C or D is given; returns OK |
| ProblemSetup.Problem.MarkIfChanged | src/setup_qp.c:554-558 | the active-set record is marked when the matrix data changed and left alone otherwise; the stages are untouched |
| ProblemSetup.Problem.LoadAllMultipliers | src/setup_qp.c:983-989 | every stage holds its blocks of `lambda`, as LoadedInto states |
| ProblemSetup.Problem.SetupAllStages | src/setup_qp.c:993-1032 | every stage is set up as StageSetUp states, with the stage-0 factor for copied LTI factors |
| ProblemSetup.Problem.SetupAllLocalQPs | src/setup_qp.c:973-1035 | every stage gets the solver choice, its multiplier blocks, the refactor-or-copy decision and setupStageQP with its presolve (StageSetUp: dz and the zUnconstrained reset); returns OK |
| ProblemSetup.Problem.MoveBlockDown | src/setup_qp.c:1154-1156 | one block of `lambda` takes the values of the next one; nothing else changes |
| ProblemSetup.Problem.ShiftLambda | src/setup_qp.c:1148-1160 | `lambda` becomes the shifted blocks of its old value; returns OK |
| ProblemSetup.Problem.RotateStages | src/setup_qp.c:1124-1133 | the stage array is rotated left and the stage ids are renumbered |
| ProblemSetup.Problem.MarkShiftedIncoming | src/setup_qp.c:1135-1137 | the flag writes as written: stage 0's `lambdaK` undefined, then stage nI-1's defined |
| ProblemSetup.Problem.ShiftIntervals | src/setup_qp.c:1117-1140 | shiftIntervals as written: the stages are rotated, the multipliers move with their stages, and for nI >= 2 the setup invariant is kept; for nI == 1, stage 0 ends with `lambdaK` defined |
| ProblemSetup.Problem.MarkShiftedIncomingCorrected | src/setup_qp.c:1135-1137 | the flag writes in the intended order: stage 0's `lambdaK` ends undefined for every nI |
| ProblemSetup.Problem.ShiftIntervalsCorrected | src/setup_qp.c:1117-1140 | the rotation keeps the setup invariant (only stage 0 lacks `lambdaK`) for every nI >= 1 |

## Left out

- `qpDUNES_init`, `qpDUNES_cleanup`, `qpDUNES_freeInterval` and `qpDUNES_setupLog` are not part of this model. They are initialisation from an initial guess, memory release and log setup.
- Memory allocation and release, the temporary vectors (`xVecTmp`, `zzMatTmp`, ...), the Newton Hessian and gradient buffers, and the iteration log are not modelled. `calloc` becomes a fresh object with zeroed fields.
- Printing: `qpDUNES_printError`, the INFO messages of `setupAllLocalQPs`, and `qpDUNES_logIteration` on a failed presolve.
- Floating point: every `real_t` is a mathematical real, and `QPDUNES_INFTY` is a finite option value. Rounding, overflow, NaN and division by zero are not modelled.
- ClippingSolver.GetMinStepsize: a zero in `y` or `dz` gives no candidate step. The source relies on IEEE `1/0 = inf` and comparisons with infinity.
- ClippingSolver.RatioTest: a zero step direction gives no candidate, matching IEEE comparisons against `±inf` or `NaN`.
- ClippingSolver.SaturatedIdempotent: holds only when every box is a point or wider than the activeness tolerance. NarrowBoxNotIdempotent shows that narrower boxes break it.
- IntervalSetup.RegularHessian: an assembled DENSE Hessian (S given, or Q or R dense) keeps its old data; its sparsity tag is modelled, but the fill of its entries at src/setup_qp.c:640-715 is not.
- The Hessian factorisation, the multiplication by its inverse, sparsity detection, `updateSimpleBoundVector`, `setMatrixNull` and the whole of qpOASES: these are calls into code outside this model. They are fields of the `Externals` parameter, constrained only to keep vector lengths.
- IntervalSetup.Interval.SetupStageQP: on the qpOASES path the model does not update qpOASES's own stage data (`qpOASES_updateStageData`); it returns the status `qpOASES_setup` reports.
- `qpDUNES_updateMatrixData` and `qpDUNES_updateVector` are modelled as copying the first entries and keeping the sparsity tag and the definedness flag. `qpDUNES_copyMatrix` is modelled as copying the whole matrix, tag included. Their bodies are not part of this model.
- The nine data arrays of `interval_t` are grouped into one record value, and the clipping workspace `qpSolverClipping_t` is one record value.
- ProblemSetup.Problem.UpdateData: requires that no stage has affine constraints (nD == 0 everywhere). Setup refuses any other problem, so the constraint offset `nDoffset` of `updateData` is always 0.
- ProblemSetup.Problem.ShiftLambda, ProblemSetup.Problem.RotateStages, ProblemSetup.Problem.ShiftIntervals and ProblemSetup.Problem.ShiftIntervalsCorrected require nI >= 1. `nI` is a `uint_t` (include/qp/types.h:657), so for nI == 0 the bound `_NI_-1` wraps around (src/setup_qp.c:1127-1137, 1153-1157), and the source reads far outside its arrays.
- ProblemSetup.Problem.SetupAllLocalQPs requires nI >= 1. The source reads multiplier blocks 0 and nI-1 unconditionally, and for nI == 0 it indexes before the start of `lambda`.
- ProblemSetup.Problem.SetupAllLocalQPs: the status of each `setupStageQP` call is ignored and OK is returned, as in the source.
- ProblemSetup.Problem.Setup: the model writes the `lambdaK`/`lambdaK1` flags while allocating each stage, not after all stages are allocated. The final state is the same.
- Options fields that only select code outside the core (line-search and regularisation settings) are stored but not used.

## Findings

| source | as written | input that shows it | evidently intended | confidence | as-written member | corrected member |
|---|---|---|---|---|---|---|
| src/stage_qp_solver_clipping.c:226 | the lower-bound ratio is admitted only when `lb < INFTY*(-1 + eqTol)`, that is, only for an (almost) infinite lower bound | nV = 1, `mu = [-1, 1-1e12]`, `dir = [-1]`, `lb = [0]`, `ub = [1e12]`, INFTY = 1e12: the step reaches the finite lower bound at t = 1, but the test returns 1e12 | admit it when the lower bound is finite, `lb > -INFTY*(1 - eqTol)`, mirroring the upper-bound test at line 236 | not executed | ClippingSolver.RatioTestAsWrittenIgnoresFiniteLowerBound | ClippingSolver.CorrectedRatioTestIsMirrorSymmetric |
| src/setup_qp.c:1136-1137 | the incoming multiplier of stage 0 is marked undefined, and then that of stage nI-1 is marked defined | nI = 1: stage nI-1 is stage 0, so after the shift the first stage has `lambdaK.isDefined == true`, though it has no predecessor | the first stage never has an incoming multiplier, for every nI | not executed | ProblemSetup.Problem.ShiftIntervals | ProblemSetup.Problem.ShiftIntervalsCorrected |
