# QuantEmul core in Dafny

This project models the core of QuantEmul, a small C++ simulator of quantum
states. The core has five parts:

- **Hilbert spaces** (`HilbertSpaces`). A space is the ordered list of its
  subsystem dimensions and its total dimension. It converts between a flat
  basis index and the tuple of subsystem indices, with the last subsystem
  varying fastest. The class also has its constructors, `tensor` /
  `tensorWith`, `operator==` and the getters. The older `hilbertspace.cpp`
  has the same constructors and getters.
- **Kronecker tensor** (`KroneckerTensor`). `product` fills a buffer with
  four nested loops (`array2`). `expand` lifts an operator on one subsystem
  to the whole space. `getIdentityMatrix` builds an identity.
- **Quantum states** (`QuantumStates`). A state is a density matrix over a
  space. A single column is promoted to a projector. Every other matrix
  must be square, self-adjoint (`isApprox`), decomposable by the eigen
  solver, free of eigenvalues below -1e-15, of trace within 1e-15 of one,
  and of the space's total dimension. The module also covers `setMatrix`,
  `tensor`, `isPure` and the getters. The older `quantumstate.cpp`
  decides self-adjointness by exact equality; it is modelled beside the
  current constructor.
- **Unitary transformations** (`UnitaryTransformations`). There are two
  constructors: from a matrix, and from a pair of bases. `applyTo`
  replaces rho by U rho U^+ through `setMatrix`.
- **General measurements** (`Measurements`, plus outcome labels in
  `Labels`). A measurement is a list of operators with one label each.
  Every change to it re-runs the chain of checks: same size, sum
  approximately the identity, Hermitian, non-negative eigenvalues. The
  chain's first failure records its message. On a valid measurement,
  `probabilities` maps each label to Re tr(rho M). `performOn` walks the
  cumulative probabilities to the outcome a number r selects and replaces
  the state by sqrt(M) rho sqrt(M) / p. `Proector` is the projective
  measurement in the computational basis of a space. The older
  `measurement.cpp` holds the same constructors, chain and getters, line
  for line.

Complex numbers are pairs of exact reals (`ComplexNumbers`). Matrices are
values with a shape and an entry function (`Matrices`). Eigen's
`isApprox` is modelled with its default precision 1e-12: the squared
Frobenius norm of the difference is at most precision² times the smaller
squared norm (`Approximation`). The eigen solver, its operator square root,
matrix inversion and vector normalisation are floating-point routines the
model does not compute. They are passed in as a value of `Numerics.Routines`,
so every property proved holds whatever they return. Where a property needs
it, the model assumes only the shapes Eigen guarantees (`Numerics.Shaped`).
A C++ exception is an `Err` of `Wrappers.Result` carrying the exception
class and the exact message.

## Model

| member | source | states |
|---|---|---|
| HilbertSpaces.HilbertSpace.constructor | hilbert_space.cpp:34-38 | the default space has rank 0, no dimensions and total dimension 0, and satisfies the space invariant (same code in hilbertspace.cpp:32-36) |
| HilbertSpaces.HilbertSpace.FromDimension | hilbert_space.cpp:40-46 | fails with "Dimension cannot be zero" exactly when the dimension is 0; otherwise rank 1, the list [d] and total d (same code in hilbertspace.cpp:39-45) |
| HilbertSpaces.HilbertSpace.FromDimensions | hilbert_space.cpp:48-57 | succeeds exactly when every dimension is positive; the space keeps the list, its length as rank and the product of the dimensions as total; a zero anywhere gives the zero-dimension error (same code in hilbertspace.cpp:48-57) |
| HilbertSpaces.HilbertSpace.Tensor | hilbert_space.cpp:62-67 | a fresh valid space whose list is the first list followed by the second, whose ranks add and whose totals multiply |
| HilbertSpaces.HilbertSpace.TensorWith | hilbert_space.cpp:69-75 | appends the other list, adds ranks and multiplies totals, keeping the invariant; tensoring a space with itself triples its list while doubling its rank, because the rank is updated before the loop reads it (same code in hilbertspace.cpp:78-84) |
| HilbertSpaces.TensorTotals | hilbert_space.cpp:69-75 | the product of a concatenated list is the product of the products, and it is positive |
| HilbertSpaces.ValidAfterTensor | hilbert_space.cpp:69-75 | the fields tensorWith leaves behind satisfy the space invariant, also when one side descends from the empty default space |
| HilbertSpaces.HilbertSpace.Rank | hilbert_space.cpp:143-146 | the rank is the length of the dimension list (same code in hilbertspace.cpp:60-63) |
| HilbertSpaces.HilbertSpace.TotalDimension | hilbert_space.cpp:161-164 | the total dimension is the product of the dimensions, or 0 for a space descended from the default one (same code in hilbertspace.cpp:72-75) |
| HilbertSpaces.HilbertSpace.Dimension | hilbert_space.cpp:148-153 | out_of_range with its own message for a negative index and for one at or past the rank; otherwise the positive dimension at that index (same code in hilbertspace.cpp:65-70) |
| HilbertSpaces.HilbertSpace.GetVector | hilbert_space.cpp:81-91 | refuses an index outside [0, total); otherwise its loop from the last subsystem to the first returns the mixed-radix digits of the index |
| HilbertSpaces.HilbertSpace.GetIndex | hilbert_space.cpp:98-110 | refuses a tuple whose length is not the rank; otherwise its loop returns the Horner-rule flat index of the tuple |
| HilbertSpaces.HilbertSpace.GetBasisVector | hilbert_space.cpp:117-127 | refuses a tuple whose length is not the rank; otherwise the unit vector of length total with a one at the tuple's flat index |
| HilbertSpaces.DigitsInRange | hilbert_space.cpp:81-91 | getVector gives one component per subsystem, each within its subsystem's dimension |
| HilbertSpaces.IndexOfDigits | hilbert_space.cpp:81-110 | getIndex(getVector(x)) == x for every flat index below the total |
| HilbertSpaces.DigitsOfIndex | hilbert_space.cpp:81-110 | a tuple within range has a flat index below the total, and getVector of that index gives the tuple back |
| HilbertSpaces.VectorIndexRoundTrip | hilbert_space.cpp:81-110 | on a valid space, getVector then getIndex is the identity on [0, total) and every component lies within its dimension |
| HilbertSpaces.ThreeByFourExample | hilbert_space.cpp:81-110 | in the space [3, 4] the flat index 6 is the tuple (1, 2), and back |
| HilbertSpaces.RankZeroRoundTripAsWritten | hilbert_space.cpp:98-110 | the rank-0 space has total 1 and getVector(0) is the empty tuple; getIndex as written reads before the start of that tuple, while the corrected index is 0 |
| HilbertSpaces.EqualsIsStructural | hilbert_space.cpp:131-134 | equal spaces have the same rank, and the same total unless one descends from the default space; equal totals do not make equal spaces ([4] against [2, 2]) |
| KroneckerTensor.Product | models/kronecker_tensor.cpp:29-39 | the four loops fill the (ar·br) x (ac·bc) buffer so that it equals the Kronecker product, entry (i·br + k, j·bc + l) being a(i, j)·b(k, l) |
| KroneckerTensor.Put | models/kronecker_tensor.cpp:37 | one write of the innermost loop extends the set of filled cells by the next visited cell, leaving the others unchanged |
| KroneckerTensor.VisitInjective | models/kronecker_tensor.cpp:33-37 | no two cells of the result are written at the same step of the loops |
| KroneckerTensor.VisitBound | models/kronecker_tensor.cpp:33-37 | every cell of the result is written before the loops end |
| KroneckerTensor.CellBijection | models/kronecker_tensor.cpp:37 | (i, k) to i·d + k maps [0, n) x [0, d) one to one onto [0, n·d) |
| KroneckerTensor.KronAt | models/kronecker_tensor.cpp:29-39 | entry (p, q) of the product is a(p / br, q / bc)·b(p mod br, q mod bc) |
| KroneckerTensor.KronIdentity | models/kronecker_tensor.cpp:29-39 | the product of identities of sizes m and n is the identity of size m·n |
| KroneckerTensor.KronLeftUnit | models/kronecker_tensor.cpp:29-39 | the 1 x 1 matrix [1] is a left unit of the product, as expand's starting value needs |
| KroneckerTensor.KronAddLeft | models/kronecker_tensor.cpp:29-39 | the product distributes over a sum in its left factor |
| KroneckerTensor.KronAddRight | models/kronecker_tensor.cpp:29-39 | the product distributes over a sum in its right factor |
| KroneckerTensor.KronAdjoint | models/kronecker_tensor.cpp:29-39 | the adjoint of a product is the product of the adjoints |
| KroneckerTensor.KronZeros | models/kronecker_tensor.cpp:29-39 | a product with a zero factor is zero |
| KroneckerTensor.IdentityMatrix | models/kronecker_tensor.cpp:52-57 | a d x d matrix with ones on the diagonal and zeros elsewhere |
| KroneckerTensor.Expand | models/kronecker_tensor.cpp:41-50 | the loop starting from [1] multiplies in the operator at the chosen subsystem and an identity elsewhere |
| KroneckerTensor.ExpandShape | models/kronecker_tensor.cpp:41-50 | the expanded operator's sides are the products of the dimensions, with the operator's own side at the chosen subsystem |
| KroneckerTensor.ExpandSingle | models/kronecker_tensor.cpp:41-50 | on a one-subsystem space expand returns the operator itself |
| KroneckerTensor.ExpandOutside | models/kronecker_tensor.cpp:41-50 | an index outside [0, rank) expands any operator to the identity of the whole space |
| KroneckerTensor.ExpandIdentity | models/kronecker_tensor.cpp:41-50 | the subsystem identity expands to the identity of the whole space |
| KroneckerTensor.ExpandAdd | models/kronecker_tensor.cpp:41-50 | expansion at a subsystem in range is additive in the operator |
| KroneckerTensor.ExpandZeros | models/kronecker_tensor.cpp:41-50 | the zero operator expands to the zero matrix of the whole space |
| KroneckerExamples.KronExample | test/kronecker_tensor_test.cpp:4-13 | [[1, 2], [3, 4]] times [[0, 5], [6, 7]] equals, entry for entry, the 4 x 4 matrix the unit test expects |
| QuantumStates.Promote | quantum_state.cpp:33-36 | the corrected promotion of a column v: entry (i, j) is v_i·conj(v_j) / ‖v‖², a square matrix of the column's length |
| QuantumStates.PromoteHermitian | quantum_state.cpp:33-36 | the corrected promotion is exactly self-adjoint |
| QuantumStates.PromoteTrace | quantum_state.cpp:33-36 | the corrected promotion of a non-zero column has trace one |
| QuantumStates.PromoteAsWrittenRejectsComplexVector | quantum_state.cpp:33-36 | the promotion as written (normalised v times its transpose) turns the column (1, i) into a matrix the constructor refuses as not self-adjoint, while the corrected promotion is self-adjoint of trace one (same code in quantumstate.cpp:34-37) |
| QuantumStates.CheckDensityMatrix | quantum_state.cpp:81-89 | the loop over the eigenvalues, then the trace test, returns the density check's first failure |
| QuantumStates.NegativeMeans | quantum_state.cpp:82-85 | the nested "far from zero" and "negative" tests reject exactly the eigenvalues below -1e-15 |
| QuantumStates.DensityErrorNone | quantum_state.cpp:81-89 | the density check passes exactly when no eigenvalue is below -1e-15 and the trace is within 1e-15 of one; otherwise it reports one of those two errors |
| QuantumStates.QuantumState.Create | quantum_state.cpp:31-46 | promotes a column or refuses a non-square matrix, then self-adjointness, the solver, the density check and last the space's total dimension; on success a fresh valid state with the solver's decomposition and its own copy of the space |
| QuantumStates.ConstructSucceeds | quantum_state.cpp:31-46 | construction succeeds exactly when the candidate matrix passes every physical check and has the space's total dimension; the admitted matrix is square, self-adjoint, of trace near one and free of negative eigenvalues |
| QuantumStates.ConstructChecksShapeFirst | quantum_state.cpp:37-40 | a matrix with more than one column that is not square is refused as not square, whatever else is wrong with it |
| QuantumStates.QuantumState.CreateExact | quantumstate.cpp:32-47 | the older constructor: the same steps, with self-adjointness decided by exact equality with the adjoint |
| QuantumStates.ExactConstructAgrees | quantumstate.cpp:65-67 | whatever the older constructor accepts the current one accepts with the same result; they differ only on a matrix that is approximately but not exactly self-adjoint |
| QuantumStates.QuantumState.SetMatrix | quantum_state.cpp:103-109 | square, then the space, then the solver, then the density check; the matrix replaces the density matrix exactly when all pass, otherwise the old one stays; the space never changes; the stored decomposition is overwritten exactly when the solver is reached, even when the density check then fails |
| QuantumStates.QuantumState.Adopt | quantum_state.cpp:106-108 | once the solver has succeeded, the decomposition is stored and the density check decides whether the matrix replaces the density matrix |
| QuantumStates.ReplaceAccepted | quantum_state.cpp:103-109 | a matrix setMatrix accepts passes every physical check and has the space's size |
| QuantumStates.CheckOrdersDiffer | quantum_state.cpp:42-44 | the constructor runs the solver before it compares with the space, and setMatrix compares with the space first, so a non-self-adjoint matrix of the wrong size fails the two differently |
| QuantumStates.PureExample | test/quantum_state_test.cpp:92-102 | isPure holds for the matrix with every entry 1/2 (tr(rho²) = 1) |
| QuantumStates.MixedExample | test/quantum_state_test.cpp:92-102 | isPure fails for [[1/2, -1/4], [-1/4, 1/2]] (tr(rho²) = 5/8) |
| QuantumStates.Real2SquareTrace | quantum_state.cpp:98-101 | tr(m²) of a real 2 x 2 matrix [[a, b], [c, d]] is a² + 2bc + d² |
| QuantumStates.NonSquareExample | test/quantum_state_test.cpp:28-34 | the 2 x 3 matrix filled with 0.9 is refused as not square |
| QuantumStates.NotSelfAdjointExample | test/quantum_state_test.cpp:36-42 | the 3 x 3 matrix filled with 0.15 + i is refused as not self-adjoint under isApprox |
| QuantumStates.QuantumState.DensityMatrix | quantum_state.cpp:117-119 | a valid state's matrix is square of the space's size, self-adjoint and of trace within 1e-15 of one |
| QuantumStates.QuantumState.EigenValues | quantum_state.cpp:121-123 | in any valid state, including one left by a setMatrix whose density check failed, it returns the stored eigenvalues; while the decomposition is current they are the solver's eigenvalues of the density matrix and none is below -1e-15 |
| QuantumStates.QuantumState.Space | quantum_state.cpp:113-115 | a fresh copy of the state's space |
| QuantumStates.QuantumState.Tensor | quantum_state.cpp:49-55 | the state built from the Kronecker product of the two density matrices over the tensor product of the two spaces: it fails exactly when that construction fails, with that construction's error; otherwise its density is the admitted product, which is the Kronecker product itself unless the product space has total 1, and its decomposition is current |
| QuantumStates.TensorIsHermitian | quantum_state.cpp:49-55 | the product of two exactly self-adjoint matrices is exactly self-adjoint and passes the self-adjointness check |
| QuantumStates.ValidStateNotEmpty | quantum_state.cpp:87-88 | the density matrix of a valid state is never empty, because the empty matrix has trace 0 |
| UnitaryTransformations.UnitaryTransformation.FromMatrix | unitarytransformation.cpp:51-58 | square, then unitary (the identity approximately U·U^+), then the space's total dimension against the columns; on success the matrix is kept exactly as given, with a copy of the space |
| UnitaryTransformations.IdentityUnitary | unitarytransformation.cpp:84-89 | every identity passes the unitarity check |
| UnitaryTransformations.IdentityOutcome | unitarytransformation.cpp:51-58 | the identity of size n is accepted unchanged over a space of total n and refused with "Incorrect space" over any other |
| UnitaryTransformations.NonSquareFirst | unitarytransformation.cpp:78-82 | a 2 x 3 matrix is refused as not square whatever the space |
| UnitaryTransformations.OnesNotUnitary | unitarytransformation.cpp:84-89 | no all-ones matrix of size two or more passes the unitarity check |
| UnitaryTransformations.ZerosNotUnitary | unitarytransformation.cpp:84-89 | no zero matrix of size one or more passes the unitarity check |
| UnitaryTransformations.NormalizeBases | unitarytransformation.cpp:42-45 | the loop normalises every column of both bases |
| UnitaryTransformations.UnitaryTransformation.FromBases | unitarytransformation.cpp:37-49 | both bases square, then of one size, then U = inverse(normalised old)·normalised new, then the space; on success the transformation holds that U |
| UnitaryTransformations.BasesSkipUnitarity | unitarytransformation.cpp:37-49 | the bases constructor checks no unitarity: with an inverse that returns zero, any two bases of size n give the zero matrix, accepted although not unitary |
| UnitaryTransformations.UnitaryTransformation.TransformMatrix | unitarytransformation.cpp:114-117 | the matrix is square of the space's total dimension |
| UnitaryTransformations.UnitaryTransformation.Space | unitarytransformation.cpp:119-122 | a fresh copy of the transformation's space |
| UnitaryTransformations.UnitaryTransformation.ApplyTo | unitarytransformation.cpp:104-110 | a state over another space is refused and left unchanged; otherwise the state's verdict on U·rho·U^+ decides: accepted, the same state is returned holding U·rho·U^+; refused, the error is returned and the matrix is unchanged; when the spaces match, the stored decomposition becomes the solver's for U·rho·U^+ exactly when setMatrix reaches the solver, even if the density check then refuses it, and is kept otherwise |
| UnitaryTransformations.IdentityConjugation | unitarytransformation.cpp:108 | conjugating by the identity leaves a density matrix unchanged |
| UnitaryTransformations.AdmitsAsWrittenMismatch | unitarytransformation.cpp:106-107 | the space comparison as written lets through a transformation carrying the 0 x 0 identity for a state over the space [2] |
| UnitaryTransformations.TotalIsNotEnough | unitarytransformation.cpp:106-107 | a transformation over [a, b] refuses a state over [a·b], although both spaces have total a·b |
| Labels.NatToString | models/measurement.cpp:33-41 | the decimal text of a natural number is non-empty and made of digits only |
| Labels.IntToStringRoundTrip | models/measurement.cpp:33-41 | the decimal text of an integer reads back as that integer |
| Labels.IntToStringChars | models/measurement.cpp:33-41 | the decimal text of an integer is non-empty and contains neither the comma nor the frame characters (the vertical bar and the two angle brackets) |
| Labels.VecToLabel | models/measurement.cpp:229-237 | the loop joins the decimal texts of the tuple with commas and frames the result v as the ket-bra text bar, v, "><", v, bar |
| Labels.LabelInjective | models/measurement.cpp:229-237 | different tuples get different labels |
| Labels.JoinInjective | models/measurement.cpp:232-235 | non-empty comma-free parts are recovered from their comma-joined text |
| Labels.LabelOfZeroOne | models/measurement.cpp:229-237 | the tuple (0, 1) is labelled with the text 0,1 framed as a ket-bra |
| Measurements.Measurement.constructor | models/measurement.cpp:45-49 | no operators, invalid, with the message "Operators set cannot be empty" (same code in measurement.cpp:31-35) |
| Measurements.Measurement.FromLists | models/measurement.cpp:51-58 | refuses lists of different lengths; otherwise keeps both lists and records the chain's verdict (same code in measurement.cpp:37-44) |
| Measurements.Measurement.AddOperator | models/measurement.cpp:69-74 | appends the operator and its label and re-runs the chain: valid exactly when it passes, its first failure's message recorded, the old message kept when it passes (same code in measurement.cpp:46-51) |
| Measurements.Measurement.CheckOperators | models/measurement.cpp:80-91 | the chain in order, the first failure's message recorded, validity set exactly when all pass (same code in measurement.cpp:54-65) |
| Measurements.CheckSameSize | models/measurement.cpp:93-102 | the loop reports "must be square" or "must be the same size" for the first operator that does not fit, checking squareness first (same code in measurement.cpp:67-76) |
| Measurements.SizeErrorNone | models/measurement.cpp:93-102 | the size check passes exactly when every operator is square of the first operator's size |
| Measurements.SizeErrorFirst | models/measurement.cpp:93-102 | the size check reports the first operator that does not fit, as not square when it is not square and as of another size otherwise |
| Measurements.CheckSum | models/measurement.cpp:104-120 | the loop adds the operators from the zero matrix and the check fails exactly when the sum is not approximately the identity (same code in measurement.cpp:78-94) |
| Measurements.CheckHermit | models/measurement.cpp:122-130 | the loop fails exactly when some operator differs from its adjoint (exact comparison) (same code in measurement.cpp:96-104) |
| Measurements.CheckPositive | models/measurement.cpp:132-144 | the nested loops fail exactly when the solver reports an eigenvalue below -1e-15 for some operator (same code in measurement.cpp:106-118) |
| Measurements.CheckOutcomeNone | models/measurement.cpp:80-144 | a measurement is valid exactly when its list is non-empty, its operators are square of one size, their sum is approximately the identity, each equals its adjoint and none has an eigenvalue below -1e-15 |
| Measurements.CheckOrder | models/measurement.cpp:80-91 | the first failure wins: a size failure hides the later checks, a sum failure hides the Hermitian and positivity checks, a Hermitian failure hides positivity |
| Measurements.ChainAsWrittenAgrees | models/measurement.cpp:80-120 | the chain as written agrees with the corrected chain on every non-empty list; on the empty list it reads past the end where the corrected chain refuses the set |
| Measurements.EmptyListsReadPastEnd | models/measurement.cpp:93-120 | two empty lists pass the size check as written and the sum check then reads the first operator of the empty list |
| Measurements.Measurement.IsValid | models/measurement.cpp:241-244 | isValid holds exactly when the list is non-empty, of one size, sums approximately to the identity, and is Hermitian with no eigenvalue below -1e-15 (same code in measurement.cpp:121-124) |
| Measurements.Measurement.Error | models/measurement.cpp:251-254 | an invalid measurement's message is the chain's first failure (same code in measurement.cpp:131-134) |
| Measurements.Measurement.CheckDims | models/measurement.cpp:146-150 | the operators' size against the total dimension for subsystem -1, otherwise against the subsystem's dimension, whose lookup refuses an index outside the space |
| Measurements.Measurement.GetMeasurementMatrix | models/measurement.cpp:156-162 | the operator itself for subsystem -1, otherwise the operator expanded to the whole space |
| Measurements.Measurement.Probabilities | models/measurement.cpp:164-176 | refused with "You cannot test probabilities because …" while invalid; then the dimension check; then each label maps to Re tr(rho M) of its outcome, a later label overwriting an earlier equal one |
| Measurements.Measurement.OutcomeProbabilities | models/measurement.cpp:171-174 | the loop gives each outcome's probability in operator order |
| Measurements.BuildProbabilityMap | models/measurement.cpp:170-174 | the map filled one label at a time |
| Measurements.ProbabilityMapKeys | models/measurement.cpp:170-174 | the map's keys are exactly the labels |
| Measurements.ProbabilityMapLast | models/measurement.cpp:170-174 | a label's entry is the probability of its last occurrence |
| Measurements.ProbabilityMapDistinct | models/measurement.cpp:170-174 | with distinct labels every outcome has its own entry |
| Measurements.ProbabilitiesSumToTrace | models/measurement.cpp:164-176 | on the whole state, operators summing to the identity give probabilities that add up to Re tr(rho) |
| Measurements.CumSumTrace | models/measurement.cpp:171-174 | the first k probabilities add up to Re tr(rho·(M_0 + … + M_(k-1))) |
| Measurements.SubsystemProbabilitiesSumToTrace | models/measurement.cpp:164-176 | on a subsystem, operators summing to the subsystem identity give probabilities that add up to Re tr(rho) |
| Measurements.ExpandedSum | models/measurement.cpp:156-162 | the sum of the expanded operators is the expansion of their sum |
| Measurements.ProbsOfMeasured | models/measurement.cpp:156-174 | a subsystem measurement's probabilities are those of the expanded operators on the whole state |
| Measurements.Measurement.PerformOn | models/measurement.cpp:178-207 | refused with "You cannot perform this measurement because …" while invalid, the state unchanged; otherwise the dimension check; then the outcome r selects and sqrt(M) rho sqrt(M) / p, which replaces the state's matrix and returns the outcome's label when the state accepts it, and otherwise leaves the matrix and returns the state's error; the space never changes; on success the stored decomposition is the new matrix's; the decomposition is the solver's for the post-measurement matrix whenever setMatrix reached the solver, and otherwise it is kept |
| Measurements.Measurement.Select | models/measurement.cpp:182-203 | the dimension check, the selected outcome and the post-measurement matrix |
| Measurements.Measurement.Commit | models/measurement.cpp:204-206 | setMatrix on the selected matrix, then the outcome's label or the state's error; on success the decomposition is current, and it is replaced by the solver's for the selected matrix exactly when setMatrix reached the solver |
| Measurements.SelectOutcome | models/measurement.cpp:189-193 | the walk, bounded at the last outcome, returns the least outcome whose cumulative probability reaches r |
| Measurements.SelectedLeast | models/measurement.cpp:189-193 | the selected outcome is in range; its cumulative probability reaches r unless it is the last; every earlier outcome falls short of r |
| Measurements.SelectedPositive | models/measurement.cpp:189-203 | for 0 < r up to the total probability the selected outcome has a positive probability, so the division does not divide by zero |
| Measurements.WalkAgrees | models/measurement.cpp:189-193 | with distinct labels and r up to the total, the walk as written over the label map selects the same outcome as the corrected walk |
| Measurements.DuplicateLabelsOverrun | models/measurement.cpp:189-193 | with the labels "a", "a" and probabilities 1, 0, the walk as written reads only the map's last value 0 and runs past the last outcome for r = 1/2; the corrected walk selects outcome 0 |
| Measurements.PerformSelects | models/measurement.cpp:199-203 | the post-measurement matrix is sqrt(M) rho sqrt(M) divided by the selected outcome's probability; a zero probability is refused |
| Measurements.Measurement.Proector | models/measurement.cpp:220-227 | starting from the empty measurement, adds for each basis index in order the projector onto that basis vector, labelled with its tuple; a space of total 0 leaves the empty-set message |
| Measurements.OuterIsProjector | models/measurement.cpp:224-225 | the basis vector times its transpose is the projector onto that basis vector |
| Measurements.ProjectorsSumToIdentity | models/measurement.cpp:220-227 | Proector's operators add up to the identity |
| Measurements.ProjectorsChecks | models/measurement.cpp:220-227 | on a non-empty space Proector passes the size, sum and Hermitian checks, so its validity rests on the solver's eigenvalues alone |
| Measurements.ProjectorLabelsDistinct | models/measurement.cpp:220-237 | different basis indices get different labels |
| Measurements.ProjectorProbability | models/measurement.cpp:173 | tr(rho·P_k), with P_k the projector onto basis vector k, is the diagonal entry rho(k, k) |
| Measurements.ProectorProbabilities | models/measurement.cpp:164-176 | on the whole state, Proector's probability for the label of basis index k is Re rho(k, k) |

## Left out

- The observable constructor `Measurement(MatrixXcd observable)` (models/measurement.cpp:60-67) is not part of this model: it depends entirely on the eigenvectors an external solver returns.
- `partialTrace`, the gate classes under transforms/, main.cpp, main_helper.cpp and the unit-test harness are not part of this model.
- Floating point is replaced by exact reals. The tolerances 1e-15 and 1e-12 are kept as constants, but rounding is not modelled.
- Eigen's eigen solver, operator square root, inverse and normalisation are parameters (`Numerics.Routines`). The model proves nothing about their numerical results; where a proof needs it, it assumes only the result shapes Eigen guarantees (`Numerics.Shaped`).
- `rand()` in performOn becomes the parameter r of `PerformOn`.
- The headers hilbert_space.h:73 and hilbertspace.h:69 describe the total dimension as a sum of the dimensions. The code multiplies them, and the model follows the code.
- The second call to `probabilities` inside `performOn` repeats the dimension check and recomputes the probabilities. The model computes them once, which gives the same values.
- An outcome of probability zero makes `performOn` divide by zero. The NaN and infinite entries that result fail the state's self-adjointness test in `setMatrix`, and the model returns that error (`Measurements.Perform`) instead of computing with NaN.
- `performOnSubsystem` (models/measurement.cpp:209-212) only forwards to `performOn`, so it has no member of its own.
- Measurements.Measurement.Operators: states only that there is one operator per label. The getter returns the stored list, whose contents `FromLists` and `AddOperator` state.
- Measurements.Measurement.Labels: states only that there is one label per operator, for the same reason.
- QuantumStates.QuantumState.IsPure: a predicate without a contract of its own. Its meaning is stated by `PureExample`, `MixedExample` and `Real2SquareTrace`.
- QuantumStates.QuantumState.EigenVectors: returns the stored eigenvectors. No property of them is claimed, because they come from the solver.
- The stored `_err` of a measurement made from two lists whose chain passes is the empty string. The model writes it as `None`, which `Error` renders as "".
- HilbertSpaces.HilbertSpace.GetBasisVector: requires the tuple's flat index to lie in [0, total), because the C++ code writes that position without a bounds test and so has no defined behaviour for it.
- HilbertSpaces.HilbertSpace.FromDimensions: the total is the exact product of the dimensions. The C++ keeps `_rank` and `_dim` in 32-bit `int` (hilbert_space.h:100) and multiplies by `uint` dimensions (hilbert_space.cpp:55), so a product of 2^32 wraps to 0 (dimensions [65536, 65536]) and one of 2^31 turns negative (31 dimensions of 2). Integers are unbounded in the model, so it does not capture that wrap-around.
- HilbertSpaces.HilbertSpace.TensorWith: the new total is the exact product of the two totals. `_dim *= second._dim` (hilbert_space.cpp:74) wraps modulo 2^32 in the C++, and the model does not capture that.
- HilbertSpaces.HilbertSpace.GetIndex: the index is the exact mixed-radix value. The C++ accumulates `index` and `multiplier` in 32-bit `int` (hilbert_space.cpp:102-106), and the model does not capture the overflow once the total reaches 2^31.
- QuantumStates.Promote: the zero column becomes the zero matrix, which the trace check then refuses. What `normalize()` does to a zero vector (quantum_state.cpp:34) depends on the Eigen version. Recent versions leave the vector unchanged, which is what the model does. Older versions divide by zero, and the NaN entries would be refused as not self-adjoint instead.
- C++ value copies of spaces are explicit `Clone` calls. Aliasing is modelled only in `tensorWith`, the one place where the source lets an object meet itself.

## Findings

| source | as written | input that shows it | evidently intended | confidence | as-written member | corrected member |
|---|---|---|---|---|---|---|
| quantum_state.cpp:35 | a column v is promoted to normalised v times its transpose, without conjugation | the column (1, i): the result (1/2)[[1, i], [i, -1]] is not self-adjoint, so a valid state vector is refused | v times its adjoint, v_i·conj(v_j) / ‖v‖² (same code in quantumstate.cpp:36) | high, not executed | QuantumStates.PromoteAsWrittenRejectsComplexVector | QuantumStates.PromoteHermitian |
| models/measurement.cpp:93-120 | the same-size check passes an empty list and the sum check then reads `_operators[0]` | a measurement built from two empty lists | refuse the empty set, as the default constructor's message says (same code in measurement.cpp:67-94) | high, not executed | Measurements.EmptyListsReadPastEnd | Measurements.CheckOutcomeNone |
| models/measurement.cpp:189-193 | the walk reads the probabilities through the label map and has no bound on the outcome index | labels "a", "a" with probabilities 1 and 0, and r = 1/2: the map holds 0 for "a" and the walk runs past the last outcome | walk the probabilities by outcome index and stop at the last outcome | high, not executed | Measurements.DuplicateLabelsOverrun | Measurements.SelectedLeast |
| hilbert_space.cpp:98-110 | getIndex reads `vec[vec.size() - 1]` and `_dimensions[_rank - 1]` before any loop | the space built from the empty list: total 1, getVector(0) is the empty tuple, and getIndex of it reads out of bounds | index 0 for the empty tuple, so that the round trip holds at rank 0 | medium, not executed | HilbertSpaces.RankZeroRoundTripAsWritten | HilbertSpaces.VectorIndexRoundTrip |
| unitarytransformation.cpp:106-107 | applyTo compares spaces by their dimension lists only | the default space tensored with [2] has the list [2] but total 0; a transformation over it holds the 0 x 0 identity and is admitted for a state over [2] | compare the total dimensions too, so that U·rho·U^+ is defined | medium, not executed | UnitaryTransformations.AdmitsAsWrittenMismatch | UnitaryTransformations.UnitaryTransformation.ApplyTo |
