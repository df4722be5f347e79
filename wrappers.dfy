/** Failure-compatible results for the operations of the simulator.

    The C++ classes report structural and physical-validity errors by throwing
    std::invalid_argument, std::out_of_range or std::runtime_error with a fixed
    message, and a measurement keeps the message of its first failed check
    as a string.  Here each message is a `Reason`, and `Message` gives its
    exact text; each throw becomes an `Err` carrying the exception kind and
    the reason. */
module Wrappers {

  /** The messages the simulator's checks produce. */
  datatype Reason =
      // composite spaces
    | ZeroDimension
    | IndexOutsideSpace
    | TupleSizeMismatch
    | BasisTupleSizeMismatch
    | NegativeDimensionIndex
    | DimensionIndexTooBig
      // quantum states
    | MatrixNotSquare
    | MatrixNotSelfAdjoint
    | SolverFailure
    | NegativeEigenvalues
    | TraceNotOne
    | TotalDimensionMismatch
      // measurements
    | EmptyOperatorSet
    | LabelCountMismatch
    | OperatorNotSquare
    | OperatorSizesDiffer
    | SumNotIdentity
    | OperatorNotHermitian
    | OperatorNotPositive
    | StateDimensionMismatch
    | CannotTestProbabilities(cause: Reason)
    | CannotPerform(cause: Reason)
      // unitary transformations
    | OldBasisNotSquare
    | NewBasisNotSquare
    | BasisSizesDiffer
    | TransformNotSquare
    | TransformNotUnitary
    | IncorrectSpace
    | StateSpaceMismatch

  /** The text the C++ code gives each reason. */
  function Message(r: Reason): string {
    match r
    case ZeroDimension => "Dimension cannot be zero"
    case IndexOutsideSpace => "Index must be between 0 and space dimension"
    case TupleSizeMismatch => "Vector size must be equal to space dimension"
    case BasisTupleSizeMismatch => "Basis vector size must be equal to space dimension"
    case NegativeDimensionIndex => "Did you ever seen an negative dimension index? You should stop take drugs, really"
    case DimensionIndexTooBig => "This space is less than you think. There is no dimension with such big index, sorry"
    case MatrixNotSquare => "Matrix should be square, and your matrix is not. Be careful"
    case MatrixNotSelfAdjoint => "Matrix should be selfadjoined"
    case SolverFailure => "Something is wrong with eigen solver"
    case NegativeEigenvalues => "This is not density matrix because it contains negative eigen values: "
    case TraceNotOne => "Matrix should have trace equal to 1"
    case TotalDimensionMismatch => "Space total dimension shold be the same as matrix is"
    case EmptyOperatorSet => "Operators set cannot be empty"
    case LabelCountMismatch => "Number of labels must be the same as operators"
    case OperatorNotSquare => "Operators must be square"
    case OperatorSizesDiffer => "All operators in one set must be the same size"
    case SumNotIdentity => "Operators sum must be equal to the identity operator"
    case OperatorNotHermitian => "Operators must be Hermit"
    case OperatorNotPositive => "Operators must have non-negative eigen values"
    case StateDimensionMismatch => "State space dimension does not match operators dimension"
    case CannotTestProbabilities(cause) => "You cannot test probabilities because " + Message(cause)
    case CannotPerform(cause) => "You cannot perform this measurement because " + Message(cause)
    case OldBasisNotSquare => "Matrix of old basis must be square"
    case NewBasisNotSquare => "Matrix of new basis must be square"
    case BasisSizesDiffer => "Matrices of basises must be the same size. How do you imagine transform from space dimension 6 to space dimension 42, for example?"
    case TransformNotSquare => "Matrix of transformation must be square"
    case TransformNotUnitary => "Your matrix must be unitary (U* * U = I)"
    case IncorrectSpace => "Incorrect space was passed to the transformation"
    case StateSpaceMismatch => "Space of state must be the same as transforms space"
  }

  /** The three standard exception classes the simulator throws. */
  datatype Error =
    | InvalidArgument(reason: Reason)
    | OutOfRange(reason: Reason)
    | RuntimeError(reason: Reason)

  datatype Result<+T> = Ok(value: T) | Err(error: Error) {
    predicate IsFailure() { Err? }

    function PropagateFailure<U>(): Result<U>
      requires Err?
    {
      Err(error)
    }

    function Extract(): T
      requires Ok?
    {
      value
    }
  }

  datatype Option<+T> = None | Some(value: T)
}
