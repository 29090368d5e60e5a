/** Vocabulary shared by every contract model: addresses, the error table and the
    failure-compatible result types that stand for a contract's `Result<T, Error>`. */
module Common {

  /** An account or token-contract address. Only equality is ever asked of it. */
  datatype Address = Address(key: nat)

  datatype Option<+T> = None | Some(value: T)

  /** The refusal codes the modelled entrypoints can report. */
  datatype Error =
    | AlreadyExists
    | AlreadyInitialized
    | AlreadySigned
    | AllowanceExceeded
    | AssetNotAuthorized
    | BatchCallFailed
    | BudgetArchived
    | BudgetExceeded
    | BudgetExpired
    | BudgetFrozen
    | BudgetNotActive
    | EmergencyLock
    | EscrowExpired
    | EscrowLocked
    | GraceActive
    | HostAbort
    | InsufficientFunds
    | InsufficientWeight
    | InvalidAmount
    | InvalidInput
    | InvalidMilestone
    | InvalidNonce
    | InvalidProposalState
    | InvalidSignerWeight
    | InvalidState
    | InvalidThreshold
    | MilestoneAlreadyCompleted
    | NotASigner
    | NotFound
    | NotInitialized
    | Overflow
    | ProposalExpired
    | ThresholdNotMet
    | TimeLockActive
    | TimelockNotExpired
    | TooManySigners
    | Unauthorized
    | UnauthorizedModification

  datatype Result<+T> = Ok(value: T) | Err(error: Error) {
    predicate IsFailure() { Err? }

    function PropagateFailure<U>(): Result<U>
      requires Err?
    {
      Err(error)
    }

    function Extract(): T
      requires Ok?
    {
      value
    }
  }

  /** A guard: either passes or names the error the whole call fails with. */
  datatype Guard = Pass | Fail(error: Error) {
    predicate IsFailure() { Fail? }

    function PropagateFailure<U>(): Result<U>
      requires Fail?
    {
      Err(error)
    }
  }

  function Require(condition: bool, error: Error): Guard {
    if condition then Pass else Fail(error)
  }

  predicate Distinct<T(==)>(s: seq<T>) {
    forall i, j :: 0 <= i < j < |s| ==> s[i] != s[j]
  }

  /** The pairwise scan every duplicate check in the source performs. */
  method HasDuplicate<T(==)>(s: seq<T>) returns (r: bool)
    ensures r == !Distinct(s)
  {
    for i := 0 to |s|
      invariant forall a, b :: 0 <= a < i && a < b < |s| ==> s[a] != s[b]
    {
      for j := i + 1 to |s|
        invariant forall b :: i < b < j ==> s[i] != s[b]
      {
        if s[i] == s[j] { return true; }
      }
    }
    return false;
  }
}
