/**
 * The errors an instruction of the locked voter can end with.
 */
module Errors {

  /** The program's own error codes, in declaration order. */
  datatype ErrorCode =
    | LockupDurationTooShort
    | LockupDurationTooLong
    | RefreshCannotShorten
    | EscrowNotEnded
    | MaxLockIsSet
    | ExpirationIsLessThanCurrentTime
    | LockerIsExpired
    | ExpirationIsNotZero
    | AmountIsZero
    | MaxLockIsNotSet
    | InvalidAmountForPartialUnstaking
    | EscrowHasBeenEnded
    | InvalidUnstakingLockDuration
    | PartialUnstakingAmountIsNotZero
    | PartialUnstakingIsNotEnded
    | AmountIsTooLarge

  /**
   * Every way an instruction can fail: one of the program's codes, the
   * integer-overflow error raised when `unwrap_int!` meets a `None`, or an
   * account that does not satisfy a `has_one` relationship constraint.
   * `SourceIsDestination` has no counterpart in the program: only the
   * corrected transfer raises it, for one escrow named as both ends.
   */
  datatype Error =
    | Program(code: ErrorCode)
    | IntegerOverflow
    | ConstraintHasOne
    | SourceIsDestination

  /** `Result<()>` of an instruction. */
  datatype Outcome = Ok | Err(error: Error)
}
