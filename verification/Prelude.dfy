/** Results, errors and the small vocabulary every other module shares. */
module Prelude {

  datatype Option<+T> = None | Some(value: T)

  /** The plugin's own errors, in the order the program declares them, then the framework's and the runtime's. */
  datatype Error =
    | InvalidRealmAuthority
    | MissingIdentityAccount
    | InvalidIdentityPda
    | InvalidIdentityOwner
    | InvalidIdentityData
    | InsufficientTrustScore
    | VerificationExpired
    | VoterWeightRecordRealmMismatch
    | VoterWeightRecordMintMismatch
    | VoterWeightRecordOwnerMismatch
    | RealmHasNoAuthority
    | GoverningTokenOwnerSignerMismatch
    | InvalidMaxVerificationAge
    | InvalidMaxVoterWeight
    // framework
    | InstructionFallbackNotFound
    | InstructionDidNotDeserialize
    | AccountNotEnoughKeys
    | AccountNotSigner
    | AccountOwnedByWrongProgram
    | AccountDiscriminatorMismatch
    | ConstraintSeeds
    | ConstraintMut
    | ConstraintOwner
    | ConstraintExecutable
    | ConstraintRaw
    | ConstraintClose
    | InvalidProgramId
    // runtime and foreign programs
    | AccountAlreadyInUse
    | InsufficientFunds
    | RealmRejected
    | NotPermitted

  datatype Result<+T> = Ok(value: T) | Err(error: Error) {
    predicate IsFailure() { Err? }

    function PropagateFailure<U>(): Result<U>
      requires Err?
    {
      Err(error)
    }

    function Extract(): T
      requires Ok?
    {
      value
    }
  }

  datatype Outcome = Pass | Fail(error: Error) {
    predicate IsFailure() { Fail? }

    function PropagateFailure<U>(): Result<U>
      requires Fail?
    {
      Err(error)
    }
  }

  /** The program's `require!`: pass when the condition holds, otherwise fail with the given error. */
  function Need(condition: bool, error: Error): Outcome {
    if condition then Pass else Fail(error)
  }
}
