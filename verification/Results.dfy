/** Outcomes of instructions: a value, or the error that aborts the transaction. */
module Results {

  datatype Option<+T> = None | Some(value: T)

  datatype Error =
    // the program's own codes (error.rs)
    | InvalidAttestation
    | AttestationExpired
    | CredentialMismatch
    | SchemaMismatch
    | SasProgramMismatch
    | UnauthorizedMintAuthority
    | InvalidWhitelistEntry
    | Unauthorized
    | IsNotCurrentlyTransferring
    | UnauthorizedTransferAuthority
    | NoPendingAuthority
    // account validation by the framework
    | NotSigner
    | AccountNotInitialized
    | AccountOwnedByWrongProgram
    | AccountDiscriminatorMismatch
    | ConstraintRaw
    | ConstraintSeeds
    | ConstraintTokenMint
    | AccountAlreadyInUse
    | AccountNotEnoughKeys
    | ExternalAccountDataModified
    | RangeError
    // the libraries below it
    | InvalidAccountData
    | ListAlreadyInitialized
    | ExtensionNotFound

  datatype Result<+T> = Ok(value: T) | Err(error: Error) {
    predicate IsFailure() { Err? }

    function PropagateFailure<U>(): Result<U>
      requires Err?
    {
      Err(error)
    }

    function Extract(): T
      requires Ok?
    {
      value
    }
  }

  /** The outcome of a check that yields no value. */
  datatype Outcome = Pass | Fail(error: Error) {
    predicate IsFailure() { Fail? }

    function PropagateFailure<U>(): Result<U>
      requires Fail?
    {
      Err(error)
    }

    function ToResult(): Result<()>
    {
      if Pass? then Ok(()) else Err(error)
    }
  }

  /** `require!`: continue if the condition holds, abort with the error otherwise. */
  function Require(condition: bool, error: Error): Outcome
  {
    if condition then Pass else Fail(error)
  }
}
