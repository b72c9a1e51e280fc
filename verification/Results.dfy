/** How a call of the library ends: with a value, with one of its error kinds, or by a panic
    (an `unwrap`, a failed assertion, an index out of bounds). */
module Results {

  datatype Option<+T> = None | Some(value: T)

  datatype Error =
    | MalformedSecretKey
    | MalformedPublicKey
    | MalformedSignature
    | MessageCountMismatch(expected: nat, given: nat)
    | UnequalNoOfBasesExponents(bases: nat, exponents: nat)
    | InvalidNumberOfBytes(expected: nat, given: nat)
    | InvalidProof
    | PoKVCError
    | GeneralError

  datatype Result<+T> = Ok(value: T) | Err(error: Error) | Panic {
    predicate IsFailure() {
      !Ok?
    }

    function PropagateFailure<U>(): Result<U>
      requires !Ok?
    {
      if Err? then Err(error) else Panic
    }

    function Extract(): T
      requires Ok?
    {
      value
    }
  }
}
