/** Optional values, results carrying the .NET exception a call would throw, and the
  * choice of a member from a set, which the model's foreach loops rest on. */
module Wrappers {

  datatype Option<T> = None | Some(value: T)
  {
    predicate IsSome() { this.Some? }
  }

  /** The .NET exceptions the modelled code can throw. */
  datatype Fault =
    | ArgumentNull
    | ArgumentOutOfRange
    | Argument
    | InvalidOperation
    | ObjectDisposed
    | IndexOutOfRange
    | DivideByZero

  datatype Result<T> = Success(value: T) | Failure(error: Fault)
  {
    predicate IsFailure() { this.Failure? }
  }

  /** A set of numbers that is not empty has a member to pick. */
  lemma NonEmptyHasMember(s: set<int>)
    requires s != {}
    ensures exists y :: y in s
  {
    if forall y :: y !in s {
      assert false;
    }
  }
}
