/** Failure-carrying result types shared by the policy modules. */
module Outcomes {

  datatype Option<+T> = None | Some(value: T)

  /** The outcome of a hook that returns a value (create, copy) or aborts with an error. */
  datatype Result<+T, +E> = Ok(value: T) | Err(error: E)

  /** The outcome of a check that either lets the operation through or aborts it. */
  datatype Outcome<+E> = Pass | Fail(error: E)

  /** Checks run in order and the first failure aborts: the index of that failure, if any. */
  function FirstFailure<E>(os: seq<Outcome<E>>): (k: Option<nat>)
    ensures k.None? <==> forall i :: 0 <= i < |os| ==> os[i] == Pass
    ensures k.Some? ==> k.value < |os| && os[k.value].Fail?
    ensures k.Some? ==> forall i :: 0 <= i < k.value ==> os[i] == Pass
  {
    if os == [] then None
    else if os[0].Fail? then Some(0)
    else
      match FirstFailure(os[1..])
      case None => None
      case Some(j) => Some(j + 1)
  }
}
