/** Value wrappers of Rust's standard library that the executor passes around. */
module Prelude {

  /** `std::option::Option`. */
  datatype Option<+T> = None | Some(value: T)

  /** `std::result::Result`. */
  datatype Result<+T, +E> = Ok(value: T) | Err(error: E)
}

/**
 * The parts of the `futures` 0.1 crate the executor is written against: the
 * answer of one poll and the handle of a parked task.  The crate itself is not
 * part of this model; a task is a state that a poll function advances.
 */
module Futures {
  import opened Prelude

  /** `futures::Async`: a poll either finishes with a value or is not ready yet. */
  datatype Async<+T> = Ready(value: T) | NotReady

  /** What polling a future once yields: `Poll<T, E>` and the future's next state. */
  datatype Polled<+F, +T, +E> = Polled(answer: Result<Async<T>, E>, next: F)

  /** True when a poll answer is final, that is a value or an error. */
  predicate Resolved<T, E>(answer: Result<Async<T>, E>)
  {
    answer.Err? || answer.value.Ready?
  }

  /**
   * The final outcome carried by a resolved poll answer: `Ready(x)` gives
   * `Ok(x)` and an error stays an error.
   */
  function Outcome<T, E>(answer: Result<Async<T>, E>): (r: Result<T, E>)
    requires Resolved(answer)
    ensures r.Ok? <==> answer.Ok?
    ensures r.Ok? ==> answer == Ok(Ready(r.value))
    ensures r.Err? ==> answer == Err(r.error)
  {
    match answer
    case Ok(a) => Ok(a.value)
    case Err(e) => Err(e)
  }

  /**
   * `futures::task::Task`, the handle a future keeps to be polled again.  Only
   * the number of `unpark` calls it has received is recorded.
   */
  class Waker {
    var unparks: nat

    constructor ()
      ensures unparks == 0
    {
      unparks := 0;
    }

    method Unpark()
      modifies this
      ensures unparks == old(unparks) + 1
    {
      unparks := unparks + 1;
    }
  }
}
