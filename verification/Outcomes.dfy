/** Success-or-failure values shared by every module.  The program's error texts are user
    interface, so a failure carries no message. */
module Outcomes {

  datatype Option<+T> = None | Some(value: T)

  /** For code that can also stop on a failed assertion, unwrap or subtraction. */
  datatype Outcome<+T> = Returned(result: T) | Error | Panic

  datatype Result<+T> = Ok(value: T) | Err {
    predicate IsFailure() { Err? }

    function PropagateFailure<U>(): Result<U>
      requires Err?
    {
      Err
    }

    function Extract(): T
      requires Ok?
    {
      value
    }
  }
}
