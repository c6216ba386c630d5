/** Error taxonomy of the quantity algebra and the Result type that carries it.

    Every operation that raises in the original program returns `Err` here; the
    error kinds follow the exception types it raises:
    - ConstructionDiscipline: a quantity built without the factory flag (TypeError)
    - TypeMismatch: an operand of the wrong kind (TypeError from the type gates)
    - CurrencyMismatch: two quantities bound to different symbols (TypeError)
    - DivisionByZero: a zero divisor (ZeroDivisionError)
    - Validation: a malformed pair, an empty symbol, an out-of-range ratio or a
      negative amount (ValueError)
 */
module Outcomes {

  datatype Error =
    | ConstructionDiscipline
    | TypeMismatch
    | CurrencyMismatch(left: string, right: string)
    | DivisionByZero
    | Validation(reason: string)

  datatype Result<+T> = Ok(value: T) | Err(error: Error) {

    predicate IsFailure() {
      Err?
    }

    function PropagateFailure<U>(): Result<U>
      requires Err?
    {
      Err(error)
    }

    function Extract(): T
      requires Ok?
    {
      value
    }
  }

  datatype Option<+T> = None | Some(value: T)
}
