/** Optional values, the errors the forecast client raises, and a Result type
    that carries either a value or one of those errors (usable with `:-`). */
module Outcomes {

  datatype Option<+T> = None | Some(value: T)

  /** One constructor per kind of exception the client raises or lets through. */
  datatype Error =
    | RequestFailed(reason: string)                 // transport: network failure, non-200 status, bad key type
    | MissingKey(key: string)                       // KeyError on a JSON object
    | IndexOutOfRange                               // IndexError: an empty `points` list
    | BadDate(text: string)                         // ValueError raised by strptime
    | DateOverflow                                  // OverflowError: date arithmetic left years 1..9999
    | NoValidForecastDate(field: string, level: int) // no run sample is recent enough

  datatype Result<+T> = Ok(value: T) | Err(error: Error) {

    predicate IsFailure() {
      Err?
    }

    function PropagateFailure<U>(): Result<U>
      requires Err?
    {
      Err(error)
    }

    function Extract(): T
      requires Ok?
    {
      value
    }
  }

  /** Reading `obj[key]` from a JSON object: a missing key is a KeyError. */
  function Key<T>(field: Option<T>, key: string): (r: Result<T>)
    ensures r.Ok? <==> field.Some?
    ensures r.Ok? ==> r.value == field.value
    ensures r.Err? ==> r.error == MissingKey(key)
  {
    match field
    case Some(v) => Ok(v)
    case None => Err(MissingKey(key))
  }
}
