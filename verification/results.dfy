/** Failure kinds of the relative-duration parser, and the result type that
    carries them. Only the kind of each error (and the offending text) is
    kept; the human-readable messages of relatives.go are not modelled. */
module Results {

  datatype ParseError =
    | PartCount(got: nat)      // a quantity+unit match did not carry exactly two groups
    | BadQuantity(text: string) // the quantity group is not an int64 decimal literal
    | BadUnit(text: string)     // the unit group is not a known unit spelling
    | DanglingAgo               // "ago" with a zero accumulator
    | NoMatch(input: string)    // a non-empty input in which no rule matched

  datatype Option<+T> = None | Some(value: T)

  /** Either a value or the error that stopped the computation;
      usable with `:-`. */
  datatype Result<+T> = Ok(value: T) | Err(error: ParseError) {

    predicate IsFailure() {
      Err?
    }

    function PropagateFailure<U>(): Result<U>
      requires Err?
    {
      Err(error)
    }

    function Extract(): T
      requires Ok?
    {
      value
    }
  }
}
