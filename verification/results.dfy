/** The run-time faults the modelled C# code raises where it does not
    guard, a result type carrying either a value or such a fault, and an
    option type for the references a component may or may not hold. */
module Results {

  datatype Fault =
    | IndexOutOfRange    // an array or list indexed outside its bounds
    | NullReference      // a member accessed through a null reference

  datatype Result<T> = Ok(value: T) | Err(fault: Fault)

  /** A nullable reference: `None` is C#'s `null`. */
  datatype Option<T> = None | Some(value: T)
}
