/** Outcomes of the unit parser: an optional value, and a result that is either
    a value or the reason the source raises an exception. */
module Results {

  datatype Option<T> = None | Some(value: T)

  /** Why a decomposition fails. The source raises an exception in both cases;
      its message text is not modelled. */
  datatype Failure =
      /** No unit symbol and no `/` at the cursor; `rest` is the unparsed remainder. */
    | NoUnitFound(rest: string)
      /** A custom unit had to be expanded with no depth left (the source recurses
          until Python's recursion limit stops it, e.g. on a cyclic definition). */
    | RecursionLimit(symbol: string)

  datatype Result<T> = Ok(value: T) | Err(failure: Failure)
}
