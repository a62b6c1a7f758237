/** Optional values and results with an error, used wherever the plate model can fail. */
module Wrappers {

  datatype Option<+T> = None | Some(value: T)

  /** The outcome of an operation that either produces a value or raises an error. */
  datatype Result<+T, +E> = Ok(value: T) | Err(error: E)
}

/**
 * The errors the plate model raises. The names follow the Python exceptions
 * the code raises, either its own (NotEnoughWellsException, WellNotFreeException)
 * or the built-in ones raised by dictionary and list operations.
 */
module PlateExceptions {

  datatype PlateError =
    | KeyError            // a label that is not a well of the plate
    | TypeError           // something other than a sample or None assigned to a well
    | IndexError          // a list index or field index out of range
    | ValueError          // list.index / str.index found nothing, or int() could not parse
    | NotEnoughWells(requested: int, available: int)
    | WellNotFree(well: string)
}
