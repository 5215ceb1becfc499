/** Option and Result values, and the Python exceptions the modelled code can raise. */
module Wrappers {

  datatype Option<+T> = None | Some(value: T)

  /** The exceptions of the modelled code that escape to its caller. */
  datatype Exception =
    | IndexError     // list / array index out of range
    | KeyError       // missing dictionary key
    | ValueError     // e.g. np.concatenate of an empty list
    | TypeError      // e.g. calling a string, or None where an array is needed
    | ZeroDivisionError
    | AssertionError  // a failed `assert` statement
    | IOError         // a file that cannot be opened (rasterio's RasterioIOError)

  /** Either the value a Python call returns, or the exception it raises. */
  datatype Result<+T> = Ok(value: T) | Raise(exc: Exception)
}
