/** Values shared by every stage of the feature pipeline. */
module Common {

  /** A value that may be missing (pandas' NaN in a merged or aggregated column). */
  datatype Option<T> = None | Some(value: T)

  /** The exception a pandas or Python conversion raises; `literal` is the text it could not read. */
  datatype Error = ValueError(literal: string)

  /** The outcome of a step that either produces a value or raises. */
  datatype Result<T> = Ok(value: T) | Err(error: Error)
}
