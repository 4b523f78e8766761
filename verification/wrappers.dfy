/** Result datatypes shared by the extraction and the comparison. */
module Wrappers {

  /** A value that may be missing; `None` is what a reader returns for text
      it does not recognise. */
  datatype Option<+T> = None | Some(value: T)

  /** Either a value or the error that ended the computation. */
  datatype Result<+R, +E> = Ok(value: R) | Err(error: E)
}
