/** Optional values and results that carry an error code. */
module Wrappers {
  datatype Option<+T> = None | Some(value: T)

  /** The error codes the node returns from the operations modelled here. */
  datatype Code =
    | StreamEmpty | BadEvent | NoSnapshot | BadStreamId | BlockMismatch | MissingEvents | BadBlock
    | BadPrevHash | DuplicateEvent | InvalidArgument | StorageFailure | NotFound | BadAddress | WrongStreamType
    | BadCookie | NoInceptionEvent

  datatype Result<+T> = Ok(value: T) | Err(code: Code)
}
