/** Optional values and the outcomes of operations that can fail. */
module Wrappers {

  datatype Option<+T> = None | Some(value: T) {
    function GetOr(default: T): T {
      match this
      case Some(v) => v
      case None => default
    }
  }

  /** The failures the modelled operations can raise. */
  datatype Error =
    | NotFound              // a document update addressed a document that does not exist
    | InvalidArgument       // the SDK refused the call before sending it (bad document or field path, undefined value)
    | InviteCodeNotFound    // joinByInvite found no household with that code
    | StoreFailure(message: string)  // a failure of the document store itself

  datatype Result<+T> = Ok(value: T) | Err(error: Error)
}
