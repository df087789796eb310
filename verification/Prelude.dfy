/** Optional values and results, shared by every module. */
module Prelude {
  datatype Option<+T> = None | Some(value: T)

  datatype Result<+T, +E> = Success(value: T) | Failure(error: E)

  /** A field of an update request: left out, or given (possibly as an explicit null). */
  datatype Field<+T> = Absent | Given(value: T)

  /**
   * SHA-256 of a text. The digest is represented by its pre-image, which is the
   * assumption that no two texts used as keys have the same hash.
   */
  datatype Digest = Sha256(preimage: string)
}
