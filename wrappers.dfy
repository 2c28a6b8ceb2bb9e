/** Optional values and setup results shared by the render nodes. */
module Wrappers {

  /** A lookup that may find nothing (the registry's `std::optional` results). */
  datatype Option<T> = None | Some(value: T)

  /** Why a node's construction phase aborted. */
  datatype SetupError =
    /** A named resource `(node, resourceLabel)` the node dereferences was never published. */
    | MissingResource(node: string, resourceLabel: string)

  /** The outcome of a construction phase: the captured frame data, or the fatal error. */
  datatype Result<T> = Success(value: T) | Failure(error: SetupError)
}
