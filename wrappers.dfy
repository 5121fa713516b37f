/** Result types and the Java exceptions the service throws. */
module Wrappers {

  /** A reference that may be null. */
  datatype Option<+T> = None | Some(value: T)

  /** A value, or the exception that aborted the computation of it. */
  datatype Result<+T, +E> = Success(value: T) | Failure(error: E)

  /** Completion of an operation that returns nothing (a Java `void`), or its exception. */
  datatype Outcome<+E> = Pass | Fail(error: E)
}

/** The unchecked exceptions thrown by the embedding service, with their messages. */
module Exceptions {

  datatype JavaException =
    | IllegalArgumentException(message: string)
    | IllegalStateException(message: string)

  const VECTOR_LENGTH_MESSAGE: string := "Vectors must be of the same length"
  const MISSING_EMBEDDING_MESSAGE: string := "Embedding not found in the response"
}
