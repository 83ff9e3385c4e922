/** Vocabulary shared by the moderation model. */
module Common {
  /** A MongoDB ObjectId (of a user, a freet or a stored document); the model only compares them. */
  type Id = string

  datatype Option<T> = None | Some(value: T)

  /** The outcome of an operation that dereferences a lookup result without checking it for null:
      its value, or the TypeError thrown when reading or assigning `property` of null. */
  datatype Result<T> = Ok(value: T) | Crash(property: string)
}
