/** Small helper datatypes shared by every module of the model. */
module Wrappers {

  /** Stands for a Java reference that may be null. */
  datatype Option<+T> = None | Some(value: T)

  /**
   * What a catch-and-print constructor of the source produces: the object,
   * built from its arguments whatever they are, together with the message it
   * printed (the first check that failed), if any.
   */
  datatype Built<+T, +E> = Built(obj: T, printed: Option<E>)
}
