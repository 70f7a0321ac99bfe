/** A value that may be absent: Java's `null`. */
module Optional {

  /**
   * The nullable `Character` that `getShapeIndex` takes for a neighbour, and
   * the result of looking a code unit up among the `case` labels.
   */
  datatype Option<T> = None | Some(value: T)
}
