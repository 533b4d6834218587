/** Small value types shared by the modules of the resort model. */
module Common {

  /** A Java reference that may be null, made explicit. */
  datatype Option<T> = None | Some(value: T)

  /**
   * What reading the data file finds: no file at all, a file that fails to
   * deserialize (any exception from the object stream), or the stored map.
   */
  datatype DataFile<T> = Missing | Unreadable | Readable(contents: map<string, T>)

  /**
   * The result of a table or dialog action: no row selected, a selected id
   * that is not in the map (the handler silently does nothing), a refusal
   * with its reason, a confirmation dialog answered "No", a dialog closed
   * without an action, or the change made (with whether the following write
   * of the data file succeeded). `R` is the type of the refusal reasons;
   * an action that never refuses uses `()`.
   */
  datatype Outcome<R> = NothingSelected | Ignored | Refused(reason: R) | Declined | Closed | Done(written: bool)
}
