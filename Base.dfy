/** Small shared datatypes: an optional value and the outcome of one call into
    the extension's key-value storage. */
module Base {

  /** A value that may be absent (the popup's `null` results). */
  datatype Option<T> = None | Some(value: T)

  /** Whether one storage call completed or threw. The storage itself is
      outside the model; only the outcome of each call is an input. */
  datatype StorageResult = StorageOk | StorageFailed
}
