/** Values shared by every panel: optional values and the two shapes a remote
    document-database call can end in. The database itself is not modelled;
    each remote call is reduced to the outcome the caller observes. */
module Common {

  /** A value that may be absent (`null` / a missing document in the source). */
  datatype Option<+T> = None | Some(value: T)

  /** Outcome of a remote write (`setDoc`, `updateDoc`, `deleteDoc`, `addDoc`):
      the awaited promise either resolves or rejects. */
  datatype WriteOutcome = Success | Failure

  /** Outcome of a remote single-document read (`getDoc`): the document
      exists, it does not exist, or the read rejects. */
  datatype FetchOutcome<+T> = Found(value: T) | Missing | FetchFailed
}
