/** Types, and a constant, shared by several modules. */
module Common {
  datatype Option<+T> = None | Some(value: T)

  datatype Result<+T> = Ok(value: T) | Err(error: string)

  // How many writes of a transaction a session remembers (maxTrackedTxWrites).
  const MAX_TRACKED := 128

  predicate NoRepeats<T(==)>(l: seq<T>) { forall i, j :: 0 <= i < j < |l| ==> l[i] != l[j] }
}
