/** Vocabulary shared by all modules: optional values and hashes. */
module Wrappers {
  /** A value that may be absent: the model of a pointer that may be NULL. */
  datatype Option<+T> = None | Some(value: T)

  /** A 256-bit hash, read as a number; zero is the `UINT256_ZERO` of the source. */
  type Hash = nat
}
