/** What the other modules share. */
module Basics {
  datatype Option<+T> = None | Some(value: T)

  /** SHA-256, taken to be injective. */
  datatype Digest = Sha256(text: string)
}
