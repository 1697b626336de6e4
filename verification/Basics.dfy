/** Types shared by every component: bytes, digests, paths and options. */
module Basics {
  newtype byte = x: int | 0 <= x < 256

  type Bytes = seq<byte>
  type Digest = string
  type Path = string

  /** SHA-256 is a parameter of every model that hashes; nothing is assumed about it. */
  type Hash = Bytes -> Digest

  datatype Option<+T> = None | Some(value: T)
}
