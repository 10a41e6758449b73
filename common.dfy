/** Small shared vocabulary: optional values and bytes. */
module Common {

  /** A value that a loosely typed JSON payload may or may not carry. */
  datatype Option<+T> = None | Some(value: T)

  /** An octet, as held by a Node.js Buffer. */
  type Byte = b: int | 0 <= b < 256
}
