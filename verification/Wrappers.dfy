/** The types that several parts share. */
module Wrappers {

  /** SQL's nullable columns and Python's None. */
  datatype Option<+T> = None | Some(value: T)

  /** A result, or an exception. */
  datatype Outcome<+T> = Ok(value: T) | Raised

  /** The hexadecimal form of a SHA-256 digest. */
  type HexDigest = s: string | |s| == 64 witness seq(64, _ => '0')
}
