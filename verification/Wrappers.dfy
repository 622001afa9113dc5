/** Option, Result and the byte type shared by every other module. */
module Wrappers {

  newtype byte = x: int | 0 <= x < 256

  datatype Option<+T> = None | Some(value: T) {
    function GetOr(default: T): T {
      match this
      case Some(v) => v
      case None => default
    }
  }

  /** The kinds of `CloudError` that the modelled code can return. */
  datatype Error = InvalidArgument | Corrupt | Io

  datatype Result<+T> = Ok(value: T) | Err(error: Error)

  function Min(a: nat, b: nat): nat { if a <= b then a else b }

  function Max(a: nat, b: nat): nat { if a <= b then b else a }

  /** `u64::saturating_sub`. */
  function SaturatingSub(a: nat, b: nat): nat { if b <= a then a - b else 0 }

  function Zeroes(n: nat): (z: seq<byte>) { seq(n, _ => 0 as byte) }
}
