/** Optional values, results that carry an error, and the types shared by the modules. */
module Wrappers {
  datatype Option<+T> = None | Some(value: T)

  datatype Result<+T, +E> = Ok(value: T) | Err(error: E)

  type Byte = b: int | 0 <= b < 256

  type WorkspaceId = nat

  type NodeId = nat

  const U64_MAX: nat := 0xFFFF_FFFF_FFFF_FFFF

  /** The sum, but no more than the largest 64-bit integer. */
  function SaturatingAdd(a: nat, b: nat): nat {
    if a + b > U64_MAX then U64_MAX else a + b
  }

  /** One more, and zero again after the largest 64-bit integer. */
  function WrappingIncrement(a: nat): nat {
    (a + 1) % (U64_MAX + 1)
  }
}
