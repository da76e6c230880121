/** Shared value types and the machine arithmetic used across the model. */
module Common {

  type Byte = x: int | 0 <= x < 256
  type Bytes = seq<Byte>

  const TWO32: int := 0x1_0000_0000
  const TWO64: int := 0x1_0000_0000_0000_0000

  type U32 = x: int | 0 <= x < 0x1_0000_0000
  type U64 = x: int | 0 <= x < 0x1_0000_0000_0000_0000

  datatype Option<+T> = None | Some(value: T)

  datatype Result<+T, +E> = Ok(value: T) | Err(error: E)

  function Min(a: int, b: int): int {
    if a <= b then a else b
  }

  function Max(a: int, b: int): int {
    if a <= b then b else a
  }

  /** u64::saturating_add */
  function SatAdd(a: nat, b: nat): nat {
    Min(a + b, TWO64 - 1)
  }

  /** u64::saturating_sub */
  function SatSub(a: nat, b: nat): nat {
    if a < b then 0 else a - b
  }
}
