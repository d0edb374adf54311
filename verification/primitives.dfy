/** Fixed-width unsigned integers and the result type shared by the model.
    Rust's unsigned types are modelled as ranges of Dafny's unbounded `int`;
    every narrowing conversion in the model is written out explicitly. */
module Primitives {

  const U8_LIMIT: int := 0x100
  const U32_LIMIT: int := 0x1_0000_0000
  const U64_LIMIT: int := 0x1_0000_0000_0000_0000
  const U128_LIMIT: int := 0x1_0000_0000_0000_0000_0000_0000_0000_0000

  type u8 = x: int | 0 <= x < U8_LIMIT
  type u32 = x: int | 0 <= x < U32_LIMIT
  type u64 = x: int | 0 <= x < U64_LIMIT
  type u128 = x: int | 0 <= x < U128_LIMIT

  /** The mock runtime's account identifier and balance types are both `u128`. */
  type AccountId = u128
  type Balance = u128

  /** Rust's `Result<T, E>`. */
  datatype Result<+T, +E> = Ok(value: T) | Err(error: E)

  /** Rust's unit type `()`, used as the error of the key decoder and the
      success value of a transfer. */
  datatype Unit = Unit
}
