/**
 * Machine-level value types, the option and result types, and zero-filled
 * byte sequences, shared by the rest of the model.
 */
module Common {

  const U32_LIMIT: int := 0x1_0000_0000
  const U64_LIMIT: int := 0x1_0000_0000_0000_0000
  /** `usize` is taken to be 64 bits wide. */
  const USIZE_LIMIT: int := U64_LIMIT

  type byte = x: int | 0 <= x < 256
  type u32 = x: int | 0 <= x < U32_LIMIT
  type u64 = x: int | 0 <= x < U64_LIMIT
  type usize = x: int | 0 <= x < USIZE_LIMIT

  datatype Option<+T> = None | Some(value: T)

  datatype Result<+R, +E> = Success(value: R) | Failure(error: E)

  /** The outcome of an operation that returns `Result<(), E>`. */
  datatype Outcome<+E> = Pass | Fail(error: E)

  /** `n` zero bytes, as a freshly allocated `vec![0u8; n]` holds. */
  function Zeros(n: nat): (r: seq<byte>)
    ensures |r| == n && forall i :: 0 <= i < n ==> r[i] == 0
  {
    seq(n, _ => 0)
  }
}
