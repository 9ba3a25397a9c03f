/** Machine integers, byte strings and the fixed-size types shared by every component. */
module Primitives {

  const U64_LIMIT: int := 0x1_0000_0000_0000_0000
  const U128_LIMIT: int := 0x1_0000_0000_0000_0000_0000_0000_0000_0000

  type byte = x: int | 0 <= x < 256
  type nibble = x: int | 0 <= x < 16
  type u64 = x: int | 0 <= x < U64_LIMIT
  type u128 = x: int | 0 <= x < U128_LIMIT

  type ByteString = seq<byte>

  function Zeros(n: nat): (s: ByteString)
    ensures |s| == n && forall i :: 0 <= i < n ==> s[i] == 0
  {
    seq(n, _ => 0)
  }

  type B256 = s: ByteString | |s| == 32 witness Zeros(32)
  type Address = s: ByteString | |s| == 20 witness Zeros(20)

  /** The hash function is a parameter of every theorem: nothing is assumed about it. */
  type Keccak = ByteString -> B256

  datatype Option<+T> = None | Some(value: T)

  datatype Result<+T, +E> = Ok(value: T) | Err(error: E) {
    predicate IsFailure() { Err? }

    function PropagateFailure<U>(): Result<U, E>
      requires Err?
    {
      Err(error)
    }

    function Extract(): T
      requires Ok?
    {
      value
    }
  }
}
