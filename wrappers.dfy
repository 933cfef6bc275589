/** Option and Result, the two failure-carrying shapes the model uses for the
    source's `Option<T>` and `Result<T, E>` returns. */
module Wrappers {

  datatype Option<+T> = None | Some(value: T)

  datatype Result<+T, +E> = Ok(value: T) | Err(error: E) {
    /** The members that let `:-` propagate an `Err`, as Rust's `?` does. */
    predicate IsFailure() { Err? }

    function PropagateFailure<U>(): Result<U, E>
      requires Err?
    {
      Err(error)
    }

    function Extract(): T
      requires Ok?
    {
      value
    }
  }

  /** Fixed-width integer domains of the source (`i8`, `i16`, `i32`, `u16`). */
  type byte = x: int | 0 <= x < 0x100
  type i8 = x: int | -128 <= x < 128
  type i16 = x: int | -0x8000 <= x < 0x8000
  type i32 = x: int | -0x8000_0000 <= x < 0x8000_0000
  type u16 = x: int | 0 <= x < 0x1_0000
  type u32 = x: int | 0 <= x < 0x1_0000_0000

  /** Rust's `as i16` on a length: the low 16 bits read as two's
      complement. */
  function WrapI16(n: nat): (r: i16)
    ensures n < 0x8000 ==> r == n
    ensures (n - r) % 0x1_0000 == 0
  {
    var m := n % 0x1_0000;
    if m < 0x8000 then m else m - 0x1_0000
  }

  /** Rust's `as i32` on a length: the low 32 bits read as two's
      complement. */
  function WrapI32(n: nat): (r: i32)
    ensures n < 0x8000_0000 ==> r == n
    ensures (n - r) % 0x1_0000_0000 == 0
  {
    var m := n % 0x1_0000_0000;
    if m < 0x8000_0000 then m else m - 0x1_0000_0000
  }

  /** `n` copies of `x`. */
  function Repeat<T>(x: T, n: nat): (r: seq<T>)
    ensures |r| == n
    ensures forall i :: 0 <= i < n ==> r[i] == x
  {
    if n == 0 then [] else [x] + Repeat(x, n - 1)
  }
}
