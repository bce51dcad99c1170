/** 32-bit integers, with the wrap-around and the signed/unsigned conversions
    of the C++ code written out. */
module Uint32 {

  const LIMIT := 0x1_0000_0000

  type uint32 = n: int | 0 <= n < LIMIT
  type int32 = n: int | -0x8000_0000 <= n < 0x8000_0000

  /** `uint32_t` passed where an `int` is expected. */
  function ToSigned(n: uint32): (i: int32) {
    if n < 0x8000_0000 then n else n - LIMIT
  }

  /** `int` stored in a `uint32_t`. */
  function ToUnsigned(i: int32): (n: uint32) {
    if i < 0 then i + LIMIT else i
  }

  /** `n += 1` on a `uint32_t`. */
  function Next(n: uint32): (m: uint32) {
    if n == LIMIT - 1 then 0 else n + 1
  }

  /** The counter that has been incremented to the unbounded value `height`. */
  function Wrap(height: nat): (m: uint32) {
    height % LIMIT
  }

  lemma NextWrap(height: nat)
    ensures Next(Wrap(height)) == Wrap(height + 1)
  {
  }

  /** Counters agree exactly when they are a multiple of 2^32 apart. */
  lemma WrapsAlike(a: nat, b: nat)
    ensures Wrap(a) == Wrap(b) <==> (b - a) % LIMIT == 0
    ensures a < b < a + LIMIT ==> Wrap(a) != Wrap(b)
  {
  }
}
