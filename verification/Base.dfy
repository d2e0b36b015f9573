/** Machine integers, their casts, and the two result types shared by every module. */
module Base {

  const TWO_31: int := 0x8000_0000
  const TWO_32: int := 0x1_0000_0000
  const TWO_63: int := 0x8000_0000_0000_0000
  const TWO_64: int := 0x1_0000_0000_0000_0000

  type byte = x: int | 0 <= x < 256
  type u32 = x: int | 0 <= x < 0x1_0000_0000
  type u64 = x: int | 0 <= x < 0x1_0000_0000_0000_0000
  type i32 = x: int | -0x8000_0000 <= x < 0x8000_0000
  type i64 = x: int | -0x8000_0000_0000_0000 <= x < 0x8000_0000_0000_0000

  datatype Option<+T> = None | Some(value: T)

  datatype Result<+T, +E> = Ok(value: T) | Err(error: E)

  /** `v as i64` for an unsigned 64-bit value: the upper half wraps to the negatives. */
  function U64AsI64(v: u64): i64 {
    if v < TWO_63 then v else v - TWO_64
  }

  /** `v as i32` for an unsigned 32-bit value. */
  function U32AsI32(v: u32): i32 {
    if v < TWO_31 then v else v - TWO_32
  }

  /**
   * Both casts are two's complement: the result differs from the value by a multiple of the word size, and
   * values with a clear top bit keep theirs.  The result ranges leave no other choice.
   */
  lemma CastsAreTwosComplement(v: u64, w: u32)
    ensures (v - U64AsI64(v)) % 0x1_0000_0000_0000_0000 == 0
    ensures -0x8000_0000_0000_0000 <= U64AsI64(v) < 0x8000_0000_0000_0000
    ensures v < 0x8000_0000_0000_0000 ==> U64AsI64(v) == v
    ensures (w - U32AsI32(w)) % 0x1_0000_0000 == 0
    ensures -0x8000_0000 <= U32AsI32(w) < 0x8000_0000
    ensures w < 0x8000_0000 ==> U32AsI32(w) == w
  {
  }

  /** Both casts lose nothing, so distinct on-chain ids never share a row key. */
  lemma CastsAreInjective()
    ensures forall a: u64, b: u64 :: U64AsI64(a) == U64AsI64(b) ==> a == b
    ensures forall a: u32, b: u32 :: U32AsI32(a) == U32AsI32(b) ==> a == b
  {
  }

  /** Counting one more index. */
  lemma CountGrows<T>(all: set<T>, before: set<T>, n: T, hit: bool)
    requires n !in before && forall i :: i in all <==> i in before || (i == n && hit)
    ensures |all| == |before| + (if hit then 1 else 0)
  {
    if hit {
      assert all == before + {n};
    } else {
      assert all == before;
    }
  }
}
