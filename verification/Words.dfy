/** 64-bit integers, signed and unsigned, and their wrap-around. */
module Words {
  const TWO_64: int := 0x1_0000_0000_0000_0000
  const INT64_END: int := 0x8000_0000_0000_0000

  predicate IsInt64(z: int) {
    -INT64_END <= z < INT64_END
  }

  type Int64 = z: int | IsInt64(z)

  type U64 = x: int | 0 <= x < TWO_64

  /** A sum as two's complement arithmetic leaves it in 64 bits. */
  function WrapInt64(z: int): Int64 {
    (z + INT64_END) % TWO_64 - INT64_END
  }

  lemma WrapOver(z: int)
    requires INT64_END <= z < INT64_END + TWO_64
    ensures WrapInt64(z) == z - TWO_64
  {
    assert (z + INT64_END) / TWO_64 == 1;
  }

  function WrapU64(x: int): U64 {
    x % TWO_64
  }
}
