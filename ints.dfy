/** Fixed-width machine integers of the Rust sources, as subsets of `int`. */
module Ints {

  const U8_LIMIT: int := 0x100
  const U16_LIMIT: int := 0x1_0000
  const U32_LIMIT: int := 0x1_0000_0000
  const U64_LIMIT: int := 0x1_0000_0000_0000_0000
  const I64_MAX: int := 0x7FFF_FFFF_FFFF_FFFF

  type U8 = x: int | 0 <= x < U8_LIMIT
  type U16 = x: int | 0 <= x < U16_LIMIT
  type U32 = x: int | 0 <= x < U32_LIMIT
  type U64 = x: int | 0 <= x < U64_LIMIT
  type I16 = x: int | -0x8000 <= x < 0x8000

  /** A byte of a buffer or of a card block. */
  type Byte = U8

  /** `a.abs_diff(b)` on unsigned integers: the distance between two values. */
  function AbsDiff(a: int, b: int): (d: nat)
    ensures a + d == b || b + d == a
  {
    if a >= b then a - b else b - a
  }

  /** `x.unsigned_abs()`: the magnitude of a signed value, computed without overflow. */
  function UnsignedAbs(x: int): (r: nat)
    ensures r == x || r == -x
  {
    if x < 0 then -x else x
  }

  /** Multiplying a natural by a positive factor never makes it smaller. */
  lemma MulAtLeast(a: nat, b: int)
    requires b >= 1
    ensures a <= a * b
  {
    assert a * b == a * (b - 1) + a;
  }

  /** Euclidean division of a natural: the quotient times the divisor is at most the dividend, and one more is too much. */
  lemma DivFloor(a: nat, b: int)
    requires b >= 1
    ensures (a / b) * b <= a < (a / b + 1) * b
  {
    assert a == (a / b) * b + a % b;
    assert (a / b + 1) * b == (a / b) * b + b;
  }

  /** Multiplication by a natural preserves order. */
  lemma MulMono(a: int, b: int, c: nat)
    requires a <= b
    ensures a * c <= b * c
  {
    assert b * c - a * c == (b - a) * c;
  }

  /** `x as u8`: truncation to the low eight bits. */
  function TruncU8(x: int): (r: U8)
    ensures (x - r) % U8_LIMIT == 0
    ensures 0 <= x < U8_LIMIT ==> r == x
  {
    x % U8_LIMIT
  }

  /** `x as u16`: truncation to the low sixteen bits. */
  function TruncU16(x: int): (r: U16)
    ensures (x - r) % U16_LIMIT == 0
    ensures 0 <= x < U16_LIMIT ==> r == x
  {
    x % U16_LIMIT
  }

  /** `x as u64` for a signed 64-bit value: two's-complement reinterpretation. */
  function WrapU64(x: int): (r: U64)
    ensures (x - r) % U64_LIMIT == 0
    ensures 0 <= x < U64_LIMIT ==> r == x
  {
    x % U64_LIMIT
  }
}

/** An optional value, for the operations that may have nothing to return. */
module Wrappers {
  datatype Option<T> = None | Some(value: T)
}
