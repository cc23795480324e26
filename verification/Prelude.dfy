/** Types shared by every component: ids, vectors, errors and the usual Option. */
module Prelude {

  /** An externally supplied record id (the `VectorId` newtype). */
  type Id = nat

  function Pow2(e: int): (p: real)
    ensures p > 0.0
    decreases if e >= 0 then e else -e
  {
    if e == 0 then 1.0 else if e > 0 then 2.0 * Pow2(e - 1) else Pow2(e + 1) / 2.0
  }

  /** `m` scaled by a power of two. */
  ghost predicate Scaled(x: real, m: int, e: int) { x == m as real * Pow2(e) }

  /** A finite binary floating-point value: a significand below `limit`, an exponent within bounds. */
  ghost predicate Binary(x: real, limit: int, lo: int, hi: int) {
    exists m: int, e: int :: -limit < m < limit && lo <= e <= hi && Scaled(x, m, e)
  }

  /** The values of `f32` and `f64`, apart from NaN and the infinities; the two zeros are one. */
  ghost predicate IsSingle(x: real) { Binary(x, 0x100_0000, -149, 104) }

  ghost predicate IsDouble(x: real) { Binary(x, 0x20_0000_0000_0000, -1074, 971) }

  /** Small integers are among both. */
  lemma SmallIsFloat(m: int)
    requires -0x100_0000 < m < 0x100_0000
    ensures IsSingle(m as real) && IsDouble(m as real)
  {
    assert Scaled(m as real, m, 0);
  }

  type Single = x: real | IsSingle(x) witness (SmallIsFloat(0); 0.0)

  type Double = x: real | IsDouble(x) witness (SmallIsFloat(0); 0.0)

  /** A vector as clients send it and the store keeps it. */
  type Floats = seq<Single>

  /** A vector to compute with: rounding is not modelled. */
  type Vector = seq<real>

  datatype Option<+T> = None | Some(value: T)

  /** What the index operations answer. */
  datatype Status = Ok | DimensionMismatch | DuplicateId | NotFound

  function Min(a: int, b: int): int { if a <= b then a else b }

  function Max(a: int, b: int): int { if a <= b then b else a }

  lemma Regroup<T>(a: seq<T>, b: seq<T>, c: seq<T>)
    ensures a + (b + c) == a + b + c
  {
  }

  /** The first `n` elements, or all of them when there are fewer. */
  function Take<T>(s: seq<T>, n: nat): seq<T> { if n <= |s| then s[..n] else s }
}
