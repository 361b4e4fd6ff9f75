/** Java integer semantics the emulator relies on: signed bytes, the
    narrowing `(byte)` cast, 32-bit wrap-around, truncating division and
    single-bit tests. Dafny integers are unbounded, so each of these is
    written out explicitly. */
module JavaInt {

  /** A Java `byte`: a signed 8-bit value. */
  type JByte = x: int | -128 <= x < 128

  const INT_MIN: int := -0x8000_0000
  const INT_MAX: int := 0x7fff_ffff

  /** A Java `int`. */
  type Int32 = x: int | INT_MIN <= x <= INT_MAX

  /** The narrowing cast `(byte) v`: keeps the low 8 bits, two's complement. */
  function ToByte(v: int): (b: JByte)
    ensures (b - v) % 256 == 0
  {
    (v + 128) % 256 - 128
  }

  /** `b & 0xff` for a byte promoted to `int`: its unsigned value. */
  function Unsigned(b: JByte): (r: int)
    ensures 0 <= r < 256
    ensures (r - b) % 256 == 0
  {
    if b < 0 then b + 256 else b
  }

  /** Truncating to a byte and reading it back unsigned is `v & 0xff`.
      (Dafny's `%` is Euclidean, which agrees with the two's complement low
      bits for negative `v` too.) */
  lemma UnsignedToByte(v: int)
    ensures Unsigned(ToByte(v)) == v % 256
  {
  }

  /** A value already in unsigned byte range survives the cast. */
  lemma ToByteUnsigned(b: JByte)
    ensures ToByte(Unsigned(b)) == b
  {
  }

  /** Java 32-bit `int` arithmetic wraps modulo 2^32. */
  function Wrap32(x: int): (r: Int32)
    ensures (r - x) % 0x1_0000_0000 == 0
    ensures INT_MIN <= x <= INT_MAX ==> r == x
  {
    (x + 0x8000_0000) % 0x1_0000_0000 - 0x8000_0000
  }

  /** `(x & weight) != 0` for a single-bit mask `weight` = 2^k: bit k of the
      two's complement representation of `x`. */
  predicate HasBit(x: int, weight: nat)
    requires weight > 0
  {
    (x / weight) % 2 == 1
  }

  function Abs(x: int): int { if x < 0 then -x else x }

  /** Java's `/` on `int`/`long`: rounds toward zero (Dafny's `/` is
      Euclidean). */
  function TDiv(a: int, b: int): (q: int)
    requires b != 0
    ensures a >= 0 ==> 0 <= a - q * b < Abs(b)
    ensures a < 0 ==> -Abs(b) < a - q * b <= 0
  {
    if a >= 0 then a / b
    else if b > 0 then -((-a) / b)
    else (-a) / (-b)
  }
}
