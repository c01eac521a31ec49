/** The C integer behaviour the decoders rely on: 32-bit `int`, the `(short)`
    narrowing, truncating `/` and `%`, and the bit pattern of an `int`. */
module MachineInt {

  const TWO_32: int := 0x1_0000_0000
  const TWO_16: int := 0x1_0000

  type Int32 = x: int | -0x8000_0000 <= x < 0x8000_0000
  type Int16 = x: int | -0x8000 <= x < 0x8000
  type UInt16 = x: int | 0 <= x < 0x1_0000

  function Abs(x: int): nat {
    if x < 0 then -x else x
  }

  /** A mathematical integer wrapped to 32-bit two's complement: what an `int`
      expression that overflows yields on the usual targets. */
  function Wrap32(x: int): (r: Int32)
    ensures (x - r) % TWO_32 == 0
    ensures -0x8000_0000 <= x < 0x8000_0000 ==> r == x
  {
    var m := x % TWO_32;
    if m >= 0x8000_0000 then m - TWO_32 else m
  }

  /** C's `(short)` conversion: the value modulo 2^16, read as signed. */
  function ToShort(x: int): (r: Int16)
    ensures (x - r) % TWO_16 == 0
    ensures -0x8000 <= x < 0x8000 ==> r == x
  {
    var m := x % TWO_16;
    if m >= 0x8000 then m - TWO_16 else m
  }

  /** C's `/` on integers: the quotient truncated toward zero. */
  function CDiv(a: int, b: int): int
    requires b != 0
  {
    var q := Abs(a) / Abs(b);
    if (a < 0) == (b < 0) then q else -q
  }

  /** C's `%` on integers: the remainder that goes with `CDiv`. Together the
      three ensures are the rule of the C standard (section 6.5.5 of ISO C99):
      `(a/b)*b + a%b == a`, the remainder smaller than the divisor, and of
      the dividend's sign. */
  function CRem(a: int, b: int): (r: int)
    requires b != 0
    ensures CDiv(a, b) * b + r == a
    ensures Abs(r) < Abs(b)
    ensures r == 0 || (r < 0 <==> a < 0)
  {
    var q := Abs(a) / Abs(b);
    var m := Abs(a) % Abs(b);
    assert Abs(a) == q * Abs(b) + m;
    if a < 0 then -m else m
  }

  /** For a non-negative dividend and a positive divisor, C's operators are
      Dafny's. */
  lemma CDivRemNonNegative(a: int, b: int)
    requires a >= 0 && b > 0
    ensures CDiv(a, b) == a / b && CRem(a, b) == a % b
  {
  }

  /** The 32-bit two's-complement pattern of an integer, as C's bitwise
      operators see an `int`. */
  function Bits32(x: int): bv32 {
    (x % TWO_32) as bv32
  }

  /** A value C's `int` can hold without wrapping keeps its bits. */
  lemma Bits32InRange(x: int)
    requires 0 <= x < TWO_32
    ensures Bits32(x) == x as bv32
  {
  }
}
