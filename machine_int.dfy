/** The fixed-width integer behaviour of C# that the decoders rely on:
    unchecked 32- and 64-bit wrap-around and `/`, which truncates toward zero. */
module MachineInt {

  const TWO_31: int := 0x8000_0000
  const TWO_32: int := 0x1_0000_0000
  const TWO_63: int := 0x8000_0000_0000_0000
  const TWO_64: int := 0x1_0000_0000_0000_0000

  /** The values of a C# `int`. */
  predicate IsInt32(x: int) { -TWO_31 <= x < TWO_31 }

  /** The values of a C# `long`. */
  predicate IsInt64(x: int) { -TWO_63 <= x < TWO_63 }

  /** The `int` that unchecked C# arithmetic yields for the exact value `x`. */
  function Wrap32(x: int): (r: int)
    ensures IsInt32(r)
    ensures (x - r) % TWO_32 == 0
    ensures IsInt32(x) ==> r == x
  {
    var m := x % TWO_32;
    if m < TWO_31 then m else m - TWO_32
  }

  /** The `long` that unchecked C# arithmetic yields for the exact value `x`. */
  function Wrap64(x: int): (r: int)
    ensures IsInt64(r)
    ensures (x - r) % TWO_64 == 0
    ensures IsInt64(x) ==> r == x
  {
    var m := x % TWO_64;
    if m < TWO_63 then m else m - TWO_64
  }

  /** C#'s integer division `a / b` for a positive divisor: the quotient is
      truncated toward zero, so the remainder takes the sign of `a`. */
  function Quot(a: int, b: int): (q: int)
    requires b > 0
    ensures a >= 0 ==> 0 <= a - q * b < b
    ensures a < 0 ==> -b < a - q * b <= 0
  {
    if a >= 0 then a / b else -((-a) / b)
  }

  /** Bitwise OR of two non-negative numbers, bit by bit from the lowest. */
  function BitOr(a: nat, b: nat): (r: nat)
    decreases a + b
  {
    if a == 0 then b
    else if b == 0 then a
    else 2 * BitOr(a / 2, b / 2) + (if a % 2 == 1 || b % 2 == 1 then 1 else 0)
  }

  /** The bit pattern of an `int`, read as an unsigned number. */
  function Unsigned32(x: int): (u: nat)
    requires IsInt32(x)
    ensures u < TWO_32
    ensures (u - x) % TWO_32 == 0
    ensures 0 <= x ==> u == x
  {
    if x < 0 then x + TWO_32 else x
  }

  /** C#'s `(x << 8) | y` on two `int`s: the shift drops the top eight bits of
      the two's complement pattern, the OR combines the patterns. */
  function ShiftOr8(x: int, y: int): (r: int)
    requires IsInt32(x) && IsInt32(y)
    ensures IsInt32(r)
  {
    Wrap32(BitOr(Unsigned32(Wrap32(x * 0x100)), Unsigned32(y)))
  }

  /** OR with a number shifted left by `k` places fills the freed low bits. */
  lemma {:induction false} BitOrLowBits(a: nat, y: nat, k: nat, p: nat)
    requires p == Pow2(k) && y < p
    ensures BitOr(a * p, y) == a * p + y
    decreases k
  {
    if k == 0 {
      assert y == 0;
      BitOrZero(a);
    } else if a == 0 || y == 0 {
      assert a * p == 0 || y == 0;
      if a != 0 { BitOrZero(a * p); }
    } else {
      var h := Pow2(k - 1);
      assert p == 2 * h;
      assert (a * p) / 2 == a * h && (a * p) % 2 == 0 by {
        assert a * p == 2 * (a * h);
      }
      BitOrLowBits(a, y / 2, k - 1, h);
    }
  }

  lemma BitOrZero(a: nat)
    ensures BitOr(a, 0) == a
  {
  }

  function Pow2(k: nat): (p: nat)
    ensures p >= 1
  {
    if k == 0 then 1 else 2 * Pow2(k - 1)
  }

  /** For a shift that stays inside the positive range and a right operand
      below 256, `(x << 8) | y` is `x * 256 + y`. */
  lemma ShiftOr8Arithmetic(x: int, y: int)
    requires 0 <= x < 0x80_0000 && 0 <= y < 0x100
    ensures ShiftOr8(x, y) == x * 0x100 + y
  {
    var shifted := x * 0x100;
    assert 0 <= shifted < TWO_31;
    assert Wrap32(shifted) == shifted;
    assert Unsigned32(shifted) == shifted && Unsigned32(y) == y;
    assert Pow2(8) == 0x100;
    BitOrLowBits(x, y, 8, 0x100);
    assert BitOr(shifted, y) == shifted + y;
    assert Wrap32(shifted + y) == shifted + y;
  }
}
