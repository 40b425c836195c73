// 32-bit signed integers as C# `int` has them: `+ - *` wrap around
// (unchecked context, the compiler default) and `/` truncates toward zero.
module Int32 {

  const Modulus: int := 0x1_0000_0000
  const Min: int := -0x8000_0000
  const Max: int := 0x7fff_ffff

  newtype int32 = x: int | -0x8000_0000 <= x < 0x8000_0000

  /** The int32 congruent to x modulo 2^32: what an unchecked C# operation keeps. */
  function Wrap(x: int): (r: int32)
    ensures Min <= x <= Max ==> r as int == x
    ensures (x - r as int) % Modulus == 0
  {
    WrapCongruent(x);
    ((x - Min) % Modulus + Min) as int32
  }

  lemma WrapCongruent(x: int)
    ensures (x - ((x - Min) % Modulus + Min)) % Modulus == 0
  {
    var q := (x - Min) / Modulus;
    assert x - ((x - Min) % Modulus + Min) == q * Modulus;
  }

  function Add(a: int32, b: int32): int32 { Wrap(a as int + b as int) }
  function Sub(a: int32, b: int32): int32 { Wrap(a as int - b as int) }
  function Mul(a: int32, b: int32): int32 { Wrap(a as int * b as int) }

  /** Whether C# `a / b` throws: division by zero, or MinValue / -1 overflowing. */
  predicate DivFails(a: int32, b: int32) {
    b == 0 || (a as int == Min && b == -1)
  }

  function Abs(x: int): nat { if x < 0 then -x else x }

  /** C# integer division: the quotient truncated toward zero. */
  function Div(a: int32, b: int32): (q: int32)
    requires !DivFails(a, b)
  {
    var m := Abs(a as int) / Abs(b as int);
    DivBound(a as int, b as int);
    (if (a < 0) != (b < 0) then -m else m) as int32
  }

  lemma DivBound(a: int, b: int)
    requires Min <= a <= Max && Min <= b <= Max && b != 0 && !(a == Min && b == -1)
    ensures var m := Abs(a) / Abs(b);
            Min <= (if (a < 0) != (b < 0) then -m else m) <= Max
  {
    if Abs(b) == 1 {
      assert Abs(a) / Abs(b) == Abs(a);
    } else {
      DivShrinks(Abs(a), Abs(b));
    }
  }

  lemma DivShrinks(x: nat, y: nat)
    requires y >= 2
    ensures x / y <= x / 2
  {
    var q := x / y;
    assert q * y <= x;
    assert q * 2 <= q * y;
  }

  /** The truncated quotient leaves a remainder smaller than the divisor
    * and carrying the dividend's sign, which is how C# defines `/` and `%`. */
  lemma {:induction false} DivTruncates(a: int32, b: int32)
    requires !DivFails(a, b)
    ensures var r := a as int - (Div(a, b) as int) * (b as int);
            Abs(r) < Abs(b as int) && (r == 0 || (r < 0 <==> a < 0))
  {
    var m := Abs(a as int) / Abs(b as int);
    var rem := Abs(a as int) % Abs(b as int);
    assert Abs(a as int) == m * Abs(b as int) + rem;
    if a < 0 && b < 0 {
      assert a as int - m * (b as int) == -rem;
    } else if a < 0 {
      assert a as int - (-m) * (b as int) == -rem;
    } else if b < 0 {
      assert a as int - (-m) * (b as int) == rem;
    } else {
      assert a as int - m * (b as int) == rem;
    }
  }
}
