/** Signed fixed-point numbers with 20 bits, 8 of them fractional, and vectors of them.
  * Every operation is total: a result outside the 20 bits wraps around, as the hardware's
  * bit masks do.
  */
module FixedPoint {

  type Fixed = x: int | -0x80000 <= x < 0x80000
  type I16 = x: int | -0x8000 <= x < 0x8000

  const MAX: Fixed := 0x7FFFF
  const ZERO: Fixed := 0
  const ONE: Fixed := 0x100

  /** Keeps the low 20 bits of `x`, read as a two's complement number. */
  function Wrap(x: int): Fixed {
    (x + 0x80000) % 0x100000 - 0x80000
  }

  /** Keeps the low 16 bits of `x`, read as a two's complement number. */
  function Wrap16(x: int): I16 {
    (x + 0x8000) % 0x10000 - 0x8000
  }

  /** Wrapping changes a number by a multiple of 2 to the power of the width, and not at all if it fits. */
  lemma WrapIsCongruent(x: int)
    ensures (Wrap(x) - x) % 0x100000 == 0 && (Wrap16(x) - x) % 0x10000 == 0
    ensures -0x80000 <= x < 0x80000 ==> Wrap(x) == x
    ensures -0x8000 <= x < 0x8000 ==> Wrap16(x) == x
  {
  }

  lemma WrapIs(x: int, r: Fixed, k: int)
    requires x == r + k * 0x100000
    ensures Wrap(x) == r
  {
    assert (r + 0x80000 + k * 0x100000) % 0x100000 == r + 0x80000;
  }

  lemma Unwrapped(x: int) returns (k: int)
    ensures x == Wrap(x) + k * 0x100000
  {
    k := (x + 0x80000) / 0x100000;
  }

  /** So wrapping may be put off. */
  lemma WrapLater(x: int, y: int)
    ensures Wrap(x + Wrap(y)) == Wrap(x + y) && Wrap(x - Wrap(y)) == Wrap(x - y)
  {
    var k := Unwrapped(y);
    var i := Unwrapped(x + y);
    var j := Unwrapped(x - y);
    WrapIs(x + Wrap(y), Wrap(x + y), i - k);
    WrapIs(x - Wrap(y), Wrap(x - y), j + k);
  }

  lemma WrapOnce(x: int, y: int)
    ensures Wrap(Wrap(x) + Wrap(y)) == Wrap(x + y) && Wrap(Wrap(x) - Wrap(y)) == Wrap(x - y)
  {
    var k := Unwrapped(x);
    var i := Unwrapped(x + Wrap(y));
    var j := Unwrapped(x - Wrap(y));
    WrapLater(x, y);
    WrapIs(Wrap(x) + Wrap(y), Wrap(x + y), i - k);
    WrapIs(Wrap(x) - Wrap(y), Wrap(x - y), j - k);
  }

  function Add(a: Fixed, b: Fixed): Fixed { Wrap(a + b) }

  function Sub(a: Fixed, b: Fixed): Fixed { Wrap(a - b) }

  function Neg(a: Fixed): Fixed { Wrap(0 - a) }

  function Abs(a: Fixed): Fixed { if a < 0 then Neg(a) else a }

  /** The full product shifted right by the fractional bits; the shift rounds down. */
  function Mul(a: Fixed, b: Fixed): Fixed { Wrap(a * b / 0x100) }

  lemma MulByOne(a: Fixed)
    ensures Mul(a, ONE) == Mul(ONE, a) == a
  {
  }

  lemma FourTerms(a: int, b: int, c: int, d: int)
    ensures Sub(Add(Add(Wrap(a), Wrap(b)), Wrap(c)), Wrap(d)) == Wrap(a + b + c - d)
  {
    WrapOnce(a, b);
    WrapOnce(a + b, c);
    WrapOnce(a + b + c, d);
  }

  lemma FourDifferences(a: int, b: int, c: int, d: int)
    ensures Add(Sub(Sub(Wrap(a), Wrap(b)), Wrap(c)), Wrap(d)) == Wrap(a - b - c + d)
  {
    WrapOnce(a, b);
    WrapOnce(a - b, c);
    WrapOnce(a - b - c, d);
  }

  lemma Fits(a: Fixed)
    ensures Wrap(a) == a
  {
  }

  /** A product that fits is the exact one rounded down. */
  lemma MulRoundsDown(a: Fixed, b: Fixed)
    requires -0x80000 * 0x100 <= a * b < 0x80000 * 0x100
    ensures Mul(a, b) * 0x100 <= a * b < Mul(a, b) * 0x100 + 0x100
  {
  }

  function FromInt(n: I16): Fixed { Wrap(n * 0x100) }

  function Floor(a: Fixed): I16 { a / 0x100 }

  lemma ZeroIsNeutral(a: Fixed)
    ensures Add(a, 0) == a == Add(0, a) && Mul(0, a) == 0 == Mul(a, 0)
  {
    WrapIs(a, a, 0);
  }

  lemma MulByWhole(a: Fixed, n: I16)
    requires -0x800 <= n < 0x800
    ensures Mul(a, FromInt(n)) == Mul(FromInt(n), a) == Wrap(a * n)
  {
    assert FromInt(n) == 0x100 * n;
    assert a * (0x100 * n) == 0x100 * (a * n) == (0x100 * n) * a;
  }

  lemma FloorOfWrapped(x: int)
    ensures Floor(Wrap(x)) % 0x100 == x / 0x100 % 0x100
  {
    var k := Unwrapped(x);
    assert x / 0x100 == Wrap(x) / 0x100 + k * 0x1000;
    assert (Wrap(x) / 0x100 + (k * 0x10) * 0x100) % 0x100 == Wrap(x) / 0x100 % 0x100;
  }

  /** The floor is the whole number at or below; whole numbers of up to 12 bits are exact. */
  lemma FloorIsBelow(a: Fixed, n: I16)
    ensures FromInt(Floor(a)) <= a < FromInt(Floor(a)) + 0x100
    ensures -0x800 <= n < 0x800 ==> FromInt(n) == 0x100 * n && Floor(FromInt(n)) == n
  {
  }

  /** The two operations that the original computes from lookup tables built with floating
    * point. Every result about rays holds for every choice of them.
    */
  datatype Tables = Tables(invSqrt: Fixed -> Fixed, recip: Fixed -> Fixed)

  datatype Vec3i = Vec3i(x: I16, y: I16, z: I16)

  datatype Vec3 = Vec3(x: Fixed, y: Fixed, z: Fixed) {

    function Plus(v: Vec3): Vec3 { Vec3(Add(x, v.x), Add(y, v.y), Add(z, v.z)) }

    function Minus(v: Vec3): Vec3 { Vec3(Sub(x, v.x), Sub(y, v.y), Sub(z, v.z)) }

    function Negated(): Vec3 { Vec3(Neg(x), Neg(y), Neg(z)) }

    function Scale(k: Fixed): Vec3 { Vec3(Mul(x, k), Mul(y, k), Mul(z, k)) }

    function Dot(v: Vec3): Fixed { Add(Add(Mul(x, v.x), Mul(y, v.y)), Mul(z, v.z)) }

    function Cross(v: Vec3): Vec3 {
      Vec3(Sub(Mul(y, v.z), Mul(z, v.y)),
           Sub(Mul(z, v.x), Mul(x, v.z)),
           Sub(Mul(x, v.y), Mul(y, v.x)))
    }

    function Normalized(tab: Tables): Vec3 { Scale(tab.invSqrt(Dot(this))) }

    function FloorAll(): Vec3i { Vec3i(Floor(x), Floor(y), Floor(z)) }
  }

  lemma ScaleByOne(v: Vec3)
    ensures v.Scale(ONE) == v
  {
    MulByOne(v.x);
    MulByOne(v.y);
    MulByOne(v.z);
  }

  const UP := Vec3(0, ONE, 0)
  const RIGHT := Vec3(ONE, 0, 0)
  const FORWARD := Vec3(0, 0, ONE)
  const ORIGIN := Vec3(0, 0, 0)
  const ORIGIN_I := Vec3i(0, 0, 0)

  /** A product, rounded down and not wrapped. */
  function Floored(a: Fixed, b: Fixed): int { a * b / 0x100 }

  lemma DifferenceWrapsOnce(a: Fixed, b: Fixed, c: Fixed, d: Fixed)
    ensures Sub(Mul(a, b), Mul(c, d)) == Wrap(Floored(a, b) - Floored(c, d))
  {
    WrapOnce(Floored(a, b), Floored(c, d));
  }

  lemma SumWrapsOnce(a: int, b: int, c: int)
    ensures Add(Add(Wrap(a), Wrap(b)), Wrap(c)) == Wrap(a + b + c)
  {
    WrapOnce(a, b);
    WrapOnce(a + b, c);
  }

  /** Scalar and vector products: the products of the components are rounded down one by one, and what
    * does not fit is wrapped once, at the end.
    */
  lemma ProductsWrapOnce(v: Vec3, w: Vec3)
    ensures v.Dot(w) == Wrap(Floored(v.x, w.x) + Floored(v.y, w.y) + Floored(v.z, w.z))
    ensures v.Cross(w) == Vec3(Wrap(Floored(v.y, w.z) - Floored(v.z, w.y)),
                               Wrap(Floored(v.z, w.x) - Floored(v.x, w.z)),
                               Wrap(Floored(v.x, w.y) - Floored(v.y, w.x)))
  {
    SumWrapsOnce(Floored(v.x, w.x), Floored(v.y, w.y), Floored(v.z, w.z));
    DifferenceWrapsOnce(v.y, w.z, v.z, w.y);
    DifferenceWrapsOnce(v.z, w.x, v.x, w.z);
    DifferenceWrapsOnce(v.x, w.y, v.y, w.x);
  }

  /** The vector product is right-handed. */
  lemma CrossIsRightHanded()
    ensures RIGHT.Cross(UP) == FORWARD && UP.Cross(FORWARD) == RIGHT && FORWARD.Cross(RIGHT) == UP
  {
    assert Mul(ONE, ONE) == ONE;
  }

  /** Normalizing multiplies each component by what the table gives for the squared length. */
  lemma NormalizedIsScaled(tab: Tables, v: Vec3, k: Fixed)
    requires k == tab.invSqrt(Wrap(Floored(v.x, v.x) + Floored(v.y, v.y) + Floored(v.z, v.z)))
    ensures v.Normalized(tab) == Vec3(Wrap(Floored(v.x, k)), Wrap(Floored(v.y, k)), Wrap(Floored(v.z, k)))
  {
    ProductsWrapOnce(v, v);
  }
}
