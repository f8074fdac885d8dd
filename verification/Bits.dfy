/** Bitwise operations on numbers, bit by bit. */
module Bits {

  function Pow2(n: nat): (r: nat)
    ensures r >= 1
  {
    if n == 0 then 1 else 2 * Pow2(n - 1)
  }

  /** Bitwise exclusive or of the low `n` bits. */
  function XorBits(a: nat, b: nat, n: nat): (r: nat)
    ensures r < Pow2(n)
  {
    if n == 0 then 0
    else (if a % 2 == b % 2 then 0 else 1) + 2 * XorBits(a / 2, b / 2, n - 1)
  }

  /** Bitwise or of the low `n` bits. */
  function OrBits(a: nat, b: nat, n: nat): (r: nat)
    ensures r < Pow2(n)
  {
    if n == 0 then 0
    else (if a % 2 == 0 && b % 2 == 0 then 0 else 1) + 2 * OrBits(a / 2, b / 2, n - 1)
  }

  lemma Halves(bit: nat, rest: nat)
    requires bit < 2
    ensures (bit + 2 * rest) % 2 == bit && (bit + 2 * rest) / 2 == rest
  {
  }

  lemma {:induction false} XorBitsTwice(a: nat, b: nat, n: nat)
    requires a < Pow2(n)
    ensures XorBits(XorBits(a, b, n), b, n) == a
  {
    if n > 0 {
      XorBitsTwice(a / 2, b / 2, n - 1);
      Halves(if a % 2 == b % 2 then 0 else 1, XorBits(a / 2, b / 2, n - 1));
    }
  }

  lemma {:induction false} Pow2Adds(m: nat, n: nat)
    ensures Pow2(m + n) == Pow2(m) * Pow2(n)
  {
    if m > 0 {
      Pow2Adds(m - 1, n);
      assert Pow2(m) * Pow2(n) == 2 * (Pow2(m - 1) * Pow2(n));
    }
  }

  lemma {:induction false} OrWithZero(b: nat, n: nat)
    requires b < Pow2(n)
    ensures OrBits(0, b, n) == b
  {
    if n > 0 { OrWithZero(b / 2, n - 1); }
  }

  /** Or-ing in bits that are all above those that are there is adding them. */
  lemma {:induction false} OrIsSum(a: nat, q: nat, m: nat, n: nat)
    requires m <= n && a < Pow2(m) && q * Pow2(m) < Pow2(n)
    ensures OrBits(a, q * Pow2(m), n) == a + q * Pow2(m)
    decreases n
  {
    if m == 0 {
      OrWithZero(q, n);
      assert q * Pow2(0) == q;
    } else if n > 0 {
      var b := q * Pow2(m - 1);
      assert q * Pow2(m) == 2 * b;
      OrIsSum(a / 2, q, m - 1, n - 1);
      assert (2 * b) % 2 == 0 && (2 * b) / 2 == b;
    }
  }

  /** A bit of a number. */
  function Bit(n: nat, k: nat): (b: nat)
    ensures b < 2
  {
    if k == 0 then n % 2 else Bit(n / 2, k - 1)
  }

  /** Each bit of an exclusive or tells whether the two bits differ, and of an or whether any is set. */
  lemma {:induction false} BitsOf(a: nat, b: nat, n: nat, k: nat)
    requires k < n
    ensures Bit(XorBits(a, b, n), k) == if Bit(a, k) != Bit(b, k) then 1 else 0
    ensures Bit(OrBits(a, b, n), k) == if Bit(a, k) == 1 || Bit(b, k) == 1 then 1 else 0
  {
    Halves(if a % 2 == b % 2 then 0 else 1, XorBits(a / 2, b / 2, n - 1));
    Halves(if a % 2 == 0 && b % 2 == 0 then 0 else 1, OrBits(a / 2, b / 2, n - 1));
    if k > 0 { BitsOf(a / 2, b / 2, n - 1, k - 1); }
  }
}
