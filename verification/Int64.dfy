/** The machine arithmetic of the ban duration. */
module Int64 {
  const TWO_63: int := 0x8000_0000_0000_0000
  const TWO_64: int := 0x1_0000_0000_0000_0000

  /** The value a 64-bit two's complement register holds for `x`. */
  function Wrap64(x: int): (r: int)
    ensures -TWO_63 <= r < TWO_63
    ensures -TWO_63 <= x < TWO_63 <==> r == x
  {
    (x + TWO_63) % TWO_64 - TWO_63
  }

  /** Which natural numbers come out negative after wrapping. */
  lemma WrapSign(x: int)
    requires x >= TWO_63
    ensures Wrap64(x) < 0 <==> (x / TWO_63) % 2 == 1
    ensures Wrap64(x) < x
  {
    var h := (x / TWO_63) / 2;
    var r := x - TWO_64 * h;
    assert 0 <= r < TWO_64;
    assert (x + TWO_63) % TWO_64 == if r < TWO_63 then r + TWO_63 else r - TWO_63;
  }

  /** A multiple of -2^63 wraps to the smallest value or to zero. */
  lemma WrapMultiple(half: int, odd: nat)
    requires odd < 2
    ensures Wrap64(-(TWO_64 * half) - TWO_63 * odd) == -(TWO_63 * odd)
  {
    var x := -(TWO_64 * half) - TWO_63 * odd;
    assert x + TWO_63 == TWO_63 * (1 - odd) + TWO_64 * (-half);
    assert (x + TWO_63) % TWO_64 == TWO_63 * (1 - odd);
  }

  /** `static_cast<int64_t>` of a double: out of range, x86-64 yields the smallest value. */
  function CastToInt64(x: int): int {
    if -TWO_63 <= x < TWO_63 then x else -TWO_63
  }

  /** `(size_t) limit` for an `int`. */
  function ToSize(limit: int): int {
    if limit < 0 then limit + TWO_64 else limit
  }

  function Pow(base: int, exponent: nat): int {
    if exponent == 0 then 1 else base * Pow(base, exponent - 1)
  }

  /** 1 + base + ... + base^(terms-1). */
  function Geometric(base: int, terms: nat): int {
    if terms == 0 then 0 else Geometric(base, terms - 1) + Pow(base, terms - 1)
  }

  lemma {:induction false} PowPositive(base: int, exponent: nat)
    requires base >= 1
    ensures Pow(base, exponent) >= 1
  {
    if exponent > 0 {
      PowPositive(base, exponent - 1);
    }
  }

  /** The geometric sum in closed form, without dividing. */
  lemma {:induction false} GeometricClosed(base: int, terms: nat)
    ensures Geometric(base, terms) * (base - 1) + 1 == Pow(base, terms)
  {
    if terms > 0 {
      GeometricClosed(base, terms - 1);
    }
  }
}
