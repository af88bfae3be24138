/**
 * IEEE 754 binary64 classification and comparison, stated on the 64-bit
 * pattern of a double. The value layer only ever asks `isnan`, `==` and `>`
 * of two doubles; each is decided by the bits alone (IEEE 754-2008,
 * section 3.4 for the encoding and section 5.11 for the comparison
 * predicates), so no floating-point arithmetic is needed.
 */
module Doubles {

  const SIGN_BIT: bv64 := 0x8000_0000_0000_0000
  const EXPONENT_BITS: bv64 := 0x7FF0_0000_0000_0000
  const MANTISSA_BITS: bv64 := 0x000F_FFFF_FFFF_FFFF

  /** Unsigned reading of a pattern as a number: distinct patterns read as
      distinct numbers. */
  lemma UnsignedInjective(x: bv64, y: bv64)
    ensures x as int == y as int <==> x == y
  {
    assert (x as int) as bv64 == x;
    assert (y as int) as bv64 == y;
  }

  /** The pattern without its sign bit. */
  function Magnitude(x: bv64): bv64 {
    x & 0x7FFF_FFFF_FFFF_FFFF
  }

  /** Exponent all ones and a non-zero mantissa. */
  predicate IsNaN(x: bv64) {
    x & EXPONENT_BITS == EXPONENT_BITS && x & MANTISSA_BITS != 0
  }

  /** +0.0 or -0.0. */
  predicate IsZero(x: bv64) {
    Magnitude(x) == 0
  }

  predicate IsNegative(x: bv64) {
    x & SIGN_BIT != 0
  }

  /** The double comparison `x == y`: false whenever a NaN is involved, and
      +0.0 equals -0.0. */
  predicate Eq(x: bv64, y: bv64) {
    !IsNaN(x) && !IsNaN(y) && (x == y || (IsZero(x) && IsZero(y)))
  }

  /** The double comparison `x < y`, on the sign-magnitude encoding: a
      larger magnitude is further from zero. */
  predicate Lt(x: bv64, y: bv64) {
    && !IsNaN(x) && !IsNaN(y)
    && !(IsZero(x) && IsZero(y))
    && if IsNegative(x) != IsNegative(y) then IsNegative(x)
       else if IsNegative(x) then Magnitude(y) as int < Magnitude(x) as int
       else Magnitude(x) as int < Magnitude(y) as int
  }

  /** A pattern is determined by its sign and its magnitude. */
  lemma SignMagnitude(x: bv64, y: bv64)
    requires IsNegative(x) == IsNegative(y) && Magnitude(x) == Magnitude(y)
    ensures x == y
  {
  }

  lemma EqExcludesLt(x: bv64, y: bv64)
    requires Eq(x, y)
    ensures !Lt(x, y) && !Lt(y, x)
  {
  }

  lemma LtAsymmetric(x: bv64, y: bv64)
    requires Lt(x, y)
    ensures !Lt(y, x)
  {
  }

  lemma LtTotal(x: bv64, y: bv64)
    requires !IsNaN(x) && !IsNaN(y) && !Eq(x, y)
    ensures Lt(x, y) || Lt(y, x)
  {
    if IsNegative(x) == IsNegative(y) {
      if Magnitude(x) == Magnitude(y) {
        SignMagnitude(x, y);
      }
      UnsignedInjective(Magnitude(x), Magnitude(y));
    }
  }

  /** Two numbers that are not NaN are ordered in exactly one way. */
  lemma Trichotomy(x: bv64, y: bv64)
    requires !IsNaN(x) && !IsNaN(y)
    ensures Eq(x, y) || Lt(x, y) || Lt(y, x)
    ensures !(Eq(x, y) && Lt(x, y)) && !(Eq(x, y) && Lt(y, x)) && !(Lt(x, y) && Lt(y, x))
  {
    if Eq(x, y) {
      EqExcludesLt(x, y);
    } else {
      LtTotal(x, y);
      if Lt(x, y) {
        LtAsymmetric(x, y);
      }
    }
  }

  lemma LtTransitive(x: bv64, y: bv64, z: bv64)
    requires Lt(x, y) && Lt(y, z)
    ensures Lt(x, z)
  {
  }

  lemma EqTransitive(x: bv64, y: bv64, z: bv64)
    requires Eq(x, y) && Eq(y, z)
    ensures Eq(x, z)
  {
  }

  /** Either zero lies below exactly the positive numbers... */
  lemma ZeroBelow(x: bv64, z: bv64)
    requires IsZero(x) && !IsNaN(z)
    ensures Lt(x, z) <==> !IsNegative(z) && !IsZero(z)
  {
    UnsignedInjective(Magnitude(z), 0);
  }

  /** ...and above exactly the negative ones. */
  lemma ZeroAbove(x: bv64, z: bv64)
    requires IsZero(x) && !IsNaN(z)
    ensures Lt(z, x) <==> IsNegative(z) && !IsZero(z)
  {
    UnsignedInjective(Magnitude(z), 0);
  }

  /** +0.0 and -0.0 stand in the same relation to every other number. */
  lemma ZerosAlike(x: bv64, y: bv64, z: bv64)
    requires IsZero(x) && IsZero(y) && !IsNaN(z)
    ensures Lt(x, z) <==> Lt(y, z)
    ensures Lt(z, x) <==> Lt(z, y)
  {
    ZeroBelow(x, z);
    ZeroBelow(y, z);
    ZeroAbove(x, z);
    ZeroAbove(y, z);
  }

  /** Equal numbers are interchangeable on either side of `<`. */
  lemma EqLt(x: bv64, y: bv64, z: bv64)
    requires Eq(x, y)
    ensures Lt(x, z) <==> Lt(y, z)
    ensures Lt(z, x) <==> Lt(z, y)
  {
    if x != y && !IsNaN(z) {
      ZerosAlike(x, y, z);
    }
  }
}
