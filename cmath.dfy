/**
 * The elementary functions the geometry code calls (std::sqrt behind glm::length,
 * std::sin, std::cos, std::atan2) and the constant pi.  They are not defined here:
 * a `MathLib` value is passed to every operation that needs them, and each law below
 * is all that a proof may use about them.  Floating-point rounding is not modelled.
 */
module CMath {
  datatype MathLib = MathLib(
    sqrt: real -> real,
    sin: real -> real,
    cos: real -> real,
    atan2: (real, real) -> real,
    pi: real)

  /** sqrt returns the non-negative square root of a non-negative argument. */
  ghost predicate SqrtLaw(m: MathLib) {
    forall x: real :: 0.0 <= x ==> 0.0 <= m.sqrt(x) && m.sqrt(x) * m.sqrt(x) == x
  }

  /** cos² + sin² = 1 for every angle. */
  ghost predicate PythagoreanLaw(m: MathLib) {
    forall a: real :: m.cos(a) * m.cos(a) + m.sin(a) * m.sin(a) == 1.0
  }

  /** cos 0 = 1 and sin 0 = 0. */
  ghost predicate ZeroAngleLaw(m: MathLib) {
    m.cos(0.0) == 1.0 && m.sin(0.0) == 0.0
  }

  /** pi is positive and atan2 takes its values in (-pi, pi]. */
  ghost predicate Atan2Range(m: MathLib) {
    0.0 < m.pi && forall y: real, x: real :: -m.pi < m.atan2(y, x) <= m.pi
  }

  lemma SqrtPositive(m: MathLib, x: real)
    requires SqrtLaw(m) && 0.0 < x
    ensures 0.0 < m.sqrt(x)
  {
    assert m.sqrt(x) * m.sqrt(x) == x;
  }
}
