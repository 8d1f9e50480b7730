/** The parts of Java's `long` / `Long` semantics that the navigation computation
    depends on: division and remainder that truncate toward zero (Dafny's own `/`
    and `%` are Euclidean), and `==` between two boxed `Long` objects, which
    compares references rather than values. Overflow is not modelled. */
module JavaLong {

  /** Java `a / b` for a positive divisor. */
  function Div(a: int, b: int): (q: int)
    requires b > 0
    ensures a >= 0 ==> q >= 0
    ensures a < 0 ==> q <= 0
  {
    if a >= 0 then a / b else -((-a) / b)
  }

  /** Java `a % b` for a positive divisor. */
  function Rem(a: int, b: int): (r: int)
    requires b > 0
    ensures a >= 0 ==> 0 <= r < b
    ensures a < 0 ==> -b < r <= 0
  {
    if a >= 0 then a % b else -((-a) % b)
  }

  /** Java's quotient is rounded toward zero, and its remainder makes up the
      difference and takes the sign of the dividend. */
  lemma DivRemTruncate(a: int, b: int)
    requires b > 0
    ensures a == Div(a, b) * b + Rem(a, b)
    ensures a >= 0 ==> 0 <= Rem(a, b) < b
    ensures a < 0 ==> -b < Rem(a, b) <= 0
  {
    var n := if a >= 0 then a else -a;
    var q, r := n / b, n % b;
    assert n == q * b + r && 0 <= r < b;
    if a < 0 {
      assert Div(a, b) == -q && Rem(a, b) == -r;
      assert a == (-q) * b + (-r);
    }
  }

  /** On a non-negative dividend Java and Dafny agree. */
  lemma DivRemNonNegative(a: nat, b: int)
    requires b > 0
    ensures Div(a, b) == a / b && Rem(a, b) == a % b
  {
  }

  /** The bounds of the cache behind `Long.valueOf` (and so behind autoboxing):
      a boxed value in this range is always the same object. These are
      OpenJDK's bounds; the library only promises that this range is cached,
      and another implementation may cache more. */
  const CacheLow: int := -128
  const CacheHigh: int := 127

  /** Java `x == y` on two boxed `Long`s: reference identity. `aliased` says
      whether one variable was assigned from the other; otherwise both were
      produced by autoboxing, and they are the same object only when their
      equal value is one the cache hands out. */
  predicate SameBox(x: int, y: int, aliased: bool)
    requires aliased ==> x == y
    ensures SameBox(x, y, aliased) ==> x == y
    ensures !aliased && x == y ==> (SameBox(x, y, aliased) <==> CacheLow <= x <= CacheHigh)
    ensures aliased ==> SameBox(x, y, aliased)
  {
    aliased || (x == y && CacheLow <= x <= CacheHigh)
  }
}
