/**
  The base-10 logarithm and its inverse, `Math.log10` and `Math.pow(10, .)`.

  Dafny has no transcendental functions over `real`, so the pair is a value
  that every mapping function takes as a parameter, and `Lawful` states the
  laws of the real logarithm that the visualizer relies on. The real
  `log10`/`10^x` pair satisfies every one of them; floating-point rounding is
  not modelled.
 */
module LogScale {

  datatype LogPair = LogPair(log10: real -> real, pow10: real -> real)

  /** The laws of log10 and 10^x over the positive reals. */
  ghost predicate Lawful(L: LogPair) {
    && (forall x :: L.pow10(x) > 0.0)
    && (forall x :: L.log10(L.pow10(x)) == x)
    && (forall x :: x > 0.0 ==> L.pow10(L.log10(x)) == x)
    && (forall x, y :: 0.0 < x < y ==> L.log10(x) < L.log10(y))
  }

  /**
    The decimal laws: log10(10) = 1 and the logarithm of a product is the
    sum of the logarithms. Only the lemmas that compute particular
    positions need them, so they are kept apart from `Lawful`.
   */
  ghost predicate Decimal(L: LogPair) {
    && L.log10(10.0) == 1.0
    && (forall x, y :: ProductLaw(L, x, y))
  }

  /** log10(x * y) = log10(x) + log10(y) for positive x and y. */
  ghost predicate ProductLaw(L: LogPair, x: real, y: real) {
    0.0 < x && 0.0 < y ==> L.log10(x * y) == L.log10(x) + L.log10(y)
  }

  /** 10^x preserves and reflects order: it follows from log10 being increasing and the two being inverse. */
  lemma Pow10Order(L: LogPair, a: real, b: real)
    requires Lawful(L)
    ensures a < b <==> L.pow10(a) < L.pow10(b)
    ensures a == b <==> L.pow10(a) == L.pow10(b)
  {
    assert L.log10(L.pow10(a)) == a && L.log10(L.pow10(b)) == b;
  }

  /** log10 preserves and reflects order on the positive reals. */
  lemma Log10Order(L: LogPair, x: real, y: real)
    requires Lawful(L)
    requires 0.0 < x && 0.0 < y
    ensures x < y <==> L.log10(x) < L.log10(y)
    ensures x == y <==> L.log10(x) == L.log10(y)
  {
    if L.log10(x) == L.log10(y) {
      assert L.pow10(L.log10(x)) == x && L.pow10(L.log10(y)) == y;
    }
  }
}
