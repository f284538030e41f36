// Facts about multiplication and division used by more than one component.
module Arithmetic {

  lemma {:induction false} MulMonotone(a: int, b: int, L: nat)
    requires a <= b
    ensures a * L <= b * L
    decreases L
  {
    if L > 0 {
      MulMonotone(a, b, L - 1);
      assert a * L == a * (L - 1) + a;
      assert b * L == b * (L - 1) + b;
    }
  }

  lemma MulGap(a: int, b: int, L: nat)
    requires a < b
    ensures a * L + L <= b * L
  {
    MulMonotone(a + 1, b, L);
    assert (a + 1) * L == a * L + L;
  }

  // Quotient and remainder are determined by q * L + r.
  lemma DivMod(x: int, q: int, r: int, L: nat)
    requires 0 <= r < L && x == q * L + r
    ensures x / L == q && x % L == r
  {
    if x / L < q {
      MulGap(x / L, q, L);
    } else if q < x / L {
      MulGap(q, x / L, L);
    }
  }
}
