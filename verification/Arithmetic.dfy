// Division and multiplication as the proofs need them.
module Arithmetic {
  function Min(a: nat, b: nat): nat { if a <= b then a else b }

  // Integer division, with its defining bounds.
  function Div(x: nat, u: nat): (q: nat)
    requires 0 < u
    ensures q * u <= x < q * u + u
  {
    x / u
  }

  lemma MulMonotone(a: nat, b: nat, u: nat)
    requires a <= b
    ensures a * u <= b * u
  {
  }

  lemma DivBelow(x: nat, u: nat, q: nat)
    requires 0 < u && x < q * u
    ensures Div(x, u) < q
  {
    if q <= Div(x, u) {
      MulMonotone(q, Div(x, u), u);
    }
  }

  lemma DivAtLeast(x: nat, u: nat, q: nat)
    requires 0 < u && q * u <= x
    ensures q <= Div(x, u)
  {
    if Div(x, u) < q {
      MulMonotone(Div(x, u) + 1, q, u);
    }
  }

  lemma Quotient(x: nat, n: nat, low: nat)
    requires 0 < n && low * n <= x
    ensures low <= x / n
  {
    DivAtLeast(x, n, low);
    assert x / n == Div(x, n);
  }

  lemma QuotientBelow(x: nat, n: nat, high: nat)
    requires 0 < n && x <= high * n
    ensures x / n <= high
  {
    DivBelow(x, n, high + 1);
    assert x / n == Div(x, n);
  }

  lemma QuotientAtLeast(x: nat, n: nat, q: nat)
    requires 0 < n && q <= x / n
    ensures q * n <= x
  {
    MulMonotone(q, Div(x, n), n);
  }

  lemma QuotientIs(n: nat, q: nat)
    requires 0 < n
    ensures q * n / n == q
  {
    Quotient(q * n, n, q);
    QuotientBelow(q * n, n, q);
  }
}
