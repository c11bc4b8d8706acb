/** Division facts the solver does not find by itself. */
module Arithmetic {

  lemma MultiplesApart(a: int, b: int, m: int)
    requires a > b && m > 0
    ensures a * m >= b * m + m
  {
    assert a * m == b * m + m + (a - b - 1) * m;
  }

  /** Quotient and remainder are determined by their defining equation. */
  lemma DivModUnique(v: int, m: int, a: int, r: int)
    requires m > 0 && 0 <= r < m && v == a * m + r
    ensures v / m == a && v % m == r
  {
    var b := v / m;
    assert v % m == v - b * m;
    if a > b {
      MultiplesApart(a, b, m);
    } else if a < b {
      MultiplesApart(b, a, m);
    }
  }

  /** A larger quotient needs a larger number. */
  lemma QuotientGrows(a: int, b: int, m: int)
    requires m > 0 && a / m > b / m
    ensures a > b
  {
    MultiplesApart(a / m, b / m, m);
    assert a == a / m * m + a % m && b == b / m * m + b % m;
  }
}
