/** Facts about quotients and remainders, in steps small enough for linear reasoning. */
module Division {
  lemma QuotientIs(a: int, b: int, q: int, r: int)
    requires b > 0 && 0 <= r < b && a == q * b + r
    ensures a / b == q
  {
    Divided(a, b);
    Difference(a / b, q, b);
    NoMultipleBetween(a / b - q, b);
  }

  lemma Divided(a: int, b: int)
    requires b > 0
    ensures a == (a / b) * b + a % b && 0 <= a % b < b
  {
  }

  lemma Difference(x: int, y: int, b: int)
    ensures (x - y) * b == x * b - y * b
  {
  }

  lemma NoMultipleBetween(d: int, b: int)
    requires -b < d * b < b
    ensures d == 0
  {
    if d > 0 {
      Scaled(1, d, b);
    } else if d < 0 {
      Scaled(d, -1, b);
    }
  }

  lemma Scaled(a: int, b: int, c: int)
    requires a <= b && c > 0
    ensures a * c <= b * c
  {
  }

  lemma AtLeastOnce(a: int, b: int)
    requires a >= b > 0
    ensures a / b >= 1
  {
  }

  lemma RemainderIs(a: int, b: int, q: int, r: int)
    requires b > 0 && 0 <= r < b && a == q * b + r
    ensures a / b == q && a % b == r
  {
    QuotientIs(a, b, q, r);
    Divided(a, b);
  }
}
