/** JavaScript BigInt arithmetic where it differs from Dafny's. */
module BigInt {

  /** Prices carry 18 decimals. */
  const PRICE_PRECISION: int := 1_000_000_000_000_000_000

  /** BigInt `/` truncates toward zero; Dafny's `/` rounds so that the remainder is non-negative. */
  function TruncDiv(a: int, b: int): int
    requires b != 0
  {
    var q := (if a < 0 then -a else a) / (if b < 0 then -b else b);
    if (a < 0) == (b < 0) then q else -q
  }

  function Max(a: int, b: int): int { if a < b then b else a }

  // ----- facts -----

  lemma Commute(a: int, b: int)
    ensures a * b == b * a
  {
  }

  lemma DivBounds(a: int, b: int)
    requires a >= 0 && b > 0
    ensures TruncDiv(a, b) * b <= a < (TruncDiv(a, b) + 1) * b && TruncDiv(a, b) >= 0
  {
    var q, r := a / b, a % b;
    assert a == b * q + r && 0 <= r < b;
    Commute(b, q);
    assert (q + 1) * b == q * b + b;
    if q < 0 { MulLe(q, -1, b); }
  }

  lemma MulLe(a: int, b: int, c: int)
    requires a <= b && c >= 0
    ensures a * c <= b * c
  {
  }

  /** Truncation treats both signs alike. */
  lemma TruncDivOdd(a: int, b: int)
    requires b > 0
    ensures TruncDiv(-a, b) == -TruncDiv(a, b)
  {
    if a > 0 {
      assert TruncDiv(a, b) == a / b && TruncDiv(-a, b) == -(a / b);
    } else if a < 0 {
      var m := -a;
      assert TruncDiv(m, b) == m / b && TruncDiv(a, b) == -(m / b);
    } else {
      assert 0 / b == 0 by { DivBounds(0, b); }
    }
  }
}
