/** Facts about Euclidean division that several proofs share. */
module Division {
  lemma MulMono(a: int, b: int, k: nat)
    requires a <= b
    ensures a * k <= b * k && k * a <= k * b
  {
  }

  lemma MulNat(a: nat, b: nat)
    ensures a * b >= 0
  {
  }

  lemma DivBounds(n: int, d: int)
    requires d > 0
    ensures d * (n / d) <= n < d * (n / d) + d
    ensures n >= 0 ==> n / d >= 0
  {
  }

  /** Quotient and remainder are determined by their product form. */
  lemma DivUnique(n: int, d: int, q: int, r: int)
    requires d > 0 && n == d * q + r && 0 <= r < d
    ensures n / d == q && n % d == r
  {
    DivBounds(n, d);
    var k := n / d;
    if k < q {
      MulMono(k + 1, q, d);
    } else if k > q {
      MulMono(q + 1, k, d);
    }
  }

  lemma DivStep(n: int, d: int)
    requires d > 0
    ensures (n + 1) / d == n / d + if (n + 1) % d == 0 then 1 else 0
  {
    var q, r := n / d, n % d;
    if r + 1 == d {
      assert n + 1 == d * (q + 1);
      DivUnique(n + 1, d, q + 1, 0);
    } else {
      DivUnique(n + 1, d, q, r + 1);
    }
  }

  /** Dividing the parts of a sum loses at most one. */
  lemma DivAdd(x: int, y: int, d: int)
    requires d > 0
    ensures x / d + y / d <= (x + y) / d <= x / d + y / d + 1
    ensures x % d == 0 || y % d == 0 ==> (x + y) / d == x / d + y / d
  {
    var q, r := x / d + y / d, x % d + y % d;
    assert x + y == d * q + r by {
      assert d * q == d * (x / d) + d * (y / d);
    }
    if r < d {
      DivUnique(x + y, d, q, r);
    } else {
      assert d * (q + 1) == d * q + d;
      DivUnique(x + y, d, q + 1, r - d);
    }
  }
}
