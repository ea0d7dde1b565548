/** Quotient and remainder from the product, with every nonlinear step on its own. */
module Division {
  lemma AtLeast(d: int, b: nat)
    ensures d >= 1 ==> d * b >= b
    ensures d <= -1 ==> d * b <= -(b as int)
  {
    if d >= 1 {
      assert d * b == (d - 1) * b + b && (d - 1) * b >= 0;
    } else if d <= -1 {
      assert -d * b == (-d - 1) * b + b && (-d - 1) * b >= 0;
    }
  }

  lemma Unique(b: nat, q: int, r: nat, s: int, t: nat)
    requires q * b + r == s * b + t && r < b && t < b
    ensures q == s && r == t
  {
    AtLeast(q - s, b);
    assert (q - s) * b == q * b - s * b;
  }

  lemma DivMod(a: int, b: nat, q: int, r: nat)
    requires r < b && a == q * b + r
    ensures a / b == q && a % b == r
  {
    assert a == (a / b) * b + a % b;
    Unique(b, q, r, a / b, a % b);
  }

  lemma Monotone(a: nat, b: nat, c: nat)
    requires a <= b
    ensures 0 <= a * c <= b * c
  {
  }

  lemma Less(a: nat, b: nat, c: nat)
    requires a * c < b * c
    ensures a < b
  {
    if b <= a {
      Monotone(b, a, c);
    }
  }

  /** Equal remainders differ by a multiple. */
  lemma SameRemainder(a: nat, x: nat, b: nat) returns (d: int)
    requires b > 0 && (a + x) % b == a % b
    ensures x == b * d
  {
    d := (a + x) / b - a / b;
    assert a + x == b * ((a + x) / b) + a % b;
    assert a == b * (a / b) + a % b;
  }
}
