/** Facts about integer division that the solver does not find by itself. */
module Division {
  lemma CancelLess(p: int, q: int, b: int)
    requires b > 0 && p * b < q * b
    ensures p < q
  {
  }

  lemma Monotone(p: int, q: int, b: nat)
    requires p <= q
    ensures p * b <= q * b
  {
  }

  lemma Associate(p: int, q: int, r: int)
    ensures (p * q) * r == p * (q * r)
  {
  }

  lemma Swap(p: int, q: int, r: int)
    ensures (p * q) * r == (p * r) * q
  {
  }

  lemma Distribute(p: int, q: int, r: int)
    ensures (p + q) * r == p * r + q * r
  {
  }

  /** `q` is the quotient iff the remainder is in range. */
  lemma QuotientUnique(a: int, b: int, q: int)
    requires b > 0 && q * b <= a < (q + 1) * b
    ensures a / b == q
  {
    QuotientBounds(a, b);
    CancelLess(q, a / b + 1, b);
    CancelLess(a / b, q + 1, b);
  }

  lemma QuotientBounds(a: int, b: int)
    requires b > 0
    ensures (a / b) * b <= a < (a / b + 1) * b
  {
  }

  /** Dividing twice is dividing by the product. */
  lemma DivideTwice(a: int, b: int, c: int)
    requires b > 0 && c > 0
    ensures b * c > 0 && (a / b) / c == a / (b * c)
  {
    var p := a / b;
    var q := p / c;
    QuotientBounds(a, b);
    QuotientBounds(p, c);
    Monotone(q * c, p, b);
    Swap(q, c, b);
    Associate(q, b, c);
    Monotone(p + 1, (q + 1) * c, b);
    Swap(q + 1, c, b);
    Associate(q + 1, b, c);
    QuotientUnique(a, b * c, q);
  }

  /** A common factor cancels. */
  lemma CancelFactor(a: int, b: int, c: int)
    requires b > 0 && c > 0
    ensures b * c > 0 && (a * c) / (b * c) == a / b
  {
    var q := a / b;
    QuotientBounds(a, b);
    Monotone(q * b, a, c);
    Associate(q, b, c);
    Associate(q + 1, b, c);
    Distribute(a, 1, c);
    Monotone(a + 1, (q + 1) * b, c);
    QuotientUnique(a * c, b * c, q);
  }

  lemma DivideMonotone(a: int, b: int, c: int)
    requires a <= b && c > 0
    ensures a / c <= b / c
  {
    QuotientBounds(a, c);
    QuotientBounds(b, c);
    CancelLess(a / c, b / c + 1, c);
  }
}
