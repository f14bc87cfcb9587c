/** Integer division by a variable, in steps the solver can follow. */
module Division {
  lemma Multiple(x: int, y: int, k: nat)
    requires x <= y
    ensures x * k <= y * k
  {
  }

  lemma Distribute(x: int, y: int, k: int)
    ensures (x + y) * k == x * k + y * k
  {
  }

  lemma QuotientBounds(x: int, d: int)
    requires d > 0
    ensures x / d * d <= x < x / d * d + d
  {
  }

  lemma QuotientMonotone(x: int, y: int, d: int)
    requires d > 0 && x <= y
    ensures x / d <= y / d
  {
    QuotientBounds(x, d);
    QuotientBounds(y, d);
    if x / d > y / d {
      Multiple(y / d + 1, x / d, d);
    }
  }

  lemma QuotientUnique(x: int, d: int, q: int)
    requires d > 0 && q * d <= x < q * d + d
    ensures x / d == q
  {
    QuotientBounds(x, d);
    if x / d < q {
      Multiple(x / d + 1, q, d);
    } else if x / d > q {
      Multiple(q + 1, x / d, d);
    }
  }

  lemma MultipleOf(q: nat, d: nat)
    requires d > 0
    ensures q * d % d == 0
  {
    QuotientUnique(q * d, d, q);
  }

  function RoundDown(x: nat, align: nat): (r: nat)
    requires align > 0
    ensures r <= x < r + align && r % align == 0
  {
    QuotientBounds(x, align);
    MultipleOf(x / align, align);
    x / align * align
  }
}
