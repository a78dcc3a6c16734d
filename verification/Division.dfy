/** Quotients and remainders by a variable divisor. */
module Division {

  /** x / k and x % k are the only quotient and remainder. */
  lemma QuotientOf(x: nat, k: nat, q: nat, r: nat)
    requires k >= 1 && x == q * k + r && r < k
    ensures x / k == q && x % k == r
  {
    var q', r' := x / k, x % k;
    assert x == k * q' + r';
    Unique(k, q, r, q', r');
  }

  lemma Unique(k: nat, q: nat, r: nat, q': nat, r': nat)
    requires r < k && r' < k && q * k + r == k * q' + r'
    ensures q == q' && r == r'
  {
    assert (q - q') * k == q * k - k * q' == r' - r;
    assert (q' - q) * k == -((q - q') * k);
    if q > q' {
      Grows(q - q', k);
    } else if q < q' {
      Grows(q' - q, k);
    }
  }

  lemma Grows(d: nat, k: nat)
    requires d >= 1
    ensures d * k >= k
  {
  }

  /** One wrap-around of a ring index. */
  lemma WrapOnce(x: nat, size: nat)
    requires 1 <= size && x < 2 * size
    ensures x % size == if x < size then x else x - size
  {
    if x < size {
      QuotientOf(x, size, 0, x);
    } else {
      QuotientOf(x, size, 1, x - size);
    }
  }

  /** Division by k, one step further. */
  lemma NextQuotient(m: nat, k: nat)
    requires k >= 1
    ensures if m % k == k - 1 then (m + 1) / k == m / k + 1 && (m + 1) % k == 0
            else (m + 1) / k == m / k && (m + 1) % k == m % k + 1
  {
    var q, r := m / k, m % k;
    assert m == k * q + r;
    if r == k - 1 {
      assert m + 1 == (q + 1) * k + 0;
      QuotientOf(m + 1, k, q + 1, 0);
    } else {
      assert m + 1 == q * k + (r + 1);
      QuotientOf(m + 1, k, q, r + 1);
    }
  }
}
