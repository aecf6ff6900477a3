/** Products and remainders of variables. */
module Arithmetic {
  lemma {:induction false} MulMonotone(i: nat, j: nat, k: nat)
    requires i <= j
    ensures i * k <= j * k
    ensures i < j ==> i * k + k <= j * k
  {
    if i == j {
    } else {
      MulMonotone(i, j - 1, k);
      MulStep(j, k);
    }
  }

  lemma MulStep(n: nat, k: nat)
    requires n > 0
    ensures n * k == (n - 1) * k + k
  {
  }

  lemma {:induction false} MulAtLeast(n: nat, k: nat, least: nat)
    requires k >= least
    ensures n * k >= n * least
  {
    if n == 0 {
    } else {
      MulAtLeast(n - 1, k, least);
      MulStep(n, k);
      MulStep(n, least);
    }
  }

  lemma DivBound(x: nat, k: nat, n: nat)
    requires k > 0
    ensures n <= x / k <==> n * k <= x
  {
    var q := x / k;
    assert x == q * k + x % k;
    if n <= q {
      MulMonotone(n, q, k);
    } else {
      MulMonotone(q, n, k);
    }
  }

  lemma ModIs(x: nat, n: nat, q: nat, r: nat)
    requires r < n && x == q * n + r
    ensures x % n == r
  {
    var q' := x / n;
    assert x == q' * n + x % n;
    if q' > q {
      MulMonotone(q, q', n);
    } else if q' < q {
      MulMonotone(q', q, n);
    }
  }
}
