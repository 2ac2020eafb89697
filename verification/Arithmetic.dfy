/** Facts about products, quotients and set sizes that the solver is not left to find. */
module Arithmetic {

  lemma {:induction false} Divide(x: nat, n: nat)
    requires n > 0
    ensures x == x / n * n + x % n
  {}

  lemma {:induction false} RemainderIs(x: nat, n: nat, k: nat, r: nat)
    requires n > 0 && r < n && x == k * n + r
    ensures x % n == r && x / n == k
  {
    Divide(x, n);
    var q := x / n;
    assert q > k ==> q * n >= k * n + n by { Above(q, k, n); }
    assert q < k ==> k * n >= q * n + n by { Above(k, q, n); }
  }

  lemma {:induction false} Above(q: nat, k: nat, n: nat)
    ensures q > k ==> q * n >= k * n + n
  {
    if q > k {
      assert q * n >= (k + 1) * n;
      assert (k + 1) * n == k * n + n;
    }
  }

  lemma {:induction false} ProductBelow(a: nat, p: nat, b: nat, q: nat)
    requires a < p && b < q
    ensures a * q + b < p * q
  {
    assert (a + 1) * q <= p * q;
    assert (a + 1) * q == a * q + q;
  }

  lemma {:induction false} Spread(k: nat, p: nat, d: nat, q: nat)
    ensures (k * p + d) * q == k * (p * q) + d * q
  {}

  lemma {:induction false} Commute(a: nat, b: nat)
    ensures a * b == b * a
  {}

  lemma {:induction false} Distribute(w: nat, n: nat)
    ensures w * (n + 1) == w * n + w
  {}

  lemma {:induction false} Positive(a: nat, b: nat)
    requires b > 0
    ensures a * b == 0 <==> a == 0
  {}

  lemma {:induction false} Reassociate(v: nat, p: nat, q: nat)
    ensures v * (p * q) == v * p * q
  {}

  lemma {:induction false} Product(a: nat, b: nat, c: nat, d: nat)
    requires a <= b && c <= d
    ensures a * c <= b * d
  {
    assert a * c <= b * c;
    assert b * c <= b * d;
  }

  lemma {:induction false} SubsetSize<T>(a: set<T>, b: set<T>)
    requires a <= b
    ensures |a| <= |b|
  {
    assert b == a + (b - a);
  }
}
