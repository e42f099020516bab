/** Division with remainder, in the few shapes the page counts and the calendar need. */
module Arithmetic {

  function CeilDiv(x: nat, p: nat): nat
    requires p >= 1
  {
    if x % p == 0 then x / p else x / p + 1
  }

  lemma DivUnique(n: nat, p: nat, q: int, m: nat)
    requires m < p && n == q * p + m
    ensures n / p == q && n % p == m
  {
    var d := n / p - q;
    assert d * p == (n / p) * p - q * p;
    assert d >= 1 ==> d * p >= p;
    assert d <= -1 ==> d * p + p <= 0;
  }

  lemma DivStep(x: nat, p: nat)
    requires p >= 1 && x >= p
    ensures (x - p) / p == x / p - 1 && (x - p) % p == x % p
    ensures CeilDiv(x - p, p) == CeilDiv(x, p) - 1
  {
    var q := x / p - 1;
    assert (x / p) * p == q * p + p;
    DivUnique(x - p, p, q, x % p);
  }

  lemma DivSmall(x: nat, p: nat)
    requires x < p
    ensures x / p == 0 && x % p == x && CeilDiv(x, p) == if x == 0 then 0 else 1
  {
  }

  /** A quotient grows by one exactly at the multiples. */
  lemma DivSucc(n: nat, p: nat)
    requires n >= 1 && p >= 1
    ensures n / p == (n - 1) / p + if n % p == 0 then 1 else 0
  {
    var q, m := (n - 1) / p, (n - 1) % p;
    assert n - 1 == q * p + m;
    if m + 1 < p {
      DivUnique(n, p, q, m + 1);
    } else {
      assert (q + 1) * p == q * p + p;
      DivUnique(n, p, q + 1, 0);
    }
  }

  lemma MultipleOfMultiple(n: nat, p: nat, k: nat)
    requires p >= 1 && k >= 1 && n % (p * k) == 0
    ensures n % p == 0
  {
    var q := n / (p * k);
    assert n == q * (p * k);
    assert q * (p * k) == (q * k) * p;
    DivUnique(n, p, q * k, 0);
  }
}
