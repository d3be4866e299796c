/** The number theory behind the Maglev table: stepping by any skip below a prime visits every slot. */
module Primes {
  import opened Chunks

  ghost predicate Prime(n: nat) {
    n >= 2 && forall d :: 2 <= d < n ==> n % d != 0
  }

  /** Quotient and remainder are determined by x == q * d + r with r < d. */
  lemma DivMod(x: int, d: nat, q: int, r: nat)
    requires r < d && x == q * d + r
    ensures x / d == q && x % d == r
  {
    var p := x / d;
    assert x == p * d + x % d;
    MulStep(p, q, d);
    MulStep(q, p, d);
  }

  lemma MulMono(a: nat, b: nat, d: nat)
    ensures a <= b ==> a * d <= b * d && d * a <= d * b
  {
    if a <= b { assert (b - a) * d >= 0; }
  }

  /** A divisor d of n that is at least i, where i * i > n, comes with one below i. */
  lemma Cofactor(n: nat, i: nat, d: nat)
    requires 2 <= i <= d < n < i * i && n % d == 0
    ensures 2 <= n / d < i && n % (n / d) == 0
  {
    var q := n / d;
    assert n == q * d;
    if q >= i {
      MulMono(i, q, d);
      MulMono(i, d, i);
    }
    MulMono(q, 1, d);
    DivMod(n, q, d, 0);
  }

  /** Trial division that has found no divisor below i, with i * i > n, has found that there is none. */
  lemma TrialDivision(n: nat, i: nat)
    requires n >= 2 && i >= 2 && i * i > n && forall d :: 2 <= d < i ==> n % d != 0
    ensures Prime(n)
  {
    forall d | 2 <= d < n ensures n % d != 0 {
      if d >= i && n % d == 0 {
        Cofactor(n, i, d);
      }
    }
  }

  method IsPrime(n: nat) returns (b: bool)
    ensures b <==> Prime(n)
  {
    if n < 2 { return false; }
    var i := 2;
    while i * i <= n
      invariant i >= 2 && forall d :: 2 <= d < i ==> n % d != 0
      decreases n - i
    {
      MulStep(1, i, i);
      if n % i == 0 {
        return false;
      }
      i := i + 1;
    }
    TrialDivision(n, i);
    return true;
  }

  /** A prime divides no product of two numbers below it. */
  lemma {:induction false} NoZeroDivisors(m: nat, s: nat, k: nat)
    requires Prime(m) && 1 <= s < m && 1 <= k < m
    ensures (k * s) % m != 0
    decreases k
  {
    if (k * s) % m == 0 {
      if k > 1 {
        RemainderAlso(m, s, k);
        NoZeroDivisors(m, s, m % k);
      } else {
        assert k * s == s;
        DivMod(s, m, 0, s);
      }
    }
  }

  /** If m divides k * s it divides (m % k) * s. */
  lemma RemainderAlso(m: nat, s: nat, k: nat)
    requires k > 0 && m > 0 && (k * s) % m == 0
    ensures ((m % k) * s) % m == 0
  {
    var p, r, t := m / k, m % k, (k * s) / m;
    assert m == p * k + r;
    assert k * s == t * m;
    assert m * s == (p * k + r) * s == p * (k * s) + r * s;
    assert p * (k * s) == p * (t * m) == (p * t) * m;
    assert r * s == (s - p * t) * m;
    DivMod(r * s, m, s - p * t, 0);
  }
}
