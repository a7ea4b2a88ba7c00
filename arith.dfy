/** Facts about Euclidean division and remainder shared by the cursor and waveform arithmetic. */
module Arith {

  /** Division and remainder are determined by any decomposition `y == n * k + r` with `0 <= r < n`. */
  lemma ModUnique(y: int, n: int, k: int, r: int)
    requires n > 0 && 0 <= r < n && y == n * k + r
    ensures y % n == r && y / n == k
  {
    var q := y / n;
    if q > k {
      MulAtLeast(n, q - k);
    } else if q < k {
      MulAtLeast(n, k - q);
    }
  }

  lemma MulAtLeast(n: int, t: int)
    requires n > 0 && t >= 1
    ensures n * t >= n
  {
  }

  lemma ModAdd(a: int, b: int, n: int)
    requires n > 0
    ensures (a % n + b) % n == (a + b) % n
  {
    var c := (a % n + b) % n;
    var q := (a % n + b) / n;
    assert a % n + b == n * q + c;
    assert a + b == n * (a / n + q) + c;
    ModUnique(a + b, n, a / n + q, c);
  }

  /** Counting one further: the remainder steps up by one, or wraps to 0 at `n`. */
  lemma ModStep(s: nat, n: nat)
    requires n > 0
    ensures (s + 1) % n == if s % n + 1 == n then 0 else s % n + 1
  {
    var q, r := s / n, s % n;
    assert s == n * q + r;
    if r + 1 == n {
      assert s + 1 == n * (q + 1) + 0;
      ModUnique(s + 1, n, q + 1, 0);
    } else {
      ModUnique(s + 1, n, q, r + 1);
    }
  }

  /** A value below `m * p` divided by `p` is below `m`. */
  lemma DivBelow(x: nat, p: nat, m: nat)
    requires p > 0 && x < m * p
    ensures x / p < m
  {
    var q := x / p;
    assert x == p * q + x % p;
    if q >= m {
      assert p * q >= p * m by { MulMono(p, m, q); }
    }
  }

  lemma MulMono(p: nat, a: nat, b: nat)
    requires a <= b
    ensures p * a <= p * b
  {
    assert p * b == p * a + p * (b - a);
  }

  /** A positive multiple of `k` is at least `k`, and taking `k` away leaves a multiple of `k`. */
  lemma DivisibleStep(n: nat, k: nat)
    requires k > 0 && n > 0 && n % k == 0
    ensures n >= k && (n - k) % k == 0
  {
    var q := n / k;
    assert n == k * q;
    MulAtLeast(k, q);
    assert n - k == k * (q - 1);
    ModUnique(n - k, k, q - 1, 0);
  }
}
