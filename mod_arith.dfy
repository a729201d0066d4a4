/**
 * Facts about Dafny's % for a positive modulus, where it agrees with Python's: the remainder is the
 * unique r in [0, p) with x = p q + r.
 */
module ModArith {
  /** p * k is at least p for a positive k. */
  lemma {:induction false} MulAtLeast(p: int, k: nat)
    requires p > 0 && k > 0
    ensures p * k >= p
  {
    if k > 1 {
      MulAtLeast(p, k - 1);
      assert p * k == p * (k - 1) + p;
    }
  }

  /** The remainder is the r of any decomposition x = p q + r with 0 <= r < p. */
  lemma ModUnique(x: int, p: int, q: int, r: int)
    requires p > 0 && 0 <= r < p && x == p * q + r
    ensures x % p == r
  {
    var d := q - x / p;
    assert p * d == x % p - r;
    if d > 0 {
      MulAtLeast(p, d);
    } else if d < 0 {
      MulAtLeast(p, -d);
    }
  }

  /** Reducing a factor first does not change the remainder of a product. */
  lemma ModMulLeft(a: int, b: int, p: int)
    requires p > 0
    ensures ((a % p) * b) % p == (a * b) % p
  {
    var q, s := a / p, (a * b) / p;
    assert a == p * q + a % p;
    assert a * b == p * s + (a * b) % p;
    assert (a % p) * b == p * (s - q * b) + (a * b) % p;
    ModUnique((a % p) * b, p, s - q * b, (a * b) % p);
  }

  /** Two numbers have the same remainder exactly when p divides their difference. */
  lemma SameRemainder(u: int, v: int, p: int)
    requires p > 0
    ensures u % p == v % p <==> (u - v) % p == 0
  {
    var qu, qv := u / p, v / p;
    assert u == p * qu + u % p && v == p * qv + v % p;
    if u % p == v % p {
      assert u - v == p * (qu - qv) + 0;
      ModUnique(u - v, p, qu - qv, 0);
    } else {
      var k := (u - v) / p;
      assert u - v == p * k + (u - v) % p;
      if (u - v) % p == 0 {
        assert u == p * (qv + k) + v % p;
        ModUnique(u, p, qv + k, v % p);
      }
    }
  }
}
