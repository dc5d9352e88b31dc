/** Bitwise `and` on unsigned words, as the ring recorder uses it. */
module Bits {

  function And(a: nat, b: nat): nat {
    if a == 0 || b == 0 then 0
    else 2 * And(a / 2, b / 2) + (if a % 2 == 1 && b % 2 == 1 then 1 else 0)
  }

  function Pow2(k: nat): (p: nat)
    ensures p > 0
  {
    if k == 0 then 1 else 2 * Pow2(k - 1)
  }

  ghost predicate IsPowerOfTwo(c: nat) {
    exists k: nat :: Pow2(k) == c
  }

  lemma {:induction false} AndSelf(a: nat)
    ensures And(a, a) == a
  {
    if a > 0 { AndSelf(a / 2); }
  }

  lemma HalfPower(c: nat)
    requires c % 2 == 0 && c > 0
    ensures IsPowerOfTwo(c) <==> IsPowerOfTwo(c / 2)
  {
    if IsPowerOfTwo(c) {
      var k: nat :| Pow2(k) == c;
      assert Pow2(k - 1) == c / 2;
    }
    if IsPowerOfTwo(c / 2) {
      var k: nat :| Pow2(k) == c / 2;
      assert Pow2(k + 1) == c;
    }
  }

  /** The factory's test `c & (c - 1)` passes exactly the powers of two. */
  lemma {:induction false} PowerTest(c: nat)
    requires c > 0
    ensures And(c, c - 1) == 0 <==> IsPowerOfTwo(c)
  {
    if c == 1 {
      assert Pow2(0) == 1;
    } else if c % 2 == 0 {
      HalfPower(c);
      PowerTest(c / 2);
      assert (c - 1) / 2 == c / 2 - 1;
    } else {
      AndSelf(c / 2);
      assert (c - 1) / 2 == c / 2;
      forall k: nat ensures Pow2(k) != c {
        assert Pow2(k) == 1 || Pow2(k) % 2 == 0;
      }
    }
  }

  lemma ModOfDouble(x: nat, p: nat)
    requires p > 0
    ensures x % (2 * p) == 2 * ((x / 2) % p) + x % 2
  {
    var q, m := (x / 2) / p, (x / 2) % p;
    var r := 2 * m + x % 2;
    assert x / 2 == p * q + m;
    assert x == (2 * p) * q + r;
    Remainder(x, 2 * p, q, r);
  }

  lemma Multiple(m: int, d: int)
    requires m > 0
    ensures d > 0 ==> m * d >= m
    ensures d < 0 ==> m * d <= -m
  {
  }

  lemma Remainder(x: int, m: nat, q: int, r: nat)
    requires m > 0 && x == m * q + r && r < m
    ensures x % m == r && x / m == q
  {
    var d := x / m - q;
    assert x == m * (x / m) + x % m;
    assert m * d == r - x % m;
    Multiple(m, d);
  }

  lemma MulMono(a: int, b: int, c: nat)
    ensures a <= b ==> a * c <= b * c
  {
  }

  lemma SameRemainder(a: int, b: int, m: nat, q: int)
    requires m > 0 && a == b + m * q
    ensures a % m == b % m
  {
    assert a == m * (b / m + q) + b % m;
    Remainder(a, m, b / m + q, b % m);
  }

  lemma AddRemainder(s: int, x: int, y: int, m: nat)
    requires m > 0 && s % m == x % m
    ensures (s + y % m) % m == (x + y) % m
  {
    assert s + y % m == (x + y) + m * (s / m - x / m - y / m);
    SameRemainder(s + y % m, x + y, m, s / m - x / m - y / m);
  }

  /** The bits of `x` under `2 * q - 1`: its lowest, and the rest under `q - 1`. */
  lemma AndStep(x: nat, q: nat)
    requires q > 0
    ensures And(x, 2 * q - 1) == 2 * And(x / 2, q - 1) + x % 2
  {
    assert (2 * q - 1) / 2 == q - 1 && (2 * q - 1) % 2 == 1;
  }

  /** Masking with a power of two less one is the remainder. */
  lemma {:induction false} MaskIsRemainder(x: nat, k: nat)
    ensures And(x, Pow2(k) - 1) == x % Pow2(k)
  {
    if k > 0 {
      var q := Pow2(k - 1);
      MaskIsRemainder(x / 2, k - 1);
      AndStep(x, q);
      ModOfDouble(x, q);
    }
  }

  lemma Masked(x: nat, c: nat)
    requires IsPowerOfTwo(c)
    ensures And(x, c - 1) == x % c
  {
    var k: nat :| Pow2(k) == c;
    MaskIsRemainder(x, k);
  }
}
