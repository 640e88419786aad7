/**
  Unsigned machine words of an arbitrary width: the wrap-around difference and the
  masking by which the ring buffer addresses its slots with free-running indices.
 */
module Words {

  function Pow2(n: nat): (r: nat)
    ensures r > 0
  {
    if n == 0 then 1 else 2 * Pow2(n - 1)
  }

  /** Bitwise conjunction of two unsigned numbers, bit by bit. */
  function BitAnd(a: nat, b: nat): nat {
    if a == 0 || b == 0 then 0 else 2 * BitAnd(a / 2, b / 2) + (a % 2) * (b % 2)
  }

  /** `a - b` in an unsigned type with `modulus` values. */
  function WrapSub(a: int, b: int, modulus: nat): (r: nat)
    requires modulus > 0
  {
    (a - b) % modulus
  }

  /** `a + b` in an unsigned type with `modulus` values. */
  function WrapAdd(a: int, b: int, modulus: nat): (r: nat)
    requires modulus > 0
  {
    (a + b) % modulus
  }

  lemma {:induction false} Halves(a: nat, q: nat, r: nat)
    requires r < 2 && a == 2 * q + r
    ensures a / 2 == q && a % 2 == r
  {
  }

  /** Masking with the low `k` bits is the remainder modulo `2^k`. */
  lemma {:induction false} MaskIsMod(x: nat, k: nat)
    ensures BitAnd(x, Pow2(k) - 1) == x % Pow2(k)
    decreases k
  {
    if k != 0 {
      MaskIsMod(x / 2, k - 1);
      MaskStep(x, Pow2(k - 1));
    }
  }

  lemma {:induction false} MaskStep(x: nat, p: nat)
    requires p > 0 && BitAnd(x / 2, p - 1) == (x / 2) % p
    ensures BitAnd(x, 2 * p - 1) == x % (2 * p)
  {
    BitAndStep(x, 2 * p - 1);
    Halves(2 * p - 1, p - 1, 1);
    DoubleMod(x, p);
  }

  lemma {:induction false} BitAndStep(a: nat, b: nat)
    ensures BitAnd(a, b) == 2 * BitAnd(a / 2, b / 2) + (a % 2) * (b % 2)
  {
  }

  lemma {:induction false} DoubleMod(x: nat, p: nat)
    requires p > 0
    ensures x % (2 * p) == 2 * ((x / 2) % p) + x % 2
  {
    var q, r := (x / 2) / p, (x / 2) % p;
    assert x == 2 * (q * p + r) + x % 2;
    assert x == q * (2 * p) + (2 * r + x % 2);
    ModUnique(x, 2 * p, q, 2 * r + x % 2);
  }

  lemma {:induction false} ModUnique(x: int, m: nat, q: int, r: int)
    requires 0 <= r < m && x == q * m + r
    ensures x / m == q && x % m == r
  {
    var d := x / m - q;
    assert x == (x / m) * m + x % m;
    assert d * m == r - x % m;
    if d != 0 {
      MulGrows(d, m);
    }
  }

  lemma {:induction false} MulGrows(d: int, m: nat)
    requires d != 0
    ensures d > 0 ==> d * m >= m
    ensures d < 0 ==> d * m <= 0 - m
  {
    var e := if d > 0 then d else -d;
    assert e * m >= m;
    assert d == -e ==> d * m == -(e * m);
  }

  /** The compile-time test `n & (n - 1) == 0` accepts exactly the powers of two. */
  lemma {:induction false} PowerOfTwoTest(n: nat)
    requires n > 0
    ensures BitAnd(n, n - 1) == 0 <==> exists k: nat :: n == Pow2(k)
    decreases n
  {
    if n == 1 {
      assert n == Pow2(0);
    } else if n % 2 == 1 {
      Halves(n, n / 2, 1);
      Halves(n - 1, n / 2, 0);
      AndSelf(n / 2);
      forall k: nat
        ensures n != Pow2(k)
      {
        assert k > 0 ==> Pow2(k) % 2 == 0;
      }
      var h := n / 2;
      assert BitAnd(n, n - 1) == 2 * BitAnd(h, h);
      assert BitAnd(n, n - 1) == 2 * h > 0;
      assert !exists k: nat :: n == Pow2(k);
    } else {
      var h := n / 2;
      Halves(n, h, 0);
      Halves(n - 1, h - 1, 1);
      PowerOfTwoTest(h);
      BitAndStep(n, n - 1);
      assert BitAnd(n, n - 1) == 2 * BitAnd(h, h - 1);
      if k: nat :| h == Pow2(k) {
        assert n == Pow2(k + 1);
      }
      if k: nat :| n == Pow2(k) {
        assert h == Pow2(k - 1);
        assert exists j: nat :: h == Pow2(j);
      }
    }
  }

  lemma {:induction false} AndSelf(n: nat)
    ensures BitAnd(n, n) == n
  {
    if n != 0 {
      AndSelf(n / 2);
    }
  }

  lemma {:induction false} Pow2Sum(a: nat, b: nat)
    ensures Pow2(a + b) == Pow2(a) * Pow2(b)
  {
    if a != 0 {
      Pow2Sum(a - 1, b);
      assert 2 * (Pow2(a - 1) * Pow2(b)) == (2 * Pow2(a - 1)) * Pow2(b);
    }
  }

  lemma {:induction false} Pow2Monotone(a: nat, b: nat)
    requires a < b
    ensures 2 * Pow2(a) <= Pow2(b)
  {
    if a + 1 < b {
      Pow2Monotone(a, b - 1);
    }
  }

  /** Reducing by a multiple of `n` first does not change the remainder modulo `n`. */
  lemma {:induction false} ModOfMod(x: int, n: nat, c: nat)
    requires n > 0 && c > 0
    ensures n * c > 0 && (x % (n * c)) % n == x % n
  {
    assert n * c > 0;
    var y := x % (n * c);
    var q := x / (n * c);
    assert x == q * (n * c) + y;
    assert q * (n * c) == (q * c) * n;
    assert x == (q * c + y / n) * n + y % n by {
      assert y == (y / n) * n + y % n;
      assert (q * c + y / n) * n == (q * c) * n + (y / n) * n;
    }
    ModUnique(x, n, q * c + y / n, y % n);
  }

  /** Reducing a summand first does not change a sum modulo `m`. */
  lemma {:induction false} ModAdd(x: int, y: int, m: nat)
    requires m > 0
    ensures (x % m + y) % m == (x + y) % m
  {
    var z := x % m + y;
    assert x == (x / m) * m + x % m;
    assert z == (z / m) * m + z % m;
    assert x + y == (x / m + z / m) * m + z % m by {
      assert (x / m + z / m) * m == (x / m) * m + (z / m) * m;
    }
    ModUnique(x + y, m, x / m + z / m, z % m);
  }

  /** Adding to a wrapped counter wraps the sum. */
  lemma {:induction false} WrapAddExact(x: int, y: int, m: nat)
    requires m > 0
    ensures WrapAdd(x % m, y, m) == (x + y) % m
  {
    ModAdd(x, y, m);
  }

  /** The wrapped difference of two wrapped counters is the true difference
      as long as that difference fits in the word. */
  lemma {:induction false} WrapSubExact(h: int, t: int, m: nat)
    requires m > 0 && 0 <= h - t < m
    ensures WrapSub(h % m, t % m, m) == h - t
  {
    assert h == (h / m) * m + h % m;
    assert t == (t / m) * m + t % m;
    assert h % m - t % m == (t / m - h / m) * m + (h - t) by {
      assert (t / m - h / m) * m == (t / m) * m - (h / m) * m;
    }
    ModUnique(h % m - t % m, m, t / m - h / m, h - t);
  }

  /** Two different counters less than `n` apart have different remainders. */
  lemma {:induction false} ModDistinct(i: int, j: int, n: nat)
    requires n > 0 && 0 < j - i < n
    ensures i % n != j % n
  {
    if i % n == j % n {
      assert i == (i / n) * n + i % n;
      assert j == (j / n) * n + j % n;
      assert j - i == (j / n - i / n) * n by {
        assert (j / n - i / n) * n == (j / n) * n - (i / n) * n;
      }
      ModUnique(j - i, n, 0, j - i);
      ModUnique(j - i, n, j / n - i / n, 0);
    }
  }
}
