/** Powers, truncating division and congruences on unbounded integers. */
module Arithmetic {

  function Pow(b: int, e: nat): int {
    if e == 0 then 1 else b * Pow(b, e - 1)
  }

  function Pow2(e: nat): (r: nat)
    ensures r > 0
  {
    if e == 0 then 1 else 2 * Pow2(e - 1)
  }

  function Max(a: int, b: int): int { if a < b then b else a }

  // ---- Products -----------------------------------------------------------

  lemma MulMonotone(a: int, b: int, c: int)
    requires a <= b && 0 <= c
    ensures a * c <= b * c
  {
  }

  lemma MulStrict(a: int, b: int, c: int)
    requires a < b && 0 < c
    ensures a * c < b * c
  {
  }

  lemma MulNonNegative(a: int, b: int)
    requires 0 <= a && 0 <= b
    ensures 0 <= a * b
  {
  }

  lemma MulAssoc(a: int, b: int, c: int)
    ensures (a * b) * c == a * (b * c)
  {
  }

  lemma MulDistribute(a: int, b: int, c: int)
    ensures (a + b) * c == a * c + b * c
    ensures (a - b) * c == a * c - b * c
  {
  }

  // ---- Powers -------------------------------------------------------------

  lemma {:induction false} PowAdd(b: int, i: nat, j: nat)
    ensures Pow(b, i + j) == Pow(b, i) * Pow(b, j)
  {
    if i == 0 {
    } else {
      PowAdd(b, i - 1, j);
      MulAssoc(b, Pow(b, i - 1), Pow(b, j));
    }
  }

  lemma {:induction false} PowOfPow(b: int, i: nat, j: nat)
    ensures 0 <= i * j
    ensures Pow(Pow(b, i), j) == Pow(b, i * j)
  {
    MulNonNegative(i, j);
    if j > 0 {
      PowOfPow(b, i, j - 1);
      assert i * j == i + i * (j - 1);
      PowAdd(b, i, i * (j - 1));
    } else {
      assert i * j == 0;
    }
  }

  lemma {:induction false} PowPositive(b: int, e: nat)
    requires b > 0
    ensures Pow(b, e) > 0
  {
    if e == 0 {
    } else {
      PowPositive(b, e - 1);
      MulStrict(0, b, Pow(b, e - 1));
    }
  }

  lemma {:induction false} Pow2Add(i: nat, j: nat)
    ensures Pow2(i + j) == Pow2(i) * Pow2(j)
  {
    if i == 0 {
    } else {
      Pow2Add(i - 1, j);
      MulAssoc(2, Pow2(i - 1), Pow2(j));
    }
  }

  lemma {:induction false} Pow2Monotone(i: nat, j: nat)
    requires i <= j
    ensures Pow2(i) <= Pow2(j)
  {
    if i == j {
    } else {
      Pow2Monotone(i, j - 1);
    }
  }

  lemma Pow2Strict(i: nat, j: nat)
    requires i < j
    ensures 2 * Pow2(i) <= Pow2(j)
  {
    Pow2Monotone(i + 1, j);
  }

  // ---- Division and remainder ---------------------------------------------

  /** Quotient and remainder are determined by their defining equation. */
  lemma DivModUnique(a: int, m: int, q: int, r: int)
    requires m > 0 && a == q * m + r && 0 <= r < m
    ensures a / m == q && a % m == r
  {
    var q', r' := a / m, a % m;
    assert a == q' * m + r';
    MulDistribute(q, q', m);
    if q < q' {
      MulMonotone(q + 1, q', m);
      MulDistribute(q, 1, m);
      assert false;
    } else if q' < q {
      MulMonotone(q' + 1, q, m);
      MulDistribute(q', 1, m);
      assert false;
    }
  }

  lemma ModAddMultiple(a: int, k: int, m: int)
    requires m > 0
    ensures (a + k * m) % m == a % m
    ensures (a + k * m) / m == a / m + k
  {
    MulDistribute(a / m, k, m);
    DivModUnique(a + k * m, m, a / m + k, a % m);
  }

  lemma ModOfMultiple(k: int, m: int)
    requires m > 0
    ensures (k * m) % m == 0 && (m * k) % m == 0
  {
    ModAddMultiple(0, k, m);
  }

  /** Congruent numbers differ by a multiple. */
  lemma CongruentDifference(a: int, b: int, m: int) returns (k: int)
    requires m > 0 && a % m == b % m
    ensures a == b + k * m
  {
    k := a / m - b / m;
    MulDistribute(a / m, b / m, m);
  }

  lemma CongruentAdd(a: int, a': int, b: int, b': int, m: int)
    requires m > 0 && a % m == a' % m && b % m == b' % m
    ensures (a + b) % m == (a' + b') % m
  {
    var i := CongruentDifference(a, a', m);
    var j := CongruentDifference(b, b', m);
    var sum := a' + b';
    assert a + b == sum + (i + j) * m by { MulDistribute(i, j, m); }
    ModAddMultiple(sum, i + j, m);
  }

  lemma CongruentSub(a: int, a': int, b: int, b': int, m: int)
    requires m > 0 && a % m == a' % m && b % m == b' % m
    ensures (a - b) % m == (a' - b') % m
  {
    var i := CongruentDifference(a, a', m);
    var j := CongruentDifference(b, b', m);
    var diff := a' - b';
    assert a - b == diff + (i - j) * m by { MulDistribute(i, j, m); }
    ModAddMultiple(diff, i - j, m);
  }

  lemma CongruentMul(a: int, a': int, b: int, b': int, m: int)
    requires m > 0 && a % m == a' % m && b % m == b' % m
    ensures (a * b) % m == (a' * b') % m
  {
    var i := CongruentDifference(a, a', m);
    var j := CongruentDifference(b, b', m);
    var k := i * b + a' * j;
    assert a * b == a' * b' + k * m by {
      MulDistribute(a', i * m, b);
      MulAssoc(i, m, b);
      MulAssoc(i, b, m);
      assert a * b == a' * b + (i * b) * m;
      MulAssoc(a', j, m);
      assert a' * b == a' * b' + (a' * j) * m;
      MulDistribute(i * b, a' * j, m);
    }
    ModAddMultiple(a' * b', k, m);
  }

  lemma {:induction false} CongruentPow(a: int, a': int, e: nat, m: int)
    requires m > 0 && a % m == a' % m
    ensures Pow(a, e) % m == Pow(a', e) % m
  {
    if e == 0 {
    } else {
      CongruentPow(a, a', e - 1, m);
      CongruentMul(a, a', Pow(a, e - 1), Pow(a', e - 1), m);
    }
  }

  lemma ModOfMod(a: int, m: int)
    requires m > 0
    ensures (a % m) % m == a % m
  {
    DivModUnique(a % m, m, 0, a % m);
  }

  lemma SmallMod(a: int, m: int)
    requires 0 <= a < m
    ensures a % m == a && a / m == 0
  {
    DivModUnique(a, m, 0, a);
  }

  /** Dividing twice is dividing by the product. */
  lemma DivDiv(a: int, m: int, n: int)
    requires 0 <= a && m > 0 && n > 0
    ensures m * n > 0
    ensures (a / m) / n == a / (m * n)
    ensures a % (m * n) == a % m + ((a / m) % n) * m
  {
    MulStrict(0, m, n);
    var q, r := (a / m) / n, (a / m) % n;
    assert a == (q * n + r) * m + a % m;
    MulDistribute(q * n, r, m);
    MulAssoc(q, n, m);
    var s := r * m + a % m;
    assert a == q * (m * n) + s;
    MulMonotone(r, n - 1, m);
    MulDistribute(n, 1, m);
    MulNonNegative(r, m);
    DivModUnique(a, m * n, q, s);
  }
}
