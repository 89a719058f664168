/**
 * Primes, Fermat's little theorem, uniqueness of Chinese remainders, and the
 * correctness of RSA exponents for every message.
 */
module NumberTheory {
  import opened Arithmetic

  predicate Divides(d: int, a: int)
    requires d != 0
  {
    a % d == 0
  }

  ghost predicate Prime(p: int) {
    p > 1 && forall d :: 1 < d < p ==> !Divides(d, p)
  }

  /** Euclid's lemma, for a factor already reduced below the prime. */
  lemma {:induction false} EuclidReduced(p: int, a: int, b: int)
    requires Prime(p) && 0 < a < p && Divides(p, a * b)
    ensures Divides(p, b)
    decreases a
  {
    if a > 1 {
      // p mod a is a smaller factor with the same property, and is not zero.
      var q, r := p / a, p % a;
      assert !Divides(a, p);
      assert r * b == p * b - q * (a * b) by {
        assert p == q * a + r;
        MulDistribute(q * a, r, b);
        MulAssoc(q, a, b);
      }
      ModOfMultiple(b, p);
      CongruentMul(q, q, a * b, 0, p);
      CongruentSub(p * b, 0, q * (a * b), 0, p);
      EuclidReduced(p, r, b);
    }
  }

  lemma Euclid(p: int, a: int, b: int)
    requires Prime(p) && Divides(p, a * b)
    ensures Divides(p, a) || Divides(p, b)
  {
    if !Divides(p, a) {
      ModOfMod(a, p);
      CongruentMul(a % p, a, b, b, p);
      EuclidReduced(p, a % p, b);
    }
  }

  /** A factor prime to p can be cancelled from a congruence. */
  lemma CancelFactor(p: int, a: int, x: int, y: int)
    requires Prime(p) && !Divides(p, a) && (a * x) % p == (a * y) % p
    ensures x % p == y % p
  {
    CongruentSub(a * x, a * y, a * y, a * y, p);
    assert a * (x - y) == a * x - a * y;
    Euclid(p, a, x - y);
    CongruentAdd(x - y, 0, y, y, p);
  }

  // ---- Binomial coefficients and Fermat's little theorem -------------------

  function Choose(n: nat, k: nat): nat {
    if k == 0 then 1
    else if n == 0 then 0
    else Choose(n - 1, k - 1) + Choose(n - 1, k)
  }

  lemma {:induction false} ChooseAbove(n: nat, k: nat)
    requires k > n
    ensures Choose(n, k) == 0
  {
    if n == 0 {
    } else {
      ChooseAbove(n - 1, k - 1);
      ChooseAbove(n - 1, k);
    }
  }

  lemma {:induction false} ChooseDiagonal(n: nat)
    ensures Choose(n, n) == 1
  {
    if n == 0 {
    } else {
      ChooseDiagonal(n - 1);
      ChooseAbove(n - 1, n);
    }
  }

  lemma {:induction false} Absorption(n: nat, k: nat)
    requires n > 0 && k > 0
    ensures k * Choose(n, k) == n * Choose(n - 1, k - 1)
  {
    if n == 1 {
      if k > 1 {
        ChooseAbove(n, k);
        ChooseAbove(n - 1, k - 1);
      }
    } else {
      Absorption(n - 1, k);
      var y, above := Choose(n - 2, k - 1), Choose(n - 1, k);
      if k > 1 {
        Absorption(n - 1, k - 1);
        AbsorptionStep(n, k, Choose(n - 2, k - 2), y, above);
      }
    }
  }

  lemma AbsorptionStep(n: int, k: int, x: int, y: int, above: int)
    requires k * above == (n - 1) * y && (k - 1) * (x + y) == (n - 1) * x
    ensures k * ((x + y) + above) == n * (x + y)
  {
    MulDistribute(x + y, above, k);
    MulDistribute(k, 1, x + y);
    MulDistribute(x, y, n - 1);
    MulDistribute(n, 1, x + y);
  }

  /** Inner binomial coefficients of a prime row are multiples of the prime. */
  lemma PrimeDividesChoose(p: int, k: nat)
    requires Prime(p) && 0 < k < p
    ensures Divides(p, Choose(p, k))
  {
    Absorption(p, k);
    ModOfMultiple(Choose(p - 1, k - 1), p);
    SmallMod(k, p);
    Euclid(p, k, Choose(p, k));
  }

  /** The first k + 1 terms of the expansion of (1 + a)^n. */
  function BinomialSum(a: int, n: nat, k: nat): int {
    if k == 0 then 1 else BinomialSum(a, n, k - 1) + Choose(n, k) * Pow(a, k)
  }

  lemma {:induction false} BinomialStep(a: int, n: nat, k: nat)
    requires k > 0
    ensures BinomialSum(a, n + 1, k) == BinomialSum(a, n, k) + a * BinomialSum(a, n, k - 1)
  {
    if k > 1 {
      BinomialStep(a, n, k - 1);
      BinomialTerms(a, Choose(n, k - 1), Choose(n, k), Pow(a, k - 1), BinomialSum(a, n, k - 2));
    } else {
      assert Choose(n, 0) == 1;
      BinomialTerms(a, 1, Choose(n, 1), Pow(a, 0), 0);
      assert Pow(a, 1) == a * Pow(a, 0);
      assert BinomialSum(a, n, 0) == 1;
      assert BinomialSum(a, n + 1, 1) == 1 + (1 + Choose(n, 1)) * Pow(a, 1);
    }
  }

  lemma BinomialTerms(a: int, c: int, c': int, power: int, sum: int)
    ensures (c + c') * (a * power) == a * (c * power) + c' * (a * power)
    ensures a * (sum + c * power) == a * sum + a * (c * power)
  {
    MulDistribute(c, c', a * power);
    MulAssoc(a, c, power);
    MulAssoc(c, a, power);
    MulDistribute(sum, c * power, a);
  }

  lemma {:induction false} BinomialTheorem(a: int, n: nat)
    ensures BinomialSum(a, n, n) == Pow(1 + a, n)
  {
    if n == 0 {
    } else {
      BinomialTheorem(a, n - 1);
      BinomialStep(a, n - 1, n);
      ChooseAbove(n - 1, n);
      MulDistribute(1, a, BinomialSum(a, n - 1, n - 1));
    }
  }

  lemma {:induction false} BinomialSumModPrime(a: int, p: int, k: nat)
    requires Prime(p) && k < p
    ensures BinomialSum(a, p, k) % p == 1
  {
    SmallMod(1, p);
    SmallMod(0, p);
    if k == 0 {
    } else {
      BinomialSumModPrime(a, p, k - 1);
      var term := Choose(p, k) * Pow(a, k);
      assert Divides(p, term) by {
        PrimeDividesChoose(p, k);
        MultipleOfDivisible(p, Choose(p, k), Pow(a, k));
      }
      CongruentAdd(BinomialSum(a, p, k - 1), 1, term, 0, p);
    }
  }

  lemma MultipleOfDivisible(p: int, a: int, b: int)
    requires p > 0 && Divides(p, a)
    ensures Divides(p, a * b)
  {
    CongruentMul(a, 0, b, b, p);
    SmallMod(0, p);
  }

  /** Fermat's little theorem. */
  lemma {:induction false} Fermat(p: int, a: nat)
    requires Prime(p)
    ensures Pow(a, p) % p == a % p
  {
    if a == 0 {
      assert Pow(a, p) == 0 * Pow(a, p - 1);
    } else {
      var b := a - 1;
      Fermat(p, b);
      BinomialTheorem(b, p);
      BinomialSumModPrime(b, p, p - 1);
      ChooseDiagonal(p);
      SmallMod(1, p);
      CongruentAdd(BinomialSum(b, p, p - 1), 1, Pow(b, p), b, p);
    }
  }

  lemma FermatUnit(p: int, a: nat)
    requires Prime(p) && !Divides(p, a)
    ensures Pow(a, p - 1) % p == 1
  {
    Fermat(p, a);
    CancelFactor(p, a, Pow(a, p - 1), 1);
    SmallMod(1, p);
  }

  lemma {:induction false} OnePow(e: nat)
    ensures Pow(1, e) == 1
  {
    if e > 0 { OnePow(e - 1); }
  }

  lemma PowOfMultiple(p: int, a: int, e: nat)
    requires p > 0 && Divides(p, a) && e > 0
    ensures Divides(p, Pow(a, e))
  {
    CongruentMul(a, 0, Pow(a, e - 1), Pow(a, e - 1), p);
  }

  /** Exponents count modulo p - 1 only, for every base, as long as neither is zero. */
  lemma ReduceExponent(p: int, a: nat, d: nat)
    requires Prime(p) && d % (p - 1) > 0
    ensures Pow(a, d) % p == Pow(a, d % (p - 1)) % p
  {
    var k, r := d / (p - 1), d % (p - 1);
    if Divides(p, a) {
      PowOfMultiple(p, a, d);
      PowOfMultiple(p, a, r);
    } else {
      assert d == (p - 1) * k + r;
      MulNonNegative(p - 1, k);
      PowAdd(a, (p - 1) * k, r);
      PowOfPow(a, p - 1, k);
      FermatUnit(p, a);
      SmallMod(1, p);
      CongruentPow(Pow(a, p - 1), 1, k, p);
      OnePow(k);
      CongruentMul(Pow(a, (p - 1) * k), 1, Pow(a, r), Pow(a, r), p);
    }
  }

  /** An exponent congruent to one modulo p - 1 leaves every residue fixed. */
  lemma UnitExponent(p: int, a: nat, d: nat)
    requires Prime(p) && p > 2 && d % (p - 1) == 1
    ensures Pow(a, d) % p == a % p
  {
    ReduceExponent(p, a, d);
    assert Pow(a, 1) == a * Pow(a, 0);
  }

  // ---- Chinese remainders ---------------------------------------------------

  lemma DistinctPrimes(p: int, q: int)
    requires Prime(p) && Prime(q) && p != q
    ensures !Divides(q, p)
  {
    if Divides(q, p) {
      if q < p {
        assert false;
      } else {
        SmallMod(p, q);
      }
    }
  }

  /** Residues modulo two distinct primes determine the residue modulo their product. */
  lemma ChineseUnique(p: int, q: int, x: int, y: int)
    requires Prime(p) && Prime(q) && p != q
    requires x % p == y % p && x % q == y % q
    ensures p * q > 0 && x % (p * q) == y % (p * q)
  {
    MulStrict(0, p, q);
    var k := CongruentDifference(x, y, p);
    CongruentSub(x, y, y, y, q);
    assert x - y == p * k;
    DistinctPrimes(p, q);
    Euclid(q, p, k);
    var j := k / q;
    assert k == j * q;
    assert x == y + j * (p * q) by {
      MulAssoc(j, q, p);
    }
    ModAddMultiple(y, j, p * q);
  }

  /**
   * Raising to e and then to d, in either order, returns every message below
   * the modulus when e * d is one modulo p - 1 and modulo q - 1.
   */
  lemma RsaInverse(p: int, q: int, e: nat, d: nat, m: nat)
    requires Prime(p) && Prime(q) && p != q && p > 2 && q > 2
    requires 0 <= e * d && (e * d) % (p - 1) == 1 && (e * d) % (q - 1) == 1
    requires m < p * q
    ensures Pow(Pow(m, e) % (p * q), d) % (p * q) == m
  {
    var n := p * q;
    ModOfMod(Pow(m, e), n);
    CongruentPow(Pow(m, e) % n, Pow(m, e), d, n);
    PowOfPow(m, e, d);
    UnitExponent(p, m, e * d);
    UnitExponent(q, m, e * d);
    ChineseUnique(p, q, Pow(m, e * d), m);
    SmallMod(m, n);
  }
}
