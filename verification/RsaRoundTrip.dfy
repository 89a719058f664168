/** Raising to a public exponent and then to its inverse returns every message, for any two distinct primes. */
module RsaRoundTrip {
  import opened Arithmetic
  import opened NumberTheory
  import opened Digits
  import opened SignedBignum
  import opened ModularInverse

  lemma {:induction false} ParityOfPower(a: int, d: nat)
    requires d >= 1
    ensures Pow(a, d) % 2 == a % 2
  {
    if d > 1 {
      ParityOfPower(a, d - 1);
      CongruentMul(a, a, Pow(a, d - 1), a, 2);
      SquareParity(a);
    } else {
      assert Pow(a, 1) == a * Pow(a, 0);
    }
  }

  lemma SquareParity(a: int)
    ensures (a * a) % 2 == a % 2
  {
    CongruentMul(a, a % 2, a, a % 2, 2);
    if a % 2 == 1 {
      assert (a % 2) * (a % 2) == 1;
    }
  }

  /** An exponent one above a multiple of p - 1 leaves every residue fixed, for any prime. */
  lemma UnitExponentAny(p: int, a: nat, d: nat)
    requires Prime(p) && d >= 1 && (d - 1) % (p - 1) == 0
    ensures Pow(a, d) % p == a % p
  {
    if p == 2 {
      ParityOfPower(a, d);
    } else {
      SmallMod(1, p - 1);
      CongruentAdd(d - 1, 0, 1, 1, p - 1);
      UnitExponent(p, a, d);
    }
  }

  /** One above a multiple of (p - 1)(q - 1) is one above a multiple of both. */
  lemma UnitOfBoth(ed: nat, x: int, y: int)
    requires x > 0 && y > 0 && x * y > 1 && ed % (x * y) == 1
    ensures ed >= 1 && (ed - 1) % x == 0 && (ed - 1) % y == 0
  {
    var k := ed / (x * y);
    if ed == 0 {
      SmallMod(0, x * y);
    }
    assert ed - 1 == (k * y) * x && ed - 1 == (k * x) * y by {
      MulAssoc(k, x, y);
      MulAssoc(k, y, x);
    }
    ModOfMultiple(k * y, x);
    ModOfMultiple(k * x, y);
  }

  /** Distinct primes have (p - 1)(q - 1) at least two. */
  lemma TotientBig(p: int, q: int)
    requires Prime(p) && Prime(q) && p != q
    ensures (p - 1) * (q - 1) > 1
  {
    if p > 2 {
      MulMonotone(2, p - 1, q - 1);
    } else {
      MulMonotone(2, q - 1, p - 1);
    }
  }

  lemma PowerRoundTrip(p: int, q: int, e: nat, d: nat, m: nat)
    requires Prime(p) && Prime(q) && p != q && m < p * q
    requires e * d >= 1 && (e * d - 1) % (p - 1) == 0 && (e * d - 1) % (q - 1) == 0
    ensures Pow(Pow(m, e) % (p * q), d) % (p * q) == m
  {
    var n := p * q;
    ModOfMod(Pow(m, e), n);
    CongruentPow(Pow(m, e) % n, Pow(m, e), d, n);
    PowOfPow(m, e, d);
    UnitExponentAny(p, m, e * d);
    UnitExponentAny(q, m, e * d);
    ChineseUnique(p, q, Pow(m, e * d), m);
    SmallMod(m, n);
  }

  ghost predicate OneModulo(x: int, m: int) {
    m > 1 && x % m == 1
  }

  /** The modulus and the exponent that undoes e. */
  method MakeKey(p: Big, q: Big, e: Big) returns (n: Big, d: Big)
    requires Canonical(p) && Canonical(q) && Canonical(e) && Prime(Value(p)) && Prime(Value(q)) && Value(p) != Value(q)
    requires Value(e) > 0 && Coprime(Value(e), (Value(p) - 1) * (Value(q) - 1))
    ensures Canonical(n) && Canonical(d) && Value(n) == Value(p) * Value(q) && 0 < Value(d)
    ensures Value(n) > 0 && OneModulo(Value(e) * Value(d), (Value(p) - 1) * (Value(q) - 1))
  {
    hide Num, IsGcd, Coprime, Prime;
    One();
    TotientBig(Value(p), Value(q));
    n := Mult(p, q);
    PrimeProduct(Value(p), Value(q));
    var p1 := Sub(p, Big(1, [1]));
    var q1 := Sub(q, Big(1, [1]));
    var phi := Mult(p1, q1);
    ghost var g;
    d, g := Inverse(e, phi);
    InverseExactly(g, Value(e), Value(phi), Value(d));
    if Value(d) == 0 {
      SmallMod(0, Value(phi));
    }
  }

  lemma PrimeProduct(p: int, q: int)
    requires Prime(p) && Prime(q)
    ensures p > 1 && q > 1 && p * q > 0
  {
    MulStrict(0, p, q);
  }

  /** Every message below the modulus comes back, whichever exponent is used first. */
  method RoundTrip(m: Big, p: Big, q: Big, e: Big) returns (back: Big, verified: Big)
    requires Canonical(p) && Canonical(q) && Canonical(e) && Prime(Value(p)) && Prime(Value(q)) && Value(p) != Value(q)
    requires Value(e) > 0 && Coprime(Value(e), (Value(p) - 1) * (Value(q) - 1))
    requires Canonical(m) && 0 <= Value(m) < Value(p) * Value(q)
    ensures back == m && verified == m
  {
    hide Num, IsGcd, Coprime, Prime, WellFormed, Pow, OneModulo, StandsForPower, Value;
    var n, d := MakeKey(p, q, e);
    var encrypted := ExpMod(m, e, n);
    PowerCanonical(encrypted, Value(m), Max(1, Num(e.digits)), Value(n));
    back := ExpMod(encrypted, d, n);
    Returns(m, p, q, n, e, d, encrypted, back);
    var signed := ExpMod(m, d, n);
    PowerCanonical(signed, Value(m), Max(1, Num(d.digits)), Value(n));
    verified := ExpMod(signed, e, n);
    Commuted(Value(e), Value(d), (Value(p) - 1) * (Value(q) - 1));
    Returns(m, p, q, n, d, e, signed, verified);
  }

  lemma PowerCanonical(r: Big, a: int, e: nat, n: int)
    requires StandsForPower(r, a, e, n)
    ensures Canonical(r)
  {
  }

  lemma Commuted(x: int, y: int, m: int)
    requires OneModulo(x * y, m)
    ensures OneModulo(y * x, m)
  {
    Commute(x, y);
  }

  lemma Returns(m: Big, p: Big, q: Big, n: Big, e: Big, d: Big, c: Big, back: Big)
    requires Prime(Value(p)) && Prime(Value(q)) && Value(p) != Value(q)
    requires Canonical(m) && 0 <= Value(m) < Value(p) * Value(q) && Value(n) == Value(p) * Value(q)
    requires Canonical(e) && Canonical(d) && Value(e) > 0 && Value(d) > 0
    requires OneModulo(Value(e) * Value(d), (Value(p) - 1) * (Value(q) - 1))
    requires StandsForPower(c, Value(m), Max(1, Num(e.digits)), Value(n))
    requires StandsForPower(back, Value(c), Max(1, Num(d.digits)), Value(n))
    ensures back == m
  {
    hide Num, Pow;
    PositiveSign(e);
    PositiveSign(d);
    MulNonNegative(Value(e), Value(d));
    UnitOfBoth(Value(e) * Value(d), Value(p) - 1, Value(q) - 1);
    ResultResidue(Value(m), Value(e), Value(n));
    ResultResidue(Value(c), Value(d), Value(n));
    PowerRoundTrip(Value(p), Value(q), Value(e), Value(d), Value(m));
    SmallMod(Value(c), Value(n));
    SmallMod(Value(back), Value(n));
    ValueUnique(back, m);
  }

  lemma PositiveSign(a: Big)
    requires Canonical(a) && Value(a) > 0
    ensures Num(a.digits) == Value(a) && Max(1, Num(a.digits)) == Value(a)
  {
    ZeroDigits(a);
  }
}
