/** Greatest common divisors, inverses and powers of signed numbers modulo a positive one. */
module ModularInverse {
  import opened Arithmetic
  import opened NumberTheory
  import opened Digits
  import opened SignedBignum
  import opened DigitShifts
  import opened LongDivision

  // ---- Common divisors ---------------------------------------------------------------

  ghost predicate Common(d: int, a: int, b: int) {
    d > 0 && a % d == 0 && b % d == 0
  }

  /** g is the greatest common divisor: the common divisors are exactly the divisors of g. */
  ghost predicate IsGcd(g: int, a: int, b: int) {
    g >= 0 && forall d {:trigger Common(d, a, b)} {:trigger Common(d, g, g)} :: Common(d, a, b) <==> Common(d, g, g)
  }

  ghost predicate Coprime(a: int, b: int) {
    forall d {:trigger Common(d, a, b)} :: Common(d, a, b) ==> d == 1
  }

  /** Division with remainder keeps the common divisors. */
  lemma CommonStep(d: int, a: int, b: int)
    requires b > 0 && d > 0
    ensures Common(d, b, a % b) <==> Common(d, a, b)
  {
    var q := a / b;
    assert a == q * b + a % b;
    if b % d == 0 {
      CongruentMul(q, q, b, 0, d);
      if a % d == 0 {
        CongruentSub(a, 0, q * b, 0, d);
      }
      if (a % b) % d == 0 {
        CongruentAdd(q * b, 0, a % b, 0, d);
      }
    }
  }

  lemma GcdStep(g: int, a: int, b: int)
    requires b > 0 && IsGcd(g, b, a % b)
    ensures IsGcd(g, a, b)
  {
    forall d ensures Common(d, a, b) <==> Common(d, g, g) {
      if d > 0 {
        CommonStep(d, a, b);
        assert Common(d, b, a % b) <==> Common(d, g, g);
      }
    }
  }

  lemma GcdWithZero(a: int)
    requires a >= 0
    ensures IsGcd(a, a, 0) && IsGcd(a, 0, a)
  {
    forall d ensures (Common(d, a, 0) <==> Common(d, a, a)) && (Common(d, 0, a) <==> Common(d, a, a)) {
      if d > 0 {
        SmallMod(0, d);
      }
    }
  }

  lemma GcdSwap(g: int, a: int, b: int)
    requires IsGcd(g, a, b)
    ensures IsGcd(g, b, a)
  {
    forall d ensures Common(d, b, a) <==> Common(d, g, g) {
      assert Common(d, a, b) <==> Common(d, g, g);
    }
  }

  function Abs(x: int): nat {
    if x < 0 then -x else x
  }

  /** Signs do not matter for common divisors. */
  lemma CommonAbs(d: int, a: int, b: int)
    ensures Common(d, a, b) <==> Common(d, Abs(a), Abs(b))
  {
    if d > 0 {
      NegatedMultiple(a, d);
      NegatedMultiple(b, d);
    }
  }

  lemma NegatedMultiple(x: int, d: int)
    requires d > 0
    ensures x % d == 0 <==> (-x) % d == 0
  {
    CongruentSub(0, 0, x, x, d);
    SmallMod(0, d);
    if x % d == 0 {
      CongruentSub(0, 0, x, 0, d);
    }
    if (-x) % d == 0 {
      CongruentSub(0, 0, -x, 0, d);
    }
  }

  lemma GcdAbs(g: int, a: int, b: int)
    ensures IsGcd(g, a, b) <==> IsGcd(g, Abs(a), Abs(b))
  {
    forall d ensures Common(d, a, b) <==> Common(d, Abs(a), Abs(b)) {
      CommonAbs(d, a, b);
    }
  }

  /** What the remainder makes of two numbers. */
  function RestOf(a: int, n: int): int
    requires n != 0
  {
    if a < n then a else if a > n then Abs(a) % Abs(n) else 0
  }

  lemma RestIs(a: Big, n: Big)
    requires Canonical(a) && Canonical(n) && !IsZero(n) && (Below(n, a) ==> Divisible(a, n))
    ensures Value(n) != 0 && Rest(a, n) == RestOf(Value(a), Value(n))
  {
    hide Num;
    ZeroDigits(a);
    ZeroDigits(n);
  }

  /** The recursion ends: no negative number, a zero, equal numbers, or a negative one that divides the positive one. */
  predicate GcdEnds(a: int, b: int) {
    || (a >= 0 && b >= 0) || a == 0 || b == 0 || a == b
    || (a < 0 < b && b % -a == 0) || (b < 0 < a && a % -b == 0)
  }

  /** The operands of the recursive call. */
  function GcdNext(a: int, b: int): (int, int)
    requires a != 0 && b != 0
  {
    if a != b then (b, RestOf(a, b)) else (a, 0)
  }

  /** The operands k calls further on, or those of the last call. */
  function GcdRun(a: int, b: int, k: nat): (int, int)
    decreases k
  {
    if k == 0 || a == 0 || b == 0 then (a, b) else GcdRun(GcdNext(a, b).0, GcdNext(a, b).1, k - 1)
  }

  /** In all other cases the recursion never comes to an operand of zero. */
  lemma {:induction false} GcdNeverEnds(a: int, b: int, k: nat)
    requires !GcdEnds(a, b)
    ensures GcdRun(a, b, k).0 != 0 && GcdRun(a, b, k).1 != 0
    decreases k
  {
    if k == 0 {
    } else {
      GcdStaysEndless(a, b);
      GcdNeverEnds(GcdNext(a, b).0, GcdNext(a, b).1, k - 1);
    }
  }

  lemma GcdStaysEndless(a: int, b: int)
    requires !GcdEnds(a, b)
    ensures a != 0 && b != 0 && !GcdEnds(GcdNext(a, b).0, GcdNext(a, b).1)
  {
    if b < 0 && a > b {
      SmallMod(Abs(a) % Abs(b), Abs(b));
      if a < 0 {
        SmallMod(Abs(a), Abs(b));
      }
    }
  }

  /**
   * The recursion swaps its operands while the first is smaller, and then
   * reduces the first. With a negative operand the result may be negative.
   */
  method Gcd(a: Big, b: Big) returns (g: Big)
    requires Canonical(a) && Canonical(b) && GcdEnds(Value(a), Value(b))
    ensures Canonical(g) && IsGcd(Abs(Value(g)), Value(a), Value(b))
    ensures Value(a) >= 0 && Value(b) >= 0 ==> g.sign == 1
    decreases if Value(a) < 0 || Value(b) < 0 then 1 else 0,
      if Value(a) >= 0 && Value(b) >= 0 then Value(b)
      else if Value(a) == 0 || Value(b) == 0 then 0 else if Value(a) < Value(b) then 2 else 1,
      if Value(a) < Value(b) then 1 else 0, Abs(Value(a))
  {
    hide Num, IsGcd;
    ZeroDigits(a);
    ZeroDigits(b);
    if IsZero(b) {
      g := a;
      GcdOfZero(Value(a));
      return;
    }
    if IsZero(a) {
      g := b;
      GcdOfZero(Value(b));
      return;
    }
    var c := Compare(a, b);
    if c != 0 {
      GcdDivisible(a, b);
      RestIs(a, b);
      var tmp := Remainder(a, b);
      NextEnds(Value(a), Value(b));
      g := Gcd(b, tmp);
      GcdBack(Abs(Value(g)), Value(a), Value(b));
    } else {
      var tmp := Remainder(b, a);
      g := Gcd(a, tmp);
      GcdOfEqual(Abs(Value(g)), Value(a));
    }
  }

  lemma GcdOfZero(a: int)
    ensures IsGcd(Abs(a), a, 0) && IsGcd(Abs(a), 0, a)
  {
    hide IsGcd;
    GcdWithZero(Abs(a));
    GcdAbs(Abs(a), a, 0);
    GcdAbs(Abs(a), 0, a);
  }

  lemma GcdOfEqual(g: int, a: int)
    requires IsGcd(g, a, 0)
    ensures IsGcd(g, a, a)
  {
    forall d ensures Common(d, a, a) <==> Common(d, g, g) {
      if d > 0 {
        SmallMod(0, d);
      }
      assert Common(d, a, 0) <==> Common(d, g, g);
    }
  }

  /** A larger dividend is long enough for the divisor whenever the recursion ends. */
  lemma GcdDivisible(a: Big, b: Big)
    requires Canonical(a) && Canonical(b) && !IsZero(a) && !IsZero(b) && GcdEnds(Value(a), Value(b))
    requires Value(a) != Value(b)
    ensures Below(b, a) ==> Divisible(a, b)
  {
    hide Num;
    ZeroDigits(a);
    ZeroDigits(b);
    if Value(b) < 0 < Value(a) {
      if -Value(b) > Value(a) {
        SmallMod(Value(a), -Value(b));
      }
      SmallerDivisible(a, b);
    } else if Below(b, a) {
      SmallerDivisible(a, b);
    }
  }

  lemma NextEnds(a: int, b: int)
    requires a != 0 && b != 0 && a != b && GcdEnds(a, b)
    ensures GcdEnds(b, RestOf(a, b)) && (b < 0 < a ==> RestOf(a, b) == 0) && (a < 0 < b ==> RestOf(a, b) == a)
    ensures a > 0 && b > 0 ==> 0 <= RestOf(a, b) && RestOf(a, b) == a % b
    ensures (a > 0 && b > 0) || a < 0 < b || b < 0 < a
  {
    if 0 < a < b {
      SmallMod(a, b);
    }
  }

  /** The divisors the recursive call finds are those of its operands. */
  lemma GcdBack(g: int, a: int, b: int)
    requires a != 0 && b != 0 && a != b && GcdEnds(a, b) && IsGcd(g, b, RestOf(a, b))
    ensures IsGcd(g, a, b)
  {
    hide IsGcd;
    NextEnds(a, b);
    if a < 0 {
      GcdSwap(g, b, a);
    } else {
      GcdAbs(g, b, RestOf(a, b));
      if b < 0 {
        assert RestOf(a, b) == Abs(a) % Abs(b);
      }
      GcdStep(g, Abs(a), Abs(b));
      GcdAbs(g, a, b);
    }
  }

  // ---- Inverses -------------------------------------------------------------------------

  /**
   * The extended Euclidean algorithm for a modulo n, seen from outside: r0 and
   * r1 are the last two remainders, v1 is the cofactor of r1, p0 and p1 are the
   * magnitudes of both cofactors, which alternate in sign.
   */
  ghost predicate Euclidean(a: int, n: int, r0: int, r1: int, v1: int, p0: int, p1: int, sign: int) {
    && n > 0 && 0 <= r0 < r1 && 0 <= p0 && 0 <= p1 <= n && (sign == 1 || sign == -1)
    && v1 == sign * p1 && p1 * r0 + p0 * r1 == n
    && (a * v1) % n == r1 % n
  }

  /** The newer cofactor is exact as long as its remainder is not zero. */
  ghost predicate NewCofactor(a: int, n: int, r0: int, v0: int, p0: int, sign: int)
    requires n > 0
  {
    r0 > 0 ==> v0 == -(sign * p0) && (a * v0) % n == r0 % n
  }

  lemma EuclideanStarts(a: int, n: int)
    requires a > 0 && n > 0
    ensures Euclidean(a, n, n % a, a, 1, n / a, 1, 1)
    ensures NewCofactor(a, n, n % a, -(n / a), n / a, 1)
  {
    var q := n / a;
    assert n == q * a + n % a;
    if q < 0 {
      MulMonotone(q, -1, a);
    }
    assert a * (-q) == n % a + (-1) * n;
    ModAddMultiple(n % a, -1, n);
  }

  /** One division step: the cofactors grow, and stay below n until the remainder is zero. */
  lemma EuclideanStep(a: int, n: int, r0: int, r1: int, v0: int, v1: int, p0: int, p1: int, sign: int, q: int, r: int)
    requires n > 0 && r0 > 0 && Euclidean(a, n, r0, r1, v1, p0, p1, sign) && NewCofactor(a, n, r0, v0, p0, sign)
    requires q == r1 / r0 && r == r1 % r0
    ensures Euclidean(a, n, r, r0, v0, p1 + q * p0, p0, -sign)
    ensures v1 - q * v0 == sign * (p1 + q * p0)
    ensures (a * (v1 - q * v0)) % n == r % n
    ensures r > 0 ==> p1 + q * p0 < n
  {
    StepQuotient(q, r, r0, r1, p0);
    StepIdentity(p0, p1, q, r0, r, r1, n);
    StepCofactor(sign, p0, p1, q, v0, v1);
    StepCongruence(a, n, v0, v1, q, r0, r1, r);
    StepBounds(n, p0, p1, p1 + q * p0, r0, r1, r);
  }

  lemma StepQuotient(q: int, r: int, r0: int, r1: int, p0: int)
    requires 0 < r0 < r1 && p0 >= 0 && q == r1 / r0 && r == r1 % r0
    ensures q >= 0 && q * p0 >= 0 && r1 == q * r0 + r && 0 <= r < r0
  {
    MulNonNegative(q, p0);
  }

  lemma StepIdentity(p0: int, p1: int, q: int, r0: int, r: int, r1: int, n: int)
    requires r1 == q * r0 + r && p1 * r0 + p0 * r1 == n
    ensures p0 * r + (p1 + q * p0) * r0 == n
  {
    MulDistribute(p1, q * p0, r0);
    assert p0 * (q * r0 + r) == (q * p0) * r0 + p0 * r;
  }

  lemma StepCofactor(sign: int, p0: int, p1: int, q: int, v0: int, v1: int)
    requires v1 == sign * p1 && v0 == -(sign * p0)
    ensures v1 - q * v0 == sign * (p1 + q * p0) && v0 == (-sign) * p0
  {
    assert q * v0 == -(sign * (q * p0));
  }

  lemma StepCongruence(a: int, n: int, v0: int, v1: int, q: int, r0: int, r1: int, r: int)
    requires n > 0 && r1 == q * r0 + r && (a * v0) % n == r0 % n && (a * v1) % n == r1 % n
    ensures (a * (v1 - q * v0)) % n == r % n
  {
    CongruentMul(q, q, a * v0, r0, n);
    CongruentSub(a * v1, r1, q * (a * v0), q * r0, n);
    assert a * (v1 - q * v0) == a * v1 - q * (a * v0);
  }

  lemma StepBounds(n: int, p0: int, p1: int, p: int, r0: int, r1: int, r: int)
    requires 0 <= p0 && 0 <= p1 && 0 <= p && 0 <= r < r0 < r1 && p0 * r + p * r0 == n && n > 0
    requires p1 * r0 + p0 * r1 == n
    ensures p0 <= n
    ensures r > 0 ==> p < n
  {
    MulNonNegative(p1, r0);
    MulMonotone(1, r1, p0);
    MulNonNegative(p0, r);
    if r > 0 {
      MulMonotone(2, r0, p);
    }
  }

  /** Both pairs have the same greatest common divisors. */
  ghost predicate Leads(x: int, y: int, a: int, n: int) {
    forall g {:trigger IsGcd(g, x, y)} :: IsGcd(g, x, y) ==> IsGcd(g, a, n)
  }

  lemma LeadsStart(a: int, n: int)
    requires a > 0
    ensures Leads(a, n % a, a, n)
  {
    hide IsGcd;
    forall g | IsGcd(g, a, n % a) ensures IsGcd(g, a, n) {
      GcdStep(g, n, a);
      GcdSwap(g, n, a);
    }
  }

  lemma LeadsStep(x: int, y: int, a: int, n: int)
    requires y > 0 && Leads(x, y, a, n)
    ensures Leads(y, x % y, a, n)
  {
    hide IsGcd;
    forall g | IsGcd(g, y, x % y) ensures IsGcd(g, a, n) {
      GcdStep(g, x, y);
    }
  }

  /** Everything known before a round of the algorithm, on the numbers it works with. */
  ghost predicate Round(a: int, n: int, newer: Big, older: Big, vNewer: Big, vOlder: Big, p0: int, p1: int, sign: int) {
    && Canonical(newer) && Canonical(older) && Canonical(vNewer) && Canonical(vOlder)
    && Euclidean(a, n, Value(newer), Value(older), Value(vOlder), p0, p1, sign)
    && NewCofactor(a, n, Value(newer), Value(vNewer), p0, sign)
    && Leads(Value(older), Value(newer), a, n)
  }

  /** One round: the next remainder and its cofactor, reduced modulo n. */
  method EuclideanRound(ghost a: int, n: Big, newer: Big, older: Big, vNewer: Big, vOlder: Big,
                        ghost p0: int, ghost p1: int, ghost sign: int)
    returns (next: Big, vNext: Big, ghost p: int)
    requires Canonical(n) && Value(n) > 0 && Value(newer) > 0
    requires Round(a, Value(n), newer, older, vNewer, vOlder, p0, p1, sign)
    ensures Round(a, Value(n), next, newer, vNext, vNewer, p, p0, -sign)
    ensures 0 <= Value(next) < Value(newer)
  {
    hide Num, IsGcd, Leads;
    var q := Divide(older, newer);
    next := Remainder(older, newer);
    var tmp0 := Mult(q, vNewer);
    var tmp1 := Sub(vOlder, tmp0);
    vNext := Remainder(tmp1, n);
    p := p1 + Value(q) * p0;
    EuclideanStep(a, Value(n), Value(newer), Value(older), Value(vNewer), Value(vOlder), p0, p1, sign,
                  Value(q), Value(next));
    LeadsStep(Value(older), Value(newer), a, Value(n));
    ReducedCofactor(a, Value(n), Value(next), Value(tmp1), Value(vNext), p, sign);
  }

  lemma ReducedCofactor(a: int, n: int, r: int, v: int, reduced: int, p: int, sign: int)
    requires n > 0 && (sign == 1 || sign == -1) && v == sign * p && (a * v) % n == r % n && (r > 0 ==> 0 <= p < n)
    requires reduced == if v < 0 then v else v % n
    ensures NewCofactor(a, n, r, reduced, p, -sign)
  {
    if r > 0 && v >= 0 {
      SmallMod(v, n);
    }
  }

  /**
   * The result times a positive a is, modulo n, the greatest common divisor of
   * a and n: an inverse exactly when they are coprime. A negative a is taken only
   * if it divides n, and the result is then one.
   */
  method Inverse(a: Big, n: Big) returns (x: Big, ghost g: int)
    requires Canonical(a) && Canonical(n) && Value(n) > 0 && InverseEnds(Value(a), Value(n))
    ensures Canonical(x) && 0 <= Value(x) < Value(n)
    ensures Value(a) > 0 ==> IsGcd(g, Value(a), Value(n)) && (Value(a) * Value(x)) % Value(n) == g % Value(n)
    ensures Value(a) < 0 ==> Value(x) == 1 % Value(n)
  {
    hide Num, IsGcd, Leads, Canonical, WellFormed, Euclidean, NewCofactor, Round;
    ghost var big, modulus := Value(a), Value(n);
    var r, v := new Big[2](_ => a), new Big[2](_ => a);
    CanonicalIsWellFormed(a);
    CanonicalIsWellFormed(n);
    FirstDivision(a, n);
    r[0] := Remainder(n, a);
    r[1] := a;
    var q := Divide(n, a);
    One();
    v[1] := Big(1, [1]);
    v[0] := q;
    v[0] := NegateUnlessZero(v[0]);
    ghost var sign, p0, p1 := 1, Value(n) / Value(a), 1;
    if big > 0 {
      RoundStarts(a, n, r[0], v[0], q);
    } else {
      NothingLeft(r[0]);
    }
    var mark, mark1 := 0, 1;
    while !IsZero(r[mark])
      invariant 0 <= mark <= 1 && mark1 == 1 - mark
      invariant if big > 0 then Round(big, modulus, r[mark], r[mark1], v[mark], v[mark1], p0, p1, sign)
        else IsZero(r[mark]) && v[mark1] == Big(1, [1])
      decreases Value(r[mark])
    {
      mark, mark1 := 1 - mark, 1 - mark1;
      PositiveRemainder(big, modulus, r[mark1], r[mark], v[mark1], v[mark], p0, p1, sign);
      var next, vNext;
      ghost var p;
      next, vNext, p := EuclideanRound(big, n, r[mark1], r[mark], v[mark1], v[mark], p0, p1, sign);
      r[mark] := next;
      v[mark] := vNext;
      p0, p1, sign := p, p0, -sign;
    }
    g := Value(r[mark1]);
    if big > 0 {
      LastRound(big, modulus, r[mark], r[mark1], v[mark], v[mark1], p0, p1, sign);
      FinalCofactor(big, modulus, Value(v[1 - mark]), g);
    } else {
      ModAddMultiple(1, 1, modulus);
    }
    x := IntoRange(v[1 - mark], n);
  }

  /** The loop ends: for positive numbers, and for negative ones that divide the modulus. */
  predicate InverseEnds(a: int, n: int) {
    a > 0 || (a < 0 && n % -a == 0)
  }

  /** The last two remainders after k rounds, or those the loop ends with. */
  function RemaindersAfter(newer: int, older: int, k: nat): (int, int)
    decreases k
  {
    if k == 0 || newer == 0 then (newer, older) else RemaindersAfter(RestOf(older, newer), newer, k - 1)
  }

  /** For a negative number that does not divide the modulus the loop goes on for ever. */
  lemma {:induction false} InverseNeverEnds(a: int, n: int, k: nat)
    requires a < 0 < n && !InverseEnds(a, n)
    ensures RemaindersAfter(RestOf(n, a), a, k).0 != 0
  {
    var r := RestOf(n, a);
    if k <= 1 {
    } else {
      SmallMod(r, -a);
      SmallMod(r % -a, -a);
      assert RestOf(a, r) == a && RestOf(r, a) == r;
      SmallMod(n % -a, -a);
      EndlessRounds(a, r, k);
    }
  }

  lemma {:induction false} EndlessRounds(a: int, r: int, k: nat)
    requires a < 0 < r < -a
    ensures RemaindersAfter(r, a, k).0 != 0
  {
    SmallMod(r, -a);
    if k <= 1 {
    } else {
      assert RemaindersAfter(r, a, k) == RemaindersAfter(a, r, k - 1) == RemaindersAfter(r, a, k - 2);
      EndlessRounds(a, r, k - 2);
    }
  }

  /** One, which is what comes back for a negative number, is its inverse only for -1 modulo one or two. */
  lemma NegativeInverseExactly(a: int, n: int)
    requires a < 0 < n && InverseEnds(a, n)
    ensures (a * (1 % n)) % n == 1 % n <==> a == -1 && n <= 2
  {
    if n == 1 {
      if a < -1 {
        SmallMod(1, -a);
      }
    } else if a % n == 1 {
      var m, k := -a, 1 - a;
      CongruentSub(1, 1, a, 1, n);
      SmallMod(1, n);
      SmallMod(0, n);
      assert k % n == 0;
      DivisorOfMultiple(m, n, k);
      SmallMod(0, m);
      DivModUnique(m, m, 1, 0);
      DividesOne(m, k, m);
      if n > 2 {
        SmallMod(2, n);
      }
    } else {
      SmallMod(1, n);
    }
  }

  lemma DivisorOfMultiple(m: int, n: int, k: int)
    requires m > 0 && n > 0 && n % m == 0 && k % n == 0
    ensures k % m == 0
  {
    MultipleOfDivisible(m, n, k / n);
    assert k == n * (k / n);
  }

  /** The inverse of -1 modulo 5 is 4, but one comes back. */
  lemma NegativeInverseIsWrong()
    ensures InverseEnds(-1, 5) && 1 % 5 == 1 && (-1 * 1) % 5 == 4 && (-1 * 4) % 5 == 1
  {
  }

  /** The first division of the modulus: a number it ends for is long enough, and leaves nothing if it is negative. */
  lemma FirstDivision(a: Big, n: Big)
    requires Canonical(a) && Canonical(n) && Value(n) > 0 && InverseEnds(Value(a), Value(n))
    ensures Value(a) > 0 || Divisible(n, a)
    ensures Value(a) < 0 ==> Below(a, n) && Rest(n, a) == 0
  {
    hide Num;
    ZeroDigits(a);
    ZeroDigits(n);
    if Value(a) < 0 {
      if -Value(a) > Value(n) {
        SmallMod(Value(n), -Value(a));
      }
      SmallerDivisible(n, a);
    }
  }

  lemma NothingLeft(r: Big)
    requires WellFormed(r) && Value(r) == 0
    ensures IsZero(r)
  {
    ZeroDigits(r);
  }

  /** The first remainder and its cofactor. */
  lemma RoundStarts(a: Big, n: Big, r: Big, v: Big, q: Big)
    requires Canonical(a) && Canonical(n) && Canonical(r) && Canonical(v) && Value(a) > 0 && Value(n) > 0
    requires Value(r) == Value(n) % Value(a) && Value(q) == Value(n) / Value(a) && Value(v) == -Value(q)
    ensures Round(Value(a), Value(n), r, a, v, Big(1, [1]), Value(n) / Value(a), 1, 1)
  {
    hide Num, Leads, IsGcd;
    One();
    EuclideanStarts(Value(a), Value(n));
    LeadsStart(Value(a), Value(n));
  }

  /** A cofactor that may be negative becomes a residue. */
  method IntoRange(v: Big, n: Big) returns (x: Big)
    requires Canonical(v) && Canonical(n) && Value(n) > 0 && Value(v) >= -Value(n)
    ensures Canonical(x) && Value(x) == (Value(v) + Value(n)) % Value(n)
  {
    hide Num;
    var tmp0 := Add(v, n);
    x := Remainder(tmp0, n);
  }

  lemma One()
    ensures Canonical(Big(1, [1])) && Value(Big(1, [1])) == 1
  {
  }

  method NegateUnlessZero(a: Big) returns (r: Big)
    requires Canonical(a)
    ensures Canonical(r) && Value(r) == -Value(a)
  {
    ZeroDigits(a);
    r := a;
    if !IsZero(r) {
      r := r.(sign := r.sign * -1);
    }
  }

  lemma PositiveRemainder(a: int, n: int, newer: Big, older: Big, vNewer: Big, vOlder: Big, p0: int, p1: int, sign: int)
    requires Round(a, n, newer, older, vNewer, vOlder, p0, p1, sign) && !IsZero(newer)
    ensures Value(newer) > 0
  {
    ZeroDigits(newer);
  }

  /** When the remainder is zero, the last divisor is the greatest common divisor. */
  lemma LastRound(a: int, n: int, newer: Big, older: Big, vNewer: Big, vOlder: Big, p0: int, p1: int, sign: int)
    requires Round(a, n, newer, older, vNewer, vOlder, p0, p1, sign) && IsZero(newer)
    ensures Value(newer) == 0 && n > 0 && Canonical(vOlder) && -n <= Value(vOlder) <= n
    ensures IsGcd(Value(older), a, n) && (a * Value(vOlder)) % n == Value(older) % n
  {
    hide Num, IsGcd;
    ZeroDigits(newer);
    GcdWithZero(Value(older));
  }

  lemma FinalCofactor(a: int, n: int, v: int, g: int)
    requires n > 0 && -n <= v <= n && (a * v) % n == g % n
    ensures (a * ((v + n) % n)) % n == g % n
  {
    ModAddMultiple(v, 1, n);
    ModOfMod(v + n, n);
    CongruentMul(a, a, (v + n) % n, v, n);
  }

  // ---- Inverses of coprime numbers ----------------------------------------------------

  /** A multiple of a is one modulo n only if a and n are coprime. */
  lemma InverseNeedsCoprime(a: int, n: int, x: int)
    requires n > 1 && (a * x) % n == 1
    ensures Coprime(a, n)
  {
    var k := (a * x) / n;
    forall d | Common(d, a, n) ensures d == 1 {
      MultipleOfDivisible(d, a, x);
      MultipleOfDivisible(d, n, k);
      DividesOne(d, a * x, n * k);
    }
  }

  lemma DividesOne(d: int, x: int, y: int)
    requires d > 0 && x % d == 0 && y % d == 0 && x == y + 1
    ensures d == 1
  {
    SmallMod(0, d);
    CongruentSub(x, 0, y, 0, d);
    if d > 1 {
      SmallMod(1, d);
    }
  }

  lemma GcdPositive(g: int, a: int, n: int)
    requires IsGcd(g, a, n) && n > 0
    ensures g > 0
  {
    SmallMod(n, n + 1);
    SmallMod(0, n + 1);
    assert Common(n + 1, g, g) <==> Common(n + 1, a, n);
  }

  /** The greatest common divisor of coprime numbers is one, and conversely. */
  lemma CoprimeGcd(g: int, a: int, n: int)
    requires IsGcd(g, a, n) && n > 0
    ensures Coprime(a, n) <==> g == 1
  {
    GcdPositive(g, a, n);
    if Coprime(a, n) {
      DivModUnique(g, g, 1, 0);
      assert Common(g, g, g);
    }
    if g == 1 {
      forall d | Common(d, a, n) ensures d == 1 {
        assert Common(d, g, g);
        if d > 1 {
          SmallMod(1, d);
        }
      }
    }
  }

  /** The result of Inverse is an inverse exactly for a coprime to n. */
  lemma InverseExactly(g: int, a: int, n: int, x: int)
    requires IsGcd(g, a, n) && n > 1 && (a * x) % n == g % n
    ensures (a * x) % n == 1 <==> Coprime(a, n)
  {
    if (a * x) % n == 1 {
      InverseNeedsCoprime(a, n, x);
    }
    if Coprime(a, n) {
      CoprimeGcd(g, a, n);
      SmallMod(1, n);
    }
  }

  // ---- Powers ---------------------------------------------------------------------------------

  /** The product modulo n, except that a negative one is not reduced. */
  method MultMod(a: Big, b: Big, n: Big) returns (r: Big)
    requires Canonical(a) && Canonical(b) && Canonical(n) && Value(n) > 0
    ensures Canonical(r) && Value(r) % Value(n) == (Value(a) * Value(b)) % Value(n)
    ensures Value(a) * Value(b) < 0 ==> Value(r) == Value(a) * Value(b)
    ensures Value(a) * Value(b) >= 0 ==> 0 <= Value(r) < Value(n)
  {
    hide Num;
    var product := Mult(a, b);
    r := Remainder(product, n);
    ModOfMod(Value(product), Value(n));
  }

  /**
   * What comes back for a power: a residue, except that odd powers of a negative
   * base come from a last multiplication whose product is not reduced.
   */
  function PowerResult(a: int, e: nat, n: int): int
    requires e > 0 && n > 0
  {
    if a >= 0 || e % 2 == 0 then Pow(a, e) % n else if e == 1 then a else (Pow(a, e - 1) % n) * a
  }

  ghost predicate StandsForPower(r: Big, a: int, e: nat, n: int) {
    Canonical(r) && n > 0 && e > 0 && Value(r) == PowerResult(a, e, n)
  }

  /** It is always congruent to the power. */
  lemma ResultResidue(a: int, e: nat, n: int)
    requires e > 0 && n > 0
    ensures PowerResult(a, e, n) % n == Pow(a, e) % n
    ensures a >= 0 || e % 2 == 0 ==> 0 <= PowerResult(a, e, n) < n
  {
    ModOfMod(Pow(a, e), n);
    ModOfMod(Pow(a, e - 1), n);
    CongruentMul(Pow(a, e - 1) % n, Pow(a, e - 1), a, a, n);
    assert Pow(a, e) == a * Pow(a, e - 1);
    if e == 1 {
      assert Pow(a, 0) == 1;
    }
  }

  /** Squaring makes it a residue of the doubled power. */
  lemma SquaredResult(a: int, e: nat, n: int)
    requires e > 0 && n > 0
    ensures var x := PowerResult(a, e, n); x * x >= 0 && (x * x) % n == PowerResult(a, 2 * e, n)
  {
    var x := PowerResult(a, e, n);
    ResultResidue(a, e, n);
    CongruentMul(x, Pow(a, e), x, Pow(a, e), n);
    PowAdd(a, e, e);
    hide Pow;
  }

  /** A multiplication after a square. */
  lemma MultipliedResult(a: int, e: nat, n: int)
    requires e > 0 && n > 0
    ensures var y := PowerResult(a, 2 * e, n) * a;
      PowerResult(a, 2 * e + 1, n) == if y < 0 then y else y % n
  {
    var s := PowerResult(a, 2 * e, n);
    ResultResidue(a, 2 * e, n);
    ModOfMod(Pow(a, 2 * e), n);
    CongruentMul(s, Pow(a, 2 * e), a, a, n);
    assert Pow(a, 2 * e + 1) == a * Pow(a, 2 * e);
    if a >= 0 {
      MulNonNegative(s, a);
    } else {
      NegativeFactor(s, a);
      SmallMod(0, n);
    }
  }

  lemma NegativeFactor(s: int, a: int)
    requires s >= 0 && a < 0
    ensures s * a <= 0 && (s * a == 0 <==> s == 0)
  {
  }

  /** One bit of the exponent: square, and multiply if the bit is set. */
  method ExpBit(r: Big, a: Big, n: Big, bit: bool, ghost e: nat) returns (r': Big)
    requires Canonical(a) && Canonical(n) && Value(n) > 0 && StandsForPower(r, Value(a), e, Value(n))
    ensures StandsForPower(r', Value(a), 2 * e + (if bit then 1 else 0), Value(n))
  {
    hide Num, Canonical, PowerResult;
    r' := MultMod(r, r, n);
    SquaredResult(Value(a), e, Value(n));
    ResultResidue(Value(a), 2 * e, Value(n));
    SmallMod(Value(r'), Value(n));
    if bit {
      ghost var squared := Value(r');
      r' := MultMod(r', a, n);
      MultipliedResult(Value(a), e, Value(n));
      ReducedProduct(Value(r'), squared * Value(a), Value(n));
    }
  }

  lemma ReducedProduct(r: int, y: int, n: int)
    requires n > 0 && r % n == y % n && (y >= 0 ==> 0 <= r < n) && (y < 0 ==> r == y)
    ensures r == if y < 0 then y else y % n
  {
    if y >= 0 {
      SmallMod(r, n);
    }
  }

  /** The powers made from the lower bits of one digit. */
  method ExpDigit(r: Big, a: Big, n: Big, digit: int, bits: nat, ghost e: nat) returns (r': Big)
    requires Canonical(a) && Canonical(n) && Value(n) > 0 && 0 <= digit < 16 && bits <= 4
    requires StandsForPower(r, Value(a), e, Value(n))
    ensures StandsForPower(r', Value(a), TwoTo(bits) * e + digit % TwoTo(bits), Value(n))
  {
    hide Num, Canonical, Pow;
    r' := r;
    var j := bits;
    ghost var done := e;
    while j > 0
      invariant 0 <= j <= bits
      invariant done == TwoTo(bits - j) * e + (digit % TwoTo(bits)) / TwoTo(j)
      invariant StandsForPower(r', Value(a), done, Value(n))
    {
      j := j - 1;
      NextBit(digit, bits, j, e);
      r' := ExpBit(r', a, n, Bit(digit, j), done);
      done := 2 * done + if Bit(digit, j) then 1 else 0;
    }
  }

  lemma NextBit(digit: int, bits: nat, j: nat, e: nat)
    requires 0 <= digit < 16 && j < bits <= 4
    ensures TwoTo(bits - j) * e + (digit % TwoTo(bits)) / TwoTo(j)
      == 2 * (TwoTo(bits - j - 1) * e + (digit % TwoTo(bits)) / TwoTo(j + 1)) + if Bit(digit, j) then 1 else 0
  {
    BitOfDigit(digit, bits, j);
    MulAssoc(2, TwoTo(bits - j - 1), e);
  }

  lemma BitOfDigit(digit: int, bits: nat, j: nat)
    requires 0 <= digit < 16 && j < bits <= 4
    ensures TwoTo(bits - j) == 2 * TwoTo(bits - j - 1)
    ensures (digit % TwoTo(bits)) / TwoTo(j) == 2 * ((digit % TwoTo(bits)) / TwoTo(j + 1))
        + if Bit(digit, j) then 1 else 0
  {
    LowBits(digit);
    PowersOfTwo();
    hide TwoTo, Pow2, Bit;
    if bits == 1 {
      BitAt(digit, digit % 2, j);
    } else if bits == 2 {
      BitAt(digit, digit % 4, j);
    } else if bits == 3 {
      BitAt(digit, digit % 8, j);
    } else {
      BitAt(digit, digit % 16, j);
    }
  }

  /** What is left of a digit below a bit keeps the bits below it. */
  lemma LowBits(digit: int)
    requires 0 <= digit < 16
    ensures 0 <= digit % 2 < 2 && (digit % 2) % 2 == digit % 2
    ensures 0 <= digit % 4 < 4 && (digit % 4) % 2 == digit % 2 && ((digit % 4) / 2) % 2 == (digit / 2) % 2
    ensures 0 <= digit % 8 < 8 && (digit % 8) % 2 == digit % 2 && ((digit % 8) / 2) % 2 == (digit / 2) % 2
    ensures ((digit % 8) / 4) % 2 == (digit / 4) % 2
    ensures digit % 16 == digit
  {
  }

  lemma BitAt(digit: int, y: int, j: nat)
    requires 0 <= digit < 16 && 0 <= y < 16 && j < 4
    requires if j == 0 then y % 2 == digit % 2 else if j == 1 then (y / 2) % 2 == (digit / 2) % 2
      else if j == 2 then (y / 4) % 2 == (digit / 4) % 2 else (y / 8) % 2 == (digit / 8) % 2
    ensures y / TwoTo(j) == 2 * (y / TwoTo(j + 1)) + if Bit(digit, j) then 1 else 0
  {
    PowersOfTwo();
    Halves(y);
    hide TwoTo, Pow2;
    if j == 0 {
      assert digit / TwoTo(0) == digit;
    }
  }

  lemma PowersOfTwo()
    ensures TwoTo(0) == 1 && TwoTo(1) == 2 && TwoTo(2) == 4 && TwoTo(3) == 8 && TwoTo(4) == 16
  {
  }

  lemma Halves(y: int)
    requires 0 <= y < 16
    ensures y / 1 == y && y == 2 * (y / 2) + y % 2 && y / 2 == 2 * (y / 4) + (y / 2) % 2
    ensures y / 4 == 2 * (y / 8) + (y / 4) % 2 && y / 8 == 2 * (y / 16) + (y / 8) % 2
  {
  }

  /**
   * Left-to-right exponentiation, bit by bit. The top bit of the exponent is
   * taken to be set, so an exponent of zero counts as one; the sign of the
   * exponent is not looked at.
   */
  method ExpMod(a: Big, b: Big, n: Big) returns (r: Big)
    requires Canonical(a) && WellFormed(b) && Canonical(n) && Value(n) > 0
    ensures StandsForPower(r, Value(a), Max(1, Num(b.digits)), Value(n))
  {
    hide Num, Canonical, Pow, StandsForPower, Bits, TwoTo, Exponent, AreDigits;
    var size := |b.digits|;
    var start := StartBits(b.digits);
    ghost var e: nat := ExponentStarts(b.digits);
    r := ExpTopDigit(a, n, b.digits[size - 1], start);
    var i := size - 2;
    while i >= 0
      invariant -1 <= i <= size - 2
      invariant Exponent(b.digits, i + 1, e)
      invariant StandsForPower(r, Value(a), e, Value(n))
    {
      ExponentGrows(b.digits, i, e);
      r := ExpWholeDigit(r, a, n, b.digits[i], e);
      e := 16 * e + b.digits[i];
      i := i - 1;
    }
    ExponentDone(b.digits, e);
  }

  /** e is what the digits from i on denote, except that a single zero counts as one. */
  ghost predicate Exponent(b: seq<int>, i: nat, e: nat) {
    i < |b| && e == if |b| == 1 then Max(1, Num(b)) else Num(b[i..])
  }

  lemma ExponentStarts(b: seq<int>) returns (e: nat)
    requires |b| > 0 && AreDigits(b) && (|b| > 1 ==> b[|b| - 1] != 0)
    ensures Exponent(b, |b| - 1, e) && e == Max(1, b[|b| - 1]) && 0 <= b[|b| - 1] < 16
  {
    hide Num;
    TopDigit(b);
    e := Max(1, b[|b| - 1]);
  }

  lemma ExponentGrows(b: seq<int>, i: nat, e: nat)
    requires AreDigits(b) && i + 1 < |b| && Exponent(b, i + 1, e)
    ensures 0 <= b[i] < 16 && Exponent(b, i, 16 * e + b[i])
  {
    hide Num;
    NumCons(b[i..]);
    assert b[i..][1..] == b[i + 1..];
  }

  lemma ExponentDone(b: seq<int>, e: nat)
    requires Exponent(b, 0, e) && AreDigits(b) && (|b| > 1 ==> b[|b| - 1] != 0)
    ensures e == Max(1, Num(b))
  {
    hide Num;
    assert b[0..] == b;
    if |b| > 1 {
      NumPositive(b);
    }
  }

  /** How many bits of the top digit to use. */
  method StartBits(b: seq<int>) returns (start: nat)
    requires |b| > 0 && AreDigits(b) && (|b| > 1 ==> b[|b| - 1] != 0)
    ensures start == Bits(b[|b| - 1])
    ensures |b| == 1 ==> Num(b) == b[0]
    ensures Num(b[|b| - 1..]) == b[|b| - 1]
  {
    hide Num;
    TopDigit(b);
    start := Length(b);
    start := start % 4;
    if start == 0 {
      start := 4;
    }
  }

  /** The power made from the top digit: its top bit stands for a itself. */
  method ExpTopDigit(a: Big, n: Big, digit: int, start: nat) returns (r: Big)
    requires Canonical(a) && Canonical(n) && Value(n) > 0 && 0 <= digit < 16 && start == Bits(digit)
    ensures StandsForPower(r, Value(a), Max(1, digit), Value(n))
  {
    hide Num, Canonical, Pow, StandsForPower;
    CanonicalIsWellFormed(a);
    CanonicalIsWellFormed(n);
    r := Remainder(a, n);
    FirstPower(r, Value(a), Value(n));
    r := ExpDigit(r, a, n, digit, start - 1, 1);
    assert TwoTo(start - 1) * 1 + digit % TwoTo(start - 1) == Max(1, digit);
  }

  method ExpWholeDigit(r: Big, a: Big, n: Big, digit: int, ghost e: nat) returns (r': Big)
    requires Canonical(a) && Canonical(n) && Value(n) > 0 && 0 <= digit < 16
    requires StandsForPower(r, Value(a), e, Value(n))
    ensures StandsForPower(r', Value(a), 16 * e + digit, Value(n))
  {
    hide Num, Canonical, Pow, StandsForPower;
    r' := ExpDigit(r, a, n, digit, 4, e);
    SmallMod(digit, 16);
  }

  lemma FirstPower(r: Big, a: int, n: int)
    requires Canonical(r) && n > 0 && Value(r) == if a < 0 then a else a % n
    ensures StandsForPower(r, a, 1, n)
  {
    assert Pow(a, 1) == a * Pow(a, 0);
  }

  /** The top digit, and how many bits it has. */
  lemma TopDigit(b: seq<int>)
    requires |b| > 0 && AreDigits(b) && (|b| > 1 ==> b[|b| - 1] != 0)
    ensures Bits(b[|b| - 1]) == if BitLen(b) % 4 == 0 then 4 else BitLen(b) % 4
    ensures |b| == 1 ==> Num(b) == b[0]
    ensures Num(b[|b| - 1..]) == b[|b| - 1]
  {
    hide Num, Bits, TwoTo, Pow2;
    assert b[|b| - 1..] == [b[|b| - 1]];
    NumOne(b[|b| - 1]);
    if |b| == 1 {
      assert b == b[0..];
    }
  }

  /**
   * The power comes out right exactly if: for a base that is not negative, the
   * exponent is not zero or one is the residue anyway; for a negative base, the
   * exponent is even but not zero, or n divides the power before the last factor.
   */
  lemma ExpModExactly(r: Big, a: int, b: nat, n: int)
    requires StandsForPower(r, a, Max(1, b), n)
    ensures Value(r) == Pow(a, b) % n <==>
      if a >= 0 then b > 0 || a % n == 1 % n else b > 0 && (b % 2 == 0 || (b >= 3 && Pow(a, b - 1) % n == 0))
  {
    ResultResidue(a, Max(1, b), n);
    if b == 0 {
      assert Pow(a, 1) == a * Pow(a, 0);
    } else if a < 0 && b % 2 == 1 {
      ModOfMod(Pow(a, b), n);
      if b >= 3 {
        NegativeFactor(Pow(a, b - 1) % n, a);
        SmallMod(0, n);
      }
    }
  }

  /** Two to the power of zero modulo five comes out as two. */
  lemma PowerOfZeroIsWrong(r: Big)
    requires StandsForPower(r, 2, Max(1, 0), 5)
    ensures Value(r) == 2 && Pow(2, 0) % 5 == 1
  {
    assert Pow(2, 1) == 2 * Pow(2, 0);
  }

  /** Odd powers of negative numbers come out negative: (-1)^1 and (-2)^3 modulo five. */
  lemma NegativePowerIsWrong(r: Big, r': Big)
    requires StandsForPower(r, -1, 1, 5) && StandsForPower(r', -2, 3, 5)
    ensures Value(r) == -1 && Pow(-1, 1) % 5 == 4 && Value(r') == -8 && Pow(-2, 3) % 5 == 2
  {
    assert Pow(-1, 1) == -1 * Pow(-1, 0);
    assert Pow(-2, 1) == -2 * Pow(-2, 0) && Pow(-2, 2) == -2 * Pow(-2, 1) && Pow(-2, 3) == -2 * Pow(-2, 2);
  }
}
