/** The first 64 primes, in order. */
module FirstPrimes {
  import opened Arithmetic
  import opened NumberTheory

  /** The first 64 primes. */
  function PrimeAt(t: nat): nat
    requires t < 64
  {
    match t
    case 0 => 2 case 1 => 3 case 2 => 5 case 3 => 7
    case 4 => 11 case 5 => 13 case 6 => 17 case 7 => 19
    case 8 => 23 case 9 => 29 case 10 => 31 case 11 => 37
    case 12 => 41 case 13 => 43 case 14 => 47 case 15 => 53
    case 16 => 59 case 17 => 61 case 18 => 67 case 19 => 71
    case 20 => 73 case 21 => 79 case 22 => 83 case 23 => 89
    case 24 => 97 case 25 => 101 case 26 => 103 case 27 => 107
    case 28 => 109 case 29 => 113 case 30 => 127 case 31 => 131
    case 32 => 137 case 33 => 139 case 34 => 149 case 35 => 151
    case 36 => 157 case 37 => 163 case 38 => 167 case 39 => 173
    case 40 => 179 case 41 => 181 case 42 => 191 case 43 => 193
    case 44 => 197 case 45 => 199 case 46 => 211 case 47 => 223
    case 48 => 227 case 49 => 229 case 50 => 233 case 51 => 239
    case 52 => 241 case 53 => 251 case 54 => 257 case 55 => 263
    case 56 => 269 case 57 => 271 case 58 => 277 case 59 => 281
    case 60 => 283 case 61 => 293 case 62 => 307 case _ => 311
  }

  /** No prime below 19 divides n, unless it is n: below 361 that decides whether n is prime. */
  predicate PassesTrials(n: nat) {
    && n >= 2
    && (n % 2 != 0 || n == 2) && (n % 3 != 0 || n == 3) && (n % 5 != 0 || n == 5) && (n % 7 != 0 || n == 7)
    && (n % 11 != 0 || n == 11) && (n % 13 != 0 || n == 13) && (n % 17 != 0 || n == 17)
  }

  /** A proper divisor below 19 fails one of the trials. */
  lemma SmallDivisorFails(n: nat, f: nat, k: nat)
    requires n == f * k && 2 <= f < 19 && f < n
    ensures !PassesTrials(n)
  {
    var q := if f % 2 == 0 then 2 else if f % 3 == 0 then 3 else if f % 5 == 0 then 5 else if f % 7 == 0 then 7 else f;
    var c := f / q;
    assert f == c * q && q < 19;
    MulAssoc(k, c, q);
    ModOfMultiple(k * c, q);
    assert n % q == 0 && n != q;
  }

  lemma TrialsDecide(n: nat)
    requires n < 361
    ensures Prime(n) <==> PassesTrials(n)
  {
    if PassesTrials(n) {
      forall d | 1 < d < n ensures !Divides(d, n) {
        DivisorFails(n, d);
      }
    } else if n >= 2 {
      var q :| (q == 2 || q == 3 || q == 5 || q == 7 || q == 11 || q == 13 || q == 17) && n % q == 0 && n != q;
      if q > n {
        SmallMod(n, q);
      }
      assert Divides(q, n);
    }
  }

  lemma DivisorFails(n: nat, d: nat)
    requires 1 < d < n < 361
    ensures Divides(d, n) ==> !PassesTrials(n)
  {
    if Divides(d, n) {
      var e := n / d;
      assert n == d * e;
      if d < 19 {
        SmallDivisorFails(n, d, e);
      } else {
        if e >= 19 {
          MulMonotone(19, e, d);
        }
        if e < 2 {
          MulMonotone(e, 1, d);
        }
        MulStrict(1, d, e);
        SmallDivisorFails(n, e, d);
      }
    }
  }

  /** The next odd number that passes the trials, if it comes before the limit. */
  function Next(n: nat, limit: nat): (p: nat)
    ensures n < p
    decreases limit - n
  {
    if n + 2 >= limit || PassesTrials(n + 2) then n + 2 else Next(n + 2, limit)
  }

  lemma {:induction false} NothingBetween(n: nat, limit: nat, m: nat)
    requires n % 2 == 1 && 3 <= n < m < Next(n, limit)
    ensures !PassesTrials(m)
    decreases limit - n
  {
    if m % 2 == 1 && m > n + 2 {
      NothingBetween(n + 2, limit, m);
    }
  }

  /** The next entry of the table is the next odd number that passes the trials. */
  predicate Step(t: nat)
    requires 1 <= t < 63
  {
    PassesTrials(PrimeAt(t + 1)) && 3 <= PrimeAt(t) < 361 && PrimeAt(t) % 2 == 1 && PrimeAt(t + 1) < 361
        && Next(PrimeAt(t), 361) == PrimeAt(t + 1)
  }

  lemma StepsFrom0(t: nat)
    requires 1 <= t < 9
    ensures Step(t)
  {
    match t
    case 1 => assert Next(3, 361) == 5;
    case 2 => assert Next(5, 361) == 7; case 3 => assert Next(7, 361) == 11;
    case 4 => assert Next(11, 361) == 13; case 5 => assert Next(13, 361) == 17;
    case 6 => assert Next(17, 361) == 19; case 7 => assert Next(19, 361) == 23;
    case 8 => assert Next(23, 361) == 29;
  }

  lemma StepsFrom9(t: nat)
    requires 9 <= t < 18
    ensures Step(t)
  {
    match t
    case 9 => assert Next(29, 361) == 31; case 10 => assert Next(31, 361) == 37;
    case 11 => assert Next(37, 361) == 41; case 12 => assert Next(41, 361) == 43;
    case 13 => assert Next(43, 361) == 47; case 14 => assert Next(47, 361) == 53;
    case 15 => assert Next(53, 361) == 59; case 16 => assert Next(59, 361) == 61;
    case 17 => assert Next(61, 361) == 67;
  }

  lemma StepsFrom18(t: nat)
    requires 18 <= t < 27
    ensures Step(t)
  {
    match t
    case 18 => assert Next(67, 361) == 71; case 19 => assert Next(71, 361) == 73;
    case 20 => assert Next(73, 361) == 79; case 21 => assert Next(79, 361) == 83;
    case 22 => assert Next(83, 361) == 89; case 23 => assert Next(89, 361) == 97;
    case 24 => assert Next(97, 361) == 101; case 25 => assert Next(101, 361) == 103;
    case 26 => assert Next(103, 361) == 107;
  }

  lemma StepsFrom27(t: nat)
    requires 27 <= t < 36
    ensures Step(t)
  {
    match t
    case 27 => assert Next(107, 361) == 109; case 28 => assert Next(109, 361) == 113;
    case 29 => assert Next(113, 361) == 127; case 30 => assert Next(127, 361) == 131;
    case 31 => assert Next(131, 361) == 137; case 32 => assert Next(137, 361) == 139;
    case 33 => assert Next(139, 361) == 149; case 34 => assert Next(149, 361) == 151;
    case 35 => assert Next(151, 361) == 157;
  }

  lemma StepsFrom36(t: nat)
    requires 36 <= t < 45
    ensures Step(t)
  {
    match t
    case 36 => assert Next(157, 361) == 163; case 37 => assert Next(163, 361) == 167;
    case 38 => assert Next(167, 361) == 173; case 39 => assert Next(173, 361) == 179;
    case 40 => assert Next(179, 361) == 181; case 41 => assert Next(181, 361) == 191;
    case 42 => assert Next(191, 361) == 193; case 43 => assert Next(193, 361) == 197;
    case 44 => assert Next(197, 361) == 199;
  }

  lemma StepsFrom45(t: nat)
    requires 45 <= t < 54
    ensures Step(t)
  {
    match t
    case 45 => assert Next(199, 361) == 211; case 46 => assert Next(211, 361) == 223;
    case 47 => assert Next(223, 361) == 227; case 48 => assert Next(227, 361) == 229;
    case 49 => assert Next(229, 361) == 233; case 50 => assert Next(233, 361) == 239;
    case 51 => assert Next(239, 361) == 241; case 52 => assert Next(241, 361) == 251;
    case 53 => assert Next(251, 361) == 257;
  }

  lemma StepsFrom54(t: nat)
    requires 54 <= t < 63
    ensures Step(t)
  {
    match t
    case 54 => assert Next(257, 361) == 263; case 55 => assert Next(263, 361) == 269;
    case 56 => assert Next(269, 361) == 271; case 57 => assert Next(271, 361) == 277;
    case 58 => assert Next(277, 361) == 281; case 59 => assert Next(281, 361) == 283;
    case 60 => assert Next(283, 361) == 293; case 61 => assert Next(293, 361) == 307;
    case 62 => assert Next(307, 361) == 311;
  }

  lemma Steps(t: nat)
    requires 1 <= t < 63
    ensures Step(t)
  {
    hide Step;
    if t < 9 {
      StepsFrom0(t);
    } else if t < 18 {
      StepsFrom9(t);
    } else if t < 27 {
      StepsFrom18(t);
    } else if t < 36 {
      StepsFrom27(t);
    } else if t < 45 {
      StepsFrom36(t);
    } else if t < 54 {
      StepsFrom45(t);
    } else {
      StepsFrom54(t);
    }
  }

  /** The table starts with the first prime, and no prime is left out between two of its entries. */
  lemma PrimesInOrder(t: nat)
    requires t < 64
    ensures Prime(PrimeAt(t)) && PrimeAt(0) == 2
    ensures t < 63 ==> PrimeAt(t) < PrimeAt(t + 1)
    ensures t < 63 ==> forall n :: PrimeAt(t) < n < PrimeAt(t + 1) ==> !Prime(n)
  {
    assert PrimeAt(0) == 2 && PassesTrials(2) && PrimeAt(1) == 3 && PassesTrials(3);
    hide PassesTrials, PrimeAt, Next, Prime;
    if t > 1 {
      Steps(t - 1);
    }
    if 0 < t < 63 {
      Steps(t);
      forall n | PrimeAt(t) < n < PrimeAt(t + 1) ensures !Prime(n) {
        NothingBetween(PrimeAt(t), 361, n);
        TrialsDecide(n);
      }
    }
    TrialsDecide(PrimeAt(t));
  }
}
