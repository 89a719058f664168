/**
 * Bit-serial Montgomery multiplication and the two modular exponentiations
 * built on it: square-and-multiply, and the one that reads a table of squares.
 */
module Montgomery {
  import opened Arithmetic
  import opened Words
  import opened BigNum

  // ---- Values in Montgomery form -------------------------------------------------

  /** z stands for a: it is congruent to a * 2^bits. */
  ghost predicate StandsFor(z: int, a: int, bits: nat, m: int)
    requires m > 0
  {
    z % m == (a * Pow2(bits)) % m
  }

  /** Modulo an odd number, doubling is injective. */
  lemma CancelTwo(m: int, x: int, y: int)
    requires m > 0 && m % 2 == 1 && (2 * x) % m == (2 * y) % m
    ensures x % m == y % m
  {
    var k := CongruentDifference(2 * x, 2 * y, m);
    // k is even, because m is odd and k * m is even.
    var half := m / 2;
    assert k * m == 2 * (k * half) + k by {
      MulDistribute(2 * half, 1, k);
      MulAssoc(2, half, k);
    }
    var j := x - y - k * half;
    assert k == 2 * j;
    MulAssoc(2, j, m);
    assert x == y + j * m;
    ModAddMultiple(y, j, m);
  }

  lemma TwiceScaled(x: int, p: int)
    ensures x * (2 * p) == 2 * (x * p)
  {
    MulAssoc(x, 2, p);
    MulAssoc(2, x, p);
  }

  lemma {:induction false} CancelPow2(m: int, bits: nat, x: int, y: int)
    requires m > 0 && m % 2 == 1 && (x * Pow2(bits)) % m == (y * Pow2(bits)) % m
    ensures x % m == y % m
  {
    if bits == 0 {
    } else {
      var p := Pow2(bits - 1);
      TwiceScaled(x, p);
      TwiceScaled(y, p);
      CancelTwo(m, x * p, y * p);
      CancelPow2(m, bits - 1, x, y);
    }
  }

  /** The Montgomery product of two numbers stands for the product of what they stand for. */
  lemma ProductStandsFor(m: int, bits: nat, x: int, a: int, y: int, b: int, z: int, k: int)
    requires m > 0 && m % 2 == 1
    requires StandsFor(x, a, bits, m) && StandsFor(y, b, bits, m)
    requires z * Pow2(bits) == x * y + k * m
    ensures StandsFor(z, a * b, bits, m)
  {
    var r := Pow2(bits);
    ModAddMultiple(x * y, k, m);
    CongruentMul(x, a * r, y, b * r, m);
    assert (a * r) * (b * r) == (a * b * r) * r by {
      MulAssoc(a, r, b * r);
      MulAssoc(r, b, r);
      MulAssoc(b, r, r);
      MulAssoc(a, b * r, r);
      MulAssoc(a, b, r);
    }
    CancelPow2(m, bits, z, a * b * r);
  }

  /** Multiplying by R squared modulo m enters Montgomery form. */
  lemma EnterForm(m: int, bits: nat, x: int, rr: int, z: int, k: int)
    requires m > 0 && m % 2 == 1 && rr % m == (Pow2(bits) * Pow2(bits)) % m
    requires z * Pow2(bits) == x * rr + k * m
    ensures StandsFor(z, x, bits, m)
  {
    var r := Pow2(bits);
    ModAddMultiple(x * rr, k, m);
    CongruentMul(x, x, rr, r * r, m);
    MulAssoc(x, r, r);
    CancelPow2(m, bits, z, x * r);
  }

  /** Multiplying by one leaves Montgomery form. */
  lemma LeaveForm(m: int, bits: nat, x: int, a: int, z: int, k: int)
    requires m > 0 && m % 2 == 1 && StandsFor(x, a, bits, m)
    requires z * Pow2(bits) == x * 1 + k * m && 0 <= z < m
    ensures z == a % m
  {
    ModAddMultiple(x, k, m);
    CancelPow2(m, bits, z, a);
    SmallMod(z, m);
  }

  // ---- The bit-serial product -------------------------------------------------------

  /** After n rounds the accumulator holds the partial product divided by 2^n. */
  ghost predicate PartialProduct(t: nat, n: nat, x: nat, y: nat, m: nat, u: nat) {
    t < y + m && t * Pow2(n) == (x % Pow2(n)) * y + u * m
  }

  /** One round: add y if the bit is set, add m if that makes the sum even, halve. */
  lemma ProductRound(t: nat, n: nat, x: nat, y: nat, m: nat, u: nat, s: nat, t': nat)
    requires PartialProduct(t, n, x, y, m, u) && s <= 1
    requires 2 * t' == t + (if Bit(x, n) == 1 then y else 0) + if s == 1 then m else 0
    ensures 0 <= s * Pow2(n)
    ensures PartialProduct(t', n + 1, x, y, m, u + s * Pow2(n))
  {
    var p := Pow2(n);
    NextBit(x, n);
    MulNonNegative(s, p);
    if s == 0 { assert s * m == 0; } else { assert s * m == m; }
    if Bit(x, n) == 0 { assert Bit(x, n) * y == 0; } else { assert Bit(x, n) * y == y; }
    RoundAlgebra(t, t', p, x % p, Bit(x, n), y, u, s, m);
  }

  lemma RoundAlgebra(t: int, t': int, p: int, low: int, bit: int, y: int, u: int, s: int, m: int)
    requires t * p == low * y + u * m && 2 * t' == t + bit * y + s * m
    ensures t' * (2 * p) == (low + bit * p) * y + (u + s * p) * m
  {
    MulAssoc(t', 2, p);
    MulAssoc(2, t', p);
    MulDistribute(t + bit * y, s * m, p);
    MulDistribute(t, bit * y, p);
    MulAssoc(bit, y, p);
    MulAssoc(bit, p, y);
    MulAssoc(s, m, p);
    MulAssoc(s, p, m);
    MulDistribute(low, bit * p, y);
    MulDistribute(u, s * p, m);
  }

  lemma LowBit(x: nat)
    ensures Bit(x, 0) == x % 2
  {
    assert Pow2(0) == 1 && x / 1 == x;
  }

  /** Adding an odd number to an odd sum makes it even. */
  lemma MadeEven(t: nat, y: nat, m: nat, odd: bool, sum: nat)
    requires m % 2 == 1 && odd == (t % 2 != y % 2)
    requires sum == t + y + if odd then m else 0
    ensures sum % 2 == 0
  {
  }

  /** The accumulator before and after one round, on arrays. */
  method MontRound(t: array<Word>, x: array<Word>, y: array<Word>, m: array<Word>, n: nat, ghost u: nat)
    returns (ghost u': nat)
    requires Width(t.Length) && t.Length == x.Length == y.Length == m.Length
    requires t != x && t != y && t != m && n < 32 * x.Length
    requires Value(m) % 2 == 1 && Value(y) < Value(m) && 4 * Value(m) <= Modulus(m)
    requires PartialProduct(Value(t), n, Value(x), Value(y), Value(m), u)
    modifies t
    ensures PartialProduct(Value(t), n + 1, Value(x), Value(y), Value(m), u')
  {
    hide Pow2, ShiftedRight, Bit;
    ghost var before := Value(t);
    var t0 := GetBit(t, 0);
    var xi := GetBit(x, n);
    var y0 := GetBit(y, 0);
    LowBit(Value(t));
    LowBit(Value(y));
    if xi == 1 {
      Add(t, y, t);
    }
    var odd := t0 != (if xi == 1 && y0 == 1 then 1 else 0);
    ghost var sum := Value(t);
    assert sum == before + (if xi == 1 then Value(y) else 0);
    if odd {
      Add(t, m, t);
    }
    assert Value(t) == sum + (if odd then Value(m) else 0);
    MadeEven(before, if xi == 1 then Value(y) else 0, Value(m), odd, Value(t));
    ghost var doubled := Value(t);
    Rshift(t, 1);
    HalfShift(doubled);
    ghost var s := if odd then 1 else 0;
    ProductRound(before, n, Value(x), Value(y), Value(m), u, s, Value(t));
    u' := u + s * Pow2(n);
  }

  /** out = x * y / 2^bits mod m, below m. */
  method MontMult(x: array<Word>, y: array<Word>, m: array<Word>, bits: nat, out: array<Word>)
    returns (ghost k: int)
    requires Width(m.Length) && m.Length == x.Length == y.Length == out.Length
    requires bits <= 32 * m.Length && Value(x) < Pow2(bits)
    requires Value(m) % 2 == 1 && Value(y) < Value(m) && 4 * Value(m) <= Modulus(m)
    modifies out
    ensures Value(out) < old(Value(m))
    ensures Value(out) * Pow2(bits) == old(Value(x)) * old(Value(y)) + k * old(Value(m))
  {
    var t := new Word[m.Length];
    Init(t);
    ghost var u: nat := 0;
    assert Pow2(0) == 1;
    var i := bits;
    while i > 0
      invariant 0 <= i <= bits
      invariant PartialProduct(Value(t), bits - i, Value(x), Value(y), Value(m), u)
      modifies t
    {
      u := MontRound(t, x, y, m, bits - i, u);
      i := i - 1;
    }
    SmallMod(Value(x), Pow2(bits));
    k := u;
    var order := Cmp(t, m);
    if order >= 0 {
      FinalSubtraction(Value(t), Pow2(bits), Value(x) * Value(y), u, Value(m));
      Sub(t, m, t);
      k := u - Pow2(bits);
    }
    Assign(out, t);
  }

  lemma FinalSubtraction(t: int, r: int, product: int, u: int, m: int)
    requires t * r == product + u * m
    ensures (t - m) * r == product + (u - r) * m
  {
    MulDistribute(t, m, r);
    MulDistribute(u, r, m);
  }

  // ---- Exponentiation ------------------------------------------------------------------

  /** Odd, within its bit length, and two bits narrower than the arrays. */
  ghost predicate Modulable(m: nat, bits: nat, width: nat) {
    m % 2 == 1 && 1 < m < Pow2(bits) && 4 * m <= Radix(width) && bits <= 32 * width
  }

  /** Squaring doubles the exponent. */
  lemma SquarePower(x: int, i: nat)
    ensures Pow(x, Pow2(i)) * Pow(x, Pow2(i)) == Pow(x, Pow2(i + 1))
  {
    PowAdd(x, Pow2(i), Pow2(i));
  }

  /** The next exponent bit multiplies in the matching square, or nothing. */
  lemma NextExponentBit(x: int, e: nat, i: nat)
    ensures Bit(e, i) == 1 ==> Pow(x, e % Pow2(i)) * Pow(x, Pow2(i)) == Pow(x, e % Pow2(i + 1))
    ensures Bit(e, i) == 0 ==> e % Pow2(i) == e % Pow2(i + 1)
  {
    NextBit(e, i);
    if Bit(e, i) == 1 {
      PowAdd(x, e % Pow2(i), Pow2(i));
    }
  }

  /** out = x * y / R, on numbers that stand for a and b. */
  method MultForms(x: array<Word>, y: array<Word>, m: array<Word>, bits: nat, out: array<Word>,
                   ghost a: int, ghost b: int)
    requires Width(m.Length) && m.Length == x.Length == y.Length == out.Length && out != m
    requires Modulable(Value(m), bits, m.Length)
    requires Value(x) < Value(m) && StandsFor(Value(x), a, bits, Value(m))
    requires Value(y) < Value(m) && StandsFor(Value(y), b, bits, Value(m))
    modifies out
    ensures Value(out) < Value(m) && StandsFor(Value(out), a * b, bits, Value(m))
  {
    ghost var u, v := Value(x), Value(y);
    ghost var k := MontMult(x, y, m, bits, out);
    ProductStandsFor(Value(m), bits, u, a, v, b, Value(out), k);
  }

  /** out = x * R mod m, from R squared modulo m. */
  method Enter(x: array<Word>, r2m: array<Word>, m: array<Word>, bits: nat, out: array<Word>)
    requires Width(m.Length) && m.Length == x.Length == r2m.Length == out.Length && out != m
    requires Modulable(Value(m), bits, m.Length)
    requires Value(x) < Pow2(bits) && Value(r2m) == (Pow2(bits) * Pow2(bits)) % Value(m)
    modifies out
    ensures Value(out) < Value(m) && StandsFor(Value(out), old(Value(x)), bits, Value(m))
  {
    ghost var a, rr := Value(x), Value(r2m);
    ModOfMod(Pow2(bits) * Pow2(bits), Value(m));
    ghost var k := MontMult(x, r2m, m, bits, out);
    EnterForm(Value(m), bits, a, rr, Value(out), k);
  }

  /** out = R mod m, which stands for one. */
  method EnterOne(r2m: array<Word>, m: array<Word>, bits: nat, out: array<Word>)
    requires Width(m.Length) && m.Length == r2m.Length == out.Length && out != m && out != r2m
    requires Modulable(Value(m), bits, m.Length)
    requires Value(r2m) == (Pow2(bits) * Pow2(bits)) % Value(m)
    modifies out
    ensures Value(out) < Value(m) && StandsFor(Value(out), 1, bits, Value(m))
  {
    var z := new Word[m.Length];
    FromInt(z, 1);
    Enter(z, r2m, m, bits, out);
  }

  /** out = x / R mod m: what x stands for. */
  method Leave(x: array<Word>, m: array<Word>, bits: nat, out: array<Word>, ghost a: int)
    requires Width(m.Length) && m.Length == x.Length == out.Length
    requires Modulable(Value(m), bits, m.Length)
    requires Value(x) < Value(m) && StandsFor(Value(x), a, bits, Value(m))
    modifies out
    ensures Value(out) == a % old(Value(m))
  {
    var one := new Word[m.Length];
    FromInt(one, 1);
    ghost var u, modulus := Value(x), Value(m);
    ghost var k := MontMult(x, one, m, bits, out);
    LeaveForm(modulus, bits, u, a, Value(out), k);
  }

  /** One round of square-and-multiply. */
  method ExpRound(p1: array<Word>, z1: array<Word>, e: array<Word>, i: nat, m: array<Word>, bits: nat, ghost a: nat)
    requires Width(m.Length) && m.Length == p1.Length == z1.Length == e.Length
    requires p1 != z1 && p1 != m && z1 != m && p1 != e && z1 != e && i < 32 * e.Length
    requires Modulable(Value(m), bits, m.Length)
    requires Value(p1) < Value(m) && StandsFor(Value(p1), Pow(a, Pow2(i)), bits, Value(m))
    requires Value(z1) < Value(m) && StandsFor(Value(z1), Pow(a, Value(e) % Pow2(i)), bits, Value(m))
    modifies p1, z1
    ensures Value(p1) < Value(m) && StandsFor(Value(p1), Pow(a, Pow2(i + 1)), bits, Value(m))
    ensures Value(z1) < Value(m) && StandsFor(Value(z1), Pow(a, Value(e) % Pow2(i + 1)), bits, Value(m))
  {
    var p2, z2 := new Word[m.Length], new Word[m.Length];
    MultForms(p1, p1, m, bits, p2, Pow(a, Pow2(i)), Pow(a, Pow2(i)));
    SquarePower(a, i);
    NextExponentBit(a, Value(e), i);
    var bit := GetBit(e, i);
    if bit == 1 {
      MultForms(z1, p1, m, bits, z2, Pow(a, Value(e) % Pow2(i)), Pow(a, Pow2(i)));
    } else {
      Assign(z2, z1);
    }
    Assign(p1, p2);
    Assign(z1, z2);
  }

  /** out = x^(e mod 2^eBits) mod m, squaring as it goes. */
  method ModExp(x: array<Word>, e: array<Word>, eBits: nat, m: array<Word>, mBits: nat, r2m: array<Word>,
                out: array<Word>)
    requires Width(m.Length) && m.Length == x.Length == e.Length == r2m.Length == out.Length
    requires Modulable(Value(m), mBits, m.Length)
    requires Value(r2m) == (Pow2(mBits) * Pow2(mBits)) % Value(m)
    requires Value(x) < Pow2(mBits) && eBits <= 32 * e.Length
    modifies out
    ensures Value(out) == Pow(old(Value(x)), old(Value(e)) % Pow2(eBits)) % old(Value(m))
  {
    var p1, z1 := new Word[m.Length], new Word[m.Length];
    ghost var a := Value(x);
    EnterOne(r2m, m, mBits, z1);
    Enter(x, r2m, m, mBits, p1);
    StartExponent(a, Value(e));
    var i := 0;
    while i < eBits
      invariant 0 <= i <= eBits
      invariant Value(p1) < Value(m) && StandsFor(Value(p1), Pow(a, Pow2(i)), mBits, Value(m))
      invariant Value(z1) < Value(m) && StandsFor(Value(z1), Pow(a, Value(e) % Pow2(i)), mBits, Value(m))
      modifies p1, z1
    {
      ExpRound(p1, z1, e, i, m, mBits, a);
      i := i + 1;
    }
    Leave(z1, m, mBits, out, Pow(a, Value(e) % Pow2(eBits)));
  }

  lemma StartExponent(a: nat, e: nat)
    ensures Pow(a, Pow2(0)) == a && Pow(a, e % Pow2(0)) == 1
  {
    assert Pow2(0) == 1 && e % 1 == 0 && Pow(a, 1) == a * Pow(a, 0);
  }

  // ---- The table of squares ---------------------------------------------------------------

  /** Rows of one width. */
  ghost predicate Rows(lut: seq<array<Word>>, width: nat) {
    forall i :: 0 <= i < |lut| ==> lut[i].Length == width
  }

  ghost predicate Distinct(lut: seq<array<Word>>) {
    forall i, j :: 0 <= i < j < |lut| ==> lut[i] != lut[j]
  }

  /** Every row i below the given count holds x^(2^i) * 2^bits mod m. */
  ghost predicate HoldsSquares(lut: seq<array<Word>>, rows: nat, x: nat, m: nat, bits: nat)
    requires rows <= |lut| && m > 0
    reads lut
  {
    forall i :: 0 <= i < rows ==> Value(lut[i]) == (Pow(x, Pow2(i)) * Pow2(bits)) % m
  }

  /** Row i holds x^(2^i) * 2^bits mod m; as a Montgomery form this determines it. */
  lemma RowForm(z: nat, a: int, bits: nat, m: nat)
    requires m > 0 && z < m
    ensures StandsFor(z, a, bits, m) <==> z == (a * Pow2(bits)) % m
  {
    SmallMod(z, m);
    ModOfMod(a * Pow2(bits), m);
  }

  /** Fills rows 0 to mBits by repeated Montgomery squaring. */
  method InitLut(lut: seq<array<Word>>, x: array<Word>, m: array<Word>, mBits: nat, r2m: array<Word>)
    requires Width(m.Length) && m.Length == x.Length == r2m.Length
    requires Modulable(Value(m), mBits, m.Length) && Value(x) < Pow2(mBits)
    requires Value(r2m) == (Pow2(mBits) * Pow2(mBits)) % Value(m)
    requires mBits < |lut| && Rows(lut, m.Length) && Distinct(lut)
    requires x !in lut && m !in lut && r2m !in lut
    modifies lut
    ensures HoldsSquares(lut, mBits + 1, Value(x), Value(m), mBits)
  {
    Enter(x, r2m, m, mBits, lut[0]);
    StartExponent(Value(x), 0);
    RowForm(Value(lut[0]), Value(x), mBits, Value(m));
    var i := 1;
    while i <= mBits
      invariant 1 <= i <= mBits + 1
      invariant Value(x) == old(Value(x)) && Value(m) == old(Value(m))
      invariant HoldsSquares(lut, i, Value(x), Value(m), mBits)
    {
      SquareRow(lut, i, m, mBits, Value(x));
      i := i + 1;
    }
  }

  /** Row i is the Montgomery square of row i - 1. */
  method SquareRow(lut: seq<array<Word>>, i: nat, m: array<Word>, bits: nat, ghost a: nat)
    requires Width(m.Length) && 0 < i < |lut| && Rows(lut, m.Length) && Distinct(lut) && m !in lut
    requires Modulable(Value(m), bits, m.Length)
    requires HoldsSquares(lut, i, a, Value(m), bits)
    modifies lut[i]
    ensures HoldsSquares(lut, i + 1, a, Value(m), bits)
  {
    ghost var square := Pow(a, Pow2(i - 1));
    RowForm(Value(lut[i - 1]), square, bits, Value(m));
    MultForms(lut[i - 1], lut[i - 1], m, bits, lut[i], square, square);
    SquarePower(a, i - 1);
    RowForm(Value(lut[i]), Pow(a, Pow2(i)), bits, Value(m));
  }

  /** One round of exponentiation that takes the square from the table. */
  method LutRound(lut: seq<array<Word>>, p1: array<Word>, z1: array<Word>, e: array<Word>, i: nat,
                  m: array<Word>, bits: nat, ghost x: nat)
    requires Width(m.Length) && m.Length == p1.Length == z1.Length == e.Length && i < 32 * e.Length
    requires z1 != m && z1 != e && p1 != m && p1 != e && p1 != z1
    requires i + 1 < |lut| && Rows(lut, m.Length) && z1 !in lut && p1 !in lut
    requires Modulable(Value(m), bits, m.Length)
    requires HoldsSquares(lut, i + 1, x, Value(m), bits)
    requires Value(z1) < Value(m) && StandsFor(Value(z1), Pow(x, Value(e) % Pow2(i)), bits, Value(m))
    modifies p1, z1
    ensures Value(z1) < Value(m) && StandsFor(Value(z1), Pow(x, Value(e) % Pow2(i + 1)), bits, Value(m))
  {
    var p2, z2 := new Word[m.Length], new Word[m.Length];
    Assign(p2, lut[i + 1]);
    NextExponentBit(x, Value(e), i);
    var bit := GetBit(e, i);
    if bit == 1 {
      RowForm(Value(lut[i]), Pow(x, Pow2(i)), bits, Value(m));
      MultForms(z1, lut[i], m, bits, z2, Pow(x, Value(e) % Pow2(i)), Pow(x, Pow2(i)));
    } else {
      Assign(z2, z1);
    }
    Assign(p1, p2);
    Assign(z1, z2);
  }

  /** All the rounds, leaving the power in Montgomery form. */
  method LutRounds(lut: seq<array<Word>>, e: array<Word>, eBits: nat, m: array<Word>, bits: nat,
                   z1: array<Word>, ghost x: nat)
    requires Width(m.Length) && m.Length == e.Length == z1.Length && z1 != m && z1 != e && z1 !in lut
    requires eBits < |lut| && eBits <= 32 * e.Length && Rows(lut, m.Length)
    requires Modulable(Value(m), bits, m.Length)
    requires HoldsSquares(lut, eBits, x, Value(m), bits)
    requires Value(z1) < Value(m) && StandsFor(Value(z1), 1, bits, Value(m))
    modifies z1
    ensures Value(z1) < Value(m) && StandsFor(Value(z1), Pow(x, Value(e) % Pow2(eBits)), bits, Value(m))
  {
    var p1 := new Word[m.Length];
    Assign(p1, lut[0]);
    StartExponent(x, Value(e));
    var i := 0;
    while i < eBits
      invariant 0 <= i <= eBits
      invariant Value(z1) < Value(m) && StandsFor(Value(z1), Pow(x, Value(e) % Pow2(i)), bits, Value(m))
      modifies p1, z1
    {
      LutRound(lut, p1, z1, e, i, m, bits, x);
      i := i + 1;
    }
  }

  /** out = x^(e mod 2^eBits) mod m, reading the squares of x from the table. */
  method ModExpLut(lut: seq<array<Word>>, ghost x: nat, e: array<Word>, eBits: nat, m: array<Word>, mBits: nat,
                   r2m: array<Word>, out: array<Word>)
    requires Width(m.Length) && m.Length == e.Length == r2m.Length == out.Length
    requires Modulable(Value(m), mBits, m.Length)
    requires Value(r2m) == (Pow2(mBits) * Pow2(mBits)) % Value(m)
    requires eBits <= mBits < |lut| && Rows(lut, m.Length)
    requires HoldsSquares(lut, mBits + 1, x, Value(m), mBits)
    modifies out
    ensures Value(out) == Pow(x, old(Value(e)) % Pow2(eBits)) % old(Value(m))
  {
    var z1 := new Word[m.Length];
    EnterOne(r2m, m, mBits, z1);
    LutRounds(lut, e, eBits, m, mBits, z1, x);
    Leave(z1, m, mBits, out, Pow(x, Value(e) % Pow2(eBits)));
  }
}
