/**
 * The signing path: two half-width exponentiations and Garner recombination,
 * section 5.2.1 of RFC 8017 in its Chinese-remainder form.
 */
module RsaSign {
  import opened Arithmetic
  import opened NumberTheory
  import opened Words
  import opened BigNum
  import opened BigNumBytes
  import opened Montgomery

  // ---- Keys and signatures as numbers -----------------------------------------------

  datatype Key = Key(p: nat, q: nat, dp: nat, dq: nat, qinv: nat, d: nat, e: nat)

  /** A key pair with its Chinese-remainder parameters. */
  ghost predicate ValidKey(k: Key) {
    && Prime(k.p) && Prime(k.q) && 2 < k.q < k.p
    && (k.e * k.d) % (k.p - 1) == 1 && (k.e * k.d) % (k.q - 1) == 1
    && k.dp == k.d % (k.p - 1) && k.dq == k.d % (k.q - 1)
    && k.qinv < k.p && (k.qinv * k.q) % k.p == 1
  }

  /** The difference of the two half signatures modulo p, as the branch computes it. */
  function HalfDifference(m1: nat, m2: nat, p: nat): (h: nat)
    requires m1 < p && m2 < p
    ensures h < p && h % p == (m1 - m2) % p
  {
    if m1 < m2 then
      assert (m1 + p - m2) % p == (m1 - m2) % p by { ModAddMultiple(m1 - m2, 1, p); }
      m1 + p - m2
    else m1 - m2
  }

  /** Garner's formula for the number below p * q with residues m1 and m2. */
  function Garner(m1: nat, m2: nat, k: Key): nat
    requires m1 < k.p && m2 < k.p
  {
    MulNonNegative(HalfDifference(m1, m2, k.p), k.qinv);
    MulNonNegative((HalfDifference(m1, m2, k.p) * k.qinv) % k.p, k.q);
    m2 + ((HalfDifference(m1, m2, k.p) * k.qinv) % k.p) * k.q
  }

  lemma GarnerBound(h: nat, m2: nat, p: nat, q: nat)
    requires h < p && m2 < q
    ensures 0 <= h * q && m2 + h * q < p * q
  {
    MulNonNegative(h, q);
    MulMonotone(h, p - 1, q);
    MulDistribute(p, 1, q);
  }

  /** The recombined number is in range and has both residues. */
  lemma GarnerResidues(m1: nat, m2: nat, k: Key)
    requires k.p > 1 && k.q > 0 && m1 < k.p && m2 < k.q && m2 < k.p && (k.qinv * k.q) % k.p == 1
    ensures Garner(m1, m2, k) < k.p * k.q
    ensures Garner(m1, m2, k) % k.p == m1 && Garner(m1, m2, k) % k.q == m2
  {
    var diff := HalfDifference(m1, m2, k.p);
    var h := (diff * k.qinv) % k.p;
    GarnerBound(h, m2, k.p, k.q);
    ModAddMultiple(m2, h, k.q);
    SmallMod(m2, k.q);
    // h * q == diff * (qinv * q) == m1 - m2 modulo p.
    ModOfMod(diff * k.qinv, k.p);
    CongruentMul(h, diff * k.qinv, k.q, k.q, k.p);
    MulAssoc(diff, k.qinv, k.q);
    SmallMod(1, k.p);
    CongruentMul(diff, m1 - m2, k.qinv * k.q, 1, k.p);
    CongruentAdd(m2, m2, h * k.q, m1 - m2, k.p);
    SmallMod(m1, k.p);
  }

  lemma ReducedExponentPositive(e: nat, d: nat, n: int)
    requires n > 1 && (e * d) % n == 1
    ensures d % n > 0
  {
    if d % n == 0 {
      SmallMod(0, n);
      CongruentMul(e, e, d, 0, n);
      assert false;
    }
  }

  /** Recombining the two half powers gives the full private power. */
  lemma SignatureIsPower(m: nat, k: Key)
    requires ValidKey(k)
    ensures Pow(m, k.dp) % k.p < k.p && Pow(m, k.dq) % k.q < k.p
    ensures Garner(Pow(m, k.dp) % k.p, Pow(m, k.dq) % k.q, k) == Pow(m, k.d) % (k.p * k.q)
  {
    var n := k.p * k.q;
    var s := Garner(Pow(m, k.dp) % k.p, Pow(m, k.dq) % k.q, k);
    var full := Pow(m, k.d);
    GarnerResidues(Pow(m, k.dp) % k.p, Pow(m, k.dq) % k.q, k);
    ReducedExponentPositive(k.e, k.d, k.p - 1);
    ReducedExponentPositive(k.e, k.d, k.q - 1);
    ReduceExponent(k.p, m, k.d);
    ReduceExponent(k.q, m, k.d);
    ChineseUnique(k.p, k.q, s, full);
    SmallMod(s, n);
  }

  /** Raising a signature to the public exponent recovers the message. */
  lemma SignatureVerifies(m: nat, k: Key)
    requires ValidKey(k) && m < k.p * k.q
    ensures k.p * k.q > 0
    ensures Pow(Pow(m, k.d) % (k.p * k.q), k.e) % (k.p * k.q) == m
  {
    MulNonNegative(k.d, k.e);
    assert k.d * k.e == k.e * k.d;
    RsaInverse(k.p, k.q, k.d, k.e, m);
  }

  // ---- The program --------------------------------------------------------------------

  /** The bit length of a number of at least two. */
  ghost predicate BitLength(x: nat, bits: nat) {
    bits >= 2 && Pow2(bits - 1) <= x < Pow2(bits)
  }

  lemma BitLengthUnique(x: nat, a: nat, b: nat)
    requires BitLength(x, a) && BitLength(x, b)
    ensures a == b
  {
    if a < b {
      Pow2Monotone(a, b - 1);
    } else if b < a {
      Pow2Monotone(b, a - 1);
    }
  }

  lemma RoomForTwo(m: nat, bits: nat, width: nat)
    requires m % 2 == 1 && BitLength(m, bits) && 2 * bits < 32 * width
    ensures Modulable(m, bits, width)
    ensures Pow2(bits) * Pow2(bits) < Radix(width)
  {
    RadixIsPow2(width);
    Pow2Add(bits, bits);
    Pow2Strict(2 * bits, 32 * width);
    assert Pow2(2) == 4 * Pow2(0);
    Pow2Add(2, bits);
    Pow2Monotone(bits + 2, 32 * width);
    Pow2Monotone(1, bits - 1);
  }

  /** r2 = 2^(2 * bits) mod m. */
  method RSquared(m: array<Word>, bits: nat, r2: array<Word>)
    requires Width(m.Length) && m.Length == r2.Length && m != r2
    requires Value(m) > 0 && Pow2(bits) * Pow2(bits) < Modulus(m)
    modifies r2
    ensures Value(r2) == (Pow2(bits) * Pow2(bits)) % Value(m)
  {
    var r := new Word[m.Length];
    var rr := new Word[m.Length];
    FromInt(r, 1);
    ghost var over := Lshift(r, r, bits);
    MulMonotone(1, Pow2(bits), Pow2(bits));
    NothingLost(Modulus(m), Value(r), over, Pow2(bits));
    over := Mul(r, r, rr);
    NothingLost(Modulus(m), Value(rr), over, Pow2(bits) * Pow2(bits));
    Mod(rr, m, r2);
  }

  /** half = msg^exp mod prime, through the table of squares. */
  method HalfSign(lut: seq<array<Word>>, msg: array<Word>, exp: array<Word>, prime: array<Word>, half: array<Word>,
                  ghost bits: nat)
    requires Width(prime.Length) && prime.Length == msg.Length == exp.Length == half.Length
    requires Rows(lut, prime.Length) && Distinct(lut)
    requires msg !in lut && exp !in lut && prime !in lut && half !in lut && half != msg && half != prime && half != exp
    requires Value(prime) % 2 == 1 && BitLength(Value(prime), bits) && 2 * bits < 32 * prime.Length && bits < |lut|
    requires Value(msg) < Pow2(bits) && Value(exp) < Pow2(bits)
    modifies lut, half
    ensures Value(half) == Pow(Value(msg), Value(exp)) % Value(prime)
  {
    var n := NumBits(prime);
    assert Value(prime) >= 2 by { Pow2Monotone(1, bits - 1); }
    BitLengthUnique(Value(prime), n, bits);
    RoomForTwo(Value(prime), n, prime.Length);
    var r2 := new Word[prime.Length];
    RSquared(prime, n, r2);
    InitLut(lut, msg, prime, n, r2);
    SmallMod(Value(exp), Pow2(n));
    ModExpLut(lut, Value(msg), exp, n, prime, n, r2, half);
  }

  /** The parameters of a key, each in an array of its own. */
  ghost predicate Holds(k: Key, p: array<Word>, q: array<Word>, dp: array<Word>, dq: array<Word>, qinv: array<Word>)
    reads p, q, dp, dq, qinv
  {
    && Value(p) == k.p && Value(q) == k.q && Value(dp) == k.dp && Value(dq) == k.dq && Value(qinv) == k.qinv
    && p.Length == q.Length == dp.Length == dq.Length == qinv.Length
  }

  /** s = m2 + ((m1 - m2) * qinv mod p) * q. */
  method Recombine(m1: array<Word>, m2: array<Word>, p: array<Word>, q: array<Word>, qinv: array<Word>,
                   s: array<Word>, ghost k: Key)
    requires Width(p.Length) && p.Length == m1.Length == m2.Length == q.Length == qinv.Length == s.Length
    requires s != m1 && s != m2 && s != p && s != q && s != qinv
    requires Value(p) == k.p && Value(q) == k.q && Value(qinv) == k.qinv
    requires k.q < k.p && k.qinv < k.p && 0 < k.q && Value(m1) < k.p && Value(m2) < k.q
    requires k.p * k.p < Modulus(p)
    modifies s
    ensures Value(s) == Garner(Value(m1), Value(m2), k)
  {
    var h := new Word[p.Length];
    MulMonotone(2, k.p, k.p);
    var order := Cmp(m1, m2);
    if order < 0 {
      Add(m1, p, s);
      Sub(s, m2, h);
    } else {
      Sub(m1, m2, h);
    }
    ghost var diff := HalfDifference(Value(m1), Value(m2), k.p);
    assert Value(h) == diff;
    SmallProduct(diff, k.qinv, k.p);
    ghost var over := Mul(h, qinv, s);
    NothingLost(Modulus(p), Value(s), over, diff * k.qinv);
    Mod(s, p, h);
    SmallProduct(Value(h), k.q, k.p);
    GarnerBound(Value(h), Value(m2), k.p, k.q);
    MulMonotone(k.q, k.p, k.p);
    over := Mul(h, q, s);
    NothingLost(Modulus(p), Value(s), over, Value(h) * k.q);
    Add(m2, s, s);
  }

  lemma SmallProduct(a: nat, b: nat, m: nat)
    requires a < m && b < m
    ensures 0 <= a * b < m * m
  {
    MulNonNegative(a, b);
    MulMonotone(a, m, b);
    MulStrict(b, m, m);
  }

  /**
   * Signs a digest: the output is the big-endian form of digest^d mod p * q,
   * and raising it to e gives the digest back.
   */
  method Sign(digest: array<Byte>, output: array<Byte>, lut: seq<array<Word>>,
              p: array<Word>, q: array<Word>, dp: array<Word>, dq: array<Word>, qinv: array<Word>,
              ghost k: Key, ghost pBits: nat, ghost qBits: nat)
    requires ValidKey(k) && Holds(k, p, q, dp, dq, qinv) && Width(p.Length)
    requires BitLength(k.p, pBits) && BitLength(k.q, qBits)
    requires 2 * pBits < 32 * p.Length && pBits < |lut|
    requires Rows(lut, p.Length) && Distinct(lut)
    requires p !in lut && q !in lut && dp !in lut && dq !in lut && qinv !in lut
    requires digest != output && digest.Length <= 4 * p.Length && output.Length <= 4 * p.Length
    requires BigEndian(digest[..]) < Pow2(qBits) && pBits + qBits <= 8 * output.Length
    modifies output, lut
    ensures BigEndian(output[..]) == Pow(BigEndian(digest[..]), k.d) % (k.p * k.q)
    ensures Pow(BigEndian(output[..]), k.e) % (k.p * k.q) == BigEndian(digest[..])
  {
    var m, m1, m2, s := new Word[p.Length], new Word[p.Length], new Word[p.Length], new Word[p.Length];
    BytesToBn(m, digest);
    ghost var x := BigEndian(digest[..]);
    Prepare(k, pBits, qBits, p.Length, x);
    HalfSign(lut, m, dp, p, m1, pBits);
    HalfSign(lut, m, dq, q, m2, qBits);
    Recombine(m1, m2, p, q, qinv, s, k);
    SignatureIsPower(x, k);
    SignatureVerifies(x, k);
    BnToBytes(s, output);
    OutputFits(k, pBits, qBits, Value(s), output.Length);
  }

  // ---- Loading the key ------------------------------------------------------------------------

  /** A hexadecimal string of whole groups of eight digits that fits the width and stands for x. */
  ghost predicate Denotes(hex: seq<char>, x: nat, width: nat) {
    |hex| > 0 && |hex| % 8 == 0 && |hex| / 8 <= width && IsHex(hex) && HexValue(hex) == x
  }

  /** Such a string is loaded without dropping a digit. */
  method LoadHex(hex: seq<char>, width: nat, ghost x: nat) returns (n: array<Word>)
    requires Width(width) && Denotes(hex, x, width)
    ensures fresh(n) && n.Length == width && Value(n) == x
  {
    hide HexValue, IsHex, Val;
    n := new Word[width];
    FromString(n, hex);
    assert hex[0..] == hex;
  }

  /** Loads the key and signs. */
  method LoadAndSign(digest: array<Byte>, output: array<Byte>, lut: seq<array<Word>>, width: nat,
                     hexP: seq<char>, hexQ: seq<char>, hexDp: seq<char>, hexDq: seq<char>, hexQinv: seq<char>,
                     ghost k: Key, ghost pBits: nat, ghost qBits: nat)
    requires ValidKey(k) && Width(width) && BitLength(k.p, pBits) && BitLength(k.q, qBits)
    requires Denotes(hexP, k.p, width) && Denotes(hexQ, k.q, width)
    requires Denotes(hexDp, k.dp, width) && Denotes(hexDq, k.dq, width) && Denotes(hexQinv, k.qinv, width)
    requires 2 * pBits < 32 * width && pBits < |lut| && Rows(lut, width) && Distinct(lut)
    requires digest != output && digest.Length <= 4 * width && output.Length <= 4 * width
    requires BigEndian(digest[..]) < Pow2(qBits) && pBits + qBits <= 8 * output.Length
    modifies output, lut
    ensures BigEndian(output[..]) == Pow(BigEndian(digest[..]), k.d) % (k.p * k.q)
    ensures Pow(BigEndian(output[..]), k.e) % (k.p * k.q) == BigEndian(digest[..])
  {
    hide Denotes, ValidKey, BitLength;
    var p := LoadHex(hexP, width, k.p);
    var q := LoadHex(hexQ, width, k.q);
    var dp := LoadHex(hexDp, width, k.dp);
    var dq := LoadHex(hexDq, width, k.dq);
    var qinv := LoadHex(hexQinv, width, k.qinv);
    Sign(digest, output, lut, p, q, dp, dq, qinv, k, pBits, qBits);
  }

  /** The side conditions of the two half signatures and of the recombination. */
  lemma Prepare(k: Key, pBits: nat, qBits: nat, width: nat, x: nat)
    requires ValidKey(k) && BitLength(k.p, pBits) && BitLength(k.q, qBits)
    requires 2 * pBits < 32 * width && x < Pow2(qBits)
    ensures k.p % 2 == 1 && k.q % 2 == 1 && qBits <= pBits
    ensures k.dp < Pow2(pBits) && k.dq < Pow2(qBits) && x < Pow2(pBits)
    ensures k.p * k.p < Radix(width) && x < k.p * k.q
  {
    assert !Divides(2, k.p) && !Divides(2, k.q);
    if pBits < qBits {
      Pow2Monotone(pBits, qBits - 1);
      assert false;
    }
    Pow2Monotone(qBits, pBits);
    RoomForTwo(k.p, pBits, width);
    SquareBelow(k.p, Pow2(pBits));
    assert Pow2(qBits) == 2 * Pow2(qBits - 1);
    MulMonotone(2, k.p, k.q);
  }

  lemma SquareBelow(a: nat, b: nat)
    requires a < b
    ensures a * a < b * b
  {
    MulMonotone(a, b, a);
    MulStrict(a, b, b);
  }

  lemma OutputFits(k: Key, pBits: nat, qBits: nat, s: nat, bytes: nat)
    requires k.p < Pow2(pBits) && k.q < Pow2(qBits) && s < k.p * k.q && pBits + qBits <= 8 * bytes
    ensures s % Pow2(8 * bytes) == s
  {
    MulMonotone(k.p, Pow2(pBits), k.q);
    MulMonotone(k.q, Pow2(qBits), Pow2(pBits));
    Pow2Add(pBits, qBits);
    Pow2Monotone(pBits + qBits, 8 * bytes);
    SmallMod(s, Pow2(8 * bytes));
  }
}
