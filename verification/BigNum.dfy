/**
 * The fixed-width bignum library: every operation fills or rewrites word
 * arrays in place, and arguments may alias as they do in the callers. The
 * width is that of the arrays; the source compiles it to 97 words, and its
 * unrolled loops rely only on it being one more than a multiple of four.
 */
module BigNum {
  import opened Arithmetic
  import opened Words

  type Byte = x: int | 0 <= x < 256

  const HALF_MAX: int := 0x8000_0000

  /** The number an array holds. */
  ghost function Value(n: array<Word>): nat
    reads n
  {
    Val(n[..])
  }

  /** Widths the loops unrolled by four can handle. */
  ghost predicate Width(n: nat) {
    n > 1 && n % 4 == 1
  }

  /** One more than the largest number an array can hold. */
  ghost function Modulus(n: array<Word>): (m: nat)
    ensures m > 0
  {
    Radix(n.Length)
  }

  lemma ValueBound(n: array<Word>)
    requires Width(n.Length)
    ensures Value(n) < Modulus(n)
  {
    ValBound(n[..]);
  }

  // ---- Initialisation, copying, comparison -----------------------------------

  /** Clears all words, four at a time from the top. */
  method Init(n: array<Word>)
    requires Width(n.Length)
    modifies n
    ensures Value(n) == 0 && forall k :: 0 <= k < n.Length ==> n[k] == 0
  {
    n[0] := 0;
    var i := n.Length - 1;
    ghost var rounds := n.Length / 4;
    while i > 0
      invariant i == 4 * rounds < n.Length && rounds >= 0
      invariant n[0] == 0 && forall k :: i < k < n.Length ==> n[k] == 0
    {
      n[i], n[i - 1], n[i - 2], n[i - 3] := 0, 0, 0, 0;
      i, rounds := i - 4, rounds - 1;
    }
    ValZeros(n[..]);
  }

  /** Stores a 64-bit number in the two lowest words. */
  method FromInt(n: array<Word>, x: nat)
    requires Width(n.Length) && x < BASE * BASE
    modifies n
    ensures Value(n) == x
  {
    Init(n);
    n[0] := x % BASE;
    n[1] := x / BASE;
    ValSplit(n[..], 2);
    ValZeros(n[2..]);
    assert n[..2] == [n[0], n[1]];
    assert n[..][..2] == n[..2] && n[..][2..] == n[2..];
    assert Val([n[0], n[1]]) == n[0] + BASE * Val([n[1]]);
  }

  /** Copies all words, four at a time from the top. */
  method Assign(dst: array<Word>, src: array<Word>)
    requires Width(dst.Length) && dst.Length == src.Length
    modifies dst
    ensures dst[..] == old(src[..]) && Value(dst) == old(Value(src))
  {
    var i := dst.Length - 1;
    ghost var rounds := dst.Length / 4;
    while i > 0
      invariant i == 4 * rounds < dst.Length && rounds >= 0
      invariant forall k :: 0 <= k <= i ==> src[k] == old(src[k])
      invariant forall k :: i < k < dst.Length ==> dst[k] == old(src[k])
    {
      dst[i] := src[i];
      dst[i - 1] := src[i - 1];
      dst[i - 2] := src[i - 2];
      dst[i - 3] := src[i - 3];
      i, rounds := i - 4, rounds - 1;
    }
    dst[0] := src[0];
  }

  /** Three-way comparison from the top word down. */
  method Cmp(a: array<Word>, b: array<Word>) returns (r: int)
    requires Width(a.Length) && a.Length == b.Length
    ensures r == if Value(a) > Value(b) then 1 else if Value(a) < Value(b) then -1 else 0
  {
    var i := a.Length;
    while i != 0
      invariant 0 <= i <= a.Length
      invariant a[i..] == b[i..]
    {
      i := i - 1;
      assert a[..][i + 1..] == a[i + 1..] && b[..][i + 1..] == b[i + 1..];
      if a[i] > b[i] {
        TopWordDecides(a[..], b[..], i);
        return 1;
      } else if a[i] < b[i] {
        TopWordDecides(b[..], a[..], i);
        return -1;
      }
    }
    assert a[..] == a[0..] && b[..] == b[0..];
    return 0;
  }

  method IsZero(n: array<Word>) returns (r: bool)
    requires Width(n.Length)
    ensures r <==> Value(n) == 0
  {
    ValZeros(n[..]);
    var i := 0;
    while i < n.Length
      invariant 0 <= i <= n.Length
      invariant forall k :: 0 <= k < i ==> n[k] == 0
    {
      if n[i] != 0 {
        assert n[..][i] != 0;
        return false;
      }
      i := i + 1;
    }
    return true;
  }

  method GetBit(a: array<Word>, n: nat) returns (bit: int)
    requires Width(a.Length) && n < 32 * a.Length
    ensures bit == Bit(Value(a), n)
  {
    var word := n / 32;
    var shift := n - word * 32;
    bit := (a[word] / Pow2(shift)) % 2;
    assert Pow2(1) == 2 * Pow2(0);
    FieldOfWord(a[..], word, shift, 1);
  }

  lemma TopBit(x: nat, f: nat)
    requires x < Pow2(f + 1)
    ensures Bit(x, f) == 1 <==> Pow2(f) <= x
    ensures Bit(x, f) == 0 <==> x < Pow2(f)
  {
    NextBit(x, f);
    SmallMod(x, Pow2(f + 1));
  }

  /** The bit length of every number of at least two; zero for 0 and for 1. */
  method NumBits(n: array<Word>) returns (bits: nat)
    requires Width(n.Length)
    ensures Value(n) >= 2 ==> bits >= 2 && Pow2(bits - 1) <= Value(n) < Pow2(bits)
    ensures Value(n) < 2 ==> bits == 0
    ensures bits <= 32 * n.Length
  {
    var f := 32 * n.Length - 1;
    ValueBound(n);
    RadixIsPow2(n.Length);
    assert Pow2(1) == 2 * Pow2(0);
    while f > 0
      invariant 0 <= f < 32 * n.Length
      invariant Value(n) < Pow2(f + 1)
    {
      var b := GetBit(n, f);
      TopBit(Value(n), f);
      if b == 1 {
        Pow2Monotone(1, f);
        return f + 1;
      }
      f := f - 1;
    }
    return 0;
  }

  // ---- Addition and subtraction ------------------------------------------------

  /** One word of the carry chain; the output may overwrite either operand. */
  method AddWord(a: array<Word>, b: array<Word>, c: array<Word>, i: nat, carry: int,
                 ghost x: seq<Word>, ghost y: seq<Word>)
    returns (carry': int)
    requires a.Length == b.Length == c.Length == |x| == |y| && i < c.Length
    requires 0 <= carry <= 1
    requires a[i..] == x[i..] && b[i..] == y[i..]
    requires Added(x, y, c[..], i, carry)
    modifies c
    ensures 0 <= carry' <= 1
    ensures a[i + 1..] == x[i + 1..] && b[i + 1..] == y[i + 1..]
    ensures Added(x, y, c[..], i + 1, carry')
  {
    assert a[i] == a[i..][0] == x[i] && b[i] == b[i..][0] == y[i];
    assert a[i + 1..] == a[i..][1..] && b[i + 1..] == b[i..][1..];
    ghost var before := c[..];
    var tmp: int := a[i] as int + b[i] + carry;
    carry' := if tmp > BASE - 1 then 1 else 0;
    c[i] := tmp % BASE;
    assert c[..][..i] == before[..i];
    AddedNext(x, y, c[..], i, carry, carry');
  }

  /** The unrolled loop body of addition: four words of the carry chain. */
  method AddFourWords(a: array<Word>, b: array<Word>, c: array<Word>, i: nat, carry: int,
                      ghost x: seq<Word>, ghost y: seq<Word>)
    returns (carry': int)
    requires a.Length == b.Length == c.Length == |x| == |y| && i + 4 <= c.Length
    requires 0 <= carry <= 1
    requires a[i..] == x[i..] && b[i..] == y[i..]
    requires Added(x, y, c[..], i, carry)
    modifies c
    ensures 0 <= carry' <= 1
    ensures a[i + 4..] == x[i + 4..] && b[i + 4..] == y[i + 4..]
    ensures Added(x, y, c[..], i + 4, carry')
  {
    carry' := AddWord(a, b, c, i, carry, x, y);
    carry' := AddWord(a, b, c, i + 1, carry', x, y);
    carry' := AddWord(a, b, c, i + 2, carry', x, y);
    carry' := AddWord(a, b, c, i + 3, carry', x, y);
  }

  /** c = a + b, unrolled four words at a time; wraps when the sum does not fit. */
  method Add(a: array<Word>, b: array<Word>, c: array<Word>)
    requires Width(a.Length) && a.Length == b.Length == c.Length
    modifies c
    ensures Value(c) == old(Value(a)) + old(Value(b))
                        - if old(Value(a)) + old(Value(b)) < Modulus(c) then 0 else Modulus(c)
  {
    ghost var x, y := a[..], b[..];
    var carry := AddWord(a, b, c, 0, 0, x, y);
    var i := 1;
    ghost var round := 0;
    while i < c.Length
      invariant i == 4 * round + 1 <= c.Length == 4 * (c.Length / 4) + 1 && round >= 0
      invariant 0 <= carry <= 1
      invariant a[i..] == x[i..] && b[i..] == y[i..]
      invariant Added(x, y, c[..], i, carry)
    {
      carry := AddFourWords(a, b, c, i, carry, x, y);
      i, round := i + 4, round + 1;
    }
    AddedAll(x, y, c[..], carry);
  }

  /** c = a - b; wraps when the difference is negative. */
  method Sub(a: array<Word>, b: array<Word>, c: array<Word>)
    requires Width(a.Length) && a.Length == b.Length == c.Length
    modifies c
    ensures Value(c) == old(Value(a)) - old(Value(b))
                        + if old(Value(a)) < old(Value(b)) then Modulus(c) else 0
  {
    ghost var x, y := a[..], b[..];
    var borrow := 0;
    var i := 0;
    while i < c.Length
      invariant 0 <= i <= c.Length
      invariant 0 <= borrow <= 1
      invariant forall k :: i <= k < c.Length ==> a[k] == x[k] && b[k] == y[k]
      invariant Subtracted(x, y, c[..], i, borrow)
    {
      ghost var before := c[..];
      ghost var borrow0 := borrow;
      var tmp1: int := a[i] as int + BASE;
      var tmp2: int := b[i] as int + borrow;
      var res := tmp1 - tmp2;
      c[i] := res % BASE;
      borrow := if res <= BASE - 1 then 1 else 0;
      assert c[..][..i] == before[..i];
      SubtractedNext(x, y, c[..], i, borrow0, borrow);
      i := i + 1;
    }
    SubtractedAll(x, y, c[..], borrow);
  }

  /** Word-wise or; the output may overwrite either operand. */
  method Or(a: array<Word>, b: array<Word>, c: array<Word>)
    requires a.Length == b.Length == c.Length
    modifies c
    ensures Value(c) == BitOr(old(Value(a)), old(Value(b)))
  {
    ghost var x, y := a[..], b[..];
    var i := 0;
    while i < c.Length
      invariant 0 <= i <= c.Length
      invariant forall k :: i <= k < c.Length ==> a[k] == x[k] && b[k] == y[k]
      invariant forall k :: 0 <= k < i ==> c[k] == BitOr(x[k], y[k])
    {
      OrWord(a[i], b[i]);
      c[i] := BitOr(a[i], b[i]);
      i := i + 1;
    }
    ValOr(x, y, c[..]);
  }

  // ---- Shifts ----------------------------------------------------------------------

  /** In place, from the top word down; used for one bit and for the rest of a long shift. */
  method ShiftBitsUp(a: array<Word>, n: nat) returns (ghost over: nat)
    requires a.Length > 0 && 0 < n < 32
    modifies a
    ensures Value(a) + Modulus(a) * over == old(Value(a)) * Pow2(n)
  {
    ghost var x := a[..];
    var i := a.Length - 1;
    while i > 0
      invariant 0 <= i < a.Length
      invariant forall k :: 0 <= k <= i ==> a[k] == x[k]
      invariant forall k :: i < k < a.Length ==> a[k] == ShiftUp(x[k], x[k - 1], n)
    {
      a[i] := ShiftUp(a[i], a[i - 1], n);
      i := i - 1;
    }
    a[0] := a[0] * Pow2(n) % BASE;
    over := ValShiftedUp(x, a[..], n);
  }

  /** In place, from the bottom word up. */
  method ShiftBitsDown(a: array<Word>, n: nat)
    requires a.Length > 0 && 0 < n < 32
    modifies a
    ensures Value(a) == old(Value(a)) / Pow2(n)
  {
    ghost var x := a[..];
    var i := 0;
    while i < a.Length - 1
      invariant 0 <= i < a.Length
      invariant forall k :: i <= k < a.Length ==> a[k] == x[k]
      invariant forall k :: 0 <= k < i ==> a[k] == ShiftDown(x[k], x[k + 1], n)
    {
      a[i] := ShiftDown(a[i], a[i + 1], n);
      i := i + 1;
    }
    DivBelow(a[i], Pow2(n));
    a[i] := a[i] / Pow2(n);
    ValShiftedDown(x, a[..], n);
  }

  lemma DivBelow(x: int, m: int)
    requires 0 <= x && m > 0
    ensures 0 <= x / m <= x
  {
    if x / m > x {
      MulMonotone(1, m, x / m);
      assert false;
    }
  }

  /** Moves the n words above the lowest one down by one, and clears the rest. */
  method ShiftWordsDown(a: array<Word>, n: nat)
    requires n < a.Length
    modifies a
    ensures Value(a) == (old(Value(a)) / Radix(1)) % Radix(n)
  {
    ghost var x := a[..];
    var i := 0;
    while i < n
      invariant 0 <= i <= n
      invariant forall k :: 0 <= k < i ==> a[k] == x[k + 1]
      invariant forall k :: i <= k < a.Length ==> a[k] == x[k]
    {
      a[i] := a[i + 1];
      i := i + 1;
    }
    while i < a.Length
      invariant n <= i <= a.Length
      invariant forall k :: 0 <= k < n ==> a[k] == x[k + 1]
      invariant forall k :: n <= k < i ==> a[k] == 0
    {
      a[i] := 0;
      i := i + 1;
    }
    ValWordsDown(x, a[..], n);
  }

  /** What a shift down leaves of a number: below one word what it should, from there on only some words. */
  function ShiftedRight(x: nat, n: nat): int {
    (if n < 32 then x else (x / Radix(1)) % Radix(n / 32)) / Pow2(n % 32)
  }

  /** Shifts down in place, for every shift that stays inside the array. */
  method Rshift(a: array<Word>, n: nat)
    requires n / 32 < a.Length
    modifies a
    ensures Value(a) == ShiftedRight(old(Value(a)), n)
  {
    var words, bits := n / 32, n % 32;
    if words != 0 {
      ShiftWordsDown(a, words);
    }
    if bits != 0 {
      ShiftBitsDown(a, bits);
    } else {
      assert Pow2(bits) == 1;
    }
  }

  lemma HalfShift(x: nat)
    ensures ShiftedRight(x, 1) == x / 2
  {
    ShortShift(x, 1);
    assert Pow2(1) == 2 * Pow2(0);
    hide ShiftedRight, Radix;
  }

  /** A shift by less than a word divides by 2^n. */
  lemma ShortShift(x: nat, n: nat)
    requires n < 32
    ensures ShiftedRight(x, n) == x / Pow2(n)
  {
    hide Pow2, Radix;
    assert n % 32 == n;
  }

  /** A shift by one word and some bits divides by 2^n exactly for numbers of at most two words. */
  lemma OneWordShift(x: nat, n: nat)
    requires 32 <= n < 64
    ensures ShiftedRight(x, n) == x / Pow2(n) <==> x < Radix(2)
  {
    var r, p, y := Radix(1), Pow2(n - 32), x / Radix(1);
    RadixIsPow2(1);
    Pow2Add(32, n - 32);
    DivDiv(x, r, p);
    var h, l := y / r, y % r;
    Pow2Add(n - 32, 64 - n);
    SplitQuotient(y, h, l, p, Pow2(64 - n));
    RadixAdd(1, 1);
    DivDiv(x, r, r);
    SmallQuotient(x, r * r);
    assert ShiftedRight(x, n) == l / p;
  }

  lemma SplitQuotient(y: nat, h: nat, l: nat, p: nat, q: nat)
    requires p > 0 && q > 0 && y == (p * q) * h + l
    ensures y / p == q * h + l / p && (q * h == 0 <==> h == 0)
  {
    MulAssoc(p, q, h);
    MulDistribute(q * h, l / p, p);
    MulNonNegative(q, h);
    DivModUnique(y, p, q * h + l / p, l % p);
    if h > 0 {
      MulStrict(0, h, q);
    }
  }

  lemma SmallQuotient(x: nat, m: nat)
    requires m > 0
    ensures x / m == 0 <==> x < m
  {
    if x < m {
      DivModUnique(x, m, 0, x);
    }
  }

  /** The lowest digit in base m comes again above itself, and once more as far as it fits below q. */
  predicate Repeats(z: int, m: int, q: int)
    requires m > 0 && q > 0
  {
    z == z % m + (z % m) * m + ((z % m) % q) * (m * m)
  }

  /**
   * A shift by w > 1 words and b more bits divides by 2^n exactly if what the
   * number holds above its lowest 32 + b bits is one pattern of w - 1 words,
   * repeated up to 2 * w words: zero, above all.
   */
  lemma LongShift(x: nat, w: nat, b: nat)
    requires w > 1 && b < 32
    ensures ShiftedRight(x, 32 * w + b) == x / Pow2(32 * w + b)
      <==> Repeats(x / Pow2(32 + b), Radix(w - 1), Pow2(32 - b))
  {
    var p, q, m, c := Pow2(b), Pow2(32 - b), Radix(w - 1), Radix(w - 2);
    LongShiftFactors(w, b);
    hide Pow2, Radix, Repeats;
    ShiftedByWords(x, w, b);
    LongShiftParts(x, p, q, m, p * c);
  }

  lemma ShiftedByWords(x: nat, w: nat, b: nat)
    requires w > 0 && b < 32
    ensures ShiftedRight(x, 32 * w + b) == ((x / Radix(1)) % Radix(w)) / Pow2(b)
  {
    hide Pow2, Radix;
    DivModUnique(32 * w + b, 32, w, b);
  }

  /** The powers of two that make up the two shifts. */
  lemma LongShiftFactors(w: nat, b: nat)
    requires w > 1 && b < 32
    ensures Pow2(b) * Pow2(32 - b) == Radix(1) && Radix(w) == Pow2(b) * (Pow2(32 - b) * Radix(w - 1))
    ensures Pow2(32 + b) == (Pow2(b) * Pow2(32 - b)) * Pow2(b)
    ensures Pow2(32 * w + b) == ((Pow2(b) * Pow2(32 - b)) * Pow2(b)) * Radix(w - 1)
    ensures Radix(w - 1) == Pow2(32 - b) * (Pow2(b) * Radix(w - 2))
  {
    RadixIsPow2(1);
    RadixIsPow2(w - 1);
    RadixAdd(1, w - 1);
    RadixAdd(1, w - 2);
    Pow2Add(32, b);
    Pow2Add(b, 32 - b);
    Pow2Add(32 + b, 32 * (w - 1));
    hide Pow2, Radix;
    assert 32 + b + 32 * (w - 1) == 32 * w + b;
    MulAssoc(Pow2(b), Pow2(32 - b), Radix(w - 1));
    MulAssoc(Pow2(32 - b), Pow2(b), Radix(w - 2));
  }

  /** A shift by r = p * q and by p, which leaves q * m, against a shift by m more. */
  lemma LongShiftParts(x: nat, p: nat, q: nat, m: nat, c: int)
    requires p > 0 && q > 0 && m > 0 && m == q * c
    ensures p * q > 0 && p * (q * m) > 0 && (p * q) * p > 0 && ((p * q) * p) * m > 0
    ensures ((x / (p * q)) % (p * (q * m))) / p == x / (((p * q) * p) * m)
      <==> Repeats(x / ((p * q) * p), m, q)
  {
    MulStrict(0, p, q);
    MulStrict(0, q, m);
    MulStrict(0, p, q * m);
    MulStrict(0, p * q, p);
    MulStrict(0, (p * q) * p, m);
    var y := x / (p * q);
    var z := y / p;
    DivDiv(x, p * q, p);
    DivDiv(x, (p * q) * p, m);
    DivDiv(y, p, q * m);
    DivModUnique(y % (p * (q * m)), p, z % (q * m), y % p);
    PatternRepeats(z, m, q, c);
  }

  /** Dropping all from q * m on is dropping the lowest m exactly for repeated patterns. */
  lemma PatternRepeats(z: nat, m: nat, q: nat, c: int)
    requires q > 0 && m > 0 && m == q * c
    ensures q * m > 0
    ensures z % (q * m) == z / m <==> Repeats(z, m, q)
  {
    MulStrict(0, q, m);
    DivDiv(z, m, q);
    Swapped(m, q);
    var d, high := z % m, z / m;
    if z % (q * m) == high {
      LowPart(d, high % q, m, q, c);
      Expanded(d, high % q, m);
    }
    if Repeats(z, m, q) {
      Expanded(d, d % q, m);
      DivModUnique(z, m, d + (d % q) * m, d);
      LowPart(d, d % q, m, q, c);
    }
  }

  lemma Swapped(x: int, y: int)
    ensures x * y == y * x
  {
  }

  /** Multiples of m, and so of q, do not change what is left modulo q. */
  lemma LowPart(d: int, u: int, m: int, q: int, c: int)
    requires q > 0 && m == q * c
    ensures (d + u * m) % q == d % q
  {
    MulAssoc(u, c, q);
    Swapped(q, c);
    ModAddMultiple(d, u * c, q);
  }

  lemma Expanded(d: int, u: int, m: int)
    ensures (d + u * m) * m + d == d + d * m + u * (m * m)
  {
    MulDistribute(d, u * m, m);
    MulAssoc(u, m, m);
  }

  /** Two to the power of 64 shifted down by one word comes out as zero. */
  lemma WordShiftIsWrong()
    ensures ShiftedRight(0x1_0000_0000_0000_0000, 32) == 0
    ensures 0x1_0000_0000_0000_0000 / Pow2(32) == 0x1_0000_0000
  {
    Pow2Of32();
    assert Radix(0) == 1 && Radix(1) == BASE * Radix(0) && Pow2(0) == 1;
    hide Pow2, Radix;
  }

  /** Moves whole words up in place and zero-fills below. */
  method ShiftWordsUp(a: array<Word>, n: nat) returns (ghost over: nat)
    requires a.Length > 0
    modifies a
    ensures Value(a) + Modulus(a) * over == old(Value(a)) * Radix(n)
  {
    ghost var x := a[..];
    var i := a.Length - 1;
    while i >= n
      invariant -1 <= i < a.Length
      invariant forall k :: 0 <= k <= i ==> a[k] == x[k]
      invariant forall k :: i < k < a.Length && k >= n ==> a[k] == x[k - n]
      invariant i >= n - 1 || i == a.Length - 1
    {
      a[i] := a[i - n];
      i := i - 1;
    }
    while i >= 0
      invariant -1 <= i < a.Length && i < n
      invariant forall k :: n <= k < a.Length ==> a[k] == x[k - n]
      invariant forall k :: i < k < n && k < a.Length ==> a[k] == 0
    {
      a[i] := 0;
      i := i - 1;
    }
    over := ValWordsUp(x, a[..], n);
  }

  /** b = a << n, by whole words and then by bits; over is what no longer fits. */
  method Lshift(a: array<Word>, b: array<Word>, n: nat) returns (ghost over: nat)
    requires Width(a.Length) && a.Length == b.Length
    modifies b
    ensures Value(b) + Modulus(b) * over == old(Value(a)) * Pow2(n)
  {
    ghost var x := Value(a);
    Assign(b, a);
    var words := n / 32;
    var bits := n;
    over := 0;
    RadixIsPow2(words);
    if words != 0 {
      over := ShiftWordsUp(b, words);
      bits := bits - words * 32;
    }
    if bits != 0 {
      ghost var shifted, lost := Value(b), over;
      over := ShiftBitsUp(b, bits);
      Pow2Add(32 * words, bits);
      ShiftTwice(x, Pow2(32 * words), Pow2(bits), shifted, lost, Value(b), over, Modulus(b));
      over := over + lost * Pow2(bits);
    }
  }

  lemma ShiftTwice(x: nat, p: nat, r: nat, y: nat, lost: nat, z: nat, lost': nat, m: nat)
    requires y + m * lost == x * p && z + m * lost' == y * r
    ensures 0 <= lost * r
    ensures z + m * (lost' + lost * r) == x * (p * r)
  {
    MulNonNegative(lost, r);
    MulAssoc(x, p, r);
    MulDistribute(y, m * lost, r);
    MulAssoc(m, lost, r);
    MulDistribute(lost', lost * r, m);
  }

  /** A product that fits the width overflows by nothing. */
  lemma NothingLost(m: nat, z: nat, over: nat, x: nat)
    requires z + m * over == x < m
    ensures over == 0 && z == x
  {
    if over > 0 {
      MulMonotone(1, over, m);
      assert false;
    }
  }

  // ---- Multiplication -----------------------------------------------------------------

  /**
   * c = a * b, one shifted word product at a time; products beyond the width
   * are skipped or cut off, and over counts what was lost.
   */
  method Mul(a: array<Word>, b: array<Word>, c: array<Word>) returns (ghost over: nat)
    requires Width(a.Length) && a.Length == b.Length == c.Length && c != a && c != b
    modifies c
    ensures Value(c) + Modulus(c) * over == Value(a) * Value(b)
  {
    var row := new Word[a.Length];
    Init(c);
    over := 0;
    var i := 0;
    while i < a.Length
      invariant 0 <= i <= a.Length
      invariant Value(c) + Modulus(c) * over == Val(a[..i]) * Value(b)
    {
      ghost var lost := MulRow(a, b, row, i);
      assert a[..][..i] == a[..i] && a[..][..i + 1] == a[..i + 1];
      ValNextWord(a[..], i);
      MulDistribute(Val(a[..i]), Radix(i) * a[i], Value(b));
      ghost var before, shifted := Value(c), Value(row);
      Add(c, row, c);
      over := SumLost(before, over, shifted, lost, Value(c), Modulus(c));
      i := i + 1;
    }
    assert a[..] == a[..a.Length];
  }

  /** One row of the product: word i of a times all of b, at its weight. */
  method MulRow(a: array<Word>, b: array<Word>, row: array<Word>, i: nat) returns (ghost lost: nat)
    requires Width(a.Length) && a.Length == b.Length == row.Length && row != a && row != b
    requires i < a.Length
    modifies row
    ensures Value(row) + Modulus(row) * lost == (Radix(i) * a[i]) * Value(b)
  {
    hide Radix;
    var tmp := new Word[a.Length];
    Init(row);
    lost := 0;
    var j := 0;
    while j < b.Length
      invariant 0 <= j <= b.Length
      invariant Value(row) + Modulus(row) * lost == (Radix(i) * a[i]) * Val(b[..j])
    {
      assert b[..][..j] == b[..j] && b[..][..j + 1] == b[..j + 1];
      ValNextWord(b[..], j);
      RadixAdd(i, j);
      RowProduct(Radix(i), a[i], Radix(j), b[j], Val(b[..j]));
      ghost var product := WordProduct(a[i], b[j]);
      if i + j < a.Length {
        Init(tmp);
        FromInt(tmp, a[i] as int * b[j]);
        ghost var cut := ShiftWordsUp(tmp, i + j);
        ghost var before, term := Value(row), Value(tmp);
        Add(tmp, row, row);
        lost := SumLost(before, lost, term, cut, Value(row), Modulus(row));
      } else {
        RadixAdd(a.Length, i + j - a.Length);
        lost := SkippedTerm(product, Radix(i + j - a.Length), Modulus(row), lost);
      }
      j := j + 1;
    }
    assert b[..] == b[..b.Length];
  }

  /** A word product fits 64 bits. */
  lemma WordProduct(x: int, y: int) returns (product: nat)
    requires 0 <= x < BASE && 0 <= y < BASE
    ensures product == x * y < BASE * BASE
  {
    MulNonNegative(x, y);
    MulMonotone(x, BASE - 1, y);
    product := x * y;
  }

  /** Adding two truncated numbers, with or without a wrap, truncates their sum. */
  lemma SumLost(x: nat, lost: nat, y: nat, lost': nat, z: nat, m: nat) returns (over: nat)
    requires z == x + y - if x + y < m then 0 else m
    ensures z + m * over == (x + m * lost) + (y + m * lost')
  {
    over := lost + lost' + if x + y < m then 0 else 1;
    MulDistribute(lost + lost', if x + y < m then 0 else 1, m);
    MulDistribute(lost, lost', m);
  }

  /** A word product at or beyond the width is lost as a whole. */
  lemma SkippedTerm(product: nat, beyond: nat, m: nat, lost: nat) returns (over: nat)
    ensures m * over == m * lost + product * (m * beyond)
  {
    MulNonNegative(product, beyond);
    MulDistribute(lost, product * beyond, m);
    MulAssoc(product, beyond, m);
    over := lost + product * beyond;
  }

  lemma RowProduct(ri: int, x: int, rj: int, y: int, low: int)
    ensures (ri * x) * (low + rj * y) == (ri * x) * low + (x * y) * (ri * rj)
  {
    MulDistribute(low, rj * y, ri * x);
    MulAssoc(x * y, ri, rj);
    MulAssoc(x, y, ri);
    MulAssoc(x, ri, y);
    MulAssoc(ri * x, y, rj);
  }

  // ---- Division ---------------------------------------------------------------------------

  /** The top bit of the top word tells whether doubling overflows. */
  lemma TopWordDoubling(s: seq<Word>)
    requires s != []
    ensures s[|s| - 1] >= HALF_MAX ==> 2 * Val(s) >= Radix(|s|)
    ensures s[|s| - 1] < HALF_MAX ==> 2 * Val(s) < Radix(|s|)
  {
    var k := |s| - 1;
    ValNextWord(s, k);
    assert s[..k + 1] == s;
    ValBound(s[..k]);
    TopWordBound(s[k], Radix(k), Val(s[..k]));
  }

  lemma TopWordBound(top: int, r: int, low: int)
    requires 0 <= low < r
    ensures top >= HALF_MAX ==> 2 * (low + r * top) >= BASE * r
    ensures top < HALF_MAX ==> 2 * (low + r * top) < BASE * r
  {
    if top >= HALF_MAX {
      MulMonotone(HALF_MAX, top, r);
    } else {
      MulMonotone(top, HALF_MAX - 1, r);
    }
  }

  /** What the subtracting loop maintains while it rebuilds the quotient bit by bit. */
  ghost predicate Dividing(a: nat, b: nat, quotient: nat, rest: nat, current: nat, denom: nat,
                           level: int, high: nat)
  {
    && level >= -1
    && current == (if level < 0 then 0 else Pow2(level))
    && (level >= 0 ==> denom == b * Pow2(level))
    && quotient == high * Pow2(level + 1)
    && rest < b * Pow2(level + 1)
    && a == quotient * b + rest
  }

  /** One round of the subtracting loop, on values. */
  lemma DivideRound(a: nat, b: nat, quotient: nat, rest: nat, denom: nat, level: nat, high: nat,
                    quotient': nat, rest': nat, bit: nat)
    requires Dividing(a, b, quotient, rest, Pow2(level), denom, level, high)
    requires bit <= 1 && (bit == 1 <==> rest >= denom)
    requires quotient' == quotient + (if bit == 1 then Pow2(level) else 0)
    requires rest' == rest - (if bit == 1 then denom else 0)
    ensures Dividing(a, b, quotient', rest', Pow2(level) / 2, denom / 2, level - 1, 2 * high + bit)
  {
    DivideStep(b, high, Pow2(level));
    if level > 0 {
      HalveLevel(b, Pow2(level - 1));
    }
  }

  lemma HalveLevel(b: nat, h: nat)
    ensures (b * (2 * h)) / 2 == b * h && (2 * h) / 2 == h
  {
    MulAssoc(b, 2, h);
    MulAssoc(2, b, h);
    assert b * (2 * h) == 2 * (b * h);
  }

  lemma DivideStep(b: int, high: int, p: int)
    ensures b * (2 * p) == 2 * (b * p)
    ensures high * (2 * p) == (2 * high) * p
    ensures (2 * high + 1) * p == high * (2 * p) + p
    ensures (high * (2 * p) + p) * b == (high * (2 * p)) * b + b * p
  {
    MulAssoc(b, 2, p);
    MulAssoc(2, b, p);
    MulAssoc(high, 2, p);
    MulAssoc(2, high, p);
    MulDistribute(2 * high, 1, p);
    MulDistribute(high * (2 * p), p, b);
  }

  /** A one-bit left shift of a number below half the modulus doubles it. */
  method Double(a: array<Word>)
    requires a.Length > 0 && 2 * Value(a) < Modulus(a)
    modifies a
    ensures Value(a) == 2 * old(Value(a))
  {
    ghost var x := Value(a);
    ghost var over := ShiftBitsUp(a, 1);
    assert Pow2(1) == 2 * Pow2(0);
    NothingLost(Modulus(a), Value(a), over, x * Pow2(1));
  }

  /** A one-bit right shift halves. */
  method Halve(a: array<Word>)
    requires a.Length > 0
    modifies a
    ensures Value(a) == old(Value(a)) / 2
  {
    ShiftBitsDown(a, 1);
    assert Pow2(1) == 2 * Pow2(0);
  }

  /**
   * The doubling loop: scales the divisor by the largest power of two that does
   * not pass the dividend, stopping early when the next doubling would overflow.
   */
  method ScaleDivisor(a: array<Word>, current: array<Word>, denom: array<Word>) returns (ghost level: int)
    requires Width(a.Length) && a.Length == current.Length == denom.Length
    requires current != a && denom != a && current != denom
    requires Value(current) == 1 && Value(denom) > 0
    modifies current, denom
    ensures level >= -1
    ensures Value(current) == if level < 0 then 0 else Pow2(level)
    ensures level >= 0 ==> Value(denom) == old(Value(denom)) * Pow2(level)
    ensures Value(a) < old(Value(denom)) * Pow2(level + 1)
  {
    ghost var x, y := Value(a), Value(denom);
    ValueBound(a);
    var overflow := false;
    ghost var k: nat := 0;
    var order := Cmp(denom, a);
    while order != 1
      invariant !overflow
      invariant order == 1 <==> Value(denom) > x
      invariant Value(current) == Pow2(k) && Value(denom) == y * Pow2(k) && Pow2(k) <= y * Pow2(k)
      decreases Modulus(denom) - Value(denom)
    {
      TopWordDoubling(denom[..]);
      DivideStep(y, 0, Pow2(k));
      ValueBound(denom);
      if denom[denom.Length - 1] >= HALF_MAX {
        overflow := true;
        break;
      }
      Double(current);
      Double(denom);
      ValueBound(denom);
      k := k + 1;
      order := Cmp(denom, a);
    }
    level := k;
    if !overflow {
      Halve(denom);
      Halve(current);
      level := k - 1;
      if k > 0 {
        HalveLevel(y, Pow2(k - 1));
      }
    }
  }

  /** The conditional subtraction: sets the current quotient bit when the divisor fits. */
  method SubtractBack(tmp: array<Word>, denom: array<Word>, current: array<Word>, c: array<Word>,
                      ghost level: nat, ghost high: nat)
    returns (ghost bit: nat)
    requires Width(c.Length) && tmp.Length == denom.Length == current.Length == c.Length
    requires tmp != denom && tmp != current && tmp != c && c != current && c != denom
    requires Value(current) == Pow2(level) && Value(c) == high * Pow2(level + 1)
    modifies tmp, c
    ensures bit <= 1 && (bit == 1 <==> old(Value(tmp)) >= Value(denom))
    ensures Value(c) == old(Value(c)) + if bit == 1 then Pow2(level) else 0
    ensures Value(tmp) == old(Value(tmp)) - if bit == 1 then Value(denom) else 0
  {
    bit := 0;
    var order := Cmp(tmp, denom);
    if order != -1 {
      Sub(tmp, denom, tmp);
      OrDisjoint(level + 1, high, Pow2(level));
      Or(c, current, c);
      bit := 1;
    }
  }

  /** One round: subtract if it fits, then move to the next lower bit. */
  method DivideOnce(tmp: array<Word>, denom: array<Word>, current: array<Word>, c: array<Word>,
                    ghost a: nat, ghost b: nat, ghost level: nat, ghost high: nat)
    returns (ghost high': nat)
    requires Width(c.Length) && tmp.Length == denom.Length == current.Length == c.Length
    requires tmp != denom && tmp != current && tmp != c && c != current && c != denom && current != denom
    requires Dividing(a, b, Value(c), Value(tmp), Value(current), Value(denom), level, high)
    modifies tmp, denom, current, c
    ensures Dividing(a, b, Value(c), Value(tmp), Value(current), Value(denom), level - 1, high')
  {
    ghost var q, r, d := Value(c), Value(tmp), Value(denom);
    ghost var bit := SubtractBack(tmp, denom, current, c, level, high);
    DivideRound(a, b, q, r, d, level, high, Value(c), Value(tmp), bit);
    Halve(current);
    Halve(denom);
    high' := 2 * high + bit;
  }

  /** c = a / b by doubling the divisor and subtracting back; never ends for b = 0. */
  method Div(a: array<Word>, b: array<Word>, c: array<Word>)
    requires Width(a.Length) && a.Length == b.Length == c.Length && c != a && c != b
    requires Value(b) != 0
    modifies c
    ensures Value(c) * Value(b) <= Value(a) < Value(c) * Value(b) + Value(b)
  {
    var current := new Word[a.Length];
    var denom := new Word[a.Length];
    var tmp := new Word[a.Length];
    ghost var x, y := Value(a), Value(b);
    FromInt(current, 1);
    Assign(denom, b);
    Assign(tmp, a);
    ghost var level := ScaleDivisor(a, current, denom);
    Init(c);
    ghost var high := 0;
    DividingStarts(x, y, Value(current), Value(denom), level);
    var done := IsZero(current);
    while !done
      invariant done <==> Value(current) == 0
      invariant Dividing(x, y, Value(c), Value(tmp), Value(current), Value(denom), level, high)
      decreases level + 1
    {
      high := DivideOnce(tmp, denom, current, c, x, y, level, high);
      level := level - 1;
      done := IsZero(current);
    }
    DividingEnds(x, y, Value(c), Value(tmp), Value(denom), level, high);
  }

  lemma DividingStarts(a: nat, b: nat, current: nat, denom: nat, level: int)
    requires level >= -1 && current == if level < 0 then 0 else Pow2(level)
    requires level >= 0 ==> denom == b * Pow2(level)
    requires a < b * Pow2(level + 1)
    ensures Dividing(a, b, 0, a, current, denom, level, 0)
  {
  }

  lemma DividingEnds(a: nat, b: nat, quotient: nat, rest: nat, denom: nat, level: int, high: nat)
    requires Dividing(a, b, quotient, rest, 0, denom, level, high)
    ensures quotient * b <= a < quotient * b + b
  {
  }

  /** c = a / b and d = a mod b, the remainder by multiplying back. */
  method DivMod(a: array<Word>, b: array<Word>, c: array<Word>, d: array<Word>)
    requires Width(a.Length) && a.Length == b.Length == c.Length == d.Length
    requires c != a && c != b && c != d && Value(b) != 0
    modifies c, d
    ensures Value(c) * old(Value(b)) + Value(d) == old(Value(a)) && Value(d) < old(Value(b))
  {
    var tmp := new Word[a.Length];
    Div(a, b, c);
    ValueBound(a);
    ghost var product := Value(c) * Value(b);
    ghost var over := Mul(c, b, tmp);
    NothingLost(Modulus(a), Value(tmp), over, product);
    Sub(a, tmp, d);
  }

  /** d = a mod b. */
  method Mod(a: array<Word>, b: array<Word>, d: array<Word>)
    requires Width(a.Length) && a.Length == b.Length == d.Length && Value(b) != 0
    modifies d
    ensures Value(d) == old(Value(a)) % old(Value(b))
  {
    var tmp := new Word[a.Length];
    ghost var x, y := Value(a), Value(b);
    DivMod(a, b, tmp, d);
    DivModUnique(x, y, Value(tmp), Value(d));
  }
}
