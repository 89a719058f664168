/**
 * Little-endian numbers of 32-bit words, as pure values: what a word array
 * denotes, and what each word-level step does to it. The width (97 words in
 * the signing program) is a parameter of every statement.
 */
module Words {
  import opened Arithmetic

  const BASE: int := 0x1_0000_0000
  type Word = x: int | 0 <= x < BASE

  /** The weight of word i. */
  function Radix(i: nat): (r: nat)
    ensures r > 0
  {
    if i == 0 then 1 else BASE * Radix(i - 1)
  }

  /** The number denoted by a little-endian word sequence. */
  function Val(s: seq<Word>): nat {
    if s == [] then 0 else s[0] + BASE * Val(s[1..])
  }

  lemma {:induction false} RadixAdd(i: nat, j: nat)
    ensures Radix(i + j) == Radix(i) * Radix(j)
  {
    if i == 0 {
    } else {
      RadixAdd(i - 1, j);
      MulAssoc(BASE, Radix(i - 1), Radix(j));
    }
  }

  lemma Pow2Of32()
    ensures Pow2(32) == BASE && Pow2(31) == 0x8000_0000
  {
    assert Pow2(8) == 256;
    Pow2Add(8, 8);
    Pow2Add(16, 16);
  }

  lemma {:induction false} RadixIsPow2(i: nat)
    ensures Radix(i) == Pow2(32 * i)
  {
    if i == 0 {
    } else {
      RadixIsPow2(i - 1);
      Pow2Of32();
      Pow2Add(32, 32 * (i - 1));
    }
  }

  lemma {:induction false} ValConcat(s: seq<Word>, t: seq<Word>)
    ensures Val(s + t) == Val(s) + Radix(|s|) * Val(t)
  {
    if s == [] {
      assert s + t == t;
    } else {
      assert (s + t)[1..] == s[1..] + t;
      ValConcat(s[1..], t);
      MulAssoc(BASE, Radix(|s| - 1), Val(t));
    }
  }

  lemma ValNextWord(s: seq<Word>, i: nat)
    requires i < |s|
    ensures Val(s[..i + 1]) == Val(s[..i]) + Radix(i) * s[i]
  {
    assert s[..i + 1] == s[..i] + [s[i]];
    ValConcat(s[..i], [s[i]]);
    assert Val([s[i]]) == s[i];
  }

  lemma ValSplit(s: seq<Word>, i: nat)
    requires i <= |s|
    ensures Val(s) == Val(s[..i]) + Radix(i) * Val(s[i..])
  {
    assert s == s[..i] + s[i..];
    ValConcat(s[..i], s[i..]);
  }

  lemma {:induction false} ValBound(s: seq<Word>)
    ensures Val(s) < Radix(|s|)
  {
    if s == [] {
    } else {
      ValBound(s[1..]);
    }
  }

  lemma {:induction false} ValZeros(s: seq<Word>)
    ensures Val(s) == 0 <==> forall i :: 0 <= i < |s| ==> s[i] == 0
  {
    if s == [] {
    } else {
      ValZeros(s[1..]);
      if Val(s[1..]) == 0 && s[0] == 0 {
        forall i | 0 <= i < |s| ensures s[i] == 0 {
          if i > 0 { assert s[i] == s[1..][i - 1]; }
        }
      }
      if forall i :: 0 <= i < |s| ==> s[i] == 0 {
        forall i | 0 <= i < |s[1..]| ensures s[1..][i] == 0 {
          assert s[1..][i] == s[i + 1];
        }
      }
    }
  }

  /** The highest differing word decides the order of two numbers. */
  lemma TopWordDecides(a: seq<Word>, b: seq<Word>, i: nat)
    requires |a| == |b| && i < |a| && a[i + 1..] == b[i + 1..] && a[i] > b[i]
    ensures Val(a) > Val(b)
  {
    ValSplit(a, i + 1);
    ValSplit(b, i + 1);
    ValNextWord(a, i);
    ValNextWord(b, i);
    ValBound(b[..i]);
    DigitOrder(a[i], b[i], Radix(i), Val(a[..i]), Val(b[..i]));
  }

  lemma DigitOrder(x: int, y: int, r: int, low: int, low': int)
    requires x > y && 0 < r && 0 <= low && low' < r
    ensures low + r * x > low' + r * y
  {
    MulMonotone(y + 1, x, r);
    MulDistribute(y, 1, r);
  }

  // ---- Carry and borrow chains ----------------------------------------------

  /** A carry or borrow into word i. */
  function Carried(i: nat, carry: int): int {
    if carry == 0 then 0 else Radix(i)
  }

  ghost predicate Added(a: seq<Word>, b: seq<Word>, c: seq<Word>, i: nat, carry: int)
    requires i <= |a| == |b| == |c|
  {
    Val(c[..i]) + Carried(i, carry) == Val(a[..i]) + Val(b[..i])
  }

  ghost predicate Subtracted(a: seq<Word>, b: seq<Word>, c: seq<Word>, i: nat, borrow: int)
    requires i <= |a| == |b| == |c|
  {
    Val(c[..i]) - Carried(i, borrow) == Val(a[..i]) - Val(b[..i])
  }

  lemma AddedNext(a: seq<Word>, b: seq<Word>, c: seq<Word>, i: nat, carry: int, carry': int)
    requires i < |a| == |b| == |c| && 0 <= carry <= 1 && 0 <= carry' <= 1
    requires Added(a, b, c, i, carry)
    requires c[i] + BASE * carry' == a[i] + b[i] + carry
    ensures Added(a, b, c, i + 1, carry')
  {
    ValNextWord(a, i);
    ValNextWord(b, i);
    ValNextWord(c, i);
    ChainStep(Radix(i), a[i], b[i], c[i], carry, carry');
  }

  lemma ChainStep(r: int, a: int, b: int, c: int, carry: int, carry': int)
    requires c + BASE * carry' == a + b + carry && 0 <= carry <= 1 && 0 <= carry' <= 1
    ensures r * c + (if carry' == 0 then 0 else BASE * r) == r * a + r * b + if carry == 0 then 0 else r
  {
    MulDistribute(c, BASE * carry', r);
    MulDistribute(a + b, carry, r);
    MulDistribute(a, b, r);
  }

  lemma SubtractedNext(a: seq<Word>, b: seq<Word>, c: seq<Word>, i: nat, borrow: int, borrow': int)
    requires i < |a| == |b| == |c| && 0 <= borrow <= 1 && 0 <= borrow' <= 1
    requires Subtracted(a, b, c, i, borrow)
    requires c[i] - BASE * borrow' == a[i] - b[i] - borrow
    ensures Subtracted(a, b, c, i + 1, borrow')
  {
    ValNextWord(a, i);
    ValNextWord(b, i);
    ValNextWord(c, i);
    ChainStep(Radix(i), c[i], b[i], a[i], borrow, borrow');
  }

  lemma AddedWhole(a: seq<Word>, b: seq<Word>, c: seq<Word>, carry: int)
    requires |a| == |b| == |c| && Added(a, b, c, |c|, carry)
    ensures Val(c) + Carried(|c|, carry) == Val(a) + Val(b)
  {
    assert a[..|c|] == a && b[..|c|] == b && c[..|c|] == c;
  }

  lemma SubtractedWhole(a: seq<Word>, b: seq<Word>, c: seq<Word>, borrow: int)
    requires |a| == |b| == |c| && Subtracted(a, b, c, |c|, borrow)
    ensures Val(c) - Carried(|c|, borrow) == Val(a) - Val(b)
  {
    assert a[..|c|] == a && b[..|c|] == b && c[..|c|] == c;
  }

  /** A full carry chain adds, and wraps exactly when the sum does not fit. */
  lemma AddedAll(a: seq<Word>, b: seq<Word>, c: seq<Word>, carry: int)
    requires |a| == |b| == |c| && Added(a, b, c, |c|, carry)
    ensures Val(c) == Val(a) + Val(b) - if Val(a) + Val(b) < Radix(|c|) then 0 else Radix(|c|)
  {
    AddedWhole(a, b, c, carry);
    ValBound(c);
  }

  /** A full borrow chain subtracts, and wraps exactly when the difference is negative. */
  lemma SubtractedAll(a: seq<Word>, b: seq<Word>, c: seq<Word>, borrow: int)
    requires |a| == |b| == |c| && Subtracted(a, b, c, |c|, borrow)
    ensures Val(c) == Val(a) - Val(b) + if Val(a) < Val(b) then Radix(|c|) else 0
  {
    SubtractedWhole(a, b, c, borrow);
    ValBound(a);
    ValBound(b);
    ValBound(c);
  }

  // ---- Bitwise or -------------------------------------------------------------

  function BitOr(a: nat, b: nat): nat {
    if a == 0 then b
    else if b == 0 then a
    else 2 * BitOr(a / 2, b / 2) + if a % 2 == 1 || b % 2 == 1 then 1 else 0
  }

  lemma {:induction false} OrBound(k: nat, l: nat, l': nat)
    requires l < Pow2(k) && l' < Pow2(k)
    ensures BitOr(l, l') < Pow2(k)
  {
    if k == 0 {
    } else {
      OrBound(k - 1, l / 2, l' / 2);
      OrHalves(l, l');
    }
  }

  /** The low k bits and the rest are combined independently. */
  lemma {:induction false} OrSplit(k: nat, h: nat, l: nat, a: nat, h': nat, l': nat, b: nat)
    requires l < Pow2(k) && l' < Pow2(k)
    requires a == h * Pow2(k) + l && b == h' * Pow2(k) + l'
    ensures BitOr(a, b) == BitOr(h, h') * Pow2(k) + BitOr(l, l')
  {
    if k == 0 {
    } else {
      HalveShifted(h, k, l);
      HalveShifted(h', k, l');
      OrSplit(k - 1, h, l / 2, a / 2, h', l' / 2, b / 2);
      OrHalves(a, b);
      OrHalves(l, l');
      OrJoin(BitOr(h, h'), Pow2(k - 1), Pow2(k), BitOr(l / 2, l' / 2), BitOr(l, l'),
             BitOr(a / 2, b / 2), BitOr(a, b));
    }
  }

  lemma OrJoin(high: int, p: int, p2: int, half: int, low: int, allHalf: int, all: int)
    requires p2 == 2 * p && allHalf == high * p + half && low - 2 * half == all - 2 * allHalf
    ensures all == high * p2 + low
  {
    MulAssoc(high, 2, p);
    MulAssoc(2, high, p);
  }

  lemma OrHalves(a: nat, b: nat)
    ensures BitOr(a, b) == 2 * BitOr(a / 2, b / 2) + if a % 2 == 1 || b % 2 == 1 then 1 else 0
  {
  }

  lemma HalveShifted(h: nat, k: nat, l: nat)
    requires k > 0
    ensures (h * Pow2(k) + l) / 2 == h * Pow2(k - 1) + l / 2
    ensures (h * Pow2(k) + l) % 2 == l % 2
  {
    MulAssoc(h, 2, Pow2(k - 1));
    MulAssoc(2, h, Pow2(k - 1));
    assert h * Pow2(k) == 2 * (h * Pow2(k - 1));
  }

  /** Or of numbers without a common bit is their sum. */
  lemma OrDisjoint(k: nat, h: nat, l: nat)
    requires l < Pow2(k)
    ensures 0 <= h * Pow2(k)
    ensures BitOr(h * Pow2(k), l) == h * Pow2(k) + l == BitOr(l, h * Pow2(k))
  {
    MulNonNegative(h, Pow2(k));
    OrSplit(k, h, 0, h * Pow2(k), 0, l, l);
    OrSplit(k, 0, l, l, h, 0, h * Pow2(k));
  }

  lemma OrWord(a: Word, b: Word)
    ensures BitOr(a, b) < BASE
  {
    Pow2Of32();
    OrBound(32, a, b);
  }

  ghost predicate OrOfWords(a: seq<Word>, b: seq<Word>, c: seq<Word>) {
    |a| == |b| == |c| && forall i :: 0 <= i < |c| ==> c[i] == BitOr(a[i], b[i])
  }

  lemma {:induction false} ValOr(a: seq<Word>, b: seq<Word>, c: seq<Word>)
    requires OrOfWords(a, b, c)
    ensures Val(c) == BitOr(Val(a), Val(b))
  {
    if c == [] {
    } else {
      ValOr(a[1..], b[1..], c[1..]);
      Pow2Of32();
      OrSplit(32, Val(a[1..]), a[0], Val(a), Val(b[1..]), b[0], Val(b));
    }
  }

  // ---- Shifts -------------------------------------------------------------------

  /** What a left shift by n < 32 bits leaves in a word with the given lower neighbour. */
  function ShiftUp(word: Word, lower: Word, n: nat): Word
    requires 0 < n < 32
  {
    ShiftParts(word, lower, n);
    BitOr(word * Pow2(n) % BASE, lower / Pow2(32 - n))
  }

  /** What a right shift by n < 32 bits leaves in a word with the given upper neighbour. */
  function ShiftDown(word: Word, upper: Word, n: nat): Word
    requires 0 < n < 32
  {
    ShiftParts(upper, word, 32 - n);
    BitOr(word / Pow2(n), upper * Pow2(32 - n) % BASE)
  }

  lemma ShiftParts(word: Word, lower: Word, n: nat)
    requires 0 < n < 32
    ensures 0 <= word * Pow2(n)
    ensures word * Pow2(n) % BASE == (word % Pow2(32 - n)) * Pow2(n)
    ensures word * Pow2(n) == (word / Pow2(32 - n)) * BASE + word * Pow2(n) % BASE
    ensures 0 <= lower / Pow2(32 - n) < Pow2(n)
    ensures BitOr(word * Pow2(n) % BASE, lower / Pow2(32 - n)) == word * Pow2(n) % BASE + lower / Pow2(32 - n) < BASE
    ensures BitOr(lower / Pow2(32 - n), word * Pow2(n) % BASE) == word * Pow2(n) % BASE + lower / Pow2(32 - n)
  {
    Pow2Of32();
    Pow2Add(32 - n, n);
    ScaledSplit(word, Pow2(32 - n), Pow2(n));
    ScaledSplit(lower, Pow2(32 - n), Pow2(n));
    OrDisjoint(n, word % Pow2(32 - n), lower / Pow2(32 - n));
  }

  /** Multiplying a number below m * p by p moves the part above m past m * p. */
  lemma ScaledSplit(x: int, m: int, p: int)
    requires 0 < m && 0 < p && 0 <= x < m * p
    ensures 0 <= x / m < p
    ensures 0 <= x * p && 0 <= (x % m) * p <= m * p - p
    ensures x * p == (x / m) * (m * p) + (x % m) * p
    ensures (x * p) % (m * p) == (x % m) * p
  {
    var q, r := x / m, x % m;
    ScaledParts(x, m, p, q, r, m * p);
    DivModUnique(x * p, m * p, q, r * p);
  }

  lemma ScaledParts(x: int, m: int, p: int, q: int, r: int, mp: int)
    requires 0 < m && 0 < p && mp == m * p && 0 <= x < mp && x == q * m + r && 0 <= r < m
    ensures 0 <= q < p && 0 <= x * p && 0 <= r * p <= mp - p
    ensures x * p == q * mp + r * p
  {
    MulNonNegative(x, p);
    MulNonNegative(r, p);
    MulDistribute(q * m, r, p);
    MulAssoc(q, m, p);
    MulMonotone(r, m - 1, p);
    MulDistribute(m, 1, p);
    if q < 0 {
      MulMonotone(q, -1, m);
      assert false;
    }
    if q >= p {
      MulMonotone(p, q, m);
      assert false;
    }
  }

  ghost predicate ShiftedUp(a: seq<Word>, c: seq<Word>, n: nat)
    requires 0 < n < 32
  {
    |a| == |c| > 0 && c[0] == a[0] * Pow2(n) % BASE
    && forall i :: 1 <= i < |c| ==> c[i] == ShiftUp(a[i], a[i - 1], n)
  }

  ghost predicate ShiftedDown(a: seq<Word>, c: seq<Word>, n: nat)
    requires 0 < n < 32
  {
    |a| == |c| > 0 && c[|c| - 1] == a[|a| - 1] / Pow2(n)
    && forall i :: 0 <= i < |c| - 1 ==> c[i] == ShiftDown(a[i], a[i + 1], n)
  }

  lemma {:induction false} ShiftedUpPrefix(a: seq<Word>, c: seq<Word>, n: nat, i: nat)
    requires 0 < n < 32 && ShiftedUp(a, c, n) && 0 < i <= |a|
    ensures Val(c[..i]) + Radix(i) * (a[i - 1] / Pow2(32 - n)) == Val(a[..i]) * Pow2(n)
  {
    assert Val([]) == 0 && Radix(0) == 1 && Radix(i) == BASE * Radix(i - 1);
    hide Val, Radix, Pow2;
    var k := i - 1;
    var carry := if k == 0 then 0 else a[k - 1] / Pow2(32 - n);
    ValNextWord(a, k);
    ValNextWord(c, k);
    ShiftParts(a[k], if k == 0 then 0 else a[k - 1], n);
    if k > 0 {
      ShiftedUpPrefix(a, c, n, k);
    } else {
      assert a[..0] == [] && c[..0] == [];
    }
    ShiftUpStep(Radix(k), Pow2(n), Val(a[..k]), Val(c[..k]), a[k], c[k], carry, a[k] / Pow2(32 - n),
                Radix(i), Val(a[..i]), Val(c[..i]));
  }

  lemma ShiftUpStep(r: int, p: int, low: int, low': int, x: int, y: int, carry: int, carry': int,
                    r': int, all: int, all': int)
    requires low' + r * carry == low * p && y + BASE * carry' == x * p + carry
    requires r' == BASE * r && all == low + r * x && all' == low' + r * y
    ensures all' + r' * carry' == all * p
  {
    MulDistribute(low, r * x, p);
    MulAssoc(r, x, p);
    MulDistribute(y, BASE * carry', r);
    MulDistribute(x * p, carry, r);
    MulAssoc(BASE, r, carry');
    MulAssoc(r, BASE, carry');
  }

  /** A left shift by less than a word multiplies modulo the radix of the width. */
  lemma ValShiftedUp(a: seq<Word>, c: seq<Word>, n: nat) returns (over: nat)
    requires 0 < n < 32 && ShiftedUp(a, c, n)
    ensures Val(c) + Radix(|c|) * over == Val(a) * Pow2(n)
  {
    ShiftedUpPrefix(a, c, n, |c|);
    assert a[..|c|] == a && c[..|c|] == c;
    ShiftParts(0, a[|c| - 1], n);
    over := a[|c| - 1] / Pow2(32 - n);
  }

  lemma {:induction false} ShiftedDownSuffix(a: seq<Word>, c: seq<Word>, n: nat, i: nat)
    requires 0 < n < 32 && ShiftedDown(a, c, n) && i < |a|
    ensures Val(c[i..]) * Pow2(n) + a[i] % Pow2(n) == Val(a[i..])
    decreases |a| - i
  {
    assert a[i..] == [a[i]] + a[i + 1..] && c[i..] == [c[i]] + c[i + 1..];
    var upper: Word := if i + 1 < |a| then a[i + 1] else 0;
    if i + 1 < |a| {
      ShiftedDownSuffix(a, c, n, i + 1);
      ShiftParts(upper, a[i], 32 - n);
    } else {
      assert a[i + 1..] == [] && c[i + 1..] == [];
      SmallMod(0, Pow2(n));
    }
    Pow2Of32();
    Pow2Add(32 - n, n);
    ShiftDownStep(Pow2(n), Pow2(32 - n), a[i], c[i], Val(a[i + 1..]), Val(c[i + 1..]), upper % Pow2(n),
                  Val(a[i..]), Val(c[i..]));
  }

  lemma ShiftDownStep(p: int, m: int, x: int, y: int, high: int, high': int, low: int, all: int, all': int)
    requires 0 < p && m * p == BASE && y == x / p + low * m && high' * p + low == high
    requires all == x + BASE * high && all' == y + BASE * high'
    ensures all' * p + x % p == all
  {
    MulDistribute(x / p + low * m, BASE * high', p);
    MulDistribute(x / p, low * m, p);
    MulAssoc(low, m, p);
    MulAssoc(BASE, high', p);
  }

  /** A right shift by less than a word divides, rounding down. */
  lemma ValShiftedDown(a: seq<Word>, c: seq<Word>, n: nat)
    requires 0 < n < 32 && ShiftedDown(a, c, n)
    ensures Val(c) == Val(a) / Pow2(n)
  {
    ShiftedDownSuffix(a, c, n, 0);
    assert a[0..] == a && c[0..] == c;
    DivModUnique(Val(a), Pow2(n), Val(c), a[0] % Pow2(n));
  }

  /** What `_rshift_word` leaves: the n words above the lowest one, and zeros above them. */
  lemma ValWordsDown(a: seq<Word>, c: seq<Word>, n: nat)
    requires n < |a| == |c|
    requires forall i :: 0 <= i < |c| ==> c[i] == if i < n then a[i + 1] else 0
    ensures Val(c) == (Val(a) / Radix(1)) % Radix(n)
  {
    hide Val, Radix;
    var kept := a[1..][..n];
    assert c == kept + c[n..];
    ValConcat(kept, c[n..]);
    ValZeros(c[n..]);
    ValSplit(a, 1);
    ValBound(a[..1]);
    PartsOf(Val(a), Radix(1), Val(a[..1]), Val(a[1..]));
    ValSplit(a[1..], n);
    ValBound(kept);
    PartsOf(Val(a[1..]), Radix(n), Val(kept), Val(a[1..][n..]));
  }

  lemma PartsOf(all: int, m: int, low: int, high: int)
    requires all == low + m * high && 0 <= low < m
    ensures all / m == high && all % m == low
  {
    DivModUnique(all, m, high, low);
  }

  /** Moving words up by n places multiplies by the weight of word n and drops what overflows. */
  lemma ValWordsUp(a: seq<Word>, c: seq<Word>, n: nat) returns (over: nat)
    requires |a| == |c|
    requires forall i :: 0 <= i < |c| ==> c[i] == if i < n then 0 else a[i - n]
    ensures Val(c) + Radix(|c|) * over == Val(a) * Radix(n)
  {
    if n < |c| {
      var keep := |c| - n;
      assert c == c[..n] + a[..keep];
      ValConcat(c[..n], a[..keep]);
      ValZeros(c[..n]);
      ValSplit(a, keep);
      RadixAdd(n, keep);
      WordsUpStep(Val(a), Val(a[..keep]), Val(a[keep..]), Radix(keep), Radix(n), Radix(|c|), Val(c));
      over := Val(a[keep..]);
    } else {
      ValZeros(c);
      RadixAdd(|c|, n - |c|);
      MulNonNegative(Val(a), Radix(n - |c|));
      over := Val(a) * Radix(n - |c|);
      WordsBeyond(Val(a), Radix(n - |c|), Radix(|c|), Radix(n));
    }
  }

  lemma WordsUpStep(all: int, low: int, high: int, k: int, n: int, r: int, c: int)
    requires all == low + k * high && r == n * k && c == n * low
    ensures c + r * high == all * n
  {
    MulDistribute(low, k * high, n);
    MulAssoc(n, k, high);
  }

  lemma WordsBeyond(all: int, beyond: int, r: int, n: int)
    requires n == r * beyond
    ensures r * (all * beyond) == all * n
  {
    MulAssoc(all, r, beyond);
    MulAssoc(r, all, beyond);
  }

  // ---- Bits -----------------------------------------------------------------------

  /** Bit n of a number. */
  function Bit(x: nat, n: nat): (b: nat)
    ensures b == 0 || b == 1
  {
    (x / Pow2(n)) % 2
  }

  /** A field of t bits inside word w is the same field of the whole number. */
  lemma FieldOfWord(a: seq<Word>, w: nat, k: nat, t: nat)
    requires w < |a| && k + t <= 32
    ensures (a[w] / Pow2(k)) % Pow2(t) == (Val(a) / Pow2(32 * w + k)) % Pow2(t)
  {
    ValSplit(a, w);
    assert a[w..] == [a[w]] + a[w + 1..];
    ValBound(a[..w]);
    RadixIsPow2(w);
    Pow2Add(32 * w, k);
    TopPart(Val(a), Radix(w), a[w] + BASE * Val(a[w + 1..]), Val(a[..w]));
    DivDiv(Val(a), Pow2(32 * w), Pow2(k));
    Pow2Of32();
    Pow2Add(k, 32 - k);
    Pow2Add(t, 32 - k - t);
    FieldBelow(a[w], Val(a[w + 1..]), Pow2(k), Pow2(t), Pow2(32 - k - t));
  }

  lemma TopPart(x: int, r: int, high: int, low: int)
    requires 0 < r && 0 <= low < r && x == low + r * high
    ensures x / r == high
  {
    DivModUnique(x, r, high, low);
  }

  lemma FieldBelow(x: int, y: int, p: int, t: int, h: int)
    requires p > 0 && t > 0
    ensures ((x + (p * (t * h)) * y) / p) % t == (x / p) % t
  {
    var above := h * y;
    assert (p * (t * h)) * y == (above * t) * p by {
      MulAssoc(p, t * h, y);
      MulAssoc(t, h, y);
      MulAssoc(p, t, above);
    }
    ModAddMultiple(x, above * t, p);
    ModAddMultiple(x / p, above, t);
  }

  /** The field of t bits that follows the low n bits extends the residue. */
  lemma NextField(x: nat, n: nat, t: nat)
    ensures x % Pow2(n + t) == x % Pow2(n) + ((x / Pow2(n)) % Pow2(t)) * Pow2(n)
  {
    Pow2Add(n, t);
    DivDiv(x, Pow2(n), Pow2(t));
  }

  lemma NextBit(x: nat, n: nat)
    ensures x % Pow2(n + 1) == x % Pow2(n) + Bit(x, n) * Pow2(n)
  {
    NextField(x, n, 1);
    assert Pow2(1) == 2 * Pow2(0);
  }
}
