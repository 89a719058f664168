/**
 * The field GF(2^128) of section 6.3 of NIST SP 800-38D: blocks of 128 bits as
 * polynomials, bit i being the coefficient of x^i, modulo 1 + x + x^2 + x^7 + x^128.
 */
module GaloisField {

  type Block = s: seq<bool> | |s| == 128 witness seq(128, i => false)

  function Zero(): Block {
    seq(128, i => false)
  }

  /** The power x^j. */
  function Unit(j: nat): Block {
    seq(128, i => i == j)
  }

  function Xor(a: Block, b: Block): Block {
    seq(128, i requires 0 <= i < 128 => a[i] != b[i])
  }

  /** The bits of the block 0xe1 followed by zeros: the power x^128 after reduction. */
  predicate Reduction(i: int) {
    i == 0 || i == 1 || i == 2 || i == 7
  }

  /** Multiplication by x: a shift, and a reduction if the highest power falls out. */
  function Times(v: Block): Block {
    seq(128, i requires 0 <= i < 128 => (i > 0 && v[i - 1]) != (v[127] && Reduction(i)))
  }

  function TimesPower(v: Block, n: nat): Block {
    if n == 0 then v else Times(TimesPower(v, n - 1))
  }

  /** The sum of the multiples of y by those of the first n powers that x contains. */
  function Sum(n: nat, x: Block, y: Block): Block
    requires n <= 128
  {
    if n == 0 then Zero()
    else if x[n - 1] then Xor(Sum(n - 1, x, y), TimesPower(y, n - 1))
    else Sum(n - 1, x, y)
  }

  /** The product. */
  function Mul(x: Block, y: Block): Block {
    Sum(128, x, y)
  }

  // ---- Addition -------------------------------------------------------------------------

  lemma XorZero(a: Block)
    ensures Xor(a, Zero()) == a && Xor(Zero(), a) == a && Xor(a, a) == Zero()
  {
  }

  /** Sums of two sums can be regrouped. */
  lemma XorRegroups(a: Block, b: Block, c: Block, d: Block)
    ensures Xor(Xor(a, b), Xor(c, d)) == Xor(Xor(a, c), Xor(b, d))
  {
  }

  lemma TimesXor(a: Block, b: Block)
    ensures Times(Xor(a, b)) == Xor(Times(a), Times(b))
  {
  }

  lemma TimesZero()
    ensures Times(Zero()) == Zero()
  {
  }

  lemma {:induction false} TimesPowerXor(a: Block, b: Block, n: nat)
    ensures TimesPower(Xor(a, b), n) == Xor(TimesPower(a, n), TimesPower(b, n))
  {
    if n == 0 {
    } else {
      TimesPowerXor(a, b, n - 1);
      TimesXor(TimesPower(a, n - 1), TimesPower(b, n - 1));
    }
  }

  lemma {:induction false} TimesPowerNext(v: Block, n: nat)
    ensures TimesPower(Times(v), n) == Times(TimesPower(v, n))
  {
    if n == 0 {
    } else {
      TimesPowerNext(v, n - 1);
    }
  }

  // ---- The product is linear in each argument ------------------------------------------------

  lemma {:induction false} SumXorRight(n: nat, x: Block, y: Block, z: Block)
    requires n <= 128
    ensures Sum(n, x, Xor(y, z)) == Xor(Sum(n, x, y), Sum(n, x, z))
  {
    hide Xor, Times;
    if n == 0 {
      XorZero(Zero());
    } else {
      SumXorRight(n - 1, x, y, z);
      if x[n - 1] {
        TimesPowerXor(y, z, n - 1);
        XorRegroups(Sum(n - 1, x, y), Sum(n - 1, x, z), TimesPower(y, n - 1), TimesPower(z, n - 1));
      }
    }
  }

  lemma {:induction false} SumXorLeft(n: nat, x: Block, z: Block, y: Block)
    requires n <= 128
    ensures Sum(n, Xor(x, z), y) == Xor(Sum(n, x, y), Sum(n, z, y))
  {
    hide Times;
    if n == 0 {
      XorZero(Zero());
    } else {
      SumXorLeft(n - 1, x, z, y);
      AddTerms(Sum(n - 1, x, y), Sum(n - 1, z, y), TimesPower(y, n - 1), x[n - 1], z[n - 1]);
    }
  }

  /** A term added to one of two sums, to both, or to neither. */
  lemma AddTerms(a: Block, b: Block, t: Block, inA: bool, inB: bool)
    ensures Xor(if inA then Xor(a, t) else a, if inB then Xor(b, t) else b)
      == if inA != inB then Xor(Xor(a, b), t) else Xor(a, b)
  {
  }

  lemma {:induction false} SumTimes(n: nat, x: Block, y: Block)
    requires n <= 128
    ensures Sum(n, x, Times(y)) == Times(Sum(n, x, y))
  {
    hide Xor, Times;
    if n == 0 {
      TimesZero();
    } else {
      SumTimes(n - 1, x, y);
      if x[n - 1] {
        TimesPowerNext(y, n - 1);
        TimesXor(Sum(n - 1, x, y), TimesPower(y, n - 1));
      }
    }
  }

  lemma {:induction false} MulTimesPower(x: Block, y: Block, n: nat)
    ensures Mul(x, TimesPower(y, n)) == TimesPower(Mul(x, y), n)
  {
    hide Sum, Times;
    if n == 0 {
    } else {
      MulTimesPower(x, y, n - 1);
      SumTimes(128, x, TimesPower(y, n - 1));
    }
  }

  // ---- Powers of x -----------------------------------------------------------------------------

  /** Below the degree, the powers of x are single bits. */
  lemma {:induction false} PowerUnit(j: nat)
    requires j < 128
    ensures TimesPower(Unit(0), j) == Unit(j)
  {
    if j == 0 {
    } else {
      PowerUnit(j - 1);
      assert Times(Unit(j - 1)) == Unit(j);
    }
  }

  /** The reduction: x^128 is 1 + x + x^2 + x^7. */
  lemma PowerReduced()
    ensures TimesPower(Unit(0), 128) == Xor(Xor(Unit(0), Unit(1)), Xor(Unit(2), Unit(7)))
  {
    PowerUnit(127);
    assert Times(Unit(127)) == Xor(Xor(Unit(0), Unit(1)), Xor(Unit(2), Unit(7)));
  }

  /** Multiplying by a power of x from the left. */
  lemma {:induction false} SumUnit(n: nat, j: nat, y: Block)
    requires n <= 128 && j < 128
    ensures Sum(n, Unit(j), y) == if j < n then TimesPower(y, j) else Zero()
  {
    hide Times;
    if n == 0 {
    } else {
      SumUnit(n - 1, j, y);
      XorZero(TimesPower(y, j));
    }
  }

  function Prefix(x: Block, n: nat): Block {
    seq(128, i requires 0 <= i < 128 => i < n && x[i])
  }

  lemma PrefixStep(x: Block, n: nat)
    requires n < 128
    ensures Prefix(x, n + 1) == if x[n] then Xor(Prefix(x, n), Unit(n)) else Prefix(x, n)
  {
  }

  lemma PrefixEnds(x: Block)
    ensures Prefix(x, 0) == Zero() && Prefix(x, 128) == x
  {
  }

  lemma {:induction false} SumOfOne(n: nat, x: Block)
    requires n <= 128
    ensures Sum(n, x, Unit(0)) == Prefix(x, n)
  {
    hide Times, Xor;
    if n == 0 {
      PrefixEnds(x);
    } else {
      SumOfOne(n - 1, x);
      PowerUnit(n - 1);
      PrefixStep(x, n - 1);
    }
  }

  /** The block with only its first bit set is the identity. */
  lemma Identity(x: Block)
    ensures Mul(x, Unit(0)) == x && Mul(Unit(0), x) == x
  {
    SumOfOne(128, x);
    PrefixEnds(x);
    SumUnit(128, 0, x);
  }

  lemma MulUnit(x: Block, j: nat)
    requires j < 128
    ensures Mul(x, Unit(j)) == TimesPower(x, j) && Mul(Unit(j), x) == TimesPower(x, j)
  {
    hide Sum, Times;
    SumUnit(128, j, x);
    PowerUnit(j);
    MulTimesPower(x, Unit(0), j);
    Identity(x);
  }

  lemma {:induction false} SumZeroLeft(n: nat, y: Block)
    requires n <= 128
    ensures Sum(n, Zero(), y) == Zero()
  {
    if n == 0 {
    } else {
      SumZeroLeft(n - 1, y);
    }
  }

  lemma MulZero(x: Block)
    ensures Mul(x, Zero()) == Zero() && Mul(Zero(), x) == Zero()
  {
    hide Sum;
    SumZeroLeft(128, x);
    SumXorRight(128, x, Zero(), Zero());
    XorZero(Zero());
    XorZero(Mul(x, Zero()));
  }

  // ---- The ring laws -----------------------------------------------------------------------------

  lemma Distributes(x: Block, y: Block, z: Block)
    ensures Mul(x, Xor(y, z)) == Xor(Mul(x, y), Mul(x, z))
    ensures Mul(Xor(y, z), x) == Xor(Mul(y, x), Mul(z, x))
  {
    SumXorRight(128, x, y, z);
    SumXorLeft(128, y, z, x);
  }

  lemma {:induction false} CommutesPrefix(x: Block, y: Block, n: nat)
    requires n <= 128
    ensures Mul(x, Prefix(y, n)) == Mul(Prefix(y, n), x)
  {
    hide Mul, Xor, Prefix, Unit;
    if n == 0 {
      PrefixEnds(y);
      MulZero(x);
    } else {
      CommutesPrefix(x, y, n - 1);
      PrefixStep(y, n - 1);
      Distributes(x, Prefix(y, n - 1), Unit(n - 1));
      MulUnit(x, n - 1);
    }
  }

  lemma Commutes(x: Block, y: Block)
    ensures Mul(x, y) == Mul(y, x)
  {
    hide Mul;
    CommutesPrefix(x, y, 128);
    PrefixEnds(y);
  }

  lemma {:induction false} AssociatesPrefix(x: Block, y: Block, z: Block, n: nat)
    requires n <= 128
    ensures Mul(Mul(x, y), Prefix(z, n)) == Mul(x, Mul(y, Prefix(z, n)))
  {
    hide Mul, Xor, Prefix, Unit;
    if n == 0 {
      PrefixEnds(z);
      MulZero(Mul(x, y));
      MulZero(y);
      MulZero(x);
    } else {
      AssociatesPrefix(x, y, z, n - 1);
      PrefixStep(z, n - 1);
      Distributes(Mul(x, y), Prefix(z, n - 1), Unit(n - 1));
      Distributes(y, Prefix(z, n - 1), Unit(n - 1));
      Distributes(x, Mul(y, Prefix(z, n - 1)), Mul(y, Unit(n - 1)));
      MulUnit(Mul(x, y), n - 1);
      MulUnit(y, n - 1);
      MulTimesPower(x, y, n - 1);
    }
  }

  lemma Associates(x: Block, y: Block, z: Block)
    ensures Mul(Mul(x, y), z) == Mul(x, Mul(y, z))
  {
    hide Mul;
    AssociatesPrefix(x, y, z, 128);
    PrefixEnds(z);
  }
}
