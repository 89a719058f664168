/** Bit lengths and shifts of digit sequences. */
module DigitShifts {
  import opened Arithmetic
  import opened Digits
  import opened SignedBignum
  import Words

  /** Powers of two within a digit. */
  function TwoTo(n: nat): (p: int)
    requires n <= 4
    ensures p == Pow2(n)
  {
    assert Pow2(1) == 2 && Pow2(2) == 4 && Pow2(3) == 8 && Pow2(4) == 16;
    if n == 0 then 1 else if n == 1 then 2 else if n == 2 then 4 else if n == 3 then 8 else 16
  }

  /** Bits of a digit, of which zero has one. */
  function Bits(d: int): (n: nat)
    requires 0 <= d < 16
    ensures 1 <= n <= 4 && d < TwoTo(n) && (d > 0 ==> TwoTo(n - 1) <= d)
  {
    if d >= 8 then 4 else if d >= 4 then 3 else if d >= 2 then 2 else 1
  }

  function BitLen(s: seq<int>): nat
    requires |s| > 0 && AreDigits(s)
  {
    4 * (|s| - 1) + Bits(s[|s| - 1])
  }

  /** Bit i of a digit. */
  predicate Bit(d: int, i: nat)
    requires 0 <= d < 16 && i < 4
  {
    (d / TwoTo(i)) % 2 == 1
  }

  method Length(a: seq<int>) returns (length: nat)
    requires |a| > 0 && AreDigits(a)
    ensures length == BitLen(a)
  {
    length := |a| * 4;
    var n := a[|a| - 1];
    var i := 3;
    while i > 0
      invariant 0 <= i <= 3 && length == |a| * 4 - (3 - i) && n < TwoTo(i + 1)
    {
      if !Bit(n, i) {
        length := length - 1;
      } else {
        break;
      }
      i := i - 1;
    }
  }

  /** The bit length tells which powers of two a number lies between. */
  lemma LengthBounds(a: Big)
    requires WellFormed(a) && Num(a.digits) > 0
    ensures BitLen(a.digits) >= 1
    ensures Pow2(BitLen(a.digits) - 1) <= Num(a.digits) < Pow2(BitLen(a.digits))
  {
    var s, k := a.digits, |a.digits| - 1;
    var top := s[k];
    ZeroDigits(a);
    if k == 0 {
      assert s == [top];
      NumOne(top);
    }
    assert top > 0;
    assert s == s[..k] + [top];
    NumAppend(s[..k], [top]);
    NumOne(top);
    NumBound(s[..k]);
    PowOf16(k);
    Pow2Add(4 * k, Bits(top));
    Pow2Add(4 * k, Bits(top) - 1);
    TopBounds(Pow2(4 * k), top, Num(s[..k]), TwoTo(Bits(top) - 1), TwoTo(Bits(top)));
  }

  lemma TopBounds(p: int, top: int, low: int, lo: int, hi: int)
    requires 0 <= low < p && lo <= top < hi
    ensures p * lo <= low + p * top < p * hi
  {
    MulMonotone(lo, top, p);
    MulMonotone(top + 1, hi, p);
  }

  lemma {:induction false} PowOf16(k: nat)
    ensures Pow(16, k) == Pow2(4 * k)
  {
    if k == 0 {
    } else {
      PowOf16(k - 1);
      Pow2Add(4, 4 * k - 4);
      assert Pow2(4) == TwoTo(4);
    }
  }

  // ---- Shifts up ----------------------------------------------------------------------

  /** The bits a digit keeps and the bits it passes on when shifted up by n. */
  function Low(d: int, n: nat): (r: int)
    requires 0 <= d < 16 && n <= 4
    ensures 0 <= r < 16
  {
    (d * TwoTo(n)) % 16
  }

  function High(d: int, n: nat): (r: int)
    requires 0 <= d < 16 && n <= 4
    ensures 0 <= r < TwoTo(n) && Low(d, n) + 16 * r == TwoTo(n) * d
  {
    d / TwoTo(4 - n)
  }

  /** The or of the bits from two neighbours is their sum. */
  lemma OrOfNeighbours(d: int, e: int, n: nat)
    requires 0 <= d < 16 && 0 <= e < 16 && n <= 4
    ensures Words.BitOr(High(e, n), Low(d, n)) == High(e, n) + Low(d, n)
    ensures High(e, n) + Low(d, n) < 16
  {
    var h := Low(d, n) / TwoTo(n);
    assert Low(d, n) == h * TwoTo(n);
    Words.OrDisjoint(n, h, High(e, n));
  }

  /** The digits of a shifted up by n bits with some bits coming in below. */
  function ShiftedUp(a: seq<int>, n: nat, below: int): (d: seq<int>)
    requires AreDigits(a) && n <= 4
    ensures |d| == |a| + 1
  {
    if a == [] then [below] else [below + Low(a[0], n)] + ShiftedUp(a[1..], n, High(a[0], n))
  }

  /** Each digit combines the bits of two neighbours. */
  lemma {:induction false} ShiftedUpAt(a: seq<int>, n: nat, below: int, j: nat)
    requires AreDigits(a) && n <= 4 && j <= |a|
    ensures ShiftedUp(a, n, below)[j]
      == (if j == 0 then below else High(a[j - 1], n)) + (if j < |a| then Low(a[j], n) else 0)
  {
    if a != [] && j > 0 {
      ShiftedUpAt(a[1..], n, High(a[0], n), j - 1);
    }
  }

  /** A shift by n bits multiplies by a power of two. */
  lemma {:induction false} ShiftedUpNum(a: seq<int>, n: nat, below: int)
    requires AreDigits(a) && n <= 4
    ensures Num(ShiftedUp(a, n, below)) == below + TwoTo(n) * Num(a)
  {
    if a == [] {
      NumOne(below);
    } else {
      var tail := ShiftedUp(a[1..], n, High(a[0], n));
      ShiftedUpNum(a[1..], n, High(a[0], n));
      assert ShiftedUp(a, n, below)[1..] == tail;
      ShiftSum(TwoTo(n), a[0], Num(a[1..]), Num(a), Low(a[0], n), High(a[0], n), Num(tail));
    }
  }

  lemma ShiftSum(p: int, d: int, rest: int, all: int, low: int, high: int, tail: int)
    requires all == d + 16 * rest && low + 16 * high == p * d && tail == high + p * rest
    ensures low + 16 * tail == p * all
  {
    assert p * all == p * d + 16 * (p * rest);
  }

  lemma ShiftedUpDigits(a: seq<int>, n: nat)
    requires AreDigits(a) && n <= 4
    ensures AreDigits(ShiftedUp(a, n, 0))
  {
    forall j | 0 <= j <= |a| ensures 0 <= ShiftedUp(a, n, 0)[j] < 16 {
      ShiftedUpAt(a, n, 0, j);
      OrOfNeighbours(if j < |a| then a[j] else 0, if j > 0 then a[j - 1] else 0, n);
    }
  }

  /** Whole digits and the bits left over make up the shift. */
  lemma ShiftFactor(k: nat)
    ensures Pow(16, k / 4) * TwoTo(k % 4) == Pow2(k)
  {
    hide Pow;
    PowOf16(k / 4);
    Pow2Add(4 * (k / 4), k % 4);
    assert 4 * (k / 4) + k % 4 == k;
    hide Pow2;
  }

  /** What zeros below do to the value. */
  lemma ZerosBelow(m: nat, d: seq<int>)
    ensures Num(Zeros(m) + d) == Pow(16, m) * Num(d)
  {
    NumAppend(Zeros(m), d);
    NumZeros(m);
  }

  /**
   * The part of a shift that combines neighbouring digits. Where nothing is
   * carried out of a single digit, it also writes the (zero) carry one slot
   * past the result, for which the model has a slot to spare.
   */
  method CombineUp(tab: array<int>, a: seq<int>, m: nat, n: nat, size: nat) returns (ghost past: bool)
    requires AreDigits(a) && 1 <= n <= 3 && |a| > 0 && m + |a| <= size <= m + |a| + 1 && tab.Length == size + 1
    modifies tab
    ensures tab[..m] == old(tab[..m])
    ensures forall j :: m <= j < size ==> tab[j] == ShiftedUp(a, n, 0)[j - m]
    ensures past <==> size == m + 1
  {
    hide ShiftedUp, High, Low, TwoTo;
    ghost var d := ShiftedUp(a, n, 0);
    ShiftedUpAt(a, n, 0, 0);
    tab[m] := Low(a[0], n);
    var i := m + 1;
    while i < size - 1
      invariant m < i && (i < size || i == m + 1) && tab[..m] == old(tab[..m])
      invariant forall j :: m <= j < i ==> tab[j] == d[j - m]
    {
      OrOfNeighbours(a[i - m], a[i - m - 1], n);
      ShiftedUpAt(a, n, 0, i - m);
      tab[i] := High(a[i - m - 1], n);
      tab[i] := Words.BitOr(tab[i], Low(a[i - m], n));
      i := i + 1;
    }
    past := i >= size;
    tab[i] := High(a[i - m - 1], n);
    ShiftedUpAt(a, n, 0, i - m);
    if i - m < |a| {
      OrOfNeighbours(a[i - m], a[i - m - 1], n);
      tab[i] := Words.BitOr(tab[i], Low(a[i - m], n));
    }
  }

  /** The digits of the result: zeros below, and above them the shifted digits. */
  method ShiftDigits(a: seq<int>, m: nat, n: nat, size: nat) returns (s: seq<int>, ghost past: bool)
    requires AreDigits(a) && n <= 3 && |a| > 0 && m + |a| <= size <= m + |a| + 1 && (n == 0 ==> size == m + |a|)
    ensures |s| == size && s == Zeros(m) + ShiftedUp(a, n, 0)[..size - m]
    ensures past <==> n != 0 && size == m + 1
  {
    hide ShiftedUp;
    var tab := new int[size + 1](_ => 0);
    var i := 0;
    while i < m
      invariant 0 <= i <= m && forall j :: 0 <= j < i ==> tab[j] == 0
    {
      tab[i] := 0;
      i := i + 1;
    }
    assert tab[..m] == Zeros(m);
    past := false;
    if n == 0 {
      ShiftedByNone(a);
      i := m;
      while i < size
        invariant m <= i <= size && tab[..m] == Zeros(m)
        invariant forall j :: m <= j < i ==> tab[j] == a[j - m]
      {
        tab[i] := a[i - m];
        i := i + 1;
      }
    } else {
      past := CombineUp(tab, a, m, n, size);
    }
    s := tab[..size];
  }

  lemma {:induction false} ShiftedByNone(a: seq<int>)
    requires AreDigits(a)
    ensures ShiftedUp(a, 0, 0)[..|a|] == a
  {
    if a == [] {
    } else {
      ShiftedByNone(a[1..]);
      assert High(a[0], 0) == 0 && Low(a[0], 0) == a[0];
      assert ShiftedUp(a, 0, 0)[..|a|] == [a[0]] + ShiftedUp(a[1..], 0, 0)[..|a| - 1];
    }
  }

  /** A single digit is shifted by other than whole digits and carries nothing. */
  ghost predicate Overshoots(a: Big, k: nat)
    requires WellFormed(a)
  {
    |a.digits| == 1 && k % 4 != 0 && a.digits[0] * TwoTo(k % 4) < 16
  }

  /** The magnitude times 2^k. For such a digit the code writes past the slots it allocates. */
  method LeftShift(a: Big, k: nat) returns (r: Big, ghost past: bool)
    requires WellFormed(a)
    ensures r.sign == 1 && AreDigits(r.digits) && |r.digits| == (BitLen(a.digits) + k + 3) / 4
    ensures Num(r.digits) == Pow2(k) * Num(a.digits)
    ensures !IsZero(a) ==> Canonical(r)
    ensures past <==> Overshoots(a, k)
  {
    hide Num, Pow, ShiftedUp, Bits, High, Low;
    var len := Length(a.digits);
    len := len + k;
    var size := len / 4 + if len % 4 == 0 then 0 else 1;
    var m, n := k / 4, k % 4;
    SizeUp(a.digits, k, size);
    var s;
    s, past := ShiftDigits(a.digits, m, n, size);
    r := Big(1, s);
    CarriesNothing(a.digits[0], n);
    ShiftedMeans(a, k, size, s);
  }

  lemma ShiftedMeans(a: Big, k: nat, size: nat, s: seq<int>)
    requires WellFormed(a) && size == k / 4 + |a.digits| + if High(a.digits[|a.digits| - 1], k % 4) > 0 then 1 else 0
    requires s == Zeros(k / 4) + ShiftedUp(a.digits, k % 4, 0)[..size - k / 4]
    ensures AreDigits(s) && Num(s) == Pow2(k) * Num(a.digits) && (!IsZero(a) ==> Canonical(Big(1, s)))
  {
    hide Num, Pow, Pow2, ShiftedUp, High;
    var m, n := k / 4, k % 4;
    ShiftedValue(a.digits, m, n, size - m);
    ShiftFactor(k);
    MulAssoc(Pow(16, m), TwoTo(n), Num(a.digits));
    if !IsZero(a) {
      ShiftedTop(a, m, n, size - m);
    }
  }

  lemma CarriesNothing(d: int, n: nat)
    requires 0 <= d < 16 && n <= 3
    ensures High(d, n) == 0 <==> d * TwoTo(n) < 16
  {
    assert Low(d, n) + 16 * High(d, n) == TwoTo(n) * d;
  }

  /** The digits kept hold the whole value. */
  lemma ShiftedValue(a: seq<int>, m: nat, n: nat, kept: nat)
    requires AreDigits(a) && n <= 4 && |a| > 0
    requires kept == |a| + if High(a[|a| - 1], n) > 0 then 1 else 0
    ensures AreDigits(ShiftedUp(a, n, 0)[..kept])
    ensures Num(Zeros(m) + ShiftedUp(a, n, 0)[..kept]) == Pow(16, m) * (TwoTo(n) * Num(a))
  {
    hide Num, Pow, ShiftedUp;
    var d := ShiftedUp(a, n, 0);
    ShiftedUpDigits(a, n);
    ShiftedUpNum(a, n, 0);
    ShiftedUpAt(a, n, 0, |a|);
    DropZeros(d, kept);
    ZerosBelow(m, d[..kept]);
    Scaled(Pow(16, m), Num(d[..kept]), TwoTo(n) * Num(a));
  }

  lemma Scaled(p: int, x: int, y: int)
    requires x == y
    ensures p * x == p * y
  {
  }

  lemma TopDigitNotZero(a: Big)
    requires WellFormed(a) && !IsZero(a)
    ensures a.digits[|a.digits| - 1] != 0
  {
    assert |a.digits| == 1 ==> a.digits == [a.digits[0]];
  }

  /** The top digit kept is not zero. */
  lemma ShiftedTop(a: Big, m: nat, n: nat, kept: nat)
    requires WellFormed(a) && !IsZero(a) && n <= 4
    requires kept == |a.digits| + if High(a.digits[|a.digits| - 1], n) > 0 then 1 else 0
    ensures ShiftedUp(a.digits, n, 0)[kept - 1] != 0 && (n == 0 ==> a.digits[|a.digits| - 1] != 0)
  {
    var la := |a.digits|;
    ShiftedUpAt(a.digits, n, 0, kept - 1);
    TopDigitNotZero(a);
  }

  /** The result has one digit more than the operand exactly when its top digit carries. */
  lemma SizeUp(a: seq<int>, k: nat, size: nat)
    requires |a| > 0 && AreDigits(a) && size == (BitLen(a) + k) / 4 + if (BitLen(a) + k) % 4 == 0 then 0 else 1
    ensures size == k / 4 + |a| + if High(a[|a| - 1], k % 4) > 0 then 1 else 0
    ensures k % 4 == 0 ==> size == k / 4 + |a|
  {
  }

  // ---- Shifts down ---------------------------------------------------------------------

  /** A shift down by n bits is a shift up by the other bits of a digit, without its lowest digit. */
  lemma ShiftedDownNum(a: seq<int>, n: nat)
    requires AreDigits(a) && n <= 4
    ensures Num(ShiftedUp(a, 4 - n, 0)[1..]) == Num(a) / Pow2(n)
  {
    var up := ShiftedUp(a, 4 - n, 0);
    ShiftedUpNum(a, 4 - n, 0);
    ShiftedUpDigits(a, 4 - n);
    assert Num(up) == up[0] + 16 * Num(up[1..]);
    DownQuotient(n, Num(a), up[0], Num(up[1..]));
  }

  lemma DownQuotient(n: nat, a: int, low: int, rest: int)
    requires n <= 4 && 0 <= low < 16 && TwoTo(4 - n) * a == low + 16 * rest
    ensures rest == a / Pow2(n)
  {
    assert Pow2(n) == TwoTo(n);
    if n == 0 {
      assert 16 * a == low + 16 * rest;
    } else if n == 1 {
      assert 8 * a == low + 16 * rest && Pow2(n) == 2;
    } else if n == 2 {
      assert 4 * a == low + 16 * rest && Pow2(n) == 4;
    } else if n == 3 {
      assert 2 * a == low + 16 * rest && Pow2(n) == 8;
    } else {
      assert a == low + 16 * rest && Pow2(n) == 16;
    }
  }

  /** Dropping the lowest digits divides by a power of the base. */
  lemma DropLow(a: seq<int>, m: nat)
    requires AreDigits(a) && m <= |a|
    ensures Pow(16, m) > 0 && Num(a[m..]) == Num(a) / Pow(16, m)
  {
    assert a == a[..m] + a[m..];
    NumAppend(a[..m], a[m..]);
    NumBound(a[..m]);
    PowPositive(16, m);
    DivModUnique(Num(a), Pow(16, m), Num(a[m..]), Num(a[..m]));
  }

  /** Dropping whole digits and shifting out the bits left over divides by a power of two. */
  lemma ShiftDownValue(a: seq<int>, k: nat)
    requires AreDigits(a) && k / 4 <= |a|
    ensures Num(ShiftedUp(a[k / 4..], 4 - k % 4, 0)[1..]) == Num(a) / Pow2(k)
  {
    hide Num, Pow, ShiftedUp;
    var m, n := k / 4, k % 4;
    DropLow(a, m);
    ShiftedDownNum(a[m..], n);
    ShiftFactor(k);
    NumNonNegative(a);
    DivDiv(Num(a), Pow(16, m), Pow2(n));
  }

  /** The digits of the result and the size the code computes for it. */
  lemma SizeDown(a: seq<int>, k: nat, size: int)
    requires |a| > 0 && AreDigits(a) && BitLen(a) > k
    requires size == (BitLen(a) - k) / 4 + if (BitLen(a) - k) % 4 == 0 then 0 else 1
    ensures k / 4 < |a| && 0 < size
    ensures size == |a| - k / 4 - if k % 4 > 0 && High(a[|a| - 1], 4 - k % 4) == 0 then 1 else 0
  {
  }

  /** The part of a shift that combines neighbouring digits. */
  method CombineDown(a: seq<int>, m: nat, n: nat, size: nat) returns (s: seq<int>)
    requires AreDigits(a) && 1 <= n <= 3 && 0 < size && |a| - m - 1 <= size <= |a| - m
    ensures |s| == size && forall j :: 0 <= j < size ==> s[j] == ShiftedUp(a[m..], 4 - n, 0)[j + 1]
  {
    var tab := new int[size];
    ghost var up := ShiftedUp(a[m..], 4 - n, 0);
    var i := 0;
    while i < size - 1
      invariant 0 <= i < size && forall j :: 0 <= j < i ==> tab[j] == up[j + 1]
    {
      OrOfNeighbours(a[i + m + 1], a[i + m], 4 - n);
      ShiftedUpAt(a[m..], 4 - n, 0, i + 1);
      tab[i] := High(a[i + m], 4 - n);
      tab[i] := Words.BitOr(tab[i], Low(a[i + m + 1], 4 - n));
      i := i + 1;
    }
    tab[i] := High(a[i + m], 4 - n);
    ShiftedUpAt(a[m..], 4 - n, 0, i + 1);
    if i + m + 1 < |a| {
      OrOfNeighbours(a[i + m + 1], a[i + m], 4 - n);
      tab[i] := Words.BitOr(tab[i], Low(a[i + m + 1], 4 - n));
    }
    s := tab[..];
  }

  /** The digits kept of a shift down hold everything, and the top one is not zero. */
  lemma KeptDigits(a: Big, m: nat, n: nat, size: nat, d: seq<int>)
    requires WellFormed(a) && !IsZero(a) && 1 <= n <= 3 && m < |a.digits| && 0 < size
    requires size == |a.digits| - m - if High(a.digits[|a.digits| - 1], 4 - n) == 0 then 1 else 0
    requires d == ShiftedUp(a.digits[m..], 4 - n, 0)[1..]
    ensures size <= |d| && AreDigits(d) && d[size - 1] != 0 && forall j :: size <= j < |d| ==> d[j] == 0
  {
    hide ShiftedUp;
    var part := a.digits[m..];
    var up := ShiftedUp(part, 4 - n, 0);
    ShiftedUpDigits(part, 4 - n);
    ShiftedUpAt(part, 4 - n, 0, |part|);
    ShiftedUpAt(part, 4 - n, 0, |part| - 1);
    assert part[|part| - 1] == a.digits[|a.digits| - 1];
    TopDigitNotZero(a);
    assert forall j :: 0 <= j < |d| ==> d[j] == up[j + 1];
  }

  /** What is kept of a shift down is canonical and holds the whole quotient. */
  lemma KeptDown(a: Big, k: nat, size: nat, d: seq<int>)
    requires WellFormed(a) && !IsZero(a) && 1 <= k % 4 && k / 4 < |a.digits| && 0 < size
    requires size == |a.digits| - k / 4 - if High(a.digits[|a.digits| - 1], 4 - k % 4) == 0 then 1 else 0
    requires d == ShiftedUp(a.digits[k / 4..], 4 - k % 4, 0)[1..]
    ensures size <= |d| && Canonical(Big(1, d[..size])) && Num(d[..size]) == Num(a.digits) / Pow2(k)
  {
    hide Num, Pow2, ShiftedUp, High;
    KeptDigits(a, k / 4, k % 4, size, d);
    ShiftDownValue(a.digits, k);
    DropZeros(d, size);
  }

  method RightShift(a: Big, k: nat) returns (r: Big)
    requires WellFormed(a)
    ensures Canonical(r) && r.sign == 1 && Num(r.digits) == Num(a.digits) / Pow2(k)
  {
    hide Num, Pow2, ShiftedUp, Bits, High, Low;
    var length := Length(a.digits);
    var len := length - k;
    NumNonNegative(a.digits);
    if len <= 0 {
      r := Big(1, [0]);
      NumOne(0);
      ShiftedOut(a, k);
      return;
    }
    var size := len / 4 + if len % 4 == 0 then 0 else 1;
    var m, n := k / 4, k % 4;
    SizeDown(a.digits, k, size);
    if n == 0 {
      var tab := new int[size];
      var i := 0;
      while i < size
        invariant 0 <= i <= size && forall j :: 0 <= j < i ==> tab[j] == a.digits[j + m]
      {
        tab[i] := a.digits[i + m];
        i := i + 1;
      }
      assert tab[..] == a.digits[m..];
      r := Big(1, tab[..]);
      DropLow(a.digits, m);
      ShiftFactor(k);
    } else {
      PositiveLength(a, k);
      var s := CombineDown(a.digits, m, n, size);
      ghost var d := ShiftedUp(a.digits[m..], 4 - n, 0)[1..];
      KeptDown(a, k, size, d);
      r := Big(1, s);
      assert s == d[..size];
    }
  }

  lemma ShiftedOut(a: Big, k: nat)
    requires WellFormed(a) && BitLen(a.digits) <= k
    ensures Num(a.digits) / Pow2(k) == 0
  {
    ZeroDigits(a);
    if Num(a.digits) > 0 {
      LengthBounds(a);
      Pow2Monotone(BitLen(a.digits), k);
    }
    SmallMod(Num(a.digits), Pow2(k));
  }

  lemma PositiveLength(a: Big, k: nat)
    requires WellFormed(a) && BitLen(a.digits) > k && k % 4 > 0
    ensures !IsZero(a)
  {
    assert BitLen(a.digits) == 4 * (|a.digits| - 1) + Bits(a.digits[|a.digits| - 1]);
  }
}
