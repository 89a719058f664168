/** Long division with estimated quotient digits (Algorithm D of Knuth, volume 2, section 4.3.1). */
module LongDivision {
  import opened Arithmetic
  import opened Digits
  import opened SignedBignum
  import opened DigitShifts

  /** The top bit of the top digit is set. */
  predicate Normalized(b: seq<int>) {
    |b| > 0 && b[|b| - 1] >= 8
  }

  /** The digit the code guesses from the two top digits of the remainder. */
  function Estimate(high: int, next: int, top: int): (q: int)
    requires top > 0
  {
    if (high * 16 + next) / top >= 16 then 15 else (high * 16 + next) / top
  }

  // ---- The estimate -------------------------------------------------------------------

  /**
   * The estimate of a normalised division is never too small and at most two
   * too large: the window u minus the estimated multiple lies in [-2b, b).
   */
  lemma EstimateBounds(u: int, t: int, low: int, b: int, v: int, bLow: int, p: int)
    requires p > 0 && u == t * p + low && 0 <= low < p
    requires b == v * p + bLow && 0 <= bLow < p && 8 <= v < 16
    requires t >= 0 && u < 16 * b
    ensures var q := if t / v >= 16 then 15 else t / v;
      0 <= q <= 15 && -2 * b < u - q * b < b
  {
    var q := if t / v >= 16 then 15 else t / v;
    QuotientBounds(t, v, q);
    EstimateNotSmall(u, t, low, b, v, bLow, p, q);
    EstimateNotLarge(u, t, low, b, v, bLow, p, q);
  }

  lemma QuotientBounds(t: int, v: int, q: int)
    requires t >= 0 && 8 <= v < 16 && q == if t / v >= 16 then 15 else t / v
    ensures 0 <= q <= 15 && q * v <= t && (q < 15 ==> t + 1 <= (q + 1) * v)
  {
    assert t == (t / v) * v + t % v;
    if t / v >= 16 {
      MulMonotone(16, t / v, v);
    } else {
      MulDistribute(q, 1, v);
    }
  }

  lemma EstimateNotSmall(u: int, t: int, low: int, b: int, v: int, bLow: int, p: int, q: int)
    requires p > 0 && u == t * p + low && low < p && b == v * p + bLow && bLow >= 0
    requires u < 16 * b && q <= 15 && (q < 15 ==> t + 1 <= (q + 1) * v) && q >= 0
    ensures u - q * b < b
  {
    if q < 15 {
      MulMonotone(t + 1, (q + 1) * v, p);
      MulDistribute(t, 1, p);
      MulAssoc(q + 1, v, p);
      MulDistribute(v * p, bLow, q + 1);
      MulNonNegative(bLow, q + 1);
      MulDistribute(q, 1, b);
    } else {
      assert q == 15;
    }
  }

  lemma EstimateNotLarge(u: int, t: int, low: int, b: int, v: int, bLow: int, p: int, q: int)
    requires p > 0 && u == t * p + low && low >= 0 && b == v * p + bLow && 0 <= bLow < p && 8 <= v
    requires 0 <= q <= 15 && q * v <= t
    ensures -2 * b < u - q * b
  {
    MulMonotone(q * v, t, p);
    MulAssoc(q, v, p);
    MulDistribute(v * p, bLow, q);
    assert q * b == q * (v * p) + q * bLow;
    MulMonotone(q, 15, bLow);
    MulMonotone(8, v, p);
  }

  // ---- One digit ------------------------------------------------------------------------

  /** The window of b at i, with the digit above it. */
  ghost function WindowAt(rem: seq<int>, i: nat, b: seq<int>): int
    requires i + |b| < |rem|
  {
    Num(rem[i..i + |b| + 1])
  }

  /** Subtracts q times b from the window of the remainder at i; its top digit may become negative. */
  method SubtractMultiple(rem: array<int>, i: nat, b: seq<int>, q: int)
    requires AreDigits(b) && 0 <= q < 16 && i + |b| < rem.Length && AreDigits(rem[..])
    modifies rem
    ensures forall j :: 0 <= j < rem.Length && (j < i || j > i + |b|) ==> rem[j] == old(rem[j])
    ensures forall j :: i <= j < i + |b| ==> 0 <= rem[j] < 16
    ensures WindowAt(rem[..], i, b) == old(WindowAt(rem[..], i, b)) - q * Num(b)
  {
    hide Num, Quot, Rem;
    ghost var was := rem[..];
    ghost var window, top := rem[i..i + |b|], rem[i + |b|];
    ghost var d, c, minus := [], [0], -q;
    var carry := 0;
    var j := 0;
    while j < |b|
      invariant 0 <= j <= |b| && |c| == j + 1 && c[j] == carry && c[0] == 0 && -16 <= carry <= 0
      invariant d == rem[i..i + j] && AreDigits(d)
      invariant forall k :: 0 <= k < rem.Length && (k < i || k >= i + j) ==> rem[k] == was[k]
      invariant forall k {:trigger d[k]} :: 0 <= k < j ==> d[k] + 16 * c[k + 1] == window[k] + minus * b[k] + c[k]
    {
      DigitProduct(q, b[j]);
      NegativeProduct(q, minus, b[j]);
      assert rem[i + j] == was[i + j] == window[j];
      var temp := rem[i + j] - q * b[j] + carry;
      RoundedDown(temp);
      carry := Quot(temp);
      rem[i + j] := Rem(temp);
      if temp < 0 && rem[i + j] != 0 {
        carry := carry - 1;
        rem[i + j] := rem[i + j] + 16;
      }
      assert rem[i + j] + 16 * carry == temp;
      c, d := c + [carry], d + [rem[i + j]];
      j := j + 1;
    }
    rem[i + |b|] := rem[i + |b|] + carry;
    ChainTop(window, b, minus, d, c, top);
    assert rem[..][i..i + |b| + 1] == d + [top + c[|b|]];
    assert was[i..i + |b| + 1] == window + [top];
    NegativeProduct(q, minus, Num(b));
  }

  lemma NegativeProduct(q: int, minus: int, x: int)
    requires minus == -q
    ensures minus * x == -(q * x)
  {
  }

  /** Adds b back to the window of the remainder at i. */
  method AddBack(rem: array<int>, i: nat, b: seq<int>)
    requires AreDigits(b) && i + |b| < rem.Length && forall j :: i <= j < i + |b| ==> 0 <= rem[j] < 16
    modifies rem
    ensures forall j :: 0 <= j < rem.Length && (j < i || j > i + |b|) ==> rem[j] == old(rem[j])
    ensures forall j :: i <= j < i + |b| ==> 0 <= rem[j] < 16
    ensures WindowAt(rem[..], i, b) == old(WindowAt(rem[..], i, b)) + Num(b)
  {
    hide Num;
    ghost var was := rem[..];
    ghost var window, top := rem[i..i + |b|], rem[i + |b|];
    ghost var d, c := [], [0];
    var carry := 0;
    var j := 0;
    while j < |b|
      invariant 0 <= j <= |b| && |c| == j + 1 && c[j] == carry && c[0] == 0 && 0 <= carry <= 1
      invariant d == rem[i..i + j] && AreDigits(d)
      invariant forall k :: 0 <= k < rem.Length && (k < i || k >= i + j) ==> rem[k] == was[k]
      invariant forall k {:trigger d[k]} :: 0 <= k < j ==> d[k] + 16 * c[k + 1] == window[k] + 1 * b[k] + c[k]
    {
      assert rem[i + j] == was[i + j] == window[j];
      var temp := rem[i + j] + b[j] + carry;
      carry := Quot(temp);
      rem[i + j] := Rem(temp);
      c, d := c + [carry], d + [Rem(temp)];
      j := j + 1;
    }
    rem[i + |b|] := rem[i + |b|] + carry;
    ChainTop(window, b, 1, d, c, top);
    assert rem[..][i..i + |b| + 1] == d + [top + c[|b|]];
    assert was[i..i + |b| + 1] == window + [top];
  }

  /** The estimate made from a window is at most two too large for it. */
  lemma WindowEstimate(w: seq<int>, b: seq<int>)
    requires AreDigits(w) && AreDigits(b) && Normalized(b) && |w| == |b| + 1 && Num(w) < 16 * Num(b)
    ensures var q := Estimate(w[|b|], w[|b| - 1], b[|b| - 1]);
      0 <= q <= 15 && -2 * Num(b) < Num(w) - q * Num(b) < Num(b)
  {
    hide Num, Pow;
    var m := |b| - 1;
    TopDigits(w, b);
    NumSplit(w, m);
    NumSplit(b, m);
    NumBound(w[..m]);
    NumBound(b[..m]);
    EstimateBounds(Num(w), Num(w[m..]), Num(w[..m]), Num(b), Num(b[m..]), Num(b[..m]), Pow(16, m));
  }

  lemma EstimateAt(rem: seq<int>, i: nat, b: seq<int>)
    requires AreDigits(rem) && AreDigits(b) && Normalized(b) && i + |b| < |rem| && WindowAt(rem, i, b) < 16 * Num(b)
    ensures b[|b| - 1] > 0
    ensures var q := Estimate(rem[i + |b|], rem[i + |b| - 1], b[|b| - 1]);
      0 <= q <= 15 && -2 * Num(b) < WindowAt(rem, i, b) - q * Num(b) < Num(b)
  {
    hide Num, Estimate;
    WindowEstimate(rem[i..i + |b| + 1], b);
  }

  /** The values of the two top digits of a window and of the top digit of the divisor. */
  lemma TopDigits(w: seq<int>, b: seq<int>)
    requires |w| == |b| + 1 && |b| > 0
    ensures Num(w[|b| - 1..]) == w[|b|] * 16 + w[|b| - 1] && Num(b[|b| - 1..]) == b[|b| - 1]
  {
    var m := |b| - 1;
    assert w[m..] == [w[m], w[m + 1]] && b[m..] == [b[m]];
    NumTwo(w[m], w[m + 1]);
    NumOne(b[m]);
  }

  lemma NumTwo(d: int, e: int)
    ensures Num([d, e]) == e * 16 + d
  {
    assert [d, e][1..] == [e];
    NumOne(e);
  }

  /** The top digit of a window has the sign of the window. */
  lemma WindowSign(rem: seq<int>, i: nat, l: nat)
    requires i + l < |rem| && forall j :: i <= j < i + l ==> 0 <= rem[j] < 16
    ensures rem[i + l] < 0 <==> Num(rem[i..i + l + 1]) < 0
  {
    hide Num;
    var w := rem[i..i + l + 1];
    assert forall j :: 0 <= j < l ==> w[..l][j] == rem[i + j];
    TopSign(w);
  }

  /** A window below the divisor has a zero top digit. */
  lemma SmallWindow(w: seq<int>, b: seq<int>)
    requires |w| == |b| + 1 && AreDigits(w[..|b|]) && AreDigits(b) && 0 <= Num(w) < Num(b)
    ensures w[|b|] == 0 && Num(w[..|b|]) == Num(w)
  {
    hide Num;
    TopSign(w);
    if w[|b|] > 0 {
      LongerIsLarger(w, b);
    }
    DropZeros(w, |b|);
  }

  /** Only the window has changed, its lower part is made of digits, and it lacks q times b. */
  ghost predicate Lacks(was: seq<int>, rem: seq<int>, i: nat, b: seq<int>, q: int) {
    && i + |b| < |rem| == |was| && AreDigits(was)
    && (forall j :: 0 <= j < |rem| && (j < i || j > i + |b|) ==> rem[j] == was[j])
    && (forall j :: i <= j < i + |b| ==> 0 <= rem[j] < 16)
    && WindowAt(was, i, b) == q * Num(b) + WindowAt(rem, i, b) && WindowAt(rem, i, b) < Num(b)
  }

  /** Adding b back makes up for a quotient one too large. */
  lemma AddedBack(was: seq<int>, rem: seq<int>, rem': seq<int>, i: nat, b: seq<int>, q: int)
    requires Lacks(was, rem, i, b, q) && |rem'| == |rem| && WindowAt(rem, i, b) < 0
    requires forall j :: 0 <= j < |rem| && (j < i || j > i + |b|) ==> rem'[j] == rem[j]
    requires forall j :: i <= j < i + |b| ==> 0 <= rem'[j] < 16
    requires WindowAt(rem', i, b) == WindowAt(rem, i, b) + Num(b)
    ensures Lacks(was, rem', i, b, q - 1)
  {
    hide Num, WindowAt;
    MulDistribute(q, -1, Num(b));
  }

  /** The digit above the window tells its sign. */
  lemma LacksSign(was: seq<int>, rem: seq<int>, i: nat, b: seq<int>, q: int)
    requires Lacks(was, rem, i, b, q)
    ensures i + |b| < |rem| && (rem[i + |b|] < 0 <==> WindowAt(rem, i, b) < 0)
  {
    WindowSign(rem, i, |b|);
  }

  /** When the window is not negative, its quotient digit and remainder are found. */
  lemma LacksNothing(was: seq<int>, rem: seq<int>, i: nat, b: seq<int>, q: int)
    requires Lacks(was, rem, i, b, q) && AreDigits(b) && WindowAt(rem, i, b) >= 0
    ensures AreDigits(rem) && rem[i + |b|] == 0 && q >= 0
    ensures WindowAt(was, i, b) == q * Num(b) + Num(rem[i..i + |b|]) && Num(rem[i..i + |b|]) < Num(b)
  {
    hide Num;
    var w := rem[i..i + |b| + 1];
    assert w[..|b|] == rem[i..i + |b|];
    SmallWindow(w, b);
    forall j | 0 <= j < |rem| ensures 0 <= rem[j] < 16 {
      assert 0 <= was[j] < 16;
    }
    NumNonNegative(was[i..i + |b| + 1]);
    DigitFound(WindowAt(was, i, b), Num(b), q, Num(w));
  }

  /**
   * Finds one quotient digit: estimate it, subtract, and while the window is
   * negative add the divisor back, which happens at most twice.
   */
  method DivideDigit(rem: array<int>, i: nat, b: seq<int>) returns (q: int, ghost corrections: nat)
    requires AreDigits(b) && Normalized(b) && i + |b| < rem.Length && AreDigits(rem[..])
    requires WindowAt(rem[..], i, b) < 16 * Num(b)
    modifies rem
    ensures forall j :: 0 <= j < rem.Length && (j < i || j > i + |b|) ==> rem[j] == old(rem[j])
    ensures AreDigits(rem[..]) && rem[i + |b|] == 0 && 0 <= q < 16
    ensures old(WindowAt(rem[..], i, b)) == q * Num(b) + Num(rem[..][i..i + |b|])
    ensures Num(rem[..][i..i + |b|]) < Num(b)
    ensures corrections <= 2
    ensures q == Estimate(old(rem[i + |b|]), old(rem[i + |b| - 1]), b[|b| - 1]) - corrections
  {
    hide Num, Lacks, AreDigits, WindowAt;
    ghost var was := rem[..];
    EstimateAt(rem[..], i, b);
    q := (rem[i + |b|] * 16 + rem[i + |b| - 1]) / b[|b| - 1];
    if q >= 16 {
      q := 15;
    }
    ghost var guess := q;
    SubtractMultiple(rem, i, b, q);
    StartsLacking(was, rem[..], i, b, q);
    corrections := 0;
    LacksSign(was, rem[..], i, b, q);
    while rem[i + |b|] < 0
      invariant q == guess - corrections && corrections <= 2 && Lacks(was, rem[..], i, b, q)
      invariant WindowAt(rem[..], i, b) > (if corrections == 0 then -2 * Num(b) else if corrections == 1
        then -Num(b) else -1)
      invariant rem[i + |b|] < 0 <==> WindowAt(rem[..], i, b) < 0
      decreases 2 - corrections
    {
      ghost var before := rem[..];
      LacksMeans(was, before, i, b, q);
      AddBack(rem, i, b);
      AddedBack(was, before, rem[..], i, b, q);
      q := q - 1;
      corrections := corrections + 1;
      LacksSign(was, rem[..], i, b, q);
    }
    LacksMeans(was, rem[..], i, b, q);
    LacksNothing(was, rem[..], i, b, q);
  }

  lemma StartsLacking(was: seq<int>, rem: seq<int>, i: nat, b: seq<int>, q: int)
    requires i + |b| < |rem| == |was| && AreDigits(was)
    requires forall j :: 0 <= j < |rem| && (j < i || j > i + |b|) ==> rem[j] == was[j]
    requires forall j :: i <= j < i + |b| ==> 0 <= rem[j] < 16
    requires WindowAt(rem, i, b) == WindowAt(was, i, b) - q * Num(b) && WindowAt(was, i, b) - q * Num(b) < Num(b)
    ensures Lacks(was, rem, i, b, q)
  {
    hide Num, WindowAt;
  }

  lemma LacksMeans(was: seq<int>, rem: seq<int>, i: nat, b: seq<int>, q: int)
    requires Lacks(was, rem, i, b, q)
    ensures i + |b| < |rem| == |was| && WindowAt(rem, i, b) < Num(b)
    ensures forall j :: 0 <= j < |rem| && (j < i || j > i + |b|) ==> rem[j] == was[j]
    ensures forall j :: i <= j < i + |b| ==> 0 <= rem[j] < 16
  {
  }

  lemma DigitFound(u: int, n: int, q: int, v: int)
    requires u == q * n + v && u >= 0 && 0 <= v < n
    ensures q >= 0
  {
    if q < 0 {
      MulMonotone(q, -1, n);
    }
  }

  // ---- The whole division -------------------------------------------------------------------

  /** One digit more of the dividend, the quotient and the remainder. */
  lemma NextDigit(above: int, quot: int, rem: int, digit: int, n: int, u: int, q: int, r: int)
    requires above == quot * n + rem && u == digit + 16 * rem && u == q * n + r
    ensures digit + 16 * above == (q + 16 * quot) * n + r
  {
    MulDistribute(q, 16 * quot, n);
    MulAssoc(16, quot, n);
  }

  /** Drops leading zeros but keeps one digit. */
  method Shorten(s: seq<int>) returns (r: Big)
    requires |s| > 0 && AreDigits(s)
    ensures Canonical(r) && r.sign == 1 && Num(r.digits) == Num(s)
  {
    var i := |s| - 1;
    while i >= 1 && s[i] == 0
      invariant 0 <= i < |s| && forall j :: i < j < |s| ==> s[j] == 0
    {
      i := i - 1;
    }
    DropZeros(s, i + 1);
    r := Big(1, s[..i + 1]);
  }

  /** The state of the division when the digits above i are done. */
  ghost predicate Divided(a: seq<int>, b: seq<int>, quot: seq<int>, rem: seq<int>, i: nat) {
    && |a| >= |b| > 0 && |rem| == |a| + 1 && |quot| == |a| - |b| + 1 && i <= |quot|
    && AreDigits(rem) && AreDigits(quot[i..])
    && (forall j :: 0 <= j < i && j < |a| ==> rem[j] == a[j])
    && (forall j :: i + |b| <= j <= |a| ==> rem[j] == 0)
    && Num(a[i..]) == Num(quot[i..]) * Num(b) + Num(DivWindow(rem, i, |b|))
    && Num(DivWindow(rem, i, |b|)) < Num(b)
  }

  /** The window below b, padded by zeros beyond the end. */
  function DivWindow(rem: seq<int>, i: nat, l: nat): seq<int>
    requires i <= |rem|
  {
    if i + l <= |rem| then rem[i..i + l] else rem[i..]
  }

  method NormalizedDivide(a: Big, b: Big) returns (q: Big, r: Big)
    requires AreDigits(a.digits) && WellFormed(b) && Normalized(b.digits) && |a.digits| >= |b.digits|
    ensures Canonical(q) && Canonical(r) && q.sign == 1 && r.sign == 1
    ensures Num(a.digits) == Num(q.digits) * Num(b.digits) + Num(r.digits)
    ensures Num(r.digits) < Num(b.digits)
  {
    hide Num, Divided, AreDigits, DivWindow, Normalized, WindowAt;
    var k, l := |a.digits|, |b.digits|;
    var rem := new int[k + 1](_ => 0);
    var i := 0;
    while i < k
      invariant 0 <= i <= k && forall j :: 0 <= j < i ==> rem[j] == a.digits[j]
    {
      rem[i] := a.digits[i];
      i := i + 1;
    }
    rem[k] := 0;
    var quot := new int[k - l + 1](_ => 0);
    i := k - l;
    StartDivision(a.digits, b.digits, quot[..], rem[..]);
    while i >= 0
      invariant -1 <= i <= k - l
      invariant Divided(a.digits, b.digits, quot[..], rem[..], i + 1)
    {
      ghost var quot0, rem0 := quot[..], rem[..];
      BeforeDigit(a.digits, b.digits, quot0, rem0, i);
      var digit, corrections := DivideDigit(rem, i, b.digits);
      quot[i] := digit;
      AfterDigit(a.digits, b.digits, quot0, rem0, quot[..], rem[..], i, digit);
      i := i - 1;
    }
    EndDivision(a.digits, b.digits, quot[..], rem[..]);
    q := Shorten(quot[..]);
    r := Shorten(rem[..l]);
    assert rem[..][..l] == rem[..l];
  }

  lemma EndDivision(a: seq<int>, b: seq<int>, quot: seq<int>, rem: seq<int>)
    requires Divided(a, b, quot, rem, 0)
    ensures |rem| > |b| && AreDigits(quot) && AreDigits(rem[..|b|])
    ensures Num(a) == Num(quot) * Num(b) + Num(rem[..|b|]) && Num(rem[..|b|]) < Num(b)
  {
    assert quot[0..] == quot && a[0..] == a;
    assert DivWindow(rem, 0, |b|) == rem[..|b|];
  }

  lemma StartDivision(a: seq<int>, b: seq<int>, quot: seq<int>, rem: seq<int>)
    requires |a| >= |b| && |rem| == |a| + 1 && |quot| == |a| - |b| + 1 && AreDigits(a) && AreDigits(b)
    requires Normalized(b) && rem == a + [0]
    ensures Divided(a, b, quot, rem, |quot|)
  {
    var i := |quot|;
    assert DivWindow(rem, i, |b|) == a[i..] + [0];
    PadZero(a[i..]);
    LongerIsLarger(b, a[i..]);
    assert quot[i..] == [];
  }

  /** The next window is below sixteen divisors. */
  lemma BeforeDigit(a: seq<int>, b: seq<int>, quot: seq<int>, rem: seq<int>, i: nat)
    requires Divided(a, b, quot, rem, i + 1) && i < |quot|
    ensures |b| > 0 && i + |b| < |rem| && AreDigits(rem) && WindowAt(rem, i, b) < 16 * Num(b)
    ensures WindowAt(rem, i, b) == a[i] + 16 * Num(DivWindow(rem, i + 1, |b|))
  {
    hide Num;
    NumCons(rem[i..i + |b| + 1]);
    assert rem[i..i + |b| + 1][1..] == DivWindow(rem, i + 1, |b|);
  }

  lemma AfterDigit(a: seq<int>, b: seq<int>, quot0: seq<int>, rem0: seq<int>, quot: seq<int>, rem: seq<int>, i: nat,
                   digit: int)
    requires Divided(a, b, quot0, rem0, i + 1) && i < |quot0| && i + |b| < |rem0|
    requires |rem| == |rem0| && forall j :: 0 <= j < |rem| && (j < i || j > i + |b|) ==> rem[j] == rem0[j]
    requires AreDigits(rem) && rem[i + |b|] == 0 && 0 <= digit < 16 && quot == quot0[i := digit]
    requires WindowAt(rem0, i, b) == digit * Num(b) + Num(rem[i..i + |b|]) && Num(rem[i..i + |b|]) < Num(b)
    ensures Divided(a, b, quot, rem, i)
  {
    hide Num, WindowAt;
    BeforeDigit(a, b, quot0, rem0, i);
    LongerQuotient(a, quot0, quot, i, Num(b), Num(DivWindow(rem0, i + 1, |b|)), WindowAt(rem0, i, b), digit,
                   Num(rem[i..i + |b|]));
    MoreDigits(quot0, quot, i, digit);
    assert DivWindow(rem, i, |b|) == rem[i..i + |b|];
    hide AreDigits, DivWindow;
    OtherDigits(a, b, quot0, rem0, rem, i);
  }

  /** Below the window the dividend still stands, above it there are zeros. */
  lemma OtherDigits(a: seq<int>, b: seq<int>, quot0: seq<int>, rem0: seq<int>, rem: seq<int>, i: nat)
    requires Divided(a, b, quot0, rem0, i + 1) && i + |b| < |rem0| == |rem| && rem[i + |b|] == 0
    requires forall j :: 0 <= j < |rem| && (j < i || j > i + |b|) ==> rem[j] == rem0[j]
    ensures forall j :: 0 <= j < i && j < |a| ==> rem[j] == a[j]
    ensures forall j :: i + |b| <= j <= |a| ==> rem[j] == 0
  {
    hide Num, AreDigits, DivWindow;
  }

  lemma LongerQuotient(a: seq<int>, quot0: seq<int>, quot: seq<int>, i: nat, n: int, rest: int, u: int, digit: int,
      r: int)
    requires i < |quot0| && i < |a| && quot == quot0[i := digit]
    requires Num(a[i + 1..]) == Num(quot0[i + 1..]) * n + rest && u == a[i] + 16 * rest && u == digit * n + r
    ensures Num(a[i..]) == Num(quot[i..]) * n + r
  {
    hide Num;
    NumCons(quot[i..]);
    NumCons(a[i..]);
    assert quot[i..][1..] == quot0[i + 1..] && a[i..][1..] == a[i + 1..];
    NextDigit(Num(a[i + 1..]), Num(quot0[i + 1..]), rest, a[i], n, u, digit, r);
  }

  lemma MoreDigits(quot0: seq<int>, quot: seq<int>, i: nat, digit: int)
    requires i < |quot0| && AreDigits(quot0[i + 1..]) && 0 <= digit < 16 && quot == quot0[i := digit]
    ensures AreDigits(quot[i..])
  {
    assert quot[i..] == [digit] + quot0[i + 1..];
  }

  // ---- Any divisor --------------------------------------------------------------------------

  /** How far the top digit's top bit is from the top. */
  method TopGap(d: int) returns (gap: nat)
    requires 0 < d < 16
    ensures gap == 4 - Bits(d)
  {
    var i := 3;
    while i >= 0
      invariant -1 <= i <= 3 && d < TwoTo(i + 1)
    {
      if Bit(d, i) {
        break;
      }
      i := i - 1;
    }
    gap := 4 - i - 1;
  }

  /** A number between two such powers has its top bit at the top of a digit. */
  lemma NormalizedByValue(x: Big, len: nat)
    requires WellFormed(x) && len > 0 && Pow2(4 * len - 1) <= Num(x.digits) < Pow2(4 * len)
    ensures Normalized(x.digits)
  {
    hide Num, Pow2;
    LengthBounds(x);
    var bits := BitLen(x.digits);
    if bits < 4 * len {
      Pow2Monotone(bits, 4 * len - 1);
    }
    if bits > 4 * len {
      Pow2Monotone(4 * len, bits - 1);
    }
  }

  /** Shifting a divisor up by its gap normalises it. */
  lemma ShiftNormalizes(n: Big, gap: nat, shifted: Big)
    requires WellFormed(n) && Num(n.digits) > 0 && WellFormed(shifted)
    requires gap == 4 - Bits(n.digits[|n.digits| - 1]) && Num(shifted.digits) == Pow2(gap) * Num(n.digits)
    ensures Normalized(shifted.digits)
  {
    hide Num, Pow2;
    LengthBounds(n);
    var bits := BitLen(n.digits);
    Pow2Add(gap, bits - 1);
    Pow2Add(gap, bits);
    ScaledBounds(Pow2(gap), Pow2(bits - 1), Num(n.digits), Pow2(bits));
    NormalizedByValue(shifted, |n.digits|);
  }

  lemma ScaledBounds(f: int, lo: int, x: int, hi: int)
    requires f > 0 && lo <= x < hi
    ensures f * lo <= f * x < f * hi
  {
  }

  /** Scaling both operands scales the remainder and keeps the quotient. */
  lemma ScaledDivision(f: int, a: int, n: int, q: int, r: int)
    requires f > 0 && n > 0 && f * a == q * (f * n) + r && 0 <= r < f * n
    ensures q == a / n && r / f == a % n
  {
    var rest := a - q * n;
    assert r == rest * f by {
      MulAssoc(q, f, n);
      MulDistribute(a, q * n, f);
    }
    if rest < 0 {
      MulMonotone(rest, -1, f);
    }
    if rest >= n {
      MulMonotone(n, rest, f);
    }
    DivModUnique(a, n, q, rest);
    DivModUnique(r, f, rest, 0);
  }

  /** What the operations below look at where they divide: a divisor that is not zero nor four bits longer. */
  ghost predicate Divisible(a: Big, n: Big)
    requires WellFormed(a) && WellFormed(n)
  {
    !IsZero(n) && BitLen(n.digits) < BitLen(a.digits) + 4
  }

  /** A divisor of smaller or equal magnitude is never longer. */
  lemma SmallerDivisible(a: Big, n: Big)
    requires WellFormed(a) && WellFormed(n) && 0 < Num(n.digits) <= Num(a.digits)
    ensures Divisible(a, n)
  {
    hide Num, Pow2;
    ZeroDigits(a);
    ZeroDigits(n);
    LengthBounds(a);
    LengthBounds(n);
    if BitLen(n.digits) > BitLen(a.digits) {
      Pow2Monotone(BitLen(a.digits), BitLen(n.digits) - 1);
    }
  }

  /** One of the shifts of a division writes past its slots. */
  ghost predicate ShiftsPast(a: Big, n: Big)
    requires WellFormed(a) && WellFormed(n)
  {
    var gap := 4 - Bits(n.digits[|n.digits| - 1]);
    !(n.sign == 1 && Normalized(n.digits)) && (Overshoots(a, gap) || Overshoots(n, gap))
  }

  /** Every larger number divided by one digit whose top bit is not set does so. */
  lemma SmallDivisorShiftsPast(a: Big, n: Big)
    requires WellFormed(a) && WellFormed(n) && |n.digits| == 1 && 0 < n.digits[0] < 8
    ensures ShiftsPast(a, n)
  {
    var d := n.digits[0];
    if d >= 4 {
    } else if d >= 2 {
    } else {
      assert d == 1;
    }
  }

  /** Two divided by one writes past its slots; minus five divided by three leaves minus five. */
  lemma DivisionFailures()
    ensures var one, two := Big(1, [1]), Big(1, [2]);
      WellFormed(one) && WellFormed(two) && Below(one, two) && Divisible(two, one) && ShiftsPast(two, one)
    ensures var a, n := Big(-1, [5]), Big(1, [3]);
      WellFormed(a) && WellFormed(n) && Below(a, n) && Quotient(a, n) == 0 && Rest(a, n) == -5
  {
    NumOne(1);
    NumOne(2);
    NumOne(3);
    NumOne(5);
    SmallDivisorShiftsPast(Big(1, [2]), Big(1, [1]));
  }

  /** Quotient and remainder of the magnitudes, for any divisor the dividend is long enough for. */
  method DivideMagnitudes(a: Big, n: Big) returns (q: Big, r: Big, ghost past: bool)
    requires WellFormed(a) && WellFormed(n) && Divisible(a, n)
    ensures Canonical(q) && Canonical(r) && q.sign == 1 && r.sign == 1 && Num(n.digits) > 0
    ensures Num(q.digits) == Num(a.digits) / Num(n.digits) && Num(r.digits) == Num(a.digits) % Num(n.digits)
    ensures past <==> ShiftsPast(a, n)
  {
    hide Num, Pow2, Overshoots;
    ZeroDigits(a);
    ZeroDigits(n);
    past := false;
    if n.sign == 1 && Normalized(n.digits) {
      q, r := NormalizedDivide(a, n);
      NumNonNegative(r.digits);
      DivModUnique(Num(a.digits), Num(n.digits), Num(q.digits), Num(r.digits));
    } else {
      TopDigitNotZero(n);
      var gap := TopGap(n.digits[|n.digits| - 1]);
      ghost var pastA, pastN;
      var leftA, leftN;
      leftA, pastA := LeftShift(a, gap);
      leftN, pastN := LeftShift(n, gap);
      past := pastA || pastN;
      ShiftNormalizes(n, gap, leftN);
      var leftR;
      q, leftR := NormalizedDivide(leftA, leftN);
      NumNonNegative(leftR.digits);
      ScaledDivision(Pow2(gap), Num(a.digits), Num(n.digits), Num(q.digits), Num(leftR.digits));
      r := RightShift(leftR, gap);
    }
  }

  /** What division answers, for all signs. */
  ghost function Quotient(a: Big, n: Big): int
    requires WellFormed(a) && WellFormed(n) && (Below(n, a) ==> Divisible(a, n))
  {
    ZeroDigits(n);
    if Below(a, n) then 0 else if Below(n, a) then Num(a.digits) / Num(n.digits) else 1
  }

  /** What the remainder is, for all signs. */
  ghost function Rest(a: Big, n: Big): int
    requires WellFormed(a) && WellFormed(n) && (Below(n, a) ==> Divisible(a, n))
  {
    ZeroDigits(n);
    if Below(a, n) then Value(a) else if Below(n, a) then Num(a.digits) % Num(n.digits) else 0
  }

  method Divide(a: Big, n: Big) returns (q: Big)
    requires WellFormed(a) && WellFormed(n) && (Value(n) > 0 || !Below(n, a) || Divisible(a, n))
    ensures Below(n, a) ==> Divisible(a, n)
    ensures Canonical(q) && Value(q) == Quotient(a, n)
    ensures Value(n) > 0 ==> Value(q) == if Value(a) < 0 then 0 else Value(a) / Value(n)
  {
    DivisionSigns(a, n);
    NumOne(0);
    NumOne(1);
    hide Num;
    var c := Compare(a, n);
    if c == -1 {
      q := Big(1, [0]);
    } else if c == 0 {
      q := Big(1, [1]);
    } else {
      var r;
      ghost var past;
      q, r, past := DivideMagnitudes(a, n);
    }
  }

  method Remainder(a: Big, n: Big) returns (r: Big)
    requires WellFormed(a) && WellFormed(n) && (Value(n) > 0 || !Below(n, a) || Divisible(a, n))
    ensures Below(n, a) ==> Divisible(a, n)
    ensures WellFormed(r) && (Canonical(a) ==> Canonical(r)) && Value(r) == Rest(a, n)
    ensures Value(n) > 0 ==> Value(r) == if Value(a) < 0 then Value(a) else Value(a) % Value(n)
  {
    DivisionSigns(a, n);
    NumOne(0);
    hide Num;
    var c := Compare(a, n);
    if c == 0 {
      r := Big(1, [0]);
    } else if c == -1 {
      r := a;
    } else {
      var q;
      ghost var past;
      q, r, past := DivideMagnitudes(a, n);
    }
  }

  /** A positive divisor can always be divided by, and then both answers are those of division. */
  lemma DivisionSigns(a: Big, n: Big)
    requires WellFormed(a) && WellFormed(n) && (Value(n) > 0 || !Below(n, a) || Divisible(a, n))
    ensures Below(n, a) ==> Divisible(a, n)
    ensures Value(n) > 0 ==> Quotient(a, n) == (if Value(a) < 0 then 0 else Value(a) / Value(n))
    ensures Value(n) > 0 ==> Rest(a, n) == if Value(a) < 0 then Value(a) else Value(a) % Value(n)
  {
    hide Num;
    ZeroDigits(a);
    ZeroDigits(n);
    if Value(n) > 0 {
      if Below(n, a) {
        SmallerDivisible(a, n);
      } else if Value(a) == Value(n) {
        DivModUnique(Value(a), Value(n), 1, 0);
      } else if Value(a) >= 0 {
        SmallMod(Value(a), Value(n));
      }
    }
  }

  /**
   * Quotient and remainder are those of division exactly for equal operands,
   * for a dividend that is not negative and a positive divisor, and for a
   * dividend that is not negative and smaller than the magnitude of a negative
   * divisor.
   */
  lemma DivisionExactly(a: Big, n: Big)
    requires WellFormed(a) && WellFormed(n) && Value(n) != 0 && (Below(n, a) ==> Divisible(a, n))
    ensures Value(a) == Quotient(a, n) * Value(n) + Rest(a, n) && 0 <= Rest(a, n) < Num(n.digits)
      <==> Value(a) == Value(n) || (0 <= Value(a) && (Value(n) > 0 || Value(a) < -Value(n)))
  {
    hide Num;
    ZeroDigits(a);
    ZeroDigits(n);
    var x, y := Num(a.digits), Num(n.digits);
    if Below(n, a) {
      assert x == (x / y) * y + x % y;
      if Value(n) < 0 {
        NegativeDivisor(x, y, x / y, x % y, Value(a), Value(n));
      }
    }
  }

  lemma NegativeDivisor(x: int, y: int, q: int, r: int, a: int, n: int)
    requires y > 0 && x == q * y + r && 0 <= r < y && x >= 0 && n == -y && (a == x || (a == -x && x < y && x > 0))
    ensures a == q * n + r <==> a == x && x < y
  {
    assert q * n == -(q * y);
    if x < y {
      if q > 0 {
        MulMonotone(1, q, y);
      }
      if q < 0 {
        MulMonotone(q, -1, y);
      }
    } else if q <= 0 {
      MulMonotone(q, 0, y);
    } else {
      MulMonotone(1, q, y);
    }
  }
}
