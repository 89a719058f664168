/** Signed numbers of base-16 digits: sums, differences, products, comparison and shifts. */
module SignedBignum {
  import opened Arithmetic
  import opened Digits

  /** A number as its sign and its digits, lowest first. */
  datatype Big = Big(sign: int, digits: seq<int>)

  function Value(a: Big): int { if a.sign == -1 then -Num(a.digits) else Num(a.digits) }

  /** No leading zero digits; the sign of zero is left open. */
  ghost predicate WellFormed(a: Big) {
    && (a.sign == 1 || a.sign == -1) && |a.digits| > 0 && AreDigits(a.digits)
    && (|a.digits| > 1 ==> a.digits[|a.digits| - 1] != 0)
  }

  ghost predicate NegativeZero(a: Big) {
    a == Big(-1, [0])
  }

  ghost predicate Canonical(a: Big) {
    WellFormed(a) && !NegativeZero(a)
  }

  lemma CanonicalIsWellFormed(a: Big)
    requires Canonical(a)
    ensures WellFormed(a)
  {
  }

  lemma ZeroDigits(a: Big)
    requires WellFormed(a)
    ensures Num(a.digits) >= 0
    ensures Num(a.digits) == 0 <==> a.digits == [0]
  {
    var n := |a.digits|;
    NumNonNegative(a.digits);
    if n > 1 || a.digits[0] != 0 {
      NumPositive(a.digits);
    } else {
      assert a.digits == [0];
      assert Num([0]) == 0;
    }
  }

  /** A canonical number is determined by its value. */
  lemma ValueUnique(a: Big, b: Big)
    requires Canonical(a) && Canonical(b) && Value(a) == Value(b)
    ensures a == b
  {
    ZeroDigits(a);
    ZeroDigits(b);
    if |a.digits| > |b.digits| {
      LongerIsLarger(a.digits, b.digits);
    } else if |b.digits| > |a.digits| {
      LongerIsLarger(b.digits, a.digits);
    } else {
      NumUnique(a.digits, b.digits);
    }
  }

  predicate IsZero(a: Big) { a.digits == [0] }

  // ---- Comparison --------------------------------------------------------------------

  /** The order of the values, in which minus zero comes before zero. */
  ghost predicate Below(a: Big, b: Big) {
    Value(a) < Value(b) || (NegativeZero(a) && b == Big(1, [0]))
  }

  method Compare(a: Big, b: Big) returns (c: int)
    requires WellFormed(a) && WellFormed(b)
    ensures c == if Below(a, b) then -1 else if Below(b, a) then 1 else 0
    decreases if a.sign == -1 && b.sign == -1 then 1 else 0
  {
    hide Num;
    ZeroDigits(a);
    ZeroDigits(b);
    if a.sign == -1 && b.sign == 1 {
      return -1;
    }
    if a.sign == 1 && b.sign == -1 {
      return 1;
    }
    if a.sign == -1 && b.sign == -1 {
      c := Compare(b.(sign := 1), a.(sign := 1));
      return c;
    }
    if |a.digits| < |b.digits| {
      LongerIsLarger(b.digits, a.digits);
      return -1;
    }
    if |a.digits| > |b.digits| {
      LongerIsLarger(a.digits, b.digits);
      return 1;
    }
    var i := |a.digits| - 1;
    while i >= 0
      invariant -1 <= i < |a.digits|
      invariant forall j :: i < j < |a.digits| ==> a.digits[j] == b.digits[j]
    {
      if a.digits[i] < b.digits[i] {
        TopDifference(b.digits, a.digits, i);
        return -1;
      } else if a.digits[i] > b.digits[i] {
        TopDifference(a.digits, b.digits, i);
        return 1;
      }
      i := i - 1;
    }
    assert a.digits == b.digits;
    c := 0;
  }

  // ---- Sums --------------------------------------------------------------------------------

  /** Digits of the sum of two numbers, the longer one first. */
  method AddDigits(a: seq<int>, b: seq<int>) returns (s: seq<int>)
    requires |b| <= |a| && AreDigits(a) && AreDigits(b) && |a| > 0
    ensures AreDigits(s) && Num(s) == Num(a) + Num(b)
    ensures (|s| == |a| && s[|s| - 1] >= a[|a| - 1]) || (|s| == |a| + 1 && s[|a|] == 1)
  {
    hide Num;
    var sum := new int[|a| + 1];
    var carry := 0;
    ghost var c := [0];
    ghost var y := b + Zeros(|a| - |b|);
    var i := 0;
    while i < |b|
      invariant 0 <= i <= |b| && |c| == i + 1 && c[i] == carry && c[0] == 0
      invariant forall j :: 0 <= j <= i ==> 0 <= c[j] <= 1
      invariant forall j {:trigger sum[j]} :: 0 <= j < i ==>
        0 <= sum[j] < 16 && sum[j] + 16 * c[j + 1] == a[j] + b[j] + c[j]
    {
      var tmp := a[i] + b[i] + carry;
      sum[i] := Rem(tmp);
      carry := Quot(tmp);
      c := c + [carry];
      i := i + 1;
    }
    while i < |a|
      invariant |b| <= i <= |a| && |c| == i + 1 && c[i] == carry && c[0] == 0
      invariant forall j :: 0 <= j <= i ==> 0 <= c[j] <= 1
      invariant forall j {:trigger sum[j]} :: 0 <= j < i ==>
        0 <= sum[j] < 16 && sum[j] + 16 * c[j + 1] == a[j] + y[j] + c[j]
    {
      var tmp := a[i] + carry;
      carry := Quot(tmp);
      sum[i] := Rem(tmp);
      c := c + [carry];
      i := i + 1;
    }
    sum[i] := carry;
    AddedDigits(a, b, y, sum[..|a|], c);
    assert sum[..] == sum[..|a|] + [carry];
    s := if carry != 0 then sum[..] else sum[..|a|];
    if carry == 0 {
      DropZeros(sum[..], |a|);
      assert sum[..][..|a|] == sum[..|a|];
      assert sum[|a| - 1] + 16 * c[|a|] == a[|a| - 1] + y[|a| - 1] + c[|a| - 1];
    }
  }

  lemma AddedDigits(a: seq<int>, b: seq<int>, y: seq<int>, d: seq<int>, c: seq<int>)
    requires Pads(y, b) && Chain(a, y, 1, d, c) && c[0] == 0
    ensures Num(d + [c[|d|]]) == Num(a) + Num(b)
  {
    hide Num, Chain, Pads;
    ChainTop(a, y, 1, d, c, 0);
    PadZero(a);
    PadZeros(y, b);
  }

  method Add(a: Big, b: Big) returns (r: Big)
    requires WellFormed(a) && WellFormed(b)
    ensures WellFormed(r) && Value(r) == Value(a) + Value(b)
    ensures NegativeZero(r) <==> NegativeZero(a) && NegativeZero(b)
    decreases if a.sign != b.sign then 3 else if |b.digits| > |a.digits| then 1 else 0
  {
    ZeroDigits(a);
    ZeroDigits(b);
    if a.sign == 1 && b.sign == -1 {
      r := Sub(a, b.(sign := 1));
    } else if a.sign == -1 && b.sign == 1 {
      r := Sub(b, a.(sign := 1));
    } else if |b.digits| > |a.digits| {
      r := Add(b, a);
    } else {
      var s := AddDigits(a.digits, b.digits);
      r := Big(a.sign, s);
      ZeroDigits(r);
    }
  }

  /** Digits of x - y where x is at least y in every prefix that matters: no borrow is left. */
  method SubDigits(x: seq<int>, y: seq<int>) returns (s: seq<int>)
    requires |y| <= |x| && AreDigits(x) && AreDigits(y) && |x| > 0
    requires Num(x) > Num(y)
    ensures AreDigits(s) && |s| == |x| && Num(s) == Num(x) - Num(y)
  {
    hide Num;
    var d := new int[|x|];
    var carry := 0;
    ghost var c := [0];
    ghost var pad := y + Zeros(|x| - |y|);
    var i := 0;
    while i < |y|
      invariant 0 <= i <= |y| && -1 <= carry <= 0 && |c| == i + 1 && c[i] == carry && c[0] == 0
      invariant forall j {:trigger d[j]} :: 0 <= j < i ==> 0 <= d[j] < 16 && d[j] + 16 * c[j + 1] == x[j] - y[j] + c[j]
    {
      var temp := x[i] - y[i] + carry;
      carry := if temp < 0 then -1 else 0;
      d[i] := Rem(temp + 16);
      c := c + [carry];
      i := i + 1;
    }
    while i < |x|
      invariant |y| <= i <= |x| && -1 <= carry <= 0 && |c| == i + 1 && c[i] == carry && c[0] == 0
      invariant forall j {:trigger d[j]} :: 0 <= j < i ==>
        0 <= d[j] < 16 && d[j] + 16 * c[j + 1] == x[j] - pad[j] + c[j]
    {
      var temp := x[i] + carry;
      carry := if temp < 0 then -1 else 0;
      d[i] := Rem(temp + 16);
      c := c + [carry];
      i := i + 1;
    }
    s := d[..];
    NoBorrowLeft(x, y, pad, s, c);
  }

  lemma NoBorrowLeft(x: seq<int>, y: seq<int>, pad: seq<int>, d: seq<int>, c: seq<int>)
    requires Pads(pad, y) && Chain(x, pad, -1, d, c) && c[0] == 0
    requires AreDigits(d) && Num(x) > Num(y) && -1 <= c[|d|] <= 0
    ensures Num(d) == Num(x) - Num(y)
  {
    hide Num, Pads;
    ChainTop(x, pad, -1, d, c, 0);
    PadZero(x);
    PadZeros(pad, y);
    var top := d + [c[|d|]];
    assert top[..|d|] == d;
    TopSign(top);
    PadZero(d);
  }

  /** Drops leading zero digits. */
  method Trim(s: seq<int>, sign: int) returns (r: Big)
    requires AreDigits(s) && Num(s) > 0 && (sign == 1 || sign == -1)
    ensures Canonical(r) && r.sign == sign && Num(r.digits) == Num(s)
  {
    var i := |s| - 1;
    while i >= 0 && s[i] == 0
      invariant -1 <= i < |s| && forall j :: i < j < |s| ==> s[j] == 0
    {
      i := i - 1;
    }
    DropZeros(s, i + 1);
    r := Big(sign, s[..i + 1]);
  }

  /** The difference of two magnitudes of one length, of which the shared top digits cancel. */
  method SubAligned(a: seq<int>, b: seq<int>) returns (r: Big)
    requires |a| == |b| > 0 && AreDigits(a) && AreDigits(b)
    ensures Canonical(r) && Value(r) == Num(a) - Num(b)
  {
    var i := |a| - 1;
    while i >= 0 && a[i] == b[i]
      invariant -1 <= i < |a|
      invariant forall j :: i < j < |a| ==> a[j] == b[j]
    {
      i := i - 1;
    }
    if i == -1 {
      assert a == b;
      r := Big(1, [0]);
      ZeroDigits(r);
      return;
    }
    SharedTop(a, b, i + 1);
    var s;
    if a[i] > b[i] {
      TopDifference(a[..i + 1], b[..i + 1], i);
      s := SubDigits(a[..i + 1], b[..i + 1]);
      r := Trim(s, 1);
    } else {
      TopDifference(b[..i + 1], a[..i + 1], i);
      s := SubDigits(b[..i + 1], a[..i + 1]);
      r := Trim(s, -1);
    }
  }

  method Sub(a: Big, b: Big) returns (r: Big)
    requires WellFormed(a) && WellFormed(b)
    ensures WellFormed(r) && Value(r) == Value(a) - Value(b)
    ensures NegativeZero(r) <==> NegativeZero(a) && b == Big(1, [0])
    decreases if a.sign != b.sign || a.sign == -1 then 2 else if |b.digits| > |a.digits| then 1 else 0
  {
    ZeroDigits(a);
    ZeroDigits(b);
    if a.sign == 1 && b.sign == -1 {
      r := Add(a, b.(sign := 1));
    } else if a.sign == -1 && b.sign == 1 {
      r := Add(a, b.(sign := -1));
    } else if a.sign == -1 && b.sign == -1 {
      r := Sub(b.(sign := 1), a.(sign := 1));
    } else if |b.digits| > |a.digits| {
      LongerIsLarger(b.digits, a.digits);
      r := Sub(b, a);
      ZeroDigits(r);
      r := r.(sign := -1);
    } else if |a.digits| == |b.digits| {
      r := SubAligned(a.digits, b.digits);
    } else {
      LongerIsLarger(a.digits, b.digits);
      var s := SubDigits(a.digits, b.digits);
      r := Trim(s, a.sign);
    }
  }

  /** Equal digits above the kept ones cancel in a difference. */
  lemma SharedTop(x: seq<int>, y: seq<int>, k: nat)
    requires |x| == |y| && k <= |x| && forall j :: k <= j < |x| ==> x[j] == y[j]
    ensures Num(x) - Num(y) == Num(x[..k]) - Num(y[..k])
  {
    assert x == x[..k] + x[k..] && y == y[..k] + y[k..];
    assert x[k..] == y[k..];
    NumAppend(x[..k], x[k..]);
    NumAppend(y[..k], y[k..]);
  }

  // ---- Products ------------------------------------------------------------------------

  /** Adds one digit's multiple of a to the window of the product that starts at i. */
  method MultRow(product: array<int>, i: nat, a: seq<int>, digit: int)
    requires i + |a| < product.Length && AreDigits(a) && 0 <= digit < 16
    requires AreDigits(product[..])
    modifies product
    ensures AreDigits(product[..])
    ensures product[..i] == old(product[..i]) && product[i + |a| + 1..] == old(product[i + |a| + 1..])
    ensures Num(product[i..i + |a| + 1]) == old(Num(product[i..i + |a|])) + digit * Num(a)
  {
    ghost var was := product[..];
    ghost var window, d, c := product[i..i + |a|], [], [0];
    var carry := 0;
    var j := 0;
    while j < |a|
      invariant 0 <= j <= |a| && |c| == j + 1 && c[j] == carry && c[0] == 0 && 0 <= carry < 16
      invariant AreDigits(product[..]) && d == product[i..i + j]
      invariant forall k :: 0 <= k < product.Length && (k < i || k >= i + j) ==> product[k] == was[k]
      invariant forall k {:trigger d[k]} :: 0 <= k < j ==> d[k] + 16 * c[k + 1] == window[k] + digit * a[k] + c[k]
    {
      DigitProduct(digit, a[j]);
      assert product[i + j] == product[..][i + j] == window[j];
      var tmp := digit * a[j] + product[i + j] + carry;
      carry := Quot(tmp);
      product[i + j] := Rem(tmp);
      c, d := c + [carry], d + [Rem(tmp)];
      j := j + 1;
    }
    product[i + |a|] := carry;
    ChainTop(window, a, digit, d, c, 0);
    PadZero(window);
    assert product[i..i + |a| + 1] == d + [0 + c[|a|]];
  }

  lemma DigitProduct(x: int, y: int)
    requires 0 <= x < 16 && 0 <= y < 16
    ensures 0 <= x * y <= 225
  {
    MulMonotone(x, 15, y);
    MulNonNegative(x, y);
  }

  /** One more row extends the product by one more digit of the second factor. */
  lemma RowAdded(low: seq<int>, window: seq<int>, next: seq<int>, a: int, b: seq<int>, digit: int)
    requires Num(low + window) == a * Num(b) && |low| == |b|
    requires Num(next) == Num(window) + digit * a
    ensures Num(low + next) == a * Num(b + [digit])
  {
    NumAppend(low, window);
    NumAppend(low, next);
    NumAppend(b, [digit]);
    NumOne(digit);
    RowSum(Pow(16, |b|), Num(low), Num(window), Num(next), a, Num(b), digit, Num(low + next), Num(b + [digit]));
  }

  lemma RowSum(p: int, low: int, window: int, next: int, a: int, b: int, digit: int, sum: int, b': int)
    requires low + p * window == a * b && next == window + digit * a && sum == low + p * next && b' == b + p * digit
    ensures sum == a * b'
  {
    assert p * next == p * window + a * (p * digit);
  }

  method Mult(a: Big, b: Big) returns (r: Big)
    requires WellFormed(a) && WellFormed(b)
    ensures Canonical(r) && Value(r) == Value(a) * Value(b)
    decreases if |b.digits| > |a.digits| then 1 else 0
  {
    hide Num;
    ZeroDigits(a);
    ZeroDigits(b);
    SignedProduct(a, b);
    if IsZero(a) || IsZero(b) {
      r := Big(1, [0]);
      ZeroDigits(r);
      return;
    }
    if |b.digits| > |a.digits| {
      r := Mult(b, a);
      return;
    }
    var s := MultDigits(a.digits, b.digits);
    r := Trim(s, a.sign * b.sign);
  }

  lemma SignedProduct(a: Big, b: Big)
    requires WellFormed(a) && WellFormed(b)
    ensures a.sign * b.sign == if a.sign == b.sign then 1 else -1
    ensures Value(a) * Value(b) == if a.sign == b.sign
        then Num(a.digits) * Num(b.digits) else -(Num(a.digits) * Num(b.digits))
    ensures Value(b) * Value(a) == Value(a) * Value(b)
    ensures Num(a.digits) * Num(b.digits) >= 0
    ensures Num(a.digits) * Num(b.digits) == 0 <==> a.digits == [0] || b.digits == [0]
  {
    hide Num;
    ZeroDigits(a);
    ZeroDigits(b);
    SignRule(Num(a.digits), Num(b.digits));
  }

  lemma SignRule(x: int, y: int)
    requires x >= 0 && y >= 0
    ensures (-x) * y == -(x * y) && x * (-y) == -(x * y) && (-x) * (-y) == x * y
    ensures x * y >= 0 && (x * y == 0 <==> x == 0 || y == 0) && y * x == x * y
  {
    if x > 0 && y > 0 {
      MulStrict(0, x, y);
    }
  }

  /** The product by the lowest i digits of b; nothing is there yet above it. */
  ghost predicate Multiplied(a: seq<int>, b: seq<int>, product: seq<int>, i: nat) {
    && i <= |b| && |product| == |a| + |b| && AreDigits(product)
    && (forall k :: i + |a| <= k < |product| ==> product[k] == 0)
    && Num(product[..i + |a|]) == Num(a) * Num(b[..i])
  }

  lemma RowMultiplied(a: seq<int>, b: seq<int>, was: seq<int>, product: seq<int>, i: nat)
    requires Multiplied(a, b, was, i) && i < |b| && |product| == |was| && AreDigits(product)
    requires product[..i] == was[..i] && product[i + |a| + 1..] == was[i + |a| + 1..]
    requires Num(product[i..i + |a| + 1]) == Num(was[i..i + |a|]) + b[i] * Num(a)
    ensures Multiplied(a, b, product, i + 1)
  {
    hide Num;
    var low, window := was[..i], was[i..i + |a|];
    assert was[..i + |a|] == low + window;
    RowAdded(low, window, product[i..i + |a| + 1], Num(a), b[..i], b[i]);
    assert product[..i + 1 + |a|] == low + product[i..i + |a| + 1];
    assert b[..i + 1] == b[..i] + [b[i]];
    forall k | i + 1 + |a| <= k < |product| ensures product[k] == 0 {
      assert product[i + |a| + 1..][k - (i + |a| + 1)] == product[k];
    }
  }

  method MultDigits(a: seq<int>, b: seq<int>) returns (s: seq<int>)
    requires AreDigits(a) && AreDigits(b) && |a| > 0
    ensures AreDigits(s) && Num(s) == Num(a) * Num(b)
  {
    hide Num, Multiplied;
    var product := new int[|a| + |b|](_ => 0);
    NothingMultiplied(a, b, product[..]);
    var i := 0;
    while i < |b|
      invariant 0 <= i <= |b| && Multiplied(a, b, product[..], i) && AreDigits(product[..])
    {
      ghost var was := product[..];
      assert product[i..i + |a|] == was[i..i + |a|];
      MultRow(product, i, a, b[i]);
      assert product[i..i + |a| + 1] == product[..][i..i + |a| + 1];
      assert product[..i] == product[..][..i] && product[i + |a| + 1..] == product[..][i + |a| + 1..];
      RowMultiplied(a, b, was, product[..], i);
      i := i + 1;
    }
    s := product[..];
    AllMultiplied(a, b, s);
  }

  lemma NothingMultiplied(a: seq<int>, b: seq<int>, product: seq<int>)
    requires |product| == |a| + |b| && forall k :: 0 <= k < |product| ==> product[k] == 0
    ensures Multiplied(a, b, product, 0) && AreDigits(product)
  {
    NumZeros(|a|);
    assert product[..|a|] == Zeros(|a|) && b[..0] == [];
  }

  lemma AllMultiplied(a: seq<int>, b: seq<int>, product: seq<int>)
    requires Multiplied(a, b, product, |b|)
    ensures Num(product) == Num(a) * Num(b)
  {
    assert b[..|b|] == b && product[..|b| + |a|] == product;
  }
}
