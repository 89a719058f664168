/** Little-endian digit sequences in base 16, and what carries along them add up to. */
module Digits {
  import opened Arithmetic

  /** The number of digit positions is unbounded, and a top position may hold any integer. */
  function Num(s: seq<int>): int {
    if s == [] then 0 else s[0] + 16 * Num(s[1..])
  }

  ghost predicate AreDigits(s: seq<int>) {
    forall i :: 0 <= i < |s| ==> 0 <= s[i] < 16
  }

  function Zeros(n: nat): (s: seq<int>)
    ensures |s| == n && forall i :: 0 <= i < n ==> s[i] == 0
  {
    seq(n, i => 0)
  }

  lemma {:induction false} NumAppend(s: seq<int>, t: seq<int>)
    ensures Num(s + t) == Num(s) + Pow(16, |s|) * Num(t)
  {
    if s == [] {
      assert s + t == t;
    } else {
      NumAppend(s[1..], t);
      assert (s + t)[1..] == s[1..] + t;
      MulAssoc(16, Pow(16, |s| - 1), Num(t));
    }
  }

  lemma NumCons(s: seq<int>)
    requires |s| > 0
    ensures Num(s) == s[0] + 16 * Num(s[1..])
  {
  }

  /** A number in its upper and lower digits. */
  lemma NumSplit(s: seq<int>, m: nat)
    requires m <= |s|
    ensures Num(s) == Num(s[m..]) * Pow(16, m) + Num(s[..m])
  {
    hide Num, Pow;
    NumAppend(s[..m], s[m..]);
    assert s == s[..m] + s[m..];
    Commute(Pow(16, m), Num(s[m..]));
  }

  lemma Commute(x: int, y: int)
    ensures x * y == y * x
  {
  }

  lemma NumOne(d: int)
    ensures Num([d]) == d
  {
  }

  lemma {:induction false} NumZeros(n: nat)
    ensures Num(Zeros(n)) == 0
  {
    if n == 0 {
    } else {
      NumZeros(n - 1);
      assert Zeros(n)[1..] == Zeros(n - 1);
    }
  }

  /** Zeros above the kept digits do not count. */
  lemma {:induction false} DropZeros(s: seq<int>, k: nat)
    requires k <= |s| && forall j :: k <= j < |s| ==> s[j] == 0
    ensures Num(s) == Num(s[..k])
  {
    if k > 0 {
      DropZeros(s[1..], k - 1);
      assert s[1..][..k - 1] == s[..k][1..];
    } else {
      NumZeros(|s|);
      assert s == Zeros(|s|);
    }
  }

  /** A number written with leading zeros up to a length. */
  ghost predicate Pads(y: seq<int>, s: seq<int>) {
    |s| <= |y| && y[..|s|] == s && forall j :: |s| <= j < |y| ==> y[j] == 0
  }

  lemma PadZeros(y: seq<int>, s: seq<int>)
    requires Pads(y, s)
    ensures Num(y) == Num(s)
  {
    DropZeros(y, |s|);
  }

  lemma PadZero(s: seq<int>)
    ensures Num(s + [0]) == Num(s)
  {
    DropZeros(s + [0], |s|);
    assert (s + [0])[..|s|] == s;
  }

  lemma {:induction false} NumNonNegative(s: seq<int>)
    requires AreDigits(s)
    ensures Num(s) >= 0
  {
    if s == [] {
    } else {
      NumNonNegative(s[1..]);
    }
  }

  lemma {:induction false} NumBound(s: seq<int>)
    requires AreDigits(s)
    ensures 0 <= Num(s) < Pow(16, |s|)
  {
    if s == [] {
    } else {
      NumBound(s[1..]);
    }
  }

  /** Digits below a top position do not change its sign. */
  lemma {:induction false} TopSign(s: seq<int>)
    requires |s| > 0 && AreDigits(s[..|s| - 1])
    ensures s[|s| - 1] < 0 <==> Num(s) < 0
  {
    if |s| > 1 {
      assert s[1..][..|s| - 2] == s[..|s| - 1][1..];
      assert forall i :: 0 <= i < |s| - 2 ==> s[1..][i] == s[..|s| - 1][i + 1];
      assert 0 <= s[0] < 16 by { assert s[..|s| - 1][0] == s[0]; }
      TopSign(s[1..]);
    }
  }

  /** A number with more digits, the top one positive, is larger. */
  lemma {:induction false} LongerIsLarger(s: seq<int>, t: seq<int>)
    requires |s| > |t| && AreDigits(s[..|s| - 1]) && AreDigits(t) && s[|s| - 1] > 0
    ensures Num(s) > Num(t)
  {
    if t == [] {
      TopSign(s);
      NumPositive(s);
    } else {
      assert s[1..][..|s| - 2] == s[..|s| - 1][1..];
      assert forall i :: 0 <= i < |s| - 2 ==> s[1..][i] == s[..|s| - 1][i + 1];
      assert 0 <= s[0] < 16 by { assert s[..|s| - 1][0] == s[0]; }
      LongerIsLarger(s[1..], t[1..]);
    }
  }

  lemma {:induction false} NumPositive(s: seq<int>)
    requires |s| > 0 && AreDigits(s[..|s| - 1]) && s[|s| - 1] > 0
    ensures Num(s) > 0
  {
    if |s| > 1 {
      assert s[1..][..|s| - 2] == s[..|s| - 1][1..];
      assert forall i :: 0 <= i < |s| - 2 ==> s[1..][i] == s[..|s| - 1][i + 1];
      assert 0 <= s[0] < 16 by { assert s[..|s| - 1][0] == s[0]; }
      NumPositive(s[1..]);
    }
  }

  /** The topmost digit in which two numbers of one length differ decides between them. */
  lemma {:induction false} TopDifference(s: seq<int>, t: seq<int>, i: nat)
    requires |s| == |t| && i < |s| && AreDigits(s) && AreDigits(t)
    requires s[i] > t[i] && forall j :: i < j < |s| ==> s[j] == t[j]
    ensures Num(s) > Num(t)
  {
    if i == 0 {
      assert s[1..] == t[1..];
    } else {
      TopDifference(s[1..], t[1..], i - 1);
    }
  }

  /** Digits are determined by the number they stand for. */
  lemma {:induction false} NumUnique(s: seq<int>, t: seq<int>)
    requires |s| == |t| && AreDigits(s) && AreDigits(t) && Num(s) == Num(t)
    ensures s == t
  {
    if s == [] {
    } else {
      assert s[0] == t[0];
      NumUnique(s[1..], t[1..]);
    }
  }

  // ---- Carries ---------------------------------------------------------------------

  /** Position by position, d holds x + q * y, with the rest carried on. */
  ghost predicate Chain(x: seq<int>, y: seq<int>, q: int, d: seq<int>, c: seq<int>) {
    && |x| == |y| == |d| && |c| == |d| + 1
    && forall j {:trigger d[j]} :: 0 <= j < |d| ==> d[j] + 16 * c[j + 1] == x[j] + q * y[j] + c[j]
  }

  /** Adding the last carry to the top position makes the sum exact. */
  lemma {:induction false} ChainTop(x: seq<int>, y: seq<int>, q: int, d: seq<int>, c: seq<int>, top: int)
    requires Chain(x, y, q, d, c)
    ensures Num(d + [top + c[|d|]]) == Num(x + [top]) + q * Num(y) + c[0]
  {
    if |d| == 0 {
      assert d + [top + c[0]] == [top + c[0]] && x + [top] == [top];
    } else {
      ChainTop(x[1..], y[1..], q, d[1..], c[1..], top);
      assert (d + [top + c[|d|]])[1..] == d[1..] + [top + c[|d|]];
      assert (x + [top])[1..] == x[1..] + [top];
      MulDistribute(y[0], 16 * Num(y[1..]), q);
    }
  }

  // ---- Division by the base as C divides --------------------------------------------

  /** Division by 16 truncates towards zero. */
  function Quot(a: int): int { if a >= 0 then a / 16 else -((-a) / 16) }

  /** The remainder has the sign of the dividend. */
  function Rem(a: int): int { a - 16 * Quot(a) }

  /** What the code makes of the two for a dividend that may be negative: a digit, and a carry rounded down. */
  lemma RoundedDown(a: int)
    requires -256 < a < 16
    ensures Rem(a) + 16 * Quot(a) == a
    ensures var borrow := if a < 0 && Rem(a) != 0 then 1 else 0;
      0 <= Rem(a) + 16 * borrow < 16 && -16 <= Quot(a) - borrow <= 0
  {
  }
}
