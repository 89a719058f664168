/** Conversions between word arrays and big-endian hexadecimal strings or bytes. */
module BigNumBytes {
  import opened Arithmetic
  import opened Words
  import opened BigNum

  // ---- Hexadecimal input -------------------------------------------------------

  predicate IsHexDigit(c: char) {
    '0' <= c <= '9' || 'a' <= c <= 'f' || 'A' <= c <= 'F'
  }

  function HexDigit(c: char): (d: nat)
    requires IsHexDigit(c)
    ensures d < 16
  {
    if '0' <= c <= '9' then c as int - '0' as int
    else if 'a' <= c <= 'f' then c as int - 'a' as int + 10
    else c as int - 'A' as int + 10
  }

  ghost predicate IsHex(s: seq<char>) {
    forall k :: 0 <= k < |s| ==> IsHexDigit(s[k])
  }

  /** The number a hexadecimal string denotes. */
  function HexValue(s: seq<char>): nat
    requires IsHex(s)
  {
    if s == [] then 0 else 16 * HexValue(s[..|s| - 1]) + HexDigit(s[|s| - 1])
  }

  lemma {:induction false} HexConcat(s: seq<char>, t: seq<char>)
    requires IsHex(s) && IsHex(t)
    ensures IsHex(s + t)
    ensures HexValue(s + t) == HexValue(t) + Pow2(4 * |t|) * HexValue(s)
  {
    if t == [] {
      assert s + t == s;
    } else {
      var k := |t| - 1;
      assert (s + t)[..|s + t| - 1] == s + t[..k];
      HexConcat(s, t[..k]);
      Pow2Nibble(k);
      DigitStep(16, Pow2(4 * k), HexValue(s), HexValue(t[..k]));
    }
  }

  lemma Pow2Nibble(k: nat)
    ensures Pow2(4 * (k + 1)) == 16 * Pow2(4 * k)
  {
    assert Pow2(4) == 16;
    Pow2Add(4, 4 * k);
  }

  lemma DigitStep(base: int, p: int, high: int, low: int)
    ensures base * (low + p * high) == base * low + (base * p) * high
  {
    MulDistribute(low, p * high, base);
    MulAssoc(base, p, high);
  }

  lemma {:induction false} HexBound(s: seq<char>)
    requires IsHex(s)
    ensures HexValue(s) < Pow2(4 * |s|)
  {
    if s == [] {
    } else {
      HexBound(s[..|s| - 1]);
      Pow2Nibble(|s| - 1);
    }
  }

  lemma GroupValue(group: seq<char>, rest: seq<char>, j: nat)
    requires IsHex(group) && IsHex(rest) && |group| == 8 && |rest| == 8 * j
    ensures HexValue(group) < BASE
    ensures IsHex(group + rest) && HexValue(group + rest) == HexValue(rest) + Radix(j) * HexValue(group)
  {
    Pow2Of32();
    HexBound(group);
    HexConcat(group, rest);
    RadixIsPow2(j);
    assert 4 * |rest| == 32 * j;
  }

  /** Storing eight digits in the next word puts them in front of the digits read so far. */
  method StoreGroup(n: array<Word>, j: nat, group: seq<char>, ghost rest: seq<char>)
    requires j < n.Length && IsHex(group) && IsHex(rest) && |group| == 8 && |rest| == 8 * j
    requires Val(n[..j]) == HexValue(rest)
    modifies n
    ensures IsHex(group + rest) && Val(n[..j + 1]) == HexValue(group + rest)
    ensures forall k :: j < k < n.Length ==> n[k] == old(n[k])
  {
    GroupValue(group, rest, j);
    ghost var before := n[..j];
    n[j] := HexValue(group);
    assert n[..][..j] == before && n[..][..j + 1] == n[..j + 1];
    ValNextWord(n[..], j);
  }

  lemma NoDigits(s: seq<Word>, t: seq<char>)
    requires s == [] && t == []
    ensures Val(s) == 0 && HexValue(t) == 0
  {
  }

  /**
   * Reads eight digits a word from the end of the string; up to seven leading
   * digits that do not fill a word are left out.
   */
  method FromString(n: array<Word>, str: seq<char>)
    requires Width(n.Length) && IsHex(str) && |str| % 2 == 0 && |str| > 0
    requires |str| / 8 <= n.Length
    modifies n
    ensures Value(n) == HexValue(str[|str| % 8..])
  {
    hide Val, HexValue, Radix;
    Init(n);
    var i := |str| - 8;
    var j := 0;
    ghost var cut, groups := |str| % 8, |str| / 8;
    NoDigits(n[..0], str[|str|..]);
    while i >= 0
      invariant 0 <= j <= groups && i + 8 == cut + 8 * (groups - j)
      invariant Val(n[..j]) == HexValue(str[i + 8..])
      invariant forall k :: j <= k < n.Length ==> n[k] == 0
    {
      assert str[i..] == str[i..i + 8] + str[i + 8..];
      StoreGroup(n, j, str[i..i + 8], str[i + 8..]);
      i := i - 8;
      j := j + 1;
    }
    assert i + 8 == cut;
    ValSplit(n[..], j);
    assert n[..][..j] == n[..j] && n[..][j..] == n[j..];
    ValZeros(n[j..]);
  }

  /** The leading digits left out matter unless they are all zeros. */
  lemma FromStringExact(str: seq<char>)
    requires IsHex(str)
    ensures HexValue(str[|str| % 8..]) == HexValue(str) <==> HexValue(str[..|str| % 8]) == 0
  {
    var cut := |str| % 8;
    assert str == str[..cut] + str[cut..];
    HexConcat(str[..cut], str[cut..]);
    LeadMatters(HexValue(str[..cut]), Pow2(4 * |str[cut..]|));
  }

  lemma LeadMatters(lead: nat, p: int)
    requires p > 0
    ensures p * lead == 0 <==> lead == 0
  {
    if lead > 0 {
      MulMonotone(1, lead, p);
    }
  }

  /** The six digits of the public exponent string fill no word and would be read as zero. */
  lemma PublicExponentIsDropped()
    ensures IsHex("010001") && HexValue("010001") != 0
    ensures HexValue("010001"[|"010001"| % 8..]) == 0
  {
    var s := "010001";
    assert s[6..] == [];
    assert HexDigit(s[5]) == 1;
  }

  // ---- Big-endian bytes ----------------------------------------------------------

  /** The number a big-endian byte string denotes. */
  function BigEndian(s: seq<Byte>): nat {
    if s == [] then 0 else 256 * BigEndian(s[..|s| - 1]) + s[|s| - 1]
  }

  lemma Pow2Byte(k: nat)
    ensures Pow2(8 * (k + 1)) == 256 * Pow2(8 * k)
  {
    assert Pow2(8) == 256;
    Pow2Add(8, 8 * k);
  }

  lemma {:induction false} BytesBound(s: seq<Byte>)
    ensures BigEndian(s) < Pow2(8 * |s|)
  {
    if s == [] {
      assert Pow2(0) == 1;
    } else {
      BytesBound(s[..|s| - 1]);
      Pow2Byte(|s| - 1);
    }
  }

  lemma {:induction false} BigEndianLead(b: Byte, s: seq<Byte>)
    ensures BigEndian([b] + s) == b * Pow2(8 * |s|) + BigEndian(s)
  {
    if s == [] {
      assert [b] + s == [b];
      assert BigEndian([b][..0]) == 0;
    } else {
      var k := |s| - 1;
      assert ([b] + s)[..k + 1] == [b] + s[..k];
      BigEndianLead(b, s[..k]);
      Pow2Byte(k);
      MulAssoc(b, 256, Pow2(8 * k));
      MulAssoc(256, b, Pow2(8 * k));
    }
  }

  lemma BytePlace(i: nat)
    ensures Pow2(8 * i) == Radix(i / 4) * Pow2(8 * (i % 4))
  {
    RadixIsPow2(i / 4);
    Pow2Add(32 * (i / 4), 8 * (i % 4));
  }

  lemma ByteFits(b: Byte, off: nat)
    requires off < 4
    ensures 0 <= b * Pow2(8 * off) && b * Pow2(8 * off) + Pow2(8 * off) <= BASE
    ensures off < 3 ==> b * Pow2(8 * off) + Pow2(8 * off) <= Pow2(8 * (off + 1))
  {
    var p := Pow2(8 * off);
    MulNonNegative(b, p);
    MulMonotone(b, 255, p);
    Pow2Byte(off);
    Pow2Of32();
    Pow2Monotone(8 * (off + 1), 32);
  }

  /** Byte i and everything above it are still clear. */
  ghost predicate ClearFrom(n: seq<Word>, i: nat) {
    (forall k :: i / 4 < k < |n| ==> n[k] == 0)
    && (i / 4 < |n| ==> n[i / 4] < Pow2(8 * (i % 4)))
  }

  /** Or-ing a byte into its clear place adds it at its weight. */
  method OrByte(n: array<Word>, i: nat, b: Byte)
    requires i < 4 * n.Length && ClearFrom(n[..], i)
    modifies n
    ensures ClearFrom(n[..], i + 1)
    ensures Value(n) == old(Value(n)) + b * Pow2(8 * i)
  {
    var w := i / 4;
    var off := i % 4;
    ByteFits(b, off);
    ghost var before := n[..];
    OrDisjoint(8 * off, b, n[w]);
    n[w] := BitOr(n[w], b * Pow2(8 * off));
    RaiseWord(before, n[..], w, b * Pow2(8 * off));
    BytePlace(i);
    ByteWeight(b, Radix(w), Pow2(8 * off));
  }

  lemma ByteWeight(b: int, r: int, p: int)
    ensures b * (r * p) == r * (b * p)
  {
    MulAssoc(b, r, p);
    MulAssoc(r, b, p);
  }

  lemma BytesFrom(s: seq<Byte>, k: nat)
    requires k < |s|
    ensures BigEndian(s[k..]) == s[k] * Pow2(8 * (|s| - 1 - k)) + BigEndian(s[k + 1..])
  {
    BigEndianLead(s[k], s[k + 1..]);
    assert s[k..] == [s[k]] + s[k + 1..];
  }

  /** n = the big-endian input, or-ing each byte into its word. */
  method BytesToBn(n: array<Word>, input: array<Byte>)
    requires Width(n.Length) && input.Length <= 4 * n.Length
    modifies n
    ensures Value(n) == BigEndian(input[..])
  {
    Init(n);
    var len := input.Length;
    var i := 0;
    while i < len
      invariant 0 <= i <= len
      invariant Value(n) == BigEndian(input[..][len - i..])
      invariant ClearFrom(n[..], i)
    {
      OrByte(n, i, input[len - 1 - i]);
      BytesFrom(input[..], len - 1 - i);
      i := i + 1;
    }
  }

  lemma RaiseWord(s: seq<Word>, t: seq<Word>, w: nat, x: nat)
    requires |s| == |t| && w < |s|
    requires t[w] as int == s[w] as int + x && forall k :: 0 <= k < |s| && k != w ==> t[k] == s[k]
    ensures Val(t) == Val(s) + Radix(w) * x
  {
    hide Val, Radix;
    ValSplit(s, w + 1);
    ValSplit(t, w + 1);
    assert s[w + 1..] == t[w + 1..];
    ValNextWord(s, w);
    ValNextWord(t, w);
    assert s[..w] == t[..w];
    RaisedWord(s[w], x, t[w], Radix(w));
  }

  lemma RaisedWord(a: int, x: int, b: int, r: int)
    requires b == a + x
    ensures r * b == r * a + r * x
  {
    MulDistribute(a, x, r);
  }

  /** Byte i of a number is found in word i / 4. */
  lemma ByteOfWord(n: seq<Word>, i: nat)
    requires i < 4 * |n|
    ensures ((n[i / 4] / Pow2(8 * (i % 4))) % 256) * Pow2(8 * i) + Val(n) % Pow2(8 * i) == Val(n) % Pow2(8 * (i + 1))
  {
    FieldOfWord(n, i / 4, 8 * (i % 4), 8);
    assert Pow2(8) == 256;
    NextField(Val(n), 8 * i, 8);
  }

  /** Writes the low bytes of n big-endian. */
  method BnToBytes(n: array<Word>, output: array<Byte>)
    requires Width(n.Length) && output.Length <= 4 * n.Length
    modifies output
    ensures BigEndian(output[..]) == Value(n) % Pow2(8 * output.Length)
  {
    var len := output.Length;
    var i := 0;
    assert output[len..] == [];
    while i < len
      invariant 0 <= i <= len
      invariant BigEndian(output[len - i..]) == Value(n) % Pow2(8 * i)
    {
      var w := i / 4;
      var off := i % 4;
      ByteOfWord(n[..], i);
      ghost var before := output[len - i..];
      output[len - 1 - i] := (n[w] / Pow2(8 * off)) % 256;
      BigEndianLead(output[len - 1 - i], before);
      assert output[len - 1 - i..] == [output[len - 1 - i]] + before;
      i := i + 1;
    }
    assert output[0..] == output[..];
  }
}
