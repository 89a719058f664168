/**
 * The SHA-256 block function with its sixteen-word schedule, and that it is the
 * compression of sections 4.1.2 and 6.2.2 of FIPS 180-4, block after block.
 */
module Sha256 {
  import opened FirstPrimes
  import opened NumberTheory

  /** The round constants. */
  function K256(t: nat): nat
    requires t < 64
  {
    match t
    case 0 => 0x428A2F98 case 1 => 0x71374491 case 2 => 0xB5C0FBCF case 3 => 0xE9B5DBA5
    case 4 => 0x3956C25B case 5 => 0x59F111F1 case 6 => 0x923F82A4 case 7 => 0xAB1C5ED5
    case 8 => 0xD807AA98 case 9 => 0x12835B01 case 10 => 0x243185BE case 11 => 0x550C7DC3
    case 12 => 0x72BE5D74 case 13 => 0x80DEB1FE case 14 => 0x9BDC06A7 case 15 => 0xC19BF174
    case 16 => 0xE49B69C1 case 17 => 0xEFBE4786 case 18 => 0x0FC19DC6 case 19 => 0x240CA1CC
    case 20 => 0x2DE92C6F case 21 => 0x4A7484AA case 22 => 0x5CB0A9DC case 23 => 0x76F988DA
    case 24 => 0x983E5152 case 25 => 0xA831C66D case 26 => 0xB00327C8 case 27 => 0xBF597FC7
    case 28 => 0xC6E00BF3 case 29 => 0xD5A79147 case 30 => 0x06CA6351 case 31 => 0x14292967
    case 32 => 0x27B70A85 case 33 => 0x2E1B2138 case 34 => 0x4D2C6DFC case 35 => 0x53380D13
    case 36 => 0x650A7354 case 37 => 0x766A0ABB case 38 => 0x81C2C92E case 39 => 0x92722C85
    case 40 => 0xA2BFE8A1 case 41 => 0xA81A664B case 42 => 0xC24B8B70 case 43 => 0xC76C51A3
    case 44 => 0xD192E819 case 45 => 0xD6990624 case 46 => 0xF40E3585 case 47 => 0x106AA070
    case 48 => 0x19A4C116 case 49 => 0x1E376C08 case 50 => 0x2748774C case 51 => 0x34B0BCB5
    case 52 => 0x391C0CB3 case 53 => 0x4ED8AA4A case 54 => 0x5B9CCA4F case 55 => 0x682E6FF3
    case 56 => 0x748F82EE case 57 => 0x78A5636F case 58 => 0x84C87814 case 59 => 0x8CC70208
    case 60 => 0x90BEFFFA case 61 => 0xA4506CEB case 62 => 0xBEF9A3F7 case _ => 0xC67178F2
  }

  /** The cube root of a prime, rounded down. */
  function CubeRoot(t: nat): nat {
    if t < 4 then 1 else if t < 9 then 2 else if t < 18 then 3 else if t < 30 then 4 else if t < 47 then 5 else 6
  }

  /** A 32-bit word by its value. */
  type Word = x: int | 0 <= x < 0x1_0000_0000

  function K(t: nat): Word
    requires t < 64
  {
    K256(t)
  }

  // ---- The standard ---------------------------------------------------------------------

  /** Addition modulo 2^32. */
  function Add(x: Word, y: Word): Word {
    if x + y < 0x1_0000_0000 then x + y else x + y - 0x1_0000_0000
  }

  function Rotate(x: bv32, n: nat): bv32
    requires 0 < n < 32
  {
    (x >> n) | (x << (32 - n))
  }

  function BigSigma0(w: Word): Word {
    var x := w as bv32;
    (Rotate(x, 2) ^ Rotate(x, 13) ^ Rotate(x, 22)) as int
  }

  function BigSigma1(w: Word): Word {
    var x := w as bv32;
    (Rotate(x, 6) ^ Rotate(x, 11) ^ Rotate(x, 25)) as int
  }

  function SmallSigma0(w: Word): Word {
    var x := w as bv32;
    (Rotate(x, 7) ^ Rotate(x, 18) ^ (x >> 3)) as int
  }

  function SmallSigma1(w: Word): Word {
    var x := w as bv32;
    (Rotate(x, 17) ^ Rotate(x, 19) ^ (x >> 10)) as int
  }

  function Ch(u: Word, v: Word, w: Word): Word {
    var x, y, z := u as bv32, v as bv32, w as bv32;
    ((x & y) ^ (!x & z)) as int
  }

  function Maj(u: Word, v: Word, w: Word): Word {
    var x, y, z := u as bv32, v as bv32, w as bv32;
    ((x & y) ^ (x & z) ^ (y & z)) as int
  }

  /** The eight working variables. */
  datatype Vars = Vars(a: Word, b: Word, c: Word, d: Word, e: Word, f: Word, g: Word, h: Word)

  /** Word t of the message schedule. */
  function W(m: seq<Word>, t: nat): Word
    requires |m| == 16
  {
    if t < 16 then m[t]
    else Add(Add(Add(SmallSigma1(W(m, t - 2)), W(m, t - 7)), SmallSigma0(W(m, t - 15))), W(m, t - 16))
  }

  function Round(v: Vars, k: Word, w: Word): Vars {
    var t1 := Add(Add(Add(Add(v.h, BigSigma1(v.e)), Ch(v.e, v.f, v.g)), k), w);
    var t2 := Add(BigSigma0(v.a), Maj(v.a, v.b, v.c));
    Vars(Add(t1, t2), v.a, v.b, v.c, Add(v.d, t1), v.e, v.f, v.g)
  }

  /** The working variables after the first t rounds. */
  function Rounds(v: Vars, m: seq<Word>, t: nat): Vars
    requires |m| == 16 && t <= 64
  {
    if t == 0 then v else Round(Rounds(v, m, t - 1), K(t - 1), W(m, t - 1))
  }

  function Plus(v: Vars, w: Vars): Vars {
    Vars(Add(v.a, w.a), Add(v.b, w.b), Add(v.c, w.c), Add(v.d, w.d),
         Add(v.e, w.e), Add(v.f, w.f), Add(v.g, w.g), Add(v.h, w.h))
  }

  function Compress(v: Vars, m: seq<Word>): Vars
    requires |m| == 16
  {
    Plus(v, Rounds(v, m, 64))
  }

  /** Four bytes as a word, the first byte highest. */
  function BigEndian(b0: bv8, b1: bv8, b2: bv8, b3: bv8): Word {
    ((b0 as int * 256 + b1 as int) * 256 + b2 as int) * 256 + b3 as int
  }

  /** The words of a block. */
  function Words(block: seq<bv8>): (m: seq<Word>)
    requires |block| == 64
    ensures |m| == 16
  {
    seq(16, i requires 0 <= i < 16 => BigEndian(block[4 * i], block[4 * i + 1], block[4 * i + 2], block[4 * i + 3]))
  }

  /** The state after all whole blocks of the data. */
  function Hash(v: Vars, data: seq<bv8>): Vars
    decreases |data|
  {
    if |data| < 64 then v else Hash(Compress(v, Words(data[..64])), data[64..])
  }

  /** Processing whole blocks and then more data is processing all of it. */
  lemma {:induction false} HashConcat(v: Vars, x: seq<bv8>, y: seq<bv8>)
    requires |x| % 64 == 0
    decreases |x|
    ensures Hash(v, x + y) == Hash(Hash(v, x), y)
  {
    hide Compress, Words;
    if |x| == 0 {
      assert x + y == y;
    } else {
      assert (x + y)[..64] == x[..64] && (x + y)[64..] == x[64..] + y;
      HashConcat(Compress(v, Words(x[..64])), x[64..], y);
    }
  }

  // ---- The constants ---------------------------------------------------------------------

  /**
   * k is the start of the fraction of a cube root: the root of p lies between n + k / 2^32 and the
   * next such number.
   */
  ghost predicate RootFraction(k: int, p: nat, n: nat) {
    var x := n * 0x1_0000_0000 + k;
    0 <= k < 0x1_0000_0000
    && x * x * x <= p * 0x1_0000_0000_0000_0000_0000_0000 < (x + 1) * (x + 1) * (x + 1)
  }

  lemma FirstRoots(t: nat)
    requires t < 16
    ensures RootFraction(K256(t), PrimeAt(t), CubeRoot(t))
  {
    match t
    case 0 => case 1 => case 2 => case 3 => case 4 => case 5 => case 6 => case 7 =>
    case 8 => case 9 => case 10 => case 11 => case 12 => case 13 => case 14 => case 15 =>
  }

  lemma SecondRoots(t: nat)
    requires 16 <= t < 32
    ensures RootFraction(K256(t), PrimeAt(t), CubeRoot(t))
  {
    match t
    case 16 => case 17 => case 18 => case 19 => case 20 => case 21 => case 22 => case 23 =>
    case 24 => case 25 => case 26 => case 27 => case 28 => case 29 => case 30 => case 31 =>
  }

  lemma ThirdRoots(t: nat)
    requires 32 <= t < 40
    ensures RootFraction(K256(t), PrimeAt(t), CubeRoot(t))
  {
    match t
    case 32 => case 33 => case 34 => case 35 => case 36 => case 37 => case 38 => case 39 =>
  }

  lemma FourthRoots(t: nat)
    requires 40 <= t < 48
    ensures RootFraction(K256(t), PrimeAt(t), CubeRoot(t))
  {
    match t
    case 40 => case 41 => case 42 => case 43 => case 44 => case 45 => case 46 => case 47 =>
  }

  lemma FifthRoots(t: nat)
    requires 48 <= t < 56
    ensures RootFraction(K256(t), PrimeAt(t), CubeRoot(t))
  {
    match t
    case 48 => case 49 => case 50 => case 51 => case 52 => case 53 => case 54 => case 55 =>
  }

  lemma LastRoots(t: nat)
    requires 56 <= t < 64
    ensures RootFraction(K256(t), PrimeAt(t), CubeRoot(t))
  {
    match t
    case 56 => case 57 => case 58 => case 59 => case 60 => case 61 => case 62 => case 63 =>
  }

  /** The table holds the first 32 bits of the fractions of the cube roots of the first 64 primes. */
  lemma RoundConstants(t: nat)
    requires t < 64
    ensures RootFraction(K256(t), PrimeAt(t), CubeRoot(t))
    ensures Prime(PrimeAt(t)) && PrimeAt(0) == 2
    ensures t < 63 ==> PrimeAt(t) < PrimeAt(t + 1)
    ensures t < 63 ==> forall n :: PrimeAt(t) < n < PrimeAt(t + 1) ==> !Prime(n)
  {
    PrimesInOrder(t);
    hide RootFraction, K256, PrimeAt, CubeRoot;
    if t < 16 {
      FirstRoots(t);
    } else if t < 32 {
      SecondRoots(t);
    } else if t < 40 {
      ThirdRoots(t);
    } else if t < 48 {
      FourthRoots(t);
    } else if t < 56 {
      FifthRoots(t);
    } else {
      LastRoots(t);
    }
  }

  // ---- The program -------------------------------------------------------------------------

  /** B2U32 of four bytes, combined as the code does. */
  function Load(b0: bv8, b1: bv8, b2: bv8, b3: bv8): Word {
    (((b0 as bv32) << 24) | ((b1 as bv32) << 16) | ((b2 as bv32) << 8) | (b3 as bv32)) as int
  }

  lemma LoadWord(b0: bv8, b1: bv8, b2: bv8, b3: bv8)
    ensures Load(b0, b1, b2, b3) == BigEndian(b0, b1, b2, b3)
  {
  }

  /** The code adds the parts of the first sum in another order. */
  lemma SumOrder(x: Word, h: Word, s: Word, c: Word, k: Word)
    ensures Add(x, Add(Add(Add(h, s), c), k)) == Add(Add(Add(Add(h, s), c), k), x)
  {
  }

  lemma ScheduleOrder(x: Word, s0: Word, s1: Word, y: Word)
    ensures Add(x, Add(Add(s0, s1), y)) == Add(Add(Add(s1, y), s0), x)
  {
  }

  /** The last sixteen words of the schedule, each at its index modulo sixteen. */
  ghost predicate Rolling(x: seq<Word>, m: seq<Word>, i: nat)
    requires |m| == 16
  {
    |x| == 16 && i >= 16 && forall j {:trigger W(m, j)} :: i - 16 <= j < i ==> x[j % 16] == W(m, j)
  }

  lemma RollingSize(x: seq<Word>, m: seq<Word>, i: nat)
    requires |m| == 16 && Rolling(x, m, i)
    ensures |x| == 16
  {
  }

  /** Overwriting the oldest word keeps the buffer rolling. */
  lemma RollOn(x: seq<Word>, m: seq<Word>, i: nat, w: Word)
    requires |m| == 16 && Rolling(x, m, i) && w == W(m, i)
    ensures Rolling(x[i % 16 := w], m, i + 1)
  {
    hide W;
    forall j | i + 1 - 16 <= j < i + 1 ensures x[i % 16 := w][j % 16] == W(m, j) {
      if j < i {
        assert j % 16 != i % 16;
      }
    }
  }

  /** The words the recurrence needs stand where the code looks for them. */
  lemma Window(x: seq<Word>, m: seq<Word>, i: nat)
    requires |m| == 16 && Rolling(x, m, i)
    ensures x[i % 16] == W(m, i - 16) && x[(i + 1) % 16] == W(m, i - 15)
    ensures x[(i + 9) % 16] == W(m, i - 7) && x[(i + 14) % 16] == W(m, i - 2)
  {
    hide W;
    assert (i - 16) % 16 == i % 16 && (i - 15) % 16 == (i + 1) % 16;
    assert (i - 7) % 16 == (i + 9) % 16 && (i - 2) % 16 == (i + 14) % 16;
  }

  method NextWord(x: array<Word>, i: nat, ghost m: seq<Word>) returns (w: Word)
    requires x.Length == 16 && |m| == 16 && 16 <= i && Rolling(x[..], m, i)
    modifies x
    ensures w == W(m, i) && Rolling(x[..], m, i + 1)
  {
    hide Add, SmallSigma0, SmallSigma1, Rolling;
    RollingSize(x[..], m, i);
    Window(x[..], m, i);
    var s0 := SmallSigma0(x[(i + 1) % 16]);
    var s1 := SmallSigma1(x[(i + 14) % 16]);
    ScheduleOrder(x[i % 16], s0, s1, x[(i + 9) % 16]);
    RollOn(x[..], m, i, W(m, i));
    w := Add(x[i % 16], Add(Add(s0, s1), x[(i + 9) % 16]));
    assert w == W(m, i);
    ghost var was := x[..];
    x[i % 16] := w;
    assert x[..] == was[i % 16 := w];
  }

  /** The variables as the code updates them one by one. */
  method Step(v: Vars, t1: Word) returns (r: Vars)
    ensures r == Vars(Add(t1, Add(BigSigma0(v.a), Maj(v.a, v.b, v.c))), v.a, v.b, v.c, Add(v.d, t1), v.e, v.f, v.g)
  {
    hide Add, BigSigma0, Maj;
    var a, b, c, d, e, f, g, h := v.a, v.b, v.c, v.d, v.e, v.f, v.g, v.h;
    var t2 := Add(BigSigma0(a), Maj(a, b, c));
    h := g;
    g := f;
    f := e;
    e := Add(d, t1);
    d := c;
    c := b;
    b := a;
    a := Add(t1, t2);
    r := Vars(a, b, c, d, e, f, g, h);
  }

  /** One block: sixteen rounds that load the words, and forty-eight that compute them. */
  method Block(v: Vars, data: array<bv8>, offset: nat) returns (r: Vars)
    requires offset + 64 <= data.Length
    ensures r == Rounds(v, Words(data[offset..offset + 64]), 64)
  {
    hide Add, Rotate, BigSigma0, BigSigma1, SmallSigma0, SmallSigma1, Ch, Maj, K, W, Words, Load, BigEndian, Rolling;
    var x := new Word[16](_ => 0);
    ghost var m := Words(data[offset..offset + 64]);
    r := v;
    var i := 0;
    while i < 16
      invariant 0 <= i <= 16 && r == Rounds(v, m, i)
      invariant forall j :: 0 <= j < i ==> x[j] == m[j]
    {
      var p := offset + 4 * i;
      LoadWord(data[p], data[p + 1], data[p + 2], data[p + 3]);
      BlockWord(data[offset..offset + 64], i);
      FirstWords(m, i);
      x[i] := Load(data[p], data[p + 1], data[p + 2], data[p + 3]);
      var t1 := Add(Add(Add(Add(r.h, BigSigma1(r.e)), Ch(r.e, r.f, r.g)), K(i)), x[i]);
      r := Step(r, t1);
      i := i + 1;
    }
    StartRolling(x[..], m);
    while i < 64
      invariant 16 <= i <= 64 && r == Rounds(v, m, i) && Rolling(x[..], m, i)
    {
      var t1 := NextWord(x, i, m);
      SumOrder(t1, r.h, BigSigma1(r.e), Ch(r.e, r.f, r.g), K(i));
      t1 := Add(t1, Add(Add(Add(r.h, BigSigma1(r.e)), Ch(r.e, r.f, r.g)), K(i)));
      r := Step(r, t1);
      i := i + 1;
    }
  }

  lemma FirstWords(m: seq<Word>, i: nat)
    requires |m| == 16 && i < 16
    ensures W(m, i) == m[i]
  {
  }

  lemma StartRolling(x: seq<Word>, m: seq<Word>)
    requires |x| == |m| == 16 && forall j :: 0 <= j < 16 ==> x[j] == m[j]
    ensures Rolling(x, m, 16)
  {
  }

  /** Word i of a block, from its four bytes. */
  lemma BlockWord(block: seq<bv8>, i: nat)
    requires |block| == 64 && i < 16
    ensures Words(block)[i] == BigEndian(block[4 * i], block[4 * i + 1], block[4 * i + 2], block[4 * i + 3])
  {
    hide BigEndian;
  }

  /** The eight words of the state as working variables. */
  function Loaded(s: seq<Word>): Vars
    requires |s| == 8
  {
    Vars(s[0], s[1], s[2], s[3], s[4], s[5], s[6], s[7])
  }

  /** Processes the whole blocks among the first length bytes. */
  method Process(state: array<Word>, data: array<bv8>, length: nat)
    requires state.Length == 8 && length <= data.Length
    modifies state
    ensures Loaded(state[..]) == Hash(Loaded(old(state[..])), data[..length])
  {
    hide Add, Rounds, Words, Hash;
    var blocks, offset := length / 64, 0;
    assert data[0..length] == data[..length];
    while blocks > 0
      invariant 0 <= offset <= length && (length - offset) / 64 == blocks
      invariant Hash(Loaded(state[..]), data[offset..length]) == Hash(Loaded(old(state[..])), data[..length])
      decreases blocks
    {
      ghost var v := Loaded(state[..]);
      assert data[..][offset..offset + 64] == data[offset..offset + 64]
          && data[..][offset..length] == data[offset..length];
      assert data[..][offset + 64..length] == data[offset + 64..length];
      var r := Block(Vars(state[0], state[1], state[2], state[3], state[4], state[5], state[6], state[7]), data,
          offset);
      NextBlock(v, data[..], offset, length);
      state[0], state[1], state[2], state[3] :=
          Add(state[0], r.a), Add(state[1], r.b), Add(state[2], r.c), Add(state[3], r.d);
      state[4], state[5], state[6], state[7] :=
          Add(state[4], r.e), Add(state[5], r.f), Add(state[6], r.g), Add(state[7], r.h);
      blocks, offset := blocks - 1, offset + 64;
    }
    NoBlock(Loaded(state[..]), data[offset..length]);
    assert data[0..length] == data[..length];
  }

  lemma NoBlock(v: Vars, data: seq<bv8>)
    requires |data| < 64
    ensures Hash(v, data) == v
  {
  }

  lemma NextBlock(v: Vars, data: seq<bv8>, offset: nat, length: nat)
    requires offset + 64 <= length <= |data|
    ensures Hash(v, data[offset..length]) == Hash(Compress(v, Words(data[offset..offset + 64])),
        data[offset + 64..length])
  {
    hide Compress, Words;
    assert data[offset..length][..64] == data[offset..offset + 64];
    assert data[offset..length][64..] == data[offset + 64..length];
  }
}
