/** The block multiplication of GHASH on byte arrays, in place, and that it is the product of the field. */
module Ghash {
  import opened GaloisField

  const GHASH_POLY: bv8 := 0xe1

  /** Bit k of a byte, the highest first. */
  predicate Bit(b: bv8, k: nat)
    requires k < 8
  {
    (b >> (7 - k)) & 1 == 1
  }

  /** The bits of sixteen bytes. */
  function Bits(s: seq<bv8>): Block
    requires |s| == 16
  {
    seq(128, i requires 0 <= i < 128 => Bit(s[i / 8], i % 8))
  }

  lemma BitXor(a: bv8, b: bv8, k: nat)
    requires k < 8
    ensures Bit(a ^ b, k) == (Bit(a, k) != Bit(b, k))
  {
    XorLast(a >> (7 - k), b >> (7 - k));
    assert (a ^ b) >> (7 - k) == (a >> (7 - k)) ^ (b >> (7 - k)) by {
      if k == 0 {} else if k == 1 {} else if k == 2 {} else if k == 3 {}
      else if k == 4 {} else if k == 5 {} else if k == 6 {} else {}
    }
  }

  lemma XorLast(a: bv8, b: bv8)
    ensures ((a ^ b) & 1 == 1) == ((a & 1 == 1) != (b & 1 == 1))
  {
  }

  /** Shifting a byte down with the last bit of its neighbour coming in. */
  lemma BitShift(a: bv8, above: bv8, k: nat)
    requires k < 8
    ensures Bit((a >> 1) | ((above & 1) << 7), k) == if k == 0 then Bit(above, 7) else Bit(a, k - 1)
  {
    if k == 0 {} else if k == 1 {} else if k == 2 {} else if k == 3 {}
    else if k == 4 {} else if k == 5 {} else if k == 6 {} else {}
  }

  lemma BitFirst(a: bv8, k: nat)
    requires k < 8
    ensures Bit(a >> 1, k) == (k > 0 && Bit(a, k - 1))
  {
    BitShift(a, 0, k);
    assert (a >> 1) | ((0 & 1) << 7) == a >> 1;
    assert !Bit(0, 7);
  }

  lemma BitPoly(k: nat)
    requires k < 8
    ensures Bit(GHASH_POLY, k) == Reduction(k)
  {
    if k == 0 {} else if k == 1 {} else if k == 2 {} else if k == 3 {}
    else if k == 4 {} else if k == 5 {} else if k == 6 {} else {}
  }

  /** The bytes of a block after one multiplication by x, as the loops compute them. */
  ghost predicate Shifted(v: seq<bv8>, w: seq<bv8>) {
    && |v| == |w| == 16
    && w[0] == (if v[15] & 1 == 1 then (v[0] >> 1) ^ GHASH_POLY else v[0] >> 1)
    && forall k :: 1 <= k < 16 ==> w[k] == (v[k] >> 1) | ((v[k - 1] & 1) << 7)
  }

  lemma LastBit(b: bv8)
    ensures Bit(b, 7) == (b & 1 == 1)
  {
  }

  lemma ShiftedTimes(v: seq<bv8>, w: seq<bv8>)
    requires Shifted(v, w) && |v| == 16 && |w| == 16
    ensures Bits(w) == Times(Bits(v))
  {
    hide Bit, Bits, Times, Shifted;
    forall i | 0 <= i < 128 ensures Bits(w)[i] == Times(Bits(v))[i] {
      ShiftedBit(v, w, i);
    }
  }

  lemma ShiftedBit(v: seq<bv8>, w: seq<bv8>, i: nat)
    requires Shifted(v, w) && i < 128 && |v| == 16 && |w| == 16
    ensures Bits(w)[i] == Times(Bits(v))[i]
  {
    hide Bit;
    LastBit(v[15]);
    Neighbour(i);
    if i < 8 {
      FirstByte(v, w, i);
    } else {
      BitShift(v[i / 8], v[i / 8 - 1], i % 8);
    }
  }

  /** In the first byte, the polynomial comes in where the last bit fell out. */
  lemma FirstByte(v: seq<bv8>, w: seq<bv8>, i: nat)
    requires Shifted(v, w) && i < 8
    ensures Bit(w[0], i) == ((i > 0 && Bit(v[0], i - 1)) != (v[15] & 1 == 1 && Reduction(i)))
  {
    hide Bit;
    BitFirst(v[0], i);
    BitXor(v[0] >> 1, GHASH_POLY, i);
    BitPoly(i);
  }

  lemma Neighbour(i: nat)
    requires i < 128
    ensures i < 8 ==> i / 8 == 0 && i % 8 == i
    ensures i >= 1 ==> if i % 8 == 0 then (i - 1) / 8 == i / 8 - 1 && (i - 1) % 8 == 7
                       else (i - 1) / 8 == i / 8 && (i - 1) % 8 == i % 8 - 1
  {
  }

  lemma XorBits(a: seq<bv8>, b: seq<bv8>, c: seq<bv8>)
    requires |a| == |b| == |c| == 16 && forall k :: 0 <= k < 16 ==> c[k] == a[k] ^ b[k]
    ensures Bits(c) == Xor(Bits(a), Bits(b))
  {
    hide Bit;
    forall i | 0 <= i < 128 ensures Bits(c)[i] == Xor(Bits(a), Bits(b))[i] {
      BitXor(a[i / 8], b[i / 8], i % 8);
    }
  }

  /** The bit the code tests. */
  lemma OneBit(x: seq<bv8>, i: nat, bit: nat)
    requires |x| == 16 && i < 16 && bit < 8
    ensures Bits(x)[8 * i + 7 - bit] == ((x[i] >> bit) & 1 == 1)
  {
    var n := 8 * i + (7 - bit);
    assert n / 8 == i && n % 8 == 7 - bit;
  }

  /** zt ^= v */
  method XorInto(zt: array<bv8>, v: array<bv8>)
    requires zt.Length == 16 && v.Length == 16 && zt != v
    modifies zt
    ensures Bits(zt[..]) == Xor(old(Bits(zt[..])), Bits(v[..]))
  {
    ghost var was := zt[..];
    var j := 0;
    while j < 16
      invariant 0 <= j <= 16
      invariant forall k :: 0 <= k < 16 ==> zt[k] == if k < j then was[k] ^ v[k] else was[k]
    {
      zt[j] := zt[j] ^ v[j];
      j := j + 1;
    }
    XorBits(was, v[..], zt[..]);
  }

  /** v := v times x, shifting byte by byte from the last one. */
  method ShiftReduce(v: array<bv8>)
    requires v.Length == 16
    modifies v
    ensures Bits(v[..]) == Times(old(Bits(v[..])))
  {
    ghost var was := v[..];
    var lsb := v[15] & 1;
    var k := 15;
    while k > 0
      invariant 0 <= k <= 15
      invariant forall j :: 0 <= j <= k ==> v[j] == was[j]
      invariant forall j :: k < j < 16 ==> v[j] == (was[j] >> 1) | ((was[j - 1] & 1) << 7)
    {
      v[k] := (v[k] >> 1) | ((v[k - 1] & 1) << 7);
      k := k - 1;
    }
    v[0] := v[0] >> 1;
    if lsb == 1 {
      v[0] := v[0] ^ GHASH_POLY;
    }
    ShiftedTimes(was, v[..]);
  }

  /** Z := the product of Xi and H. */
  method GhashMulBlock(xi: array<bv8>, h: array<bv8>, z: array<bv8>)
    requires xi.Length == 16 && h.Length == 16 && z.Length == 16
    modifies z
    ensures Bits(z[..]) == Mul(old(Bits(xi[..])), old(Bits(h[..])))
  {
    hide Bits, Xor, Times, Bit;
    var v, zt := new bv8[16](_ => 0), new bv8[16](_ => 0);
    Copy(h, v);
    ghost var bytes := xi[..];
    ghost var x, y := Bits(bytes), Bits(h[..]);
    ghost var n := 0;
    ZeroBits(zt[..]);
    var i := 0;
    while i < 16
      invariant 0 <= i <= 16 && n == 8 * i
      invariant Bits(v[..]) == TimesPower(y, n) && Bits(zt[..]) == Sum(n, x, y)
      modifies v, zt
    {
      var bit := 7;
      while bit >= 0
        invariant -1 <= bit <= 7 && n == 8 * i + 7 - bit && n <= 128
        invariant Bits(v[..]) == TimesPower(y, n) && Bits(zt[..]) == Sum(n, x, y)
        modifies v, zt
      {
        OneBit(bytes, i, bit);
        assert xi[i] == bytes[i];
        if (xi[i] >> bit) & 1 == 1 {
          XorInto(zt, v);
        }
        ShiftReduce(v);
        n := n + 1;
        bit := bit - 1;
      }
      i := i + 1;
    }
    Copy(zt, z);
  }

  method Copy(from: array<bv8>, to: array<bv8>)
    requires from.Length == 16 && to.Length == 16
    modifies to
    ensures to[..] == old(from[..])
  {
    var j := 0;
    while j < 16
      invariant 0 <= j <= 16 && to[..j] == old(from[..j]) && from[j..] == old(from[j..])
    {
      assert from[j] == from[j..][0] == old(from[j..])[0] == old(from[j]);
      to[j] := from[j];
      j := j + 1;
    }
  }

  lemma ZeroBits(s: seq<bv8>)
    requires |s| == 16 && forall k :: 0 <= k < 16 ==> s[k] == 0
    ensures Bits(s) == Zero()
  {
    forall i | 0 <= i < 128 ensures !Bits(s)[i] {
      ZeroBit(i % 8);
    }
  }

  /** The block 0x80 00 ... 00 is the identity of the product. */
  lemma IdentityBlock(s: seq<bv8>, y: Block)
    requires |s| == 16 && s[0] == 0x80 && forall k :: 1 <= k < 16 ==> s[k] == 0
    ensures Bits(s) == Unit(0) && Mul(Bits(s), y) == y && Mul(y, Bits(s)) == y
  {
    forall i | 0 <= i < 128 ensures Bits(s)[i] == (i == 0) {
      if i >= 8 {
        ZeroBit(i % 8);
      } else {
        HighBit(i);
      }
    }
    assert Bits(s) == Unit(0);
    Identity(y);
  }

  lemma HighBit(k: nat)
    requires k < 8
    ensures Bit(0x80, k) == (k == 0)
  {
    if k == 0 {} else if k == 1 {} else if k == 2 {} else if k == 3 {}
    else if k == 4 {} else if k == 5 {} else if k == 6 {} else {}
  }

  lemma ZeroBit(k: nat)
    requires k < 8
    ensures !Bit(0, k)
  {
    BitXor(0, 0, k);
    assert 0 as bv8 ^ 0 == 0;
  }
}
