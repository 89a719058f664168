/** The signing key the program ships with, and that its parts belong together. */
module RsaKey {
  import opened Arithmetic
  import opened NumberTheory
  import opened Words
  import opened BigNum
  import opened BigNumBytes
  import opened Montgomery
  import opened RsaSign
  import opened RsaKeyStrings

  /** The modulus. */
  const N: nat := 0xbe18818a7e95c519e0be692f0ca7f4a6da1522e2d40f0a256ee5d073d9230215b4566c6951a70b3b667ab7f893f6bbff3ac88173694d6c31cee8c2f263772720080b44656c690ef50fd579da476e2dc76fd4be713b68854b645828130aae5e57da604c45811fff3f368405d8ef8fbaf3904e934d55a273cf607b3f7b48dcc9ea6886f62091da7a68368d98685152dfe30927c18df8ab072ef2d81d8d44e92e8ef5a385ee45bdab8cd0b6588b53b5e6644eae3dc175ee58081a8099b66f1d043761e3cdb49e4a9402890830395264dcb65127630a53550bb0a3e942c6644267b75cd33bf1cb8d8fbcfb1b88ced120747e3ad90881cc7b2d2c8f0c1e542332148279d09649c03270bcb9632c4d51fd1a7a168208eb1d6d04f94da86db850396281f31813510f333b68c4f3c1fdf9090291ac9f80d4bd440fae5c1e47220ddd2a6847158670a476ec0be66150316a847240fa4bbeb9a894d7f90fa18275dbc7f0e9e8dbb031456ab60f0495cb3db4c80d6cb73671ba617f812479c50212ccca9e67
  /** The public exponent. */
  const E: nat := 0x010001
  /** The private exponent. */
  const D: nat := 0x0e84373ae8ee6da8cb92d43175994b2e300536841fdc2e282c4f271b51aa420f2a40574860fb37f90745b9257b1722701bd5bd479f9e51497f1acdeda34edc11597692cddea37f32e8f74d0b85879268b7cf8538dc67df95f6f461cb0d2117af44768a1c875476dcd040460f5f9698438a9cead4185aaed6ad457c298bfce05122e8fb84028a03eda5622c10a5f5303259914c4f427d67afb177c8cf459890fcf5cbd0ff20704583715a1b6a385af1b1c34311bae3a899d709e9bc2899aa4642055a05f565326f04508c4be52c49496c291f542e81b175bcb0e03bf274a5a265af1923350f419b00bce8389bc67f30a732dc90d09be7c89436a5df7301b668cbf1090a89c7c48cbc3a433a326916f842d7dcbefb834b8d74775909ed7d0a8a9eb1a2636a6d134220695a9ca6e03a363317b6d2df11c08c9ff9326dd47df90efadf8be58e05b0ae1e95c32238871239259e240fb8a6ffd83b49b0a5bf75d15413cfd8ea2166638580ccf32c5740a4b5f23e1b213d3775d919967198222475e2a1
  /** The two prime factors. */
  const P: nat := 0xea5640bbc5535566424d91d3f7421b09fb05702a43e4efa31e6cd1947edb20b33b564182ce682a42336dc4ec11bd3adcb355f372e436df97d888888c242360ebfdd75cc3edd9c3bf51d215c0aabc821f984305783c5677cf2f1ab6ae069075448ed55cbea218ee6378253e80ea3f4af62e4eaeb48ab33f19f7e199d51cc05f9271037972edfeb2922439718a42cc4187c88b7c31d44608a5f641473ea3bbbaea3338d43059f3de1612cd19058d85b470b3c95824cf659eb897f93b110f1bd3d9
  const Q: nat := 0xcfab4117838cdefc5410c543c1b942e97c9753de4b1e05b567e8292bdd25713351aa6b8109f7e4491944ca9a99b968b48c78040cb8d87bc1271422ea9e3d309ebed4965f8b4bcb32b8ed3daeb0639dd1bd63986410a3a8c06e8c034c5c6a06dae4bbdb307ee2c198b69afc67901d0a19b51f00ae0723ce9befe56d476d6f794d55c67e61f9c8bf76c3774b02c1005f3efa1465359b9b10e97da33c44703da11f1ef0455c74acf7dffe3b7be8711ffa2ae678d48b8b0e4b9e8bccbc9e8b1bdc3f
  /** The private exponent modulo each factor less one. */
  const DP: nat := 0x80f75f40f7e45907a24dd687f578683121f968359a901062918809ffd3a0fd6a26a9ddfc0364c87d0e98c6dbb51793a18b012eae7872cab362f421521f416941f7bde2cbe1c70b37ebebd714e5e2412aea3d587147a3bee443644c4d92474682a8a93c159e58623a54110b491fa21dbb46d8fec555e038462e69f6a396e338b5fb8491fe7284cdfa27fd85433667fb58a34240e39b93bf86b6f44e25672f163b765d3c4a2ff74aae93425516fd402c822a30115690ddb87097130f32e041cc61
  const DQ: nat := 0x39d37d0f9820fce294620b1bfff09f7236b048b9487f76a579e68ab85d1f14f36e551f14527b458519552f79773ecaaa23c733917b5344ba9730233ce38d3461afcfb083b05d0d9af525929c771f760db647ea624ac3d7b4a5d3b503696458be511d023ef1c620946e9c9f9612ea132aef654fa225f8d18a5875b1454772d7fb31dc50cae56c01ec87274baadba547e058709f721aff45e94e83cabf5fe5b95cda179ba8d0106e0160609df32eb4f1cb4a5bf10b5e503fbc493f5c726557ffaf
  /** The inverse of the smaller factor modulo the larger. */
  const QINV: nat := 0xae172813b4ef72775c2798b194348355cb7e7f74947d364b83f6e296e9e00559efb482990ad4fb335b9cb6ed7c68d5a19d244bade44292d94f33010f3815a991c0211990a002ef686c35ecd3e0602129bb1e35bf9cd5663b52ce9c97154fcfca8d5403e6c59de8e785ee64b3ab6b7593f0c899ea9f823f22b5cbeb766b8fbe8b232143dd9a28c0f0550b87fedb19cdf52e02009773b9cdc722cace719b3665d93bf21dadac7d5669bbfb14000ef48f66c174bbc24739987c3a6b20eb9da62152

  const SHIPPED := Key(P, Q, DP, DQ, QINV, D, E)

  /** The factors give the modulus, and the Chinese-remainder parameters fit the two exponents. */
  lemma Consistent()
    ensures P * Q == N && 2 < Q < P && P % 2 == 1 && Q % 2 == 1
    ensures D % (P - 1) == DP && D % (Q - 1) == DQ
    ensures QINV < P && (QINV * Q) % P == 1
    ensures (E * D) % (P - 1) == 1 && (E * D) % (Q - 1) == 1
  {
  }

  /** The shipped key is valid exactly when its two factors are prime. */
  lemma ShippedKeyValid()
    ensures ValidKey(SHIPPED) <==> Prime(P) && Prime(Q)
  {
    Consistent();
  }

  // ---- The key as it is loaded --------------------------------------------------------------

  lemma Doubled(i: nat, v: nat)
    requires Pow2(i) == v
    ensures Pow2(2 * i) == v * v
  {
    Pow2Add(i, i);
  }

  /** The powers of two the key is measured by. */
  lemma KeyPower()
    ensures Pow2(512) == 0x100000000000000000000000000000000000000000000000000000000000000000000000000000000000000000000000000000000000000000000000000000000
  {
    hide Pow2;
    Pow2Of32();
    Doubled(32, 0x100000000);
    Doubled(64, 0x10000000000000000);
    Doubled(128, 0x100000000000000000000000000000000);
    Doubled(256, 0x10000000000000000000000000000000000000000000000000000000000000000);
  }

  lemma KeyPowers()
    ensures Pow2(1536) == (Pow2(512) * Pow2(512)) * Pow2(512) && Pow2(1536) == 2 * Pow2(1535)
  {
    hide Pow2;
    var n: nat := 512;
    PowerTripled(n);
    assert Pow2(3 * n) == Pow2(1536) && Pow2(3 * n - 1) == Pow2(1535);
  }

  lemma PowerTripled(n: nat)
    requires n > 0
    ensures Pow2(3 * n) == (Pow2(n) * Pow2(n)) * Pow2(n) && Pow2(3 * n) == 2 * Pow2(3 * n - 1)
  {
    Pow2Add(n, n);
    Pow2Add(2 * n, n);
  }

  /** Both factors have 1536 bits, and the other parts are below them. */
  lemma KeySizes()
    ensures BitLength(P, 1536) && BitLength(Q, 1536)
    ensures P < Pow2(1536) && Q < Pow2(1536) && DP < Pow2(1536) && DQ < Pow2(1536) && QINV < Pow2(1536)
  {
    hide Pow2;
    KeyPower();
    KeyPowers();
  }

  lemma ShippedP(width: nat)
    requires width >= 48
    ensures Denotes(HEX_P, P, width)
  {
    LoadedP();
    hide IsHex, HexValue, HEX_P;
  }

  lemma ShippedQ(width: nat)
    requires width >= 48
    ensures Denotes(HEX_Q, Q, width)
  {
    LoadedQ();
    hide IsHex, HexValue, HEX_Q;
  }

  lemma ShippedDP(width: nat)
    requires width >= 48
    ensures Denotes(HEX_DP, DP, width)
  {
    LoadedDP();
    hide IsHex, HexValue, HEX_DP;
  }

  lemma ShippedDQ(width: nat)
    requires width >= 48
    ensures Denotes(HEX_DQ, DQ, width)
  {
    LoadedDQ();
    hide IsHex, HexValue, HEX_DQ;
  }

  lemma ShippedQINV(width: nat)
    requires width >= 48
    ensures Denotes(HEX_QINV, QINV, width)
  {
    LoadedQINV();
    hide IsHex, HexValue, HEX_QINV;
  }

  /**
   * The program's own call: the parts of the key are loaded from its strings,
   * and the 32 bytes of a digest are signed.
   */
  method SignShipped(digest: array<Byte>, output: array<Byte>, lut: seq<array<Word>>, width: nat)
    requires Prime(P) && Prime(Q) && Width(width) && width >= 97
    requires |lut| > 1536 && Rows(lut, width) && Distinct(lut)
    requires digest != output && digest.Length == 32 && output.Length == 384
    modifies output, lut
    ensures BigEndian(output[..]) == Pow(BigEndian(digest[..]), D) % N
    ensures Pow(BigEndian(output[..]), E) % N == BigEndian(digest[..])
  {
    hide Pow2, Pow, BitLength, Denotes, ValidKey, Prime, BigEndian;
    Consistent();
    ShippedKeyValid();
    KeySizes();
    ShippedP(width);
    ShippedQ(width);
    ShippedDP(width);
    ShippedDQ(width);
    ShippedQINV(width);
    DigestFits(digest[..]);
    LoadAndSign(digest, output, lut, width, HEX_P, HEX_Q, HEX_DP, HEX_DQ, HEX_QINV, SHIPPED, 1536, 1536);
  }

  lemma DigestFits(digest: seq<Byte>)
    requires |digest| == 32
    ensures BigEndian(digest) < Pow2(1536)
  {
    hide Pow2;
    BytesBound(digest);
    Pow2Monotone(256, 1536);
  }
}
