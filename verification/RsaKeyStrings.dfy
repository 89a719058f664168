/** The hexadecimal strings of the signing key as the program holds them, line by line, and the numbers they denote. */
module RsaKeyStrings {
  import opened Arithmetic
  import opened Words
  import opened BigNumBytes

  /** The string denotes x. */
  ghost predicate Reads(s: string, x: nat) {
    IsHex(s) && HexValue(s) == x
  }

  lemma OneDigit(s: string, x: nat, c: char)
    requires Reads(s, x) && IsHexDigit(c)
    ensures Reads(s + [c], 16 * x + HexDigit(c))
  {
    assert (s + [c])[..|s|] == s;
  }

  /** Eight digits one by one, so that each literal is read by its characters alone. */
  lemma Eight(s: string, x: nat)
    requires |s| == 8 && IsHex(s)
    requires x == ((((((HexDigit(s[0]) * 16 + HexDigit(s[1])) * 16 + HexDigit(s[2])) * 16 + HexDigit(s[3])) * 16
      + HexDigit(s[4])) * 16 + HexDigit(s[5])) * 16 + HexDigit(s[6])) * 16 + HexDigit(s[7])
    ensures Reads(s, x)
  {
    assert s == [] + [s[0]] + [s[1]] + [s[2]] + [s[3]] + [s[4]] + [s[5]] + [s[6]] + [s[7]];
    assert Reads([], 0);
    hide Reads, HexDigit;
    var x1 := HexDigit(s[0]);
    var x2 := 16 * x1 + HexDigit(s[1]);
    var x3 := 16 * x2 + HexDigit(s[2]);
    var x4 := 16 * x3 + HexDigit(s[3]);
    var x5 := 16 * x4 + HexDigit(s[4]);
    var x6 := 16 * x5 + HexDigit(s[5]);
    var x7 := 16 * x6 + HexDigit(s[6]);
    OneDigit([], 0, s[0]);
    OneDigit([] + [s[0]], x1, s[1]);
    OneDigit([] + [s[0]] + [s[1]], x2, s[2]);
    OneDigit([] + [s[0]] + [s[1]] + [s[2]], x3, s[3]);
    OneDigit([] + [s[0]] + [s[1]] + [s[2]] + [s[3]], x4, s[4]);
    OneDigit([] + [s[0]] + [s[1]] + [s[2]] + [s[3]] + [s[4]], x5, s[5]);
    OneDigit([] + [s[0]] + [s[1]] + [s[2]] + [s[3]] + [s[4]] + [s[5]], x6, s[6]);
    OneDigit([] + [s[0]] + [s[1]] + [s[2]] + [s[3]] + [s[4]] + [s[5]] + [s[6]], x7, s[7]);
  }

  lemma Letters()
    ensures HexDigit('0') == 0 && HexDigit('1') == 1 && HexDigit('2') == 2 && HexDigit('3') == 3 && HexDigit('4') == 4
    ensures HexDigit('5') == 5 && HexDigit('6') == 6 && HexDigit('7') == 7 && HexDigit('8') == 8 && HexDigit('9') == 9
    ensures HexDigit('a') == 10 && HexDigit('b') == 11 && HexDigit('c') == 12 && HexDigit('d') == 13
    ensures HexDigit('e') == 14 && HexDigit('f') == 15
  {
  }

  /** The digits are worth what they are in C, in lower and in upper case. */
  lemma HexLetters()
    ensures Reads("01234567" + "89abcdef", 0x0123456789abcdef) && Reads("89ABCDEF", 0x89abcdef)
  {
    Eight("01234567", 0x01234567);
    Eight("89abcdef", 0x89abcdef);
    Eight("89ABCDEF", 0x89abcdef);
    hide Reads;
    Pow2Of32();
    Followed("01234567", 0x01234567, "89abcdef", 0x89abcdef, BASE);
  }

  /** One string after another. */
  lemma Followed(s: string, x: nat, t: string, y: nat, p: nat)
    requires Reads(s, x) && Reads(t, y) && p == Pow2(4 * |t|)
    ensures Reads(s + t, y + p * x)
  {
    hide HexValue;
    HexConcat(s, t);
  }

  /** A line of eight groups. */
  lemma Line(a: string, b: string, c: string, d: string, e: string, f: string, g: string, h: string,
             u: nat, v: nat, w: nat, x: nat, p: nat, q: nat, r: nat, s: nat)
    requires |a| == |b| == |c| == |d| == |e| == |f| == |g| == |h| == 8
    requires Reads(a, u) && Reads(b, v) && Reads(c, w) && Reads(d, x)
    requires Reads(e, p) && Reads(f, q) && Reads(g, r) && Reads(h, s)
    ensures Reads(a + b + c + d + e + f + g + h,
                  s + BASE * (r + BASE * (q + BASE * (p + BASE * (x + BASE * (w + BASE * (v + BASE * u)))))))
    ensures |a + b + c + d + e + f + g + h| == 64
  {
    hide Reads, Pow2;
    Pow2Of32();
    var n2 := v + BASE * u;
    var n3 := w + BASE * n2;
    var n4 := x + BASE * n3;
    var n5 := p + BASE * n4;
    var n6 := q + BASE * n5;
    var n7 := r + BASE * n6;
    Followed(a, u, b, v, BASE);
    Followed(a + b, n2, c, w, BASE);
    Followed(a + b + c, n3, d, x, BASE);
    Followed(a + b + c + d, n4, e, p, BASE);
    Followed(a + b + c + d + e, n5, f, q, BASE);
    Followed(a + b + c + d + e + f, n6, g, r, BASE);
    Followed(a + b + c + d + e + f + g, n7, h, s, BASE);
  }

  /** The value of a line. */
  const LINE: nat := 0x1_0000000000000000000000000000000000000000000000000000000000000000

  lemma LineIsPower()
    ensures LINE == Pow2(256)
  {
    hide Pow2;
    Pow2Of32();
    Pow2Add(32, 32);
    Pow2Add(64, 64);
    Pow2Add(128, 128);
  }

  /** Six lines make up one part of the key. */
  lemma SixLines(a: string, b: string, c: string, d: string, e: string, f: string,
                 u: nat, v: nat, w: nat, x: nat, y: nat, z: nat)
    requires |a| == |b| == |c| == |d| == |e| == |f| == 64
    requires Reads(a, u) && Reads(b, v) && Reads(c, w) && Reads(d, x) && Reads(e, y) && Reads(f, z)
    ensures Reads(a + b + c + d + e + f, z + LINE * (y + LINE * (x + LINE * (w + LINE * (v + LINE * u)))))
    ensures |a + b + c + d + e + f| == 384
  {
    hide Reads, Pow2;
    LineIsPower();
    var n2 := v + LINE * u;
    var n3 := w + LINE * n2;
    var n4 := x + LINE * n3;
    var n5 := y + LINE * n4;
    Followed(a, u, b, v, LINE);
    Followed(a + b, n2, c, w, LINE);
    Followed(a + b + c, n3, d, x, LINE);
    Followed(a + b + c + d, n4, e, y, LINE);
    Followed(a + b + c + d + e, n5, f, z, LINE);
  }

  // ---- The larger prime factor. ---

  const P0: string := "ea5640bb" + "c5535566" + "424d91d3" + "f7421b09"
    + "fb05702a" + "43e4efa3" + "1e6cd194" + "7edb20b3"
  const P1: string := "3b564182" + "ce682a42" + "336dc4ec" + "11bd3adc"
    + "b355f372" + "e436df97" + "d888888c" + "242360eb"
  const P2: string := "fdd75cc3" + "edd9c3bf" + "51d215c0" + "aabc821f"
    + "98430578" + "3c5677cf" + "2f1ab6ae" + "06907544"
  const P3: string := "8ed55cbe" + "a218ee63" + "78253e80" + "ea3f4af6"
    + "2e4eaeb4" + "8ab33f19" + "f7e199d5" + "1cc05f92"
  const P4: string := "71037972" + "edfeb292" + "2439718a" + "42cc4187"
    + "c88b7c31" + "d44608a5" + "f641473e" + "a3bbbaea"
  const P5: string := "3338d430" + "59f3de16" + "12cd1905" + "8d85b470"
    + "b3c95824" + "cf659eb8" + "97f93b11" + "0f1bd3d9"

  const HEX_P: string := P0 + P1 + P2 + P3 + P4 + P5

  lemma LineP0()
    ensures |P0| == 64
    ensures Reads(P0, 0xea5640bbc5535566424d91d3f7421b09fb05702a43e4efa31e6cd1947edb20b3)
  {
    hide HexDigit;
    Letters();
    Eight("ea5640bb", 0xea5640bb); Eight("c5535566", 0xc5535566);
    Eight("424d91d3", 0x424d91d3); Eight("f7421b09", 0xf7421b09);
    Eight("fb05702a", 0xfb05702a); Eight("43e4efa3", 0x43e4efa3);
    Eight("1e6cd194", 0x1e6cd194); Eight("7edb20b3", 0x7edb20b3);
    hide Reads;
    Line("ea5640bb", "c5535566", "424d91d3", "f7421b09", "fb05702a", "43e4efa3", "1e6cd194", "7edb20b3",
         0xea5640bb, 0xc5535566, 0x424d91d3, 0xf7421b09, 0xfb05702a, 0x43e4efa3, 0x1e6cd194, 0x7edb20b3);
  }

  lemma LineP1()
    ensures |P1| == 64
    ensures Reads(P1, 0x3b564182ce682a42336dc4ec11bd3adcb355f372e436df97d888888c242360eb)
  {
    hide HexDigit;
    Letters();
    Eight("3b564182", 0x3b564182); Eight("ce682a42", 0xce682a42);
    Eight("336dc4ec", 0x336dc4ec); Eight("11bd3adc", 0x11bd3adc);
    Eight("b355f372", 0xb355f372); Eight("e436df97", 0xe436df97);
    Eight("d888888c", 0xd888888c); Eight("242360eb", 0x242360eb);
    hide Reads;
    Line("3b564182", "ce682a42", "336dc4ec", "11bd3adc", "b355f372", "e436df97", "d888888c", "242360eb",
         0x3b564182, 0xce682a42, 0x336dc4ec, 0x11bd3adc, 0xb355f372, 0xe436df97, 0xd888888c, 0x242360eb);
  }

  lemma LineP2()
    ensures |P2| == 64
    ensures Reads(P2, 0xfdd75cc3edd9c3bf51d215c0aabc821f984305783c5677cf2f1ab6ae06907544)
  {
    hide HexDigit;
    Letters();
    Eight("fdd75cc3", 0xfdd75cc3); Eight("edd9c3bf", 0xedd9c3bf);
    Eight("51d215c0", 0x51d215c0); Eight("aabc821f", 0xaabc821f);
    Eight("98430578", 0x98430578); Eight("3c5677cf", 0x3c5677cf);
    Eight("2f1ab6ae", 0x2f1ab6ae); Eight("06907544", 0x06907544);
    hide Reads;
    Line("fdd75cc3", "edd9c3bf", "51d215c0", "aabc821f", "98430578", "3c5677cf", "2f1ab6ae", "06907544",
         0xfdd75cc3, 0xedd9c3bf, 0x51d215c0, 0xaabc821f, 0x98430578, 0x3c5677cf, 0x2f1ab6ae, 0x06907544);
  }

  lemma LineP3()
    ensures |P3| == 64
    ensures Reads(P3, 0x8ed55cbea218ee6378253e80ea3f4af62e4eaeb48ab33f19f7e199d51cc05f92)
  {
    hide HexDigit;
    Letters();
    Eight("8ed55cbe", 0x8ed55cbe); Eight("a218ee63", 0xa218ee63);
    Eight("78253e80", 0x78253e80); Eight("ea3f4af6", 0xea3f4af6);
    Eight("2e4eaeb4", 0x2e4eaeb4); Eight("8ab33f19", 0x8ab33f19);
    Eight("f7e199d5", 0xf7e199d5); Eight("1cc05f92", 0x1cc05f92);
    hide Reads;
    Line("8ed55cbe", "a218ee63", "78253e80", "ea3f4af6", "2e4eaeb4", "8ab33f19", "f7e199d5", "1cc05f92",
         0x8ed55cbe, 0xa218ee63, 0x78253e80, 0xea3f4af6, 0x2e4eaeb4, 0x8ab33f19, 0xf7e199d5, 0x1cc05f92);
  }

  lemma LineP4()
    ensures |P4| == 64
    ensures Reads(P4, 0x71037972edfeb2922439718a42cc4187c88b7c31d44608a5f641473ea3bbbaea)
  {
    hide HexDigit;
    Letters();
    Eight("71037972", 0x71037972); Eight("edfeb292", 0xedfeb292);
    Eight("2439718a", 0x2439718a); Eight("42cc4187", 0x42cc4187);
    Eight("c88b7c31", 0xc88b7c31); Eight("d44608a5", 0xd44608a5);
    Eight("f641473e", 0xf641473e); Eight("a3bbbaea", 0xa3bbbaea);
    hide Reads;
    Line("71037972", "edfeb292", "2439718a", "42cc4187", "c88b7c31", "d44608a5", "f641473e", "a3bbbaea",
         0x71037972, 0xedfeb292, 0x2439718a, 0x42cc4187, 0xc88b7c31, 0xd44608a5, 0xf641473e, 0xa3bbbaea);
  }

  lemma LineP5()
    ensures |P5| == 64
    ensures Reads(P5, 0x3338d43059f3de1612cd19058d85b470b3c95824cf659eb897f93b110f1bd3d9)
  {
    hide HexDigit;
    Letters();
    Eight("3338d430", 0x3338d430); Eight("59f3de16", 0x59f3de16);
    Eight("12cd1905", 0x12cd1905); Eight("8d85b470", 0x8d85b470);
    Eight("b3c95824", 0xb3c95824); Eight("cf659eb8", 0xcf659eb8);
    Eight("97f93b11", 0x97f93b11); Eight("0f1bd3d9", 0x0f1bd3d9);
    hide Reads;
    Line("3338d430", "59f3de16", "12cd1905", "8d85b470", "b3c95824", "cf659eb8", "97f93b11", "0f1bd3d9",
         0x3338d430, 0x59f3de16, 0x12cd1905, 0x8d85b470, 0xb3c95824, 0xcf659eb8, 0x97f93b11, 0x0f1bd3d9);
  }

  lemma LoadedP()
    ensures |HEX_P| == 384
    ensures Reads(HEX_P,
      0x3338d43059f3de1612cd19058d85b470b3c95824cf659eb897f93b110f1bd3d9 + LINE * (
      0x71037972edfeb2922439718a42cc4187c88b7c31d44608a5f641473ea3bbbaea + LINE * (
      0x8ed55cbea218ee6378253e80ea3f4af62e4eaeb48ab33f19f7e199d51cc05f92 + LINE * (
      0xfdd75cc3edd9c3bf51d215c0aabc821f984305783c5677cf2f1ab6ae06907544 + LINE * (
      0x3b564182ce682a42336dc4ec11bd3adcb355f372e436df97d888888c242360eb + LINE *
      0xea5640bbc5535566424d91d3f7421b09fb05702a43e4efa31e6cd1947edb20b3)))))
  {
    hide Reads;
    LineP0();
    LineP1();
    LineP2();
    LineP3();
    LineP4();
    LineP5();
    SixLines(P0, P1, P2, P3, P4, P5,
             0xea5640bbc5535566424d91d3f7421b09fb05702a43e4efa31e6cd1947edb20b3,
             0x3b564182ce682a42336dc4ec11bd3adcb355f372e436df97d888888c242360eb,
             0xfdd75cc3edd9c3bf51d215c0aabc821f984305783c5677cf2f1ab6ae06907544,
             0x8ed55cbea218ee6378253e80ea3f4af62e4eaeb48ab33f19f7e199d51cc05f92,
             0x71037972edfeb2922439718a42cc4187c88b7c31d44608a5f641473ea3bbbaea,
             0x3338d43059f3de1612cd19058d85b470b3c95824cf659eb897f93b110f1bd3d9);
  }

  // ---- The smaller prime factor. ---

  const Q0: string := "cfab4117" + "838cdefc" + "5410c543" + "c1b942e9"
    + "7c9753de" + "4b1e05b5" + "67e8292b" + "dd257133"
  const Q1: string := "51aa6b81" + "09f7e449" + "1944ca9a" + "99b968b4"
    + "8c78040c" + "b8d87bc1" + "271422ea" + "9e3d309e"
  const Q2: string := "bed4965f" + "8b4bcb32" + "b8ed3dae" + "b0639dd1"
    + "bd639864" + "10a3a8c0" + "6e8c034c" + "5c6a06da"
  const Q3: string := "e4bbdb30" + "7ee2c198" + "b69afc67" + "901d0a19"
    + "b51f00ae" + "0723ce9b" + "efe56d47" + "6d6f794d"
  const Q4: string := "55c67e61" + "f9c8bf76" + "c3774b02" + "c1005f3e"
    + "fa146535" + "9b9b10e9" + "7da33c44" + "703da11f"
  const Q5: string := "1ef0455c" + "74acf7df" + "fe3b7be8" + "711ffa2a"
    + "e678d48b" + "8b0e4b9e" + "8bccbc9e" + "8b1bdc3f"

  const HEX_Q: string := Q0 + Q1 + Q2 + Q3 + Q4 + Q5

  lemma LineQ0()
    ensures |Q0| == 64
    ensures Reads(Q0, 0xcfab4117838cdefc5410c543c1b942e97c9753de4b1e05b567e8292bdd257133)
  {
    hide HexDigit;
    Letters();
    Eight("cfab4117", 0xcfab4117); Eight("838cdefc", 0x838cdefc);
    Eight("5410c543", 0x5410c543); Eight("c1b942e9", 0xc1b942e9);
    Eight("7c9753de", 0x7c9753de); Eight("4b1e05b5", 0x4b1e05b5);
    Eight("67e8292b", 0x67e8292b); Eight("dd257133", 0xdd257133);
    hide Reads;
    Line("cfab4117", "838cdefc", "5410c543", "c1b942e9", "7c9753de", "4b1e05b5", "67e8292b", "dd257133",
         0xcfab4117, 0x838cdefc, 0x5410c543, 0xc1b942e9, 0x7c9753de, 0x4b1e05b5, 0x67e8292b, 0xdd257133);
  }

  lemma LineQ1()
    ensures |Q1| == 64
    ensures Reads(Q1, 0x51aa6b8109f7e4491944ca9a99b968b48c78040cb8d87bc1271422ea9e3d309e)
  {
    hide HexDigit;
    Letters();
    Eight("51aa6b81", 0x51aa6b81); Eight("09f7e449", 0x09f7e449);
    Eight("1944ca9a", 0x1944ca9a); Eight("99b968b4", 0x99b968b4);
    Eight("8c78040c", 0x8c78040c); Eight("b8d87bc1", 0xb8d87bc1);
    Eight("271422ea", 0x271422ea); Eight("9e3d309e", 0x9e3d309e);
    hide Reads;
    Line("51aa6b81", "09f7e449", "1944ca9a", "99b968b4", "8c78040c", "b8d87bc1", "271422ea", "9e3d309e",
         0x51aa6b81, 0x09f7e449, 0x1944ca9a, 0x99b968b4, 0x8c78040c, 0xb8d87bc1, 0x271422ea, 0x9e3d309e);
  }

  lemma LineQ2()
    ensures |Q2| == 64
    ensures Reads(Q2, 0xbed4965f8b4bcb32b8ed3daeb0639dd1bd63986410a3a8c06e8c034c5c6a06da)
  {
    hide HexDigit;
    Letters();
    Eight("bed4965f", 0xbed4965f); Eight("8b4bcb32", 0x8b4bcb32);
    Eight("b8ed3dae", 0xb8ed3dae); Eight("b0639dd1", 0xb0639dd1);
    Eight("bd639864", 0xbd639864); Eight("10a3a8c0", 0x10a3a8c0);
    Eight("6e8c034c", 0x6e8c034c); Eight("5c6a06da", 0x5c6a06da);
    hide Reads;
    Line("bed4965f", "8b4bcb32", "b8ed3dae", "b0639dd1", "bd639864", "10a3a8c0", "6e8c034c", "5c6a06da",
         0xbed4965f, 0x8b4bcb32, 0xb8ed3dae, 0xb0639dd1, 0xbd639864, 0x10a3a8c0, 0x6e8c034c, 0x5c6a06da);
  }

  lemma LineQ3()
    ensures |Q3| == 64
    ensures Reads(Q3, 0xe4bbdb307ee2c198b69afc67901d0a19b51f00ae0723ce9befe56d476d6f794d)
  {
    hide HexDigit;
    Letters();
    Eight("e4bbdb30", 0xe4bbdb30); Eight("7ee2c198", 0x7ee2c198);
    Eight("b69afc67", 0xb69afc67); Eight("901d0a19", 0x901d0a19);
    Eight("b51f00ae", 0xb51f00ae); Eight("0723ce9b", 0x0723ce9b);
    Eight("efe56d47", 0xefe56d47); Eight("6d6f794d", 0x6d6f794d);
    hide Reads;
    Line("e4bbdb30", "7ee2c198", "b69afc67", "901d0a19", "b51f00ae", "0723ce9b", "efe56d47", "6d6f794d",
         0xe4bbdb30, 0x7ee2c198, 0xb69afc67, 0x901d0a19, 0xb51f00ae, 0x0723ce9b, 0xefe56d47, 0x6d6f794d);
  }

  lemma LineQ4()
    ensures |Q4| == 64
    ensures Reads(Q4, 0x55c67e61f9c8bf76c3774b02c1005f3efa1465359b9b10e97da33c44703da11f)
  {
    hide HexDigit;
    Letters();
    Eight("55c67e61", 0x55c67e61); Eight("f9c8bf76", 0xf9c8bf76);
    Eight("c3774b02", 0xc3774b02); Eight("c1005f3e", 0xc1005f3e);
    Eight("fa146535", 0xfa146535); Eight("9b9b10e9", 0x9b9b10e9);
    Eight("7da33c44", 0x7da33c44); Eight("703da11f", 0x703da11f);
    hide Reads;
    Line("55c67e61", "f9c8bf76", "c3774b02", "c1005f3e", "fa146535", "9b9b10e9", "7da33c44", "703da11f",
         0x55c67e61, 0xf9c8bf76, 0xc3774b02, 0xc1005f3e, 0xfa146535, 0x9b9b10e9, 0x7da33c44, 0x703da11f);
  }

  lemma LineQ5()
    ensures |Q5| == 64
    ensures Reads(Q5, 0x1ef0455c74acf7dffe3b7be8711ffa2ae678d48b8b0e4b9e8bccbc9e8b1bdc3f)
  {
    hide HexDigit;
    Letters();
    Eight("1ef0455c", 0x1ef0455c); Eight("74acf7df", 0x74acf7df);
    Eight("fe3b7be8", 0xfe3b7be8); Eight("711ffa2a", 0x711ffa2a);
    Eight("e678d48b", 0xe678d48b); Eight("8b0e4b9e", 0x8b0e4b9e);
    Eight("8bccbc9e", 0x8bccbc9e); Eight("8b1bdc3f", 0x8b1bdc3f);
    hide Reads;
    Line("1ef0455c", "74acf7df", "fe3b7be8", "711ffa2a", "e678d48b", "8b0e4b9e", "8bccbc9e", "8b1bdc3f",
         0x1ef0455c, 0x74acf7df, 0xfe3b7be8, 0x711ffa2a, 0xe678d48b, 0x8b0e4b9e, 0x8bccbc9e, 0x8b1bdc3f);
  }

  lemma LoadedQ()
    ensures |HEX_Q| == 384
    ensures Reads(HEX_Q,
      0x1ef0455c74acf7dffe3b7be8711ffa2ae678d48b8b0e4b9e8bccbc9e8b1bdc3f + LINE * (
      0x55c67e61f9c8bf76c3774b02c1005f3efa1465359b9b10e97da33c44703da11f + LINE * (
      0xe4bbdb307ee2c198b69afc67901d0a19b51f00ae0723ce9befe56d476d6f794d + LINE * (
      0xbed4965f8b4bcb32b8ed3daeb0639dd1bd63986410a3a8c06e8c034c5c6a06da + LINE * (
      0x51aa6b8109f7e4491944ca9a99b968b48c78040cb8d87bc1271422ea9e3d309e + LINE *
      0xcfab4117838cdefc5410c543c1b942e97c9753de4b1e05b567e8292bdd257133)))))
  {
    hide Reads;
    LineQ0();
    LineQ1();
    LineQ2();
    LineQ3();
    LineQ4();
    LineQ5();
    SixLines(Q0, Q1, Q2, Q3, Q4, Q5,
             0xcfab4117838cdefc5410c543c1b942e97c9753de4b1e05b567e8292bdd257133,
             0x51aa6b8109f7e4491944ca9a99b968b48c78040cb8d87bc1271422ea9e3d309e,
             0xbed4965f8b4bcb32b8ed3daeb0639dd1bd63986410a3a8c06e8c034c5c6a06da,
             0xe4bbdb307ee2c198b69afc67901d0a19b51f00ae0723ce9befe56d476d6f794d,
             0x55c67e61f9c8bf76c3774b02c1005f3efa1465359b9b10e97da33c44703da11f,
             0x1ef0455c74acf7dffe3b7be8711ffa2ae678d48b8b0e4b9e8bccbc9e8b1bdc3f);
  }

  // ---- The private exponent modulo each factor less one. ---

  const DP0: string := "80f75f40" + "f7e45907" + "a24dd687" + "f5786831"
    + "21f96835" + "9a901062" + "918809ff" + "d3a0fd6a"
  const DP1: string := "26a9ddfc" + "0364c87d" + "0e98c6db" + "b51793a1"
    + "8b012eae" + "7872cab3" + "62f42152" + "1f416941"
  const DP2: string := "f7bde2cb" + "e1c70b37" + "ebebd714" + "e5e2412a"
    + "ea3d5871" + "47a3bee4" + "43644c4d" + "92474682"
  const DP3: string := "a8a93c15" + "9e58623a" + "54110b49" + "1fa21dbb"
    + "46d8fec5" + "55e03846" + "2e69f6a3" + "96e338b5"
  const DP4: string := "fb8491fe" + "7284cdfa" + "27fd8543" + "3667fb58"
    + "a34240e3" + "9b93bf86" + "b6f44e25" + "672f163b"
  const DP5: string := "765d3c4a" + "2ff74aae" + "93425516" + "fd402c82"
    + "2a301156" + "90ddb870" + "97130f32" + "e041cc61"

  const HEX_DP: string := DP0 + DP1 + DP2 + DP3 + DP4 + DP5

  lemma LineDP0()
    ensures |DP0| == 64
    ensures Reads(DP0, 0x80f75f40f7e45907a24dd687f578683121f968359a901062918809ffd3a0fd6a)
  {
    hide HexDigit;
    Letters();
    Eight("80f75f40", 0x80f75f40); Eight("f7e45907", 0xf7e45907);
    Eight("a24dd687", 0xa24dd687); Eight("f5786831", 0xf5786831);
    Eight("21f96835", 0x21f96835); Eight("9a901062", 0x9a901062);
    Eight("918809ff", 0x918809ff); Eight("d3a0fd6a", 0xd3a0fd6a);
    hide Reads;
    Line("80f75f40", "f7e45907", "a24dd687", "f5786831", "21f96835", "9a901062", "918809ff", "d3a0fd6a",
         0x80f75f40, 0xf7e45907, 0xa24dd687, 0xf5786831, 0x21f96835, 0x9a901062, 0x918809ff, 0xd3a0fd6a);
  }

  lemma LineDP1()
    ensures |DP1| == 64
    ensures Reads(DP1, 0x26a9ddfc0364c87d0e98c6dbb51793a18b012eae7872cab362f421521f416941)
  {
    hide HexDigit;
    Letters();
    Eight("26a9ddfc", 0x26a9ddfc); Eight("0364c87d", 0x0364c87d);
    Eight("0e98c6db", 0x0e98c6db); Eight("b51793a1", 0xb51793a1);
    Eight("8b012eae", 0x8b012eae); Eight("7872cab3", 0x7872cab3);
    Eight("62f42152", 0x62f42152); Eight("1f416941", 0x1f416941);
    hide Reads;
    Line("26a9ddfc", "0364c87d", "0e98c6db", "b51793a1", "8b012eae", "7872cab3", "62f42152", "1f416941",
         0x26a9ddfc, 0x0364c87d, 0x0e98c6db, 0xb51793a1, 0x8b012eae, 0x7872cab3, 0x62f42152, 0x1f416941);
  }

  lemma LineDP2()
    ensures |DP2| == 64
    ensures Reads(DP2, 0xf7bde2cbe1c70b37ebebd714e5e2412aea3d587147a3bee443644c4d92474682)
  {
    hide HexDigit;
    Letters();
    Eight("f7bde2cb", 0xf7bde2cb); Eight("e1c70b37", 0xe1c70b37);
    Eight("ebebd714", 0xebebd714); Eight("e5e2412a", 0xe5e2412a);
    Eight("ea3d5871", 0xea3d5871); Eight("47a3bee4", 0x47a3bee4);
    Eight("43644c4d", 0x43644c4d); Eight("92474682", 0x92474682);
    hide Reads;
    Line("f7bde2cb", "e1c70b37", "ebebd714", "e5e2412a", "ea3d5871", "47a3bee4", "43644c4d", "92474682",
         0xf7bde2cb, 0xe1c70b37, 0xebebd714, 0xe5e2412a, 0xea3d5871, 0x47a3bee4, 0x43644c4d, 0x92474682);
  }

  lemma LineDP3()
    ensures |DP3| == 64
    ensures Reads(DP3, 0xa8a93c159e58623a54110b491fa21dbb46d8fec555e038462e69f6a396e338b5)
  {
    hide HexDigit;
    Letters();
    Eight("a8a93c15", 0xa8a93c15); Eight("9e58623a", 0x9e58623a);
    Eight("54110b49", 0x54110b49); Eight("1fa21dbb", 0x1fa21dbb);
    Eight("46d8fec5", 0x46d8fec5); Eight("55e03846", 0x55e03846);
    Eight("2e69f6a3", 0x2e69f6a3); Eight("96e338b5", 0x96e338b5);
    hide Reads;
    Line("a8a93c15", "9e58623a", "54110b49", "1fa21dbb", "46d8fec5", "55e03846", "2e69f6a3", "96e338b5",
         0xa8a93c15, 0x9e58623a, 0x54110b49, 0x1fa21dbb, 0x46d8fec5, 0x55e03846, 0x2e69f6a3, 0x96e338b5);
  }

  lemma LineDP4()
    ensures |DP4| == 64
    ensures Reads(DP4, 0xfb8491fe7284cdfa27fd85433667fb58a34240e39b93bf86b6f44e25672f163b)
  {
    hide HexDigit;
    Letters();
    Eight("fb8491fe", 0xfb8491fe); Eight("7284cdfa", 0x7284cdfa);
    Eight("27fd8543", 0x27fd8543); Eight("3667fb58", 0x3667fb58);
    Eight("a34240e3", 0xa34240e3); Eight("9b93bf86", 0x9b93bf86);
    Eight("b6f44e25", 0xb6f44e25); Eight("672f163b", 0x672f163b);
    hide Reads;
    Line("fb8491fe", "7284cdfa", "27fd8543", "3667fb58", "a34240e3", "9b93bf86", "b6f44e25", "672f163b",
         0xfb8491fe, 0x7284cdfa, 0x27fd8543, 0x3667fb58, 0xa34240e3, 0x9b93bf86, 0xb6f44e25, 0x672f163b);
  }

  lemma LineDP5()
    ensures |DP5| == 64
    ensures Reads(DP5, 0x765d3c4a2ff74aae93425516fd402c822a30115690ddb87097130f32e041cc61)
  {
    hide HexDigit;
    Letters();
    Eight("765d3c4a", 0x765d3c4a); Eight("2ff74aae", 0x2ff74aae);
    Eight("93425516", 0x93425516); Eight("fd402c82", 0xfd402c82);
    Eight("2a301156", 0x2a301156); Eight("90ddb870", 0x90ddb870);
    Eight("97130f32", 0x97130f32); Eight("e041cc61", 0xe041cc61);
    hide Reads;
    Line("765d3c4a", "2ff74aae", "93425516", "fd402c82", "2a301156", "90ddb870", "97130f32", "e041cc61",
         0x765d3c4a, 0x2ff74aae, 0x93425516, 0xfd402c82, 0x2a301156, 0x90ddb870, 0x97130f32, 0xe041cc61);
  }

  lemma LoadedDP()
    ensures |HEX_DP| == 384
    ensures Reads(HEX_DP,
      0x765d3c4a2ff74aae93425516fd402c822a30115690ddb87097130f32e041cc61 + LINE * (
      0xfb8491fe7284cdfa27fd85433667fb58a34240e39b93bf86b6f44e25672f163b + LINE * (
      0xa8a93c159e58623a54110b491fa21dbb46d8fec555e038462e69f6a396e338b5 + LINE * (
      0xf7bde2cbe1c70b37ebebd714e5e2412aea3d587147a3bee443644c4d92474682 + LINE * (
      0x26a9ddfc0364c87d0e98c6dbb51793a18b012eae7872cab362f421521f416941 + LINE *
      0x80f75f40f7e45907a24dd687f578683121f968359a901062918809ffd3a0fd6a)))))
  {
    hide Reads;
    LineDP0();
    LineDP1();
    LineDP2();
    LineDP3();
    LineDP4();
    LineDP5();
    SixLines(DP0, DP1, DP2, DP3, DP4, DP5,
             0x80f75f40f7e45907a24dd687f578683121f968359a901062918809ffd3a0fd6a,
             0x26a9ddfc0364c87d0e98c6dbb51793a18b012eae7872cab362f421521f416941,
             0xf7bde2cbe1c70b37ebebd714e5e2412aea3d587147a3bee443644c4d92474682,
             0xa8a93c159e58623a54110b491fa21dbb46d8fec555e038462e69f6a396e338b5,
             0xfb8491fe7284cdfa27fd85433667fb58a34240e39b93bf86b6f44e25672f163b,
             0x765d3c4a2ff74aae93425516fd402c822a30115690ddb87097130f32e041cc61);
  }

  // ---- The same for the smaller factor. ---

  const DQ0: string := "39d37d0f" + "9820fce2" + "94620b1b" + "fff09f72"
    + "36b048b9" + "487f76a5" + "79e68ab8" + "5d1f14f3"
  const DQ1: string := "6e551f14" + "527b4585" + "19552f79" + "773ecaaa"
    + "23c73391" + "7b5344ba" + "9730233c" + "e38d3461"
  const DQ2: string := "afcfb083" + "b05d0d9a" + "f525929c" + "771f760d"
    + "b647ea62" + "4ac3d7b4" + "a5d3b503" + "696458be"
  const DQ3: string := "511d023e" + "f1c62094" + "6e9c9f96" + "12ea132a"
    + "ef654fa2" + "25f8d18a" + "5875b145" + "4772d7fb"
  const DQ4: string := "31dc50ca" + "e56c01ec" + "87274baa" + "dba547e0"
    + "58709f72" + "1aff45e9" + "4e83cabf" + "5fe5b95c"
  const DQ5: string := "da179ba8" + "d0106e01" + "60609df3" + "2eb4f1cb"
    + "4a5bf10b" + "5e503fbc" + "493f5c72" + "6557ffaf"

  const HEX_DQ: string := DQ0 + DQ1 + DQ2 + DQ3 + DQ4 + DQ5

  lemma LineDQ0()
    ensures |DQ0| == 64
    ensures Reads(DQ0, 0x39d37d0f9820fce294620b1bfff09f7236b048b9487f76a579e68ab85d1f14f3)
  {
    hide HexDigit;
    Letters();
    Eight("39d37d0f", 0x39d37d0f); Eight("9820fce2", 0x9820fce2);
    Eight("94620b1b", 0x94620b1b); Eight("fff09f72", 0xfff09f72);
    Eight("36b048b9", 0x36b048b9); Eight("487f76a5", 0x487f76a5);
    Eight("79e68ab8", 0x79e68ab8); Eight("5d1f14f3", 0x5d1f14f3);
    hide Reads;
    Line("39d37d0f", "9820fce2", "94620b1b", "fff09f72", "36b048b9", "487f76a5", "79e68ab8", "5d1f14f3",
         0x39d37d0f, 0x9820fce2, 0x94620b1b, 0xfff09f72, 0x36b048b9, 0x487f76a5, 0x79e68ab8, 0x5d1f14f3);
  }

  lemma LineDQ1()
    ensures |DQ1| == 64
    ensures Reads(DQ1, 0x6e551f14527b458519552f79773ecaaa23c733917b5344ba9730233ce38d3461)
  {
    hide HexDigit;
    Letters();
    Eight("6e551f14", 0x6e551f14); Eight("527b4585", 0x527b4585);
    Eight("19552f79", 0x19552f79); Eight("773ecaaa", 0x773ecaaa);
    Eight("23c73391", 0x23c73391); Eight("7b5344ba", 0x7b5344ba);
    Eight("9730233c", 0x9730233c); Eight("e38d3461", 0xe38d3461);
    hide Reads;
    Line("6e551f14", "527b4585", "19552f79", "773ecaaa", "23c73391", "7b5344ba", "9730233c", "e38d3461",
         0x6e551f14, 0x527b4585, 0x19552f79, 0x773ecaaa, 0x23c73391, 0x7b5344ba, 0x9730233c, 0xe38d3461);
  }

  lemma LineDQ2()
    ensures |DQ2| == 64
    ensures Reads(DQ2, 0xafcfb083b05d0d9af525929c771f760db647ea624ac3d7b4a5d3b503696458be)
  {
    hide HexDigit;
    Letters();
    Eight("afcfb083", 0xafcfb083); Eight("b05d0d9a", 0xb05d0d9a);
    Eight("f525929c", 0xf525929c); Eight("771f760d", 0x771f760d);
    Eight("b647ea62", 0xb647ea62); Eight("4ac3d7b4", 0x4ac3d7b4);
    Eight("a5d3b503", 0xa5d3b503); Eight("696458be", 0x696458be);
    hide Reads;
    Line("afcfb083", "b05d0d9a", "f525929c", "771f760d", "b647ea62", "4ac3d7b4", "a5d3b503", "696458be",
         0xafcfb083, 0xb05d0d9a, 0xf525929c, 0x771f760d, 0xb647ea62, 0x4ac3d7b4, 0xa5d3b503, 0x696458be);
  }

  lemma LineDQ3()
    ensures |DQ3| == 64
    ensures Reads(DQ3, 0x511d023ef1c620946e9c9f9612ea132aef654fa225f8d18a5875b1454772d7fb)
  {
    hide HexDigit;
    Letters();
    Eight("511d023e", 0x511d023e); Eight("f1c62094", 0xf1c62094);
    Eight("6e9c9f96", 0x6e9c9f96); Eight("12ea132a", 0x12ea132a);
    Eight("ef654fa2", 0xef654fa2); Eight("25f8d18a", 0x25f8d18a);
    Eight("5875b145", 0x5875b145); Eight("4772d7fb", 0x4772d7fb);
    hide Reads;
    Line("511d023e", "f1c62094", "6e9c9f96", "12ea132a", "ef654fa2", "25f8d18a", "5875b145", "4772d7fb",
         0x511d023e, 0xf1c62094, 0x6e9c9f96, 0x12ea132a, 0xef654fa2, 0x25f8d18a, 0x5875b145, 0x4772d7fb);
  }

  lemma LineDQ4()
    ensures |DQ4| == 64
    ensures Reads(DQ4, 0x31dc50cae56c01ec87274baadba547e058709f721aff45e94e83cabf5fe5b95c)
  {
    hide HexDigit;
    Letters();
    Eight("31dc50ca", 0x31dc50ca); Eight("e56c01ec", 0xe56c01ec);
    Eight("87274baa", 0x87274baa); Eight("dba547e0", 0xdba547e0);
    Eight("58709f72", 0x58709f72); Eight("1aff45e9", 0x1aff45e9);
    Eight("4e83cabf", 0x4e83cabf); Eight("5fe5b95c", 0x5fe5b95c);
    hide Reads;
    Line("31dc50ca", "e56c01ec", "87274baa", "dba547e0", "58709f72", "1aff45e9", "4e83cabf", "5fe5b95c",
         0x31dc50ca, 0xe56c01ec, 0x87274baa, 0xdba547e0, 0x58709f72, 0x1aff45e9, 0x4e83cabf, 0x5fe5b95c);
  }

  lemma LineDQ5()
    ensures |DQ5| == 64
    ensures Reads(DQ5, 0xda179ba8d0106e0160609df32eb4f1cb4a5bf10b5e503fbc493f5c726557ffaf)
  {
    hide HexDigit;
    Letters();
    Eight("da179ba8", 0xda179ba8); Eight("d0106e01", 0xd0106e01);
    Eight("60609df3", 0x60609df3); Eight("2eb4f1cb", 0x2eb4f1cb);
    Eight("4a5bf10b", 0x4a5bf10b); Eight("5e503fbc", 0x5e503fbc);
    Eight("493f5c72", 0x493f5c72); Eight("6557ffaf", 0x6557ffaf);
    hide Reads;
    Line("da179ba8", "d0106e01", "60609df3", "2eb4f1cb", "4a5bf10b", "5e503fbc", "493f5c72", "6557ffaf",
         0xda179ba8, 0xd0106e01, 0x60609df3, 0x2eb4f1cb, 0x4a5bf10b, 0x5e503fbc, 0x493f5c72, 0x6557ffaf);
  }

  lemma LoadedDQ()
    ensures |HEX_DQ| == 384
    ensures Reads(HEX_DQ,
      0xda179ba8d0106e0160609df32eb4f1cb4a5bf10b5e503fbc493f5c726557ffaf + LINE * (
      0x31dc50cae56c01ec87274baadba547e058709f721aff45e94e83cabf5fe5b95c + LINE * (
      0x511d023ef1c620946e9c9f9612ea132aef654fa225f8d18a5875b1454772d7fb + LINE * (
      0xafcfb083b05d0d9af525929c771f760db647ea624ac3d7b4a5d3b503696458be + LINE * (
      0x6e551f14527b458519552f79773ecaaa23c733917b5344ba9730233ce38d3461 + LINE *
      0x39d37d0f9820fce294620b1bfff09f7236b048b9487f76a579e68ab85d1f14f3)))))
  {
    hide Reads;
    LineDQ0();
    LineDQ1();
    LineDQ2();
    LineDQ3();
    LineDQ4();
    LineDQ5();
    SixLines(DQ0, DQ1, DQ2, DQ3, DQ4, DQ5,
             0x39d37d0f9820fce294620b1bfff09f7236b048b9487f76a579e68ab85d1f14f3,
             0x6e551f14527b458519552f79773ecaaa23c733917b5344ba9730233ce38d3461,
             0xafcfb083b05d0d9af525929c771f760db647ea624ac3d7b4a5d3b503696458be,
             0x511d023ef1c620946e9c9f9612ea132aef654fa225f8d18a5875b1454772d7fb,
             0x31dc50cae56c01ec87274baadba547e058709f721aff45e94e83cabf5fe5b95c,
             0xda179ba8d0106e0160609df32eb4f1cb4a5bf10b5e503fbc493f5c726557ffaf);
  }

  // ---- The inverse of the smaller factor modulo the larger. ---

  const QINV0: string := "ae172813" + "b4ef7277" + "5c2798b1" + "94348355"
    + "cb7e7f74" + "947d364b" + "83f6e296" + "e9e00559"
  const QINV1: string := "efb48299" + "0ad4fb33" + "5b9cb6ed" + "7c68d5a1"
    + "9d244bad" + "e44292d9" + "4f33010f" + "3815a991"
  const QINV2: string := "c0211990" + "a002ef68" + "6c35ecd3" + "e0602129"
    + "bb1e35bf" + "9cd5663b" + "52ce9c97" + "154fcfca"
  const QINV3: string := "8d5403e6" + "c59de8e7" + "85ee64b3" + "ab6b7593"
    + "f0c899ea" + "9f823f22" + "b5cbeb76" + "6b8fbe8b"
  const QINV4: string := "232143dd" + "9a28c0f0" + "550b87fe" + "db19cdf5"
    + "2e020097" + "73b9cdc7" + "22cace71" + "9b3665d9"
  const QINV5: string := "3bf21dad" + "ac7d5669" + "bbfb1400" + "0ef48f66"
    + "c174bbc2" + "4739987c" + "3a6b20eb" + "9da62152"

  const HEX_QINV: string := QINV0 + QINV1 + QINV2 + QINV3 + QINV4 + QINV5

  lemma LineQINV0()
    ensures |QINV0| == 64
    ensures Reads(QINV0, 0xae172813b4ef72775c2798b194348355cb7e7f74947d364b83f6e296e9e00559)
  {
    hide HexDigit;
    Letters();
    Eight("ae172813", 0xae172813); Eight("b4ef7277", 0xb4ef7277);
    Eight("5c2798b1", 0x5c2798b1); Eight("94348355", 0x94348355);
    Eight("cb7e7f74", 0xcb7e7f74); Eight("947d364b", 0x947d364b);
    Eight("83f6e296", 0x83f6e296); Eight("e9e00559", 0xe9e00559);
    hide Reads;
    Line("ae172813", "b4ef7277", "5c2798b1", "94348355", "cb7e7f74", "947d364b", "83f6e296", "e9e00559",
         0xae172813, 0xb4ef7277, 0x5c2798b1, 0x94348355, 0xcb7e7f74, 0x947d364b, 0x83f6e296, 0xe9e00559);
  }

  lemma LineQINV1()
    ensures |QINV1| == 64
    ensures Reads(QINV1, 0xefb482990ad4fb335b9cb6ed7c68d5a19d244bade44292d94f33010f3815a991)
  {
    hide HexDigit;
    Letters();
    Eight("efb48299", 0xefb48299); Eight("0ad4fb33", 0x0ad4fb33);
    Eight("5b9cb6ed", 0x5b9cb6ed); Eight("7c68d5a1", 0x7c68d5a1);
    Eight("9d244bad", 0x9d244bad); Eight("e44292d9", 0xe44292d9);
    Eight("4f33010f", 0x4f33010f); Eight("3815a991", 0x3815a991);
    hide Reads;
    Line("efb48299", "0ad4fb33", "5b9cb6ed", "7c68d5a1", "9d244bad", "e44292d9", "4f33010f", "3815a991",
         0xefb48299, 0x0ad4fb33, 0x5b9cb6ed, 0x7c68d5a1, 0x9d244bad, 0xe44292d9, 0x4f33010f, 0x3815a991);
  }

  lemma LineQINV2()
    ensures |QINV2| == 64
    ensures Reads(QINV2, 0xc0211990a002ef686c35ecd3e0602129bb1e35bf9cd5663b52ce9c97154fcfca)
  {
    hide HexDigit;
    Letters();
    Eight("c0211990", 0xc0211990); Eight("a002ef68", 0xa002ef68);
    Eight("6c35ecd3", 0x6c35ecd3); Eight("e0602129", 0xe0602129);
    Eight("bb1e35bf", 0xbb1e35bf); Eight("9cd5663b", 0x9cd5663b);
    Eight("52ce9c97", 0x52ce9c97); Eight("154fcfca", 0x154fcfca);
    hide Reads;
    Line("c0211990", "a002ef68", "6c35ecd3", "e0602129", "bb1e35bf", "9cd5663b", "52ce9c97", "154fcfca",
         0xc0211990, 0xa002ef68, 0x6c35ecd3, 0xe0602129, 0xbb1e35bf, 0x9cd5663b, 0x52ce9c97, 0x154fcfca);
  }

  lemma LineQINV3()
    ensures |QINV3| == 64
    ensures Reads(QINV3, 0x8d5403e6c59de8e785ee64b3ab6b7593f0c899ea9f823f22b5cbeb766b8fbe8b)
  {
    hide HexDigit;
    Letters();
    Eight("8d5403e6", 0x8d5403e6); Eight("c59de8e7", 0xc59de8e7);
    Eight("85ee64b3", 0x85ee64b3); Eight("ab6b7593", 0xab6b7593);
    Eight("f0c899ea", 0xf0c899ea); Eight("9f823f22", 0x9f823f22);
    Eight("b5cbeb76", 0xb5cbeb76); Eight("6b8fbe8b", 0x6b8fbe8b);
    hide Reads;
    Line("8d5403e6", "c59de8e7", "85ee64b3", "ab6b7593", "f0c899ea", "9f823f22", "b5cbeb76", "6b8fbe8b",
         0x8d5403e6, 0xc59de8e7, 0x85ee64b3, 0xab6b7593, 0xf0c899ea, 0x9f823f22, 0xb5cbeb76, 0x6b8fbe8b);
  }

  lemma LineQINV4()
    ensures |QINV4| == 64
    ensures Reads(QINV4, 0x232143dd9a28c0f0550b87fedb19cdf52e02009773b9cdc722cace719b3665d9)
  {
    hide HexDigit;
    Letters();
    Eight("232143dd", 0x232143dd); Eight("9a28c0f0", 0x9a28c0f0);
    Eight("550b87fe", 0x550b87fe); Eight("db19cdf5", 0xdb19cdf5);
    Eight("2e020097", 0x2e020097); Eight("73b9cdc7", 0x73b9cdc7);
    Eight("22cace71", 0x22cace71); Eight("9b3665d9", 0x9b3665d9);
    hide Reads;
    Line("232143dd", "9a28c0f0", "550b87fe", "db19cdf5", "2e020097", "73b9cdc7", "22cace71", "9b3665d9",
         0x232143dd, 0x9a28c0f0, 0x550b87fe, 0xdb19cdf5, 0x2e020097, 0x73b9cdc7, 0x22cace71, 0x9b3665d9);
  }

  lemma LineQINV5()
    ensures |QINV5| == 64
    ensures Reads(QINV5, 0x3bf21dadac7d5669bbfb14000ef48f66c174bbc24739987c3a6b20eb9da62152)
  {
    hide HexDigit;
    Letters();
    Eight("3bf21dad", 0x3bf21dad); Eight("ac7d5669", 0xac7d5669);
    Eight("bbfb1400", 0xbbfb1400); Eight("0ef48f66", 0x0ef48f66);
    Eight("c174bbc2", 0xc174bbc2); Eight("4739987c", 0x4739987c);
    Eight("3a6b20eb", 0x3a6b20eb); Eight("9da62152", 0x9da62152);
    hide Reads;
    Line("3bf21dad", "ac7d5669", "bbfb1400", "0ef48f66", "c174bbc2", "4739987c", "3a6b20eb", "9da62152",
         0x3bf21dad, 0xac7d5669, 0xbbfb1400, 0x0ef48f66, 0xc174bbc2, 0x4739987c, 0x3a6b20eb, 0x9da62152);
  }

  lemma LoadedQINV()
    ensures |HEX_QINV| == 384
    ensures Reads(HEX_QINV,
      0x3bf21dadac7d5669bbfb14000ef48f66c174bbc24739987c3a6b20eb9da62152 + LINE * (
      0x232143dd9a28c0f0550b87fedb19cdf52e02009773b9cdc722cace719b3665d9 + LINE * (
      0x8d5403e6c59de8e785ee64b3ab6b7593f0c899ea9f823f22b5cbeb766b8fbe8b + LINE * (
      0xc0211990a002ef686c35ecd3e0602129bb1e35bf9cd5663b52ce9c97154fcfca + LINE * (
      0xefb482990ad4fb335b9cb6ed7c68d5a19d244bade44292d94f33010f3815a991 + LINE *
      0xae172813b4ef72775c2798b194348355cb7e7f74947d364b83f6e296e9e00559)))))
  {
    hide Reads;
    LineQINV0();
    LineQINV1();
    LineQINV2();
    LineQINV3();
    LineQINV4();
    LineQINV5();
    SixLines(QINV0, QINV1, QINV2, QINV3, QINV4, QINV5,
             0xae172813b4ef72775c2798b194348355cb7e7f74947d364b83f6e296e9e00559,
             0xefb482990ad4fb335b9cb6ed7c68d5a19d244bade44292d94f33010f3815a991,
             0xc0211990a002ef686c35ecd3e0602129bb1e35bf9cd5663b52ce9c97154fcfca,
             0x8d5403e6c59de8e785ee64b3ab6b7593f0c899ea9f823f22b5cbeb766b8fbe8b,
             0x232143dd9a28c0f0550b87fedb19cdf52e02009773b9cdc722cace719b3665d9,
             0x3bf21dadac7d5669bbfb14000ef48f66c174bbc24739987c3a6b20eb9da62152);
  }
}
