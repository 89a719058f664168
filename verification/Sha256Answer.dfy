/** The published answer for the message "abc" (the examples to FIPS 180-4), computed through the specification. */
module Sha256Answer {
  import opened Sha256

  /** The initial state of section 5.3.3. */
  const START := Vars(0x6a09e667, 0xbb67ae85, 0x3c6ef372, 0xa54ff53a, 0x510e527f, 0x9b05688c, 0x1f83d9ab, 0x5be0cd19)

  /** The message, padded to one block: its three bytes, a one bit, zeros, and its length in bits. */
  const MESSAGE: seq<bv8> := [0x61, 0x62, 0x63, 0x80] + Zeros(59) + [0x18]

  const BLOCK: seq<Word> := [0x61626380] + ZeroWords(14) + [0x18]

  function Zeros(n: nat): (s: seq<bv8>)
    ensures |s| == n && forall i :: 0 <= i < n ==> s[i] == 0
  {
    if n == 0 then [] else Zeros(n - 1) + [0]
  }

  function ZeroWords(n: nat): (s: seq<Word>)
    ensures |s| == n && forall i :: 0 <= i < n ==> s[i] == 0
  {
    if n == 0 then [] else ZeroWords(n - 1) + [0]
  }

  const DIGEST := Vars(0xba7816bf, 0x8f01cfea, 0x414140de, 0x5dae2223, 0xb00361a3, 0x96177a9c, 0xb410ff61, 0xf20015ad)

  lemma Corners()
    ensures BigEndian(0x61, 0x62, 0x63, 0x80) == 0x61626380 && BigEndian(0, 0, 0, 0x18) == 0x18
    ensures BigEndian(0, 0, 0, 0) == 0
  {
  }

  lemma WordOf(block: seq<bv8>, i: nat)
    requires |block| == 64 && i < 16
    ensures Words(block)[i] == BigEndian(block[4 * i], block[4 * i + 1], block[4 * i + 2], block[4 * i + 3])
  {
  }

  lemma BlockWords()
    ensures |MESSAGE| == 64 && |BLOCK| == 16 && Words(MESSAGE) == BLOCK
  {
    hide BigEndian, Words, Zeros, ZeroWords;
    Corners();
    forall i | 0 <= i < 16 ensures Words(MESSAGE)[i] == BLOCK[i] {
      WordOf(MESSAGE, i);
    }
  }

  // ---- The schedule --------------------------------------------------------------------------

  ghost predicate Scheduled(m: seq<Word>, t: nat, w: Word) {
    |m| == 16 && W(m, t) == w
  }

  lemma NextWord(m: seq<Word>, t: nat, w2: Word, w7: Word, w15: Word, w16: Word, w: Word)
    requires t >= 16 && Scheduled(m, t - 2, w2) && Scheduled(m, t - 7, w7) && Scheduled(m, t - 15, w15)
    requires Scheduled(m, t - 16, w16)
    requires w == Add(Add(Add(SmallSigma1(w2), w7), SmallSigma0(w15)), w16)
    ensures Scheduled(m, t, w)
  {
  }

  ghost predicate Words0(m: seq<Word>) {
    && Scheduled(m, 0, 0x61626380) && Scheduled(m, 1, 0x00000000) && Scheduled(m, 2, 0x00000000)
    && Scheduled(m, 3, 0x00000000)
    && Scheduled(m, 4, 0x00000000) && Scheduled(m, 5, 0x00000000) && Scheduled(m, 6, 0x00000000)
    && Scheduled(m, 7, 0x00000000)
    && Scheduled(m, 8, 0x00000000) && Scheduled(m, 9, 0x00000000) && Scheduled(m, 10, 0x00000000)
    && Scheduled(m, 11, 0x00000000)
    && Scheduled(m, 12, 0x00000000) && Scheduled(m, 13, 0x00000000) && Scheduled(m, 14, 0x00000000)
    && Scheduled(m, 15, 0x00000018)
  }

  ghost predicate Words16(m: seq<Word>) {
    && Scheduled(m, 16, 0x61626380) && Scheduled(m, 17, 0x000f0000) && Scheduled(m, 18, 0x7da86405)
    && Scheduled(m, 19, 0x600003c6)
    && Scheduled(m, 20, 0x3e9d7b78) && Scheduled(m, 21, 0x0183fc00) && Scheduled(m, 22, 0x12dcbfdb)
    && Scheduled(m, 23, 0xe2e2c38e)
  }

  ghost predicate Words24(m: seq<Word>) {
    && Scheduled(m, 24, 0xc8215c1a) && Scheduled(m, 25, 0xb73679a2) && Scheduled(m, 26, 0xe5bc3909)
    && Scheduled(m, 27, 0x32663c5b)
    && Scheduled(m, 28, 0x9d209d67) && Scheduled(m, 29, 0xec8726cb) && Scheduled(m, 30, 0x702138a4)
    && Scheduled(m, 31, 0xd3b7973b)
  }

  ghost predicate Words32(m: seq<Word>) {
    && Scheduled(m, 32, 0x93f5997f) && Scheduled(m, 33, 0x3b68ba73) && Scheduled(m, 34, 0xaff4ffc1)
    && Scheduled(m, 35, 0xf10a5c62)
    && Scheduled(m, 36, 0x0a8b3996) && Scheduled(m, 37, 0x72af830a) && Scheduled(m, 38, 0x9409e33e)
    && Scheduled(m, 39, 0x24641522)
  }

  ghost predicate Words40(m: seq<Word>) {
    && Scheduled(m, 40, 0x9f47bf94) && Scheduled(m, 41, 0xf0a64f5a) && Scheduled(m, 42, 0x3e246a79)
    && Scheduled(m, 43, 0x27333ba3)
    && Scheduled(m, 44, 0x0c4763f2) && Scheduled(m, 45, 0x840abf27) && Scheduled(m, 46, 0x7a290d5d)
    && Scheduled(m, 47, 0x065c43da)
  }

  ghost predicate Words48(m: seq<Word>) {
    && Scheduled(m, 48, 0xfb3e89cb) && Scheduled(m, 49, 0xcc7617db) && Scheduled(m, 50, 0xb9e66c34)
    && Scheduled(m, 51, 0xa9993667)
    && Scheduled(m, 52, 0x84badedd) && Scheduled(m, 53, 0xc21462bc) && Scheduled(m, 54, 0x1487472c)
    && Scheduled(m, 55, 0xb20f7a99)
  }

  ghost predicate Words56(m: seq<Word>) {
    && Scheduled(m, 56, 0xef57b9cd) && Scheduled(m, 57, 0xebe6b238) && Scheduled(m, 58, 0x9fe3095e)
    && Scheduled(m, 59, 0x78bc8d4b)
    && Scheduled(m, 60, 0xa43fcf15) && Scheduled(m, 61, 0x668b2ff8) && Scheduled(m, 62, 0xeeaba2cc)
    && Scheduled(m, 63, 0x12b1edeb)
  }

  lemma FirstWords(m: seq<Word>)
    requires m == BLOCK
    ensures Words0(m)
  {
  }

  lemma Sigmas16()
    ensures SmallSigma1(0x00000000) == 0x00000000 && SmallSigma0(0x00000000) == 0x00000000
    ensures SmallSigma1(0x00000018) == 0x000f0000 && SmallSigma0(0x00000000) == 0x00000000
    ensures SmallSigma1(0x61626380) == 0x7da86405 && SmallSigma0(0x00000000) == 0x00000000
    ensures SmallSigma1(0x000f0000) == 0x600003c6 && SmallSigma0(0x00000000) == 0x00000000
    ensures SmallSigma1(0x7da86405) == 0x3e9d7b78 && SmallSigma0(0x00000000) == 0x00000000
    ensures SmallSigma1(0x600003c6) == 0x0183fc00 && SmallSigma0(0x00000000) == 0x00000000
    ensures SmallSigma1(0x3e9d7b78) == 0x12dcbfc3 && SmallSigma0(0x00000000) == 0x00000000
    ensures SmallSigma1(0x0183fc00) == 0x8180600e && SmallSigma0(0x00000000) == 0x00000000
  {
  }

  lemma Schedule16(m: seq<Word>)
    requires Words0(m)
    ensures Words16(m)
  {
    hide SmallSigma1, SmallSigma0, Scheduled;
    Sigmas16();
    NextWord(m, 16, 0x00000000, 0x00000000, 0x00000000, 0x61626380, 0x61626380);
    NextWord(m, 17, 0x00000018, 0x00000000, 0x00000000, 0x00000000, 0x000f0000);
    NextWord(m, 18, 0x61626380, 0x00000000, 0x00000000, 0x00000000, 0x7da86405);
    NextWord(m, 19, 0x000f0000, 0x00000000, 0x00000000, 0x00000000, 0x600003c6);
    NextWord(m, 20, 0x7da86405, 0x00000000, 0x00000000, 0x00000000, 0x3e9d7b78);
    NextWord(m, 21, 0x600003c6, 0x00000000, 0x00000000, 0x00000000, 0x0183fc00);
    NextWord(m, 22, 0x3e9d7b78, 0x00000018, 0x00000000, 0x00000000, 0x12dcbfdb);
    NextWord(m, 23, 0x0183fc00, 0x61626380, 0x00000000, 0x00000000, 0xe2e2c38e);
  }

  lemma Sigmas24()
    ensures SmallSigma1(0x12dcbfdb) == 0xc8125c1a && SmallSigma0(0x00000000) == 0x00000000
    ensures SmallSigma1(0xe2e2c38e) == 0x398e159d && SmallSigma0(0x00000000) == 0x00000000
    ensures SmallSigma1(0xc8215c1a) == 0x85bc3543 && SmallSigma0(0x00000000) == 0x00000000
    ensures SmallSigma1(0xb73679a2) == 0xf3c8c0e3 && SmallSigma0(0x00000000) == 0x00000000
    ensures SmallSigma1(0xe5bc3909) == 0x9b9ca167 && SmallSigma0(0x00000000) == 0x00000000
    ensures SmallSigma1(0x32663c5b) == 0xd9aa66f0 && SmallSigma0(0x00000000) == 0x00000000
    ensures SmallSigma1(0x9d209d67) == 0x5d387513 && SmallSigma0(0x00000018) == 0x30060003
    ensures SmallSigma1(0xec8726cb) == 0x7787aa1a && SmallSigma0(0x61626380) == 0x940e90ef
  {
  }

  lemma Schedule24(m: seq<Word>)
    requires Words0(m) && Words16(m)
    ensures Words24(m)
  {
    hide SmallSigma1, SmallSigma0, Scheduled;
    Sigmas24();
    NextWord(m, 24, 0x12dcbfdb, 0x000f0000, 0x00000000, 0x00000000, 0xc8215c1a);
    NextWord(m, 25, 0xe2e2c38e, 0x7da86405, 0x00000000, 0x00000000, 0xb73679a2);
    NextWord(m, 26, 0xc8215c1a, 0x600003c6, 0x00000000, 0x00000000, 0xe5bc3909);
    NextWord(m, 27, 0xb73679a2, 0x3e9d7b78, 0x00000000, 0x00000000, 0x32663c5b);
    NextWord(m, 28, 0xe5bc3909, 0x0183fc00, 0x00000000, 0x00000000, 0x9d209d67);
    NextWord(m, 29, 0x32663c5b, 0x12dcbfdb, 0x00000000, 0x00000000, 0xec8726cb);
    NextWord(m, 30, 0x9d209d67, 0xe2e2c38e, 0x00000018, 0x00000000, 0x702138a4);
    NextWord(m, 31, 0xec8726cb, 0xc8215c1a, 0x61626380, 0x00000018, 0xd3b7973b);
  }

  lemma Sigmas32()
    ensures SmallSigma1(0x702138a4) == 0xbb5abe5a && SmallSigma0(0x000f0000) == 0xc001fe03
    ensures SmallSigma1(0xd3b7973b) == 0x394e7e48 && SmallSigma0(0x7da86405) == 0x1c4f0322
    ensures SmallSigma1(0x93f5997f) == 0x7fb4c6e2 && SmallSigma0(0x600003c6) == 0x8031987f
    ensures SmallSigma1(0x3b68ba73) == 0x4a7920f7 && SmallSigma0(0x3e9d7b78) == 0xa9709a3e
    ensures SmallSigma1(0xaff4ffc1) == 0xe0331f3b && SmallSigma0(0x0183fc00) == 0xff337818
    ensures SmallSigma1(0xf10a5c62) == 0x65816433 && SmallSigma0(0x12dcbfdb) == 0x9b88ea33
    ensures SmallSigma1(0x0a8b3996) == 0xfbfb66da && SmallSigma0(0xe2e2c38e) == 0xb17a254e
    ensures SmallSigma1(0x72af830a) == 0x31f8dce2 && SmallSigma0(0xc8215c1a) == 0x7b92db33
  {
  }

  lemma Schedule32(m: seq<Word>)
    requires Words16(m) && Words24(m)
    ensures Words32(m)
  {
    hide SmallSigma1, SmallSigma0, Scheduled;
    Sigmas32();
    NextWord(m, 32, 0x702138a4, 0xb73679a2, 0x000f0000, 0x61626380, 0x93f5997f);
    NextWord(m, 33, 0xd3b7973b, 0xe5bc3909, 0x7da86405, 0x000f0000, 0x3b68ba73);
    NextWord(m, 34, 0x93f5997f, 0x32663c5b, 0x600003c6, 0x7da86405, 0xaff4ffc1);
    NextWord(m, 35, 0x3b68ba73, 0x9d209d67, 0x3e9d7b78, 0x600003c6, 0xf10a5c62);
    NextWord(m, 36, 0xaff4ffc1, 0xec8726cb, 0x0183fc00, 0x3e9d7b78, 0x0a8b3996);
    NextWord(m, 37, 0xf10a5c62, 0x702138a4, 0x12dcbfdb, 0x0183fc00, 0x72af830a);
    NextWord(m, 38, 0x0a8b3996, 0xd3b7973b, 0xe2e2c38e, 0x12dcbfdb, 0x9409e33e);
    NextWord(m, 39, 0x72af830a, 0x93f5997f, 0xc8215c1a, 0xe2e2c38e, 0x24641522);
  }

  lemma Sigmas40()
    ensures SmallSigma1(0x9409e33e) == 0xcddd9afd && SmallSigma0(0xb73679a2) == 0xcde00e0a
    ensures SmallSigma1(0x24641522) == 0x883c4fbb && SmallSigma0(0xe5bc3909) == 0x013e863c
    ensures SmallSigma1(0x9f47bf94) == 0x281f0da4 && SmallSigma0(0x32663c5b) == 0x3f3ec76a
    ensures SmallSigma1(0xf0a64f5a) == 0xee7a0fd4 && SmallSigma0(0x9d209d67) == 0xfbc7b5de
    ensures SmallSigma1(0x3e246a79) == 0xb87c31cc && SmallSigma0(0xec8726cb) == 0x43fb11b5
    ensures SmallSigma1(0x27333ba3) == 0xfaac3bb1 && SmallSigma0(0x702138a4) == 0x08cd796d
    ensures SmallSigma1(0x0c4763f2) == 0x5d845673 && SmallSigma0(0xd3b7973b) == 0x881f6924
    ensures SmallSigma1(0x840abf27) == 0x0856302b && SmallSigma0(0x93f5997f) == 0x8b06bce0
  {
  }

  lemma Schedule40(m: seq<Word>)
    requires Words24(m) && Words32(m)
    ensures Words40(m)
  {
    hide SmallSigma1, SmallSigma0, Scheduled;
    Sigmas40();
    NextWord(m, 40, 0x9409e33e, 0x3b68ba73, 0xb73679a2, 0xc8215c1a, 0x9f47bf94);
    NextWord(m, 41, 0x24641522, 0xaff4ffc1, 0xe5bc3909, 0xb73679a2, 0xf0a64f5a);
    NextWord(m, 42, 0x9f47bf94, 0xf10a5c62, 0x32663c5b, 0xe5bc3909, 0x3e246a79);
    NextWord(m, 43, 0xf0a64f5a, 0x0a8b3996, 0x9d209d67, 0x32663c5b, 0x27333ba3);
    NextWord(m, 44, 0x3e246a79, 0x72af830a, 0xec8726cb, 0x9d209d67, 0x0c4763f2);
    NextWord(m, 45, 0x27333ba3, 0x9409e33e, 0x702138a4, 0xec8726cb, 0x840abf27);
    NextWord(m, 46, 0x0c4763f2, 0x24641522, 0xd3b7973b, 0x702138a4, 0x7a290d5d);
    NextWord(m, 47, 0x840abf27, 0x9f47bf94, 0x93f5997f, 0xd3b7973b, 0x065c43da);
  }

  lemma Sigmas48()
    ensures SmallSigma1(0x7a290d5d) == 0xa71b9812 && SmallSigma0(0x3b68ba73) == 0xcf8708e0
    ensures SmallSigma1(0x065c43da) == 0xa997d4f5 && SmallSigma0(0xaff4ffc1) == 0xa9511dfa
    ensures SmallSigma1(0xfb3e89cb) == 0x95e24d5a && SmallSigma0(0xf10a5c62) == 0x4cdbe376
    ensures SmallSigma1(0xcc7617db) == 0xc9258230 && SmallSigma0(0x0a8b3996) == 0xe321f3e3
    ensures SmallSigma1(0xb9e66c34) == 0xfbb2b254 && SmallSigma0(0x72af830a) == 0xfa7233cc
    ensures SmallSigma1(0xa9993667) == 0xbdd547b2 && SmallSigma0(0x9409e33e) == 0x17668aa3
    ensures SmallSigma1(0x84badedd) == 0x34945c7d && SmallSigma0(0x24641522) == 0x458cc397
    ensures SmallSigma1(0xc21462bc) == 0xbd397c50 && SmallSigma0(0x9f47bf94) == 0xd5335f5c
  {
  }

  lemma Schedule48(m: seq<Word>)
    requires Words32(m) && Words40(m)
    ensures Words48(m)
  {
    hide SmallSigma1, SmallSigma0, Scheduled;
    Sigmas48();
    NextWord(m, 48, 0x7a290d5d, 0xf0a64f5a, 0x3b68ba73, 0x93f5997f, 0xfb3e89cb);
    NextWord(m, 49, 0x065c43da, 0x3e246a79, 0xaff4ffc1, 0x3b68ba73, 0xcc7617db);
    NextWord(m, 50, 0xfb3e89cb, 0x27333ba3, 0xf10a5c62, 0xaff4ffc1, 0xb9e66c34);
    NextWord(m, 51, 0xcc7617db, 0x0c4763f2, 0x0a8b3996, 0xf10a5c62, 0xa9993667);
    NextWord(m, 52, 0xb9e66c34, 0x840abf27, 0x72af830a, 0x0a8b3996, 0x84badedd);
    NextWord(m, 53, 0xa9993667, 0x7a290d5d, 0x9409e33e, 0x72af830a, 0xc21462bc);
    NextWord(m, 54, 0x84badedd, 0x065c43da, 0x24641522, 0x9409e33e, 0x1487472c);
    NextWord(m, 55, 0xc21462bc, 0xfb3e89cb, 0x9f47bf94, 0x24641522, 0xb20f7a99);
  }

  lemma Sigmas56()
    ensures SmallSigma1(0x1487472c) == 0x4b76a902 && SmallSigma0(0xf0a64f5a) == 0x3823395c
    ensures SmallSigma1(0xb20f7a99) == 0x52336c98 && SmallSigma0(0x3e246a79) == 0xef268a12
    ensures SmallSigma1(0xef57b9cd) == 0x2be49faf && SmallSigma0(0x27333ba3) == 0x8c40c8cf
    ensures SmallSigma1(0xebe6b238) == 0x8f619123 && SmallSigma0(0x0c4763f2) == 0x3d6ce1a8
    ensures SmallSigma1(0x9fe3095e) == 0xe5a364cf && SmallSigma0(0x840abf27) == 0xf040a398
    ensures SmallSigma1(0x78bc8d4b) == 0xd712fc6a && SmallSigma0(0x7a290d5d) == 0xf6e62d3b
    ensures SmallSigma1(0xa43fcf15) == 0x1e41696b && SmallSigma0(0x065c43da) == 0xa431b16b
    ensures SmallSigma1(0x668b2ff8) == 0xf21a9d5f && SmallSigma0(0xfb3e89cb) == 0x2ae352e5
  {
  }

  lemma Schedule56(m: seq<Word>)
    requires Words40(m) && Words48(m)
    ensures Words56(m)
  {
    hide SmallSigma1, SmallSigma0, Scheduled;
    Sigmas56();
    NextWord(m, 56, 0x1487472c, 0xcc7617db, 0xf0a64f5a, 0x9f47bf94, 0xef57b9cd);
    NextWord(m, 57, 0xb20f7a99, 0xb9e66c34, 0x3e246a79, 0xf0a64f5a, 0xebe6b238);
    NextWord(m, 58, 0xef57b9cd, 0xa9993667, 0x27333ba3, 0x3e246a79, 0x9fe3095e);
    NextWord(m, 59, 0xebe6b238, 0x84badedd, 0x0c4763f2, 0x27333ba3, 0x78bc8d4b);
    NextWord(m, 60, 0x9fe3095e, 0xc21462bc, 0x840abf27, 0x0c4763f2, 0xa43fcf15);
    NextWord(m, 61, 0x78bc8d4b, 0x1487472c, 0x7a290d5d, 0x840abf27, 0x668b2ff8);
    NextWord(m, 62, 0xa43fcf15, 0xb20f7a99, 0x065c43da, 0x7a290d5d, 0xeeaba2cc);
    NextWord(m, 63, 0x668b2ff8, 0xef57b9cd, 0xfb3e89cb, 0x065c43da, 0x12b1edeb);
  }

  // ---- The rounds ------------------------------------------------------------------------------

  /** The working variables after t rounds. */
  ghost predicate After(m: seq<Word>, t: nat, v: Vars) {
    t <= 64 && |m| == 16 && Rounds(START, m, t) == v
  }

  lemma NextRound(m: seq<Word>, t: nat, v: Vars, w: Word, v': Vars)
    requires t < 64 && After(m, t, v) && Scheduled(m, t, w) && v' == Round(v, K(t), w)
    ensures After(m, t + 1, v')
  {
  }

  lemma Functions0()
    ensures BigSigma1(0x510e527f) == 0x3587272b && Ch(0x510e527f, 0x9b05688c, 0x1f83d9ab) == 0x1f85c98c
    ensures BigSigma0(0x6a09e667) == 0xce20b47e && Maj(0x6a09e667, 0xbb67ae85, 0x3c6ef372) == 0x3a6fe667
    ensures BigSigma1(0xfa2a4622) == 0x5a94fd2d && Ch(0xfa2a4622, 0x510e527f, 0x9b05688c) == 0x510f6aae
    ensures BigSigma0(0x5d6aebcd) == 0xa29f64d1 && Maj(0x5d6aebcd, 0x6a09e667, 0xbb67ae85) == 0x7b6beec5
    ensures BigSigma1(0x78ce7989) == 0x73f0e495 && Ch(0x78ce7989, 0xfa2a4622, 0x510e527f) == 0x790a4276
    ensures BigSigma0(0x5a6ad9ad) == 0x3096d054 && Maj(0x5a6ad9ad, 0x5d6aebcd, 0x6a09e667) == 0x5a6aebed
    ensures BigSigma1(0xf92939eb) == 0x0607743c && Ch(0xf92939eb, 0x78ce7989, 0xfa2a4622) == 0x7a0a7f89
    ensures BigSigma0(0xc8c347a7) == 0xc21008d0 && Maj(0xc8c347a7, 0x5a6ad9ad, 0x5d6aebcd) == 0x586acbad
    ensures BigSigma1(0x24e00850) == 0x3a933432 && Ch(0x24e00850, 0xf92939eb, 0x78ce7989) == 0x782e79c9
    ensures BigSigma0(0xd550f666) == 0x45bb0c4b && Maj(0xd550f666, 0xc8c347a7, 0x5a6ad9ad) == 0xd842d7a7
    ensures BigSigma1(0x43ada245) == 0x8b77e19c && Ch(0x43ada245, 0x24e00850, 0xf92939eb) == 0xb8a019ea
    ensures BigSigma0(0x04409a6a) == 0x5029ac8f && Maj(0x04409a6a, 0xd550f666, 0xc8c347a7) == 0xc440d666
    ensures BigSigma1(0x714260ad) == 0x015b7776 && Ch(0x714260ad, 0x43ada245, 0x24e00850) == 0x45a02855
    ensures BigSigma0(0x2b4209f5) == 0x0d5e0cc0 && Maj(0x2b4209f5, 0x04409a6a, 0xd550f666) == 0x05409a66
    ensures BigSigma1(0x9b27a401) == 0x158dfaa9 && Ch(0x9b27a401, 0x714260ad, 0x43ada245) == 0x518a2245
    ensures BigSigma0(0xe5030380) == 0x2949eb6c && Maj(0xe5030380, 0x2b4209f5, 0x04409a6a) == 0x25420be0
  {
  }

  lemma Constants0()
    ensures K(0) == 0x428a2f98 && K(1) == 0x71374491 && K(2) == 0xb5c0fbcf && K(3) == 0xe9b5dba5
    ensures K(4) == 0x3956c25b && K(5) == 0x59f111f1 && K(6) == 0x923f82a4 && K(7) == 0xab1c5ed5
  {
  }

  lemma Rounds0(m: seq<Word>)
    requires Words0(m)
    requires After(m, 0,
      Vars(0x6a09e667, 0xbb67ae85, 0x3c6ef372, 0xa54ff53a, 0x510e527f, 0x9b05688c, 0x1f83d9ab, 0x5be0cd19))
    ensures After(m, 8,
      Vars(0x85a07b5f, 0xe5030380, 0x2b4209f5, 0x04409a6a, 0x0c657a79, 0x9b27a401, 0x714260ad, 0x43ada245))
  {
    hide BigSigma1, BigSigma0, Ch, Maj, K, After, Scheduled;
    Functions0();
    Constants0();
    var v0 := Vars(0x6a09e667, 0xbb67ae85, 0x3c6ef372, 0xa54ff53a, 0x510e527f, 0x9b05688c, 0x1f83d9ab, 0x5be0cd19);
    var v1 := Vars(0x5d6aebcd, 0x6a09e667, 0xbb67ae85, 0x3c6ef372, 0xfa2a4622, 0x510e527f, 0x9b05688c, 0x1f83d9ab);
    NextRound(m, 0, v0, 0x61626380, v1);
    var v2 := Vars(0x5a6ad9ad, 0x5d6aebcd, 0x6a09e667, 0xbb67ae85, 0x78ce7989, 0xfa2a4622, 0x510e527f, 0x9b05688c);
    NextRound(m, 1, v1, 0x00000000, v2);
    var v3 := Vars(0xc8c347a7, 0x5a6ad9ad, 0x5d6aebcd, 0x6a09e667, 0xf92939eb, 0x78ce7989, 0xfa2a4622, 0x510e527f);
    NextRound(m, 2, v2, 0x00000000, v3);
    var v4 := Vars(0xd550f666, 0xc8c347a7, 0x5a6ad9ad, 0x5d6aebcd, 0x24e00850, 0xf92939eb, 0x78ce7989, 0xfa2a4622);
    NextRound(m, 3, v3, 0x00000000, v4);
    var v5 := Vars(0x04409a6a, 0xd550f666, 0xc8c347a7, 0x5a6ad9ad, 0x43ada245, 0x24e00850, 0xf92939eb, 0x78ce7989);
    NextRound(m, 4, v4, 0x00000000, v5);
    var v6 := Vars(0x2b4209f5, 0x04409a6a, 0xd550f666, 0xc8c347a7, 0x714260ad, 0x43ada245, 0x24e00850, 0xf92939eb);
    NextRound(m, 5, v5, 0x00000000, v6);
    var v7 := Vars(0xe5030380, 0x2b4209f5, 0x04409a6a, 0xd550f666, 0x9b27a401, 0x714260ad, 0x43ada245, 0x24e00850);
    NextRound(m, 6, v6, 0x00000000, v7);
    var v8 := Vars(0x85a07b5f, 0xe5030380, 0x2b4209f5, 0x04409a6a, 0x0c657a79, 0x9b27a401, 0x714260ad, 0x43ada245);
    NextRound(m, 7, v7, 0x00000000, v8);
  }

  lemma Functions8()
    ensures BigSigma1(0x0c657a79) == 0x99ad25c0 && Ch(0x0c657a79, 0x9b27a401, 0x714260ad) == 0x79272085
    ensures BigSigma0(0x85a07b5f) == 0xba794dc2 && Maj(0x85a07b5f, 0xe5030380, 0x2b4209f5) == 0xa5020bd5
    ensures BigSigma1(0x32ca2d8c) == 0xe45bb7ea && Ch(0x32ca2d8c, 0x0c657a79, 0x9b27a401) == 0x8965a809
    ensures BigSigma0(0x8e04ecb9) == 0x15ffad31 && Maj(0x8e04ecb9, 0x85a07b5f, 0xe5030380) == 0x85006b99
    ensures BigSigma1(0x1cc92596) == 0x8e2276bc && Ch(0x1cc92596, 0x32ca2d8c, 0x0c657a79) == 0x10ec7fed
    ensures BigSigma0(0x8c87346b) == 0x5cac0711 && Maj(0x8c87346b, 0x8e04ecb9, 0x85a07b5f) == 0x8c847c7b
    ensures BigSigma1(0x436b23e8) == 0x699435ca && Ch(0x436b23e8, 0x1cc92596, 0x32ca2d8c) == 0x30c92d84
    ensures BigSigma0(0x4798a3f4) == 0x6ccbc526 && Maj(0x4798a3f4, 0x8c87346b, 0x8e04ecb9) == 0x8e84a4f9
    ensures BigSigma1(0x816fd6e9) == 0xccdee661 && Ch(0x816fd6e9, 0x436b23e8, 0x1cc92596) == 0x1deb23fe
    ensures BigSigma0(0xf71fc5a9) == 0x2f9eee48 && Maj(0xf71fc5a9, 0x4798a3f4, 0x8c87346b) == 0xc79fa5e9
    ensures BigSigma1(0x1e578218) == 0x08bb98f7 && Ch(0x1e578218, 0x816fd6e9, 0x436b23e8) == 0x416fa3e8
    ensures BigSigma0(0x87912990) == 0x29c634f3 && Maj(0x87912990, 0xf71fc5a9, 0x4798a3f4) == 0xc799a1b0
    ensures BigSigma1(0x745a48de) == 0x4f3b8d50 && Ch(0x745a48de, 0x1e578218, 0x816fd6e9) == 0x95779639
    ensures BigSigma0(0xd932eb16) == 0x25562836 && Maj(0xd932eb16, 0x87912990, 0xf71fc5a9) == 0xd713e990
    ensures BigSigma1(0x0b92f20c) == 0xb8d63f93 && Ch(0x0b92f20c, 0x745a48de, 0x1e578218) == 0x1457401c
    ensures BigSigma0(0xc0645fde) == 0xdf906fd4 && Maj(0xc0645fde, 0xd932eb16, 0x87912990) == 0xc1306b96
  {
  }

  lemma Constants8()
    ensures K(8) == 0xd807aa98 && K(9) == 0x12835b01 && K(10) == 0x243185be && K(11) == 0x550c7dc3
    ensures K(12) == 0x72be5d74 && K(13) == 0x80deb1fe && K(14) == 0x9bdc06a7 && K(15) == 0xc19bf174
  {
  }

  lemma Rounds8(m: seq<Word>)
    requires Words0(m)
    requires After(m, 8,
      Vars(0x85a07b5f, 0xe5030380, 0x2b4209f5, 0x04409a6a, 0x0c657a79, 0x9b27a401, 0x714260ad, 0x43ada245))
    ensures After(m, 16,
      Vars(0xb0fa238e, 0xc0645fde, 0xd932eb16, 0x87912990, 0x07590dcd, 0x0b92f20c, 0x745a48de, 0x1e578218))
  {
    hide BigSigma1, BigSigma0, Ch, Maj, K, After, Scheduled;
    Functions8();
    Constants8();
    var v8 := Vars(0x85a07b5f, 0xe5030380, 0x2b4209f5, 0x04409a6a, 0x0c657a79, 0x9b27a401, 0x714260ad, 0x43ada245);
    var v9 := Vars(0x8e04ecb9, 0x85a07b5f, 0xe5030380, 0x2b4209f5, 0x32ca2d8c, 0x0c657a79, 0x9b27a401, 0x714260ad);
    NextRound(m, 8, v8, 0x00000000, v9);
    var v10 := Vars(0x8c87346b, 0x8e04ecb9, 0x85a07b5f, 0xe5030380, 0x1cc92596, 0x32ca2d8c, 0x0c657a79, 0x9b27a401);
    NextRound(m, 9, v9, 0x00000000, v10);
    var v11 := Vars(0x4798a3f4, 0x8c87346b, 0x8e04ecb9, 0x85a07b5f, 0x436b23e8, 0x1cc92596, 0x32ca2d8c, 0x0c657a79);
    NextRound(m, 10, v10, 0x00000000, v11);
    var v12 := Vars(0xf71fc5a9, 0x4798a3f4, 0x8c87346b, 0x8e04ecb9, 0x816fd6e9, 0x436b23e8, 0x1cc92596, 0x32ca2d8c);
    NextRound(m, 11, v11, 0x00000000, v12);
    var v13 := Vars(0x87912990, 0xf71fc5a9, 0x4798a3f4, 0x8c87346b, 0x1e578218, 0x816fd6e9, 0x436b23e8, 0x1cc92596);
    NextRound(m, 12, v12, 0x00000000, v13);
    var v14 := Vars(0xd932eb16, 0x87912990, 0xf71fc5a9, 0x4798a3f4, 0x745a48de, 0x1e578218, 0x816fd6e9, 0x436b23e8);
    NextRound(m, 13, v13, 0x00000000, v14);
    var v15 := Vars(0xc0645fde, 0xd932eb16, 0x87912990, 0xf71fc5a9, 0x0b92f20c, 0x745a48de, 0x1e578218, 0x816fd6e9);
    NextRound(m, 14, v14, 0x00000000, v15);
    var v16 := Vars(0xb0fa238e, 0xc0645fde, 0xd932eb16, 0x87912990, 0x07590dcd, 0x0b92f20c, 0x745a48de, 0x1e578218);
    NextRound(m, 15, v15, 0x00000018, v16);
  }

  lemma Functions16()
    ensures BigSigma1(0x07590dcd) == 0x213b6995 && Ch(0x07590dcd, 0x0b92f20c, 0x745a48de) == 0x7312401e
    ensures BigSigma0(0xb0fa238e) == 0x58c535f1 && Maj(0xb0fa238e, 0xc0645fde, 0xd932eb16) == 0xd0726b9e
    ensures BigSigma1(0x8034229c) == 0x3b81984e && Ch(0x8034229c, 0x07590dcd, 0x0b92f20c) == 0x0b92d08c
    ensures BigSigma0(0x21da9a9b) == 0x76c5c4f5 && Maj(0x21da9a9b, 0xb0fa238e, 0xc0645fde) == 0xa0fa1b9e
    ensures BigSigma1(0x846ee454) == 0xeff31c0f && Ch(0x846ee454, 0x8034229c, 0x07590dcd) == 0x8335299d
    ensures BigSigma0(0xc2fbd9d1) == 0x5157a6a1 && Maj(0xc2fbd9d1, 0x21da9a9b, 0xb0fa238e) == 0xa0fa9b9b
    ensures BigSigma1(0xcc899961) == 0xefc707b0 && Ch(0xcc899961, 0x846ee454, 0x8034229c) == 0x843ca2dc
    ensures BigSigma0(0xfe777bbf) == 0xff8cd2ad && Maj(0xfe777bbf, 0xc2fbd9d1, 0x21da9a9b) == 0xe2fbdb9b
    ensures BigSigma1(0xb0638179) == 0xf8373ead && Ch(0xb0638179, 0xcc899961, 0x846ee454) == 0x840de565
    ensures BigSigma0(0xe1f20c33) == 0x51d3431b && Maj(0xe1f20c33, 0xfe777bbf, 0xc2fbd9d1) == 0xe2f359b3
    ensures BigSigma1(0x8ada8930) == 0x897ea930 && Ch(0x8ada8930, 0xb0638179, 0xcc899961) == 0xc4439171
    ensures BigSigma0(0x9dc68b63) == 0xa640c29b && Maj(0x9dc68b63, 0xe1f20c33, 0xfe777bbf) == 0xfdf60b33
    ensures BigSigma1(0xe1257970) == 0x7f24093a && Ch(0xe1257970, 0x8ada8930, 0xb0638179) == 0x90428939
    ensures BigSigma0(0xc2606d6d) == 0x9a43bf51 && Maj(0xc2606d6d, 0x9dc68b63, 0xe1f20c33) == 0xc1e20d63
    ensures BigSigma1(0x49f5114a) == 0xfae64fc3 && Ch(0x49f5114a, 0xe1257970, 0x8ada8930) == 0xc32f9970
    ensures BigSigma0(0xa7a3623f) == 0x759d1b0a && Maj(0xa7a3623f, 0xc2606d6d, 0x9dc68b63) == 0x87e26b6f
  {
  }

  lemma Constants16()
    ensures K(16) == 0xe49b69c1 && K(17) == 0xefbe4786 && K(18) == 0x0fc19dc6 && K(19) == 0x240ca1cc
    ensures K(20) == 0x2de92c6f && K(21) == 0x4a7484aa && K(22) == 0x5cb0a9dc && K(23) == 0x76f988da
  {
  }

  lemma Rounds16(m: seq<Word>)
    requires Words16(m)
    requires After(m, 16,
      Vars(0xb0fa238e, 0xc0645fde, 0xd932eb16, 0x87912990, 0x07590dcd, 0x0b92f20c, 0x745a48de, 0x1e578218))
    ensures After(m, 24,
      Vars(0xc5d53d8d, 0xa7a3623f, 0xc2606d6d, 0x9dc68b63, 0xaa47c347, 0x49f5114a, 0xe1257970, 0x8ada8930))
  {
    hide BigSigma1, BigSigma0, Ch, Maj, K, After, Scheduled;
    Functions16();
    Constants16();
    var v16 := Vars(0xb0fa238e, 0xc0645fde, 0xd932eb16, 0x87912990, 0x07590dcd, 0x0b92f20c, 0x745a48de, 0x1e578218);
    var v17 := Vars(0x21da9a9b, 0xb0fa238e, 0xc0645fde, 0xd932eb16, 0x8034229c, 0x07590dcd, 0x0b92f20c, 0x745a48de);
    NextRound(m, 16, v16, 0x61626380, v17);
    var v18 := Vars(0xc2fbd9d1, 0x21da9a9b, 0xb0fa238e, 0xc0645fde, 0x846ee454, 0x8034229c, 0x07590dcd, 0x0b92f20c);
    NextRound(m, 17, v17, 0x000f0000, v18);
    var v19 := Vars(0xfe777bbf, 0xc2fbd9d1, 0x21da9a9b, 0xb0fa238e, 0xcc899961, 0x846ee454, 0x8034229c, 0x07590dcd);
    NextRound(m, 18, v18, 0x7da86405, v19);
    var v20 := Vars(0xe1f20c33, 0xfe777bbf, 0xc2fbd9d1, 0x21da9a9b, 0xb0638179, 0xcc899961, 0x846ee454, 0x8034229c);
    NextRound(m, 19, v19, 0x600003c6, v20);
    var v21 := Vars(0x9dc68b63, 0xe1f20c33, 0xfe777bbf, 0xc2fbd9d1, 0x8ada8930, 0xb0638179, 0xcc899961, 0x846ee454);
    NextRound(m, 20, v20, 0x3e9d7b78, v21);
    var v22 := Vars(0xc2606d6d, 0x9dc68b63, 0xe1f20c33, 0xfe777bbf, 0xe1257970, 0x8ada8930, 0xb0638179, 0xcc899961);
    NextRound(m, 21, v21, 0x0183fc00, v22);
    var v23 := Vars(0xa7a3623f, 0xc2606d6d, 0x9dc68b63, 0xe1f20c33, 0x49f5114a, 0xe1257970, 0x8ada8930, 0xb0638179);
    NextRound(m, 22, v22, 0x12dcbfdb, v23);
    var v24 := Vars(0xc5d53d8d, 0xa7a3623f, 0xc2606d6d, 0x9dc68b63, 0xaa47c347, 0x49f5114a, 0xe1257970, 0x8ada8930);
    NextRound(m, 23, v23, 0xe2e2c38e, v24);
  }

  lemma Functions24()
    ensures BigSigma1(0xaa47c347) == 0x55bdf420 && Ch(0xaa47c347, 0x49f5114a, 0xe1257970) == 0x49653972
    ensures BigSigma0(0xc5d53d8d) == 0xc9ed56dd && Maj(0xc5d53d8d, 0xa7a3623f, 0xc2606d6d) == 0xc7e16d2d
    ensures BigSigma1(0x2823ef91) == 0xa7724357 && Ch(0x2823ef91, 0xaa47c347, 0x49f5114a) == 0x69d7d34b
    ensures BigSigma0(0x1c2c2838) == 0xf66b0b1f && Maj(0x1c2c2838, 0xc5d53d8d, 0xa7a3623f) == 0x85a5283d
    ensures BigSigma1(0x14383d8e) == 0x958ca0fb && Ch(0x14383d8e, 0x2823ef91, 0xaa47c347) == 0xaa67efc1
    ensures BigSigma0(0xcde8037d) == 0xc89998a8 && Maj(0xcde8037d, 0x1c2c2838, 0xc5d53d8d) == 0xcdec293d
    ensures BigSigma1(0xc74c6516) == 0x5ff7537b && Ch(0xc74c6516, 0x14383d8e, 0x2823ef91) == 0x2c2baf87
    ensures BigSigma0(0xb62ec4bc) == 0xb37cf281 && Maj(0xb62ec4bc, 0xcde8037d, 0x1c2c2838) == 0x9c2c003c
    ensures BigSigma1(0xedffbff8) == 0xe375bd7e && Ch(0xedffbff8, 0xc74c6516, 0x14383d8e) == 0xd54c2516
    ensures BigSigma0(0x77d37528) == 0xf963c20e && Maj(0x77d37528, 0xb62ec4bc, 0xcde8037d) == 0xf7ea453c
    ensures BigSigma1(0x6112a3b7) == 0x2239b36a && Ch(0x6112a3b7, 0xedffbff8, 0xc74c6516) == 0xe75ee7b0
    ensures BigSigma0(0x363482c9) == 0x89cfb5ce && Maj(0x363482c9, 0x77d37528, 0xb62ec4bc) == 0x3636c4a8
    ensures BigSigma1(0xade79437) == 0xab883974 && Ch(0xade79437, 0x6112a3b7, 0xedffbff8) == 0x611aabff
    ensures BigSigma0(0xa0060b30) == 0x69a8407c && Maj(0xa0060b30, 0x363482c9, 0x77d37528) == 0x36160328
    ensures BigSigma1(0x0109ab3a) == 0x0b919a99 && Ch(0x0109ab3a, 0xade79437, 0x6112a3b7) == 0x611380b7
    ensures BigSigma0(0xea992a22) == 0x8f1995eb && Maj(0xea992a22, 0xa0060b30, 0x363482c9) == 0xa2140a20
  {
  }

  lemma Constants24()
    ensures K(24) == 0x983e5152 && K(25) == 0xa831c66d && K(26) == 0xb00327c8 && K(27) == 0xbf597fc7
    ensures K(28) == 0xc6e00bf3 && K(29) == 0xd5a79147 && K(30) == 0x06ca6351 && K(31) == 0x14292967
  {
  }

  lemma Rounds24(m: seq<Word>)
    requires Words24(m)
    requires After(m, 24,
      Vars(0xc5d53d8d, 0xa7a3623f, 0xc2606d6d, 0x9dc68b63, 0xaa47c347, 0x49f5114a, 0xe1257970, 0x8ada8930))
    ensures After(m, 32,
      Vars(0x73b33bf5, 0xea992a22, 0xa0060b30, 0x363482c9, 0xba591112, 0x0109ab3a, 0xade79437, 0x6112a3b7))
  {
    hide BigSigma1, BigSigma0, Ch, Maj, K, After, Scheduled;
    Functions24();
    Constants24();
    var v24 := Vars(0xc5d53d8d, 0xa7a3623f, 0xc2606d6d, 0x9dc68b63, 0xaa47c347, 0x49f5114a, 0xe1257970, 0x8ada8930);
    var v25 := Vars(0x1c2c2838, 0xc5d53d8d, 0xa7a3623f, 0xc2606d6d, 0x2823ef91, 0xaa47c347, 0x49f5114a, 0xe1257970);
    NextRound(m, 24, v24, 0xc8215c1a, v25);
    var v26 := Vars(0xcde8037d, 0x1c2c2838, 0xc5d53d8d, 0xa7a3623f, 0x14383d8e, 0x2823ef91, 0xaa47c347, 0x49f5114a);
    NextRound(m, 25, v25, 0xb73679a2, v26);
    var v27 := Vars(0xb62ec4bc, 0xcde8037d, 0x1c2c2838, 0xc5d53d8d, 0xc74c6516, 0x14383d8e, 0x2823ef91, 0xaa47c347);
    NextRound(m, 26, v26, 0xe5bc3909, v27);
    var v28 := Vars(0x77d37528, 0xb62ec4bc, 0xcde8037d, 0x1c2c2838, 0xedffbff8, 0xc74c6516, 0x14383d8e, 0x2823ef91);
    NextRound(m, 27, v27, 0x32663c5b, v28);
    var v29 := Vars(0x363482c9, 0x77d37528, 0xb62ec4bc, 0xcde8037d, 0x6112a3b7, 0xedffbff8, 0xc74c6516, 0x14383d8e);
    NextRound(m, 28, v28, 0x9d209d67, v29);
    var v30 := Vars(0xa0060b30, 0x363482c9, 0x77d37528, 0xb62ec4bc, 0xade79437, 0x6112a3b7, 0xedffbff8, 0xc74c6516);
    NextRound(m, 29, v29, 0xec8726cb, v30);
    var v31 := Vars(0xea992a22, 0xa0060b30, 0x363482c9, 0x77d37528, 0x0109ab3a, 0xade79437, 0x6112a3b7, 0xedffbff8);
    NextRound(m, 30, v30, 0x702138a4, v31);
    var v32 := Vars(0x73b33bf5, 0xea992a22, 0xa0060b30, 0x363482c9, 0xba591112, 0x0109ab3a, 0xade79437, 0x6112a3b7);
    NextRound(m, 31, v31, 0xd3b7973b, v32);
  }

  lemma Functions32()
    ensures BigSigma1(0xba591112) == 0x4436a63b && Ch(0xba591112, 0x0109ab3a, 0xade79437) == 0x05af8537
    ensures BigSigma0(0x73b33bf5) == 0x4fa886aa && Maj(0x73b33bf5, 0xea992a22, 0xa0060b30) == 0xe2932b30
    ensures BigSigma1(0x9cd9f5f6) == 0x085a07a7 && Ch(0x9cd9f5f6, 0xba591112, 0x0109ab3a) == 0x99591b1a
    ensures BigSigma0(0x98e12507) == 0x4a90902b && Maj(0x98e12507, 0x73b33bf5, 0xea992a22) == 0xfab12b27
    ensures BigSigma1(0x59249dd3) == 0x65415f48 && Ch(0x59249dd3, 0x9cd9f5f6, 0xba591112) == 0xba5995d2
    ensures BigSigma0(0xfe604df5) == 0x91003786 && Maj(0xfe604df5, 0x98e12507, 0x73b33bf5) == 0xfae12df5
    ensures BigSigma1(0x085f3833) == 0xe5dc6e83 && Ch(0x085f3833, 0x59249dd3, 0x9cd9f5f6) == 0x9c84ddd7
    ensures BigSigma0(0xa9a7738c) == 0x2bc2a37e && Maj(0xa9a7738c, 0xfe604df5, 0x98e12507) == 0xb8e16585
    ensures BigSigma1(0xf4b002d6) == 0x590d3d71 && Ch(0xf4b002d6, 0x085f3833, 0x59249dd3) == 0x09149d13
    ensures BigSigma0(0x65a0cfe4) == 0xe5748f69 && Maj(0x65a0cfe4, 0xa9a7738c, 0xfe604df5) == 0xeda04fe4
    ensures BigSigma1(0x0772a26b) == 0x582c115e && Ch(0x0772a26b, 0xf4b002d6, 0x085f3833) == 0x0c3d1a52
    ensures BigSigma0(0x41a65cb1) == 0x2c915f18 && Maj(0x41a65cb1, 0x65a0cfe4, 0xa9a7738c) == 0x61a65fa4
    ensures BigSigma1(0xa507a53d) == 0xd2f220b2 && Ch(0xa507a53d, 0x0772a26b, 0xf4b002d6) == 0x55b2a2eb
    ensures BigSigma0(0x34df1604) == 0xc14e73aa && Maj(0x34df1604, 0x41a65cb1, 0x65a0cfe4) == 0x65a65ea4
    ensures BigSigma1(0xf0781bc8) == 0x66d20b14 && Ch(0xf0781bc8, 0xa507a53d, 0x0772a26b) == 0xa702a12b
    ensures BigSigma0(0x6dc57a8a) == 0x5ac8193e && Maj(0x6dc57a8a, 0x34df1604, 0x41a65cb1) == 0x65c75e80
  {
  }

  lemma Constants32()
    ensures K(32) == 0x27b70a85 && K(33) == 0x2e1b2138 && K(34) == 0x4d2c6dfc && K(35) == 0x53380d13
    ensures K(36) == 0x650a7354 && K(37) == 0x766a0abb && K(38) == 0x81c2c92e && K(39) == 0x92722c85
  {
  }

  lemma Rounds32(m: seq<Word>)
    requires Words32(m)
    requires After(m, 32,
      Vars(0x73b33bf5, 0xea992a22, 0xa0060b30, 0x363482c9, 0xba591112, 0x0109ab3a, 0xade79437, 0x6112a3b7))
    ensures After(m, 40,
      Vars(0x79ea687a, 0x6dc57a8a, 0x34df1604, 0x41a65cb1, 0x1efbc0a0, 0xf0781bc8, 0xa507a53d, 0x0772a26b))
  {
    hide BigSigma1, BigSigma0, Ch, Maj, K, After, Scheduled;
    Functions32();
    Constants32();
    var v32 := Vars(0x73b33bf5, 0xea992a22, 0xa0060b30, 0x363482c9, 0xba591112, 0x0109ab3a, 0xade79437, 0x6112a3b7);
    var v33 := Vars(0x98e12507, 0x73b33bf5, 0xea992a22, 0xa0060b30, 0x9cd9f5f6, 0xba591112, 0x0109ab3a, 0xade79437);
    NextRound(m, 32, v32, 0x93f5997f, v33);
    var v34 := Vars(0xfe604df5, 0x98e12507, 0x73b33bf5, 0xea992a22, 0x59249dd3, 0x9cd9f5f6, 0xba591112, 0x0109ab3a);
    NextRound(m, 33, v33, 0x3b68ba73, v34);
    var v35 := Vars(0xa9a7738c, 0xfe604df5, 0x98e12507, 0x73b33bf5, 0x085f3833, 0x59249dd3, 0x9cd9f5f6, 0xba591112);
    NextRound(m, 34, v34, 0xaff4ffc1, v35);
    var v36 := Vars(0x65a0cfe4, 0xa9a7738c, 0xfe604df5, 0x98e12507, 0xf4b002d6, 0x085f3833, 0x59249dd3, 0x9cd9f5f6);
    NextRound(m, 35, v35, 0xf10a5c62, v36);
    var v37 := Vars(0x41a65cb1, 0x65a0cfe4, 0xa9a7738c, 0xfe604df5, 0x0772a26b, 0xf4b002d6, 0x085f3833, 0x59249dd3);
    NextRound(m, 36, v36, 0x0a8b3996, v37);
    var v38 := Vars(0x34df1604, 0x41a65cb1, 0x65a0cfe4, 0xa9a7738c, 0xa507a53d, 0x0772a26b, 0xf4b002d6, 0x085f3833);
    NextRound(m, 37, v37, 0x72af830a, v38);
    var v39 := Vars(0x6dc57a8a, 0x34df1604, 0x41a65cb1, 0x65a0cfe4, 0xf0781bc8, 0xa507a53d, 0x0772a26b, 0xf4b002d6);
    NextRound(m, 38, v38, 0x9409e33e, v39);
    var v40 := Vars(0x79ea687a, 0x6dc57a8a, 0x34df1604, 0x41a65cb1, 0x1efbc0a0, 0xf0781bc8, 0xa507a53d, 0x0772a26b);
    NextRound(m, 39, v39, 0x24641522, v40);
  }

  lemma Functions40()
    ensures BigSigma1(0x1efbc0a0) == 0xe9986075 && Ch(0x1efbc0a0, 0xf0781bc8, 0xa507a53d) == 0xb17c259d
    ensures BigSigma0(0x79ea687a) == 0x7408bcaa && Maj(0x79ea687a, 0x6dc57a8a, 0x34df1604) == 0x7dcf7a0a
    ensures BigSigma1(0x26352d63) == 0x3a6aa383 && Ch(0x26352d63, 0x1efbc0a0, 0xf0781bc8) == 0xd67912a8
    ensures BigSigma0(0xd6670766) == 0x12b2e9b8 && Maj(0xd6670766, 0x79ea687a, 0x6dc57a8a) == 0x7de76a6a
    ensures BigSigma1(0x838b2711) == 0x61add539 && Ch(0x838b2711, 0x26352d63, 0x1efbc0a0) == 0x1e71e5a1
    ensures BigSigma0(0xdf46652f) == 0xc73bdc05 && Maj(0xdf46652f, 0xd6670766, 0x79ea687a) == 0xdf66656e
    ensures BigSigma1(0xdecd4715) == 0xd363665b && Ch(0xdecd4715, 0x838b2711, 0x26352d63) == 0xa2b92f73
    ensures BigSigma0(0x17aa0dfe) == 0x422dc671 && Maj(0x17aa0dfe, 0xdf46652f, 0xd6670766) == 0xd766056e
    ensures BigSigma1(0xfda24c2e) == 0xef0f2a07 && Ch(0xfda24c2e, 0xdecd4715, 0x838b2711) == 0xde896715
    ensures BigSigma0(0x9d4baf93) == 0xb5704fcc && Maj(0x9d4baf93, 0x17aa0dfe, 0xdf46652f) == 0x9f4a2dbf
    ensures BigSigma1(0xa80f11f0) == 0xfb3dc5f1 && Ch(0xa80f11f0, 0xfda24c2e, 0xdecd4715) == 0xfec24625
    ensures BigSigma0(0x26628815) == 0x8311c588 && Maj(0x26628815, 0x9d4baf93, 0x17aa0dfe) == 0x176a8d97
    ensures BigSigma1(0xb7755da1) == 0x8845eb06 && Ch(0xb7755da1, 0xa80f11f0, 0xfda24c2e) == 0xe88711ae
    ensures BigSigma0(0x72ab4b91) == 0xad0f0274 && Maj(0x72ab4b91, 0x26628815, 0x9d4baf93) == 0x366b8b91
    ensures BigSigma1(0xd57b94a9) == 0x8fa515ca && Ch(0xd57b94a9, 0xb7755da1, 0xa80f11f0) == 0xbd7515f1
    ensures BigSigma0(0xa14c14b0) == 0xbd84cdc9 && Maj(0xa14c14b0, 0x72ab4b91, 0x26628815) == 0x226a0891
  {
  }

  lemma Constants40()
    ensures K(40) == 0xa2bfe8a1 && K(41) == 0xa81a664b && K(42) == 0xc24b8b70 && K(43) == 0xc76c51a3
    ensures K(44) == 0xd192e819 && K(45) == 0xd6990624 && K(46) == 0xf40e3585 && K(47) == 0x106aa070
  {
  }

  lemma Rounds40(m: seq<Word>)
    requires Words40(m)
    requires After(m, 40,
      Vars(0x79ea687a, 0x6dc57a8a, 0x34df1604, 0x41a65cb1, 0x1efbc0a0, 0xf0781bc8, 0xa507a53d, 0x0772a26b))
    ensures After(m, 48,
      Vars(0x4172328d, 0xa14c14b0, 0x72ab4b91, 0x26628815, 0xfecf0bc6, 0xd57b94a9, 0xb7755da1, 0xa80f11f0))
  {
    hide BigSigma1, BigSigma0, Ch, Maj, K, After, Scheduled;
    Functions40();
    Constants40();
    var v40 := Vars(0x79ea687a, 0x6dc57a8a, 0x34df1604, 0x41a65cb1, 0x1efbc0a0, 0xf0781bc8, 0xa507a53d, 0x0772a26b);
    var v41 := Vars(0xd6670766, 0x79ea687a, 0x6dc57a8a, 0x34df1604, 0x26352d63, 0x1efbc0a0, 0xf0781bc8, 0xa507a53d);
    NextRound(m, 40, v40, 0x9f47bf94, v41);
    var v42 := Vars(0xdf46652f, 0xd6670766, 0x79ea687a, 0x6dc57a8a, 0x838b2711, 0x26352d63, 0x1efbc0a0, 0xf0781bc8);
    NextRound(m, 41, v41, 0xf0a64f5a, v42);
    var v43 := Vars(0x17aa0dfe, 0xdf46652f, 0xd6670766, 0x79ea687a, 0xdecd4715, 0x838b2711, 0x26352d63, 0x1efbc0a0);
    NextRound(m, 42, v42, 0x3e246a79, v43);
    var v44 := Vars(0x9d4baf93, 0x17aa0dfe, 0xdf46652f, 0xd6670766, 0xfda24c2e, 0xdecd4715, 0x838b2711, 0x26352d63);
    NextRound(m, 43, v43, 0x27333ba3, v44);
    var v45 := Vars(0x26628815, 0x9d4baf93, 0x17aa0dfe, 0xdf46652f, 0xa80f11f0, 0xfda24c2e, 0xdecd4715, 0x838b2711);
    NextRound(m, 44, v44, 0x0c4763f2, v45);
    var v46 := Vars(0x72ab4b91, 0x26628815, 0x9d4baf93, 0x17aa0dfe, 0xb7755da1, 0xa80f11f0, 0xfda24c2e, 0xdecd4715);
    NextRound(m, 45, v45, 0x840abf27, v46);
    var v47 := Vars(0xa14c14b0, 0x72ab4b91, 0x26628815, 0x9d4baf93, 0xd57b94a9, 0xb7755da1, 0xa80f11f0, 0xfda24c2e);
    NextRound(m, 46, v46, 0x7a290d5d, v47);
    var v48 := Vars(0x4172328d, 0xa14c14b0, 0x72ab4b91, 0x26628815, 0xfecf0bc6, 0xd57b94a9, 0xb7755da1, 0xa80f11f0);
    NextRound(m, 47, v47, 0x065c43da, v48);
  }

  lemma Functions48()
    ensures BigSigma1(0xfecf0bc6) == 0x04a106b1 && Ch(0xfecf0bc6, 0xd57b94a9, 0xb7755da1) == 0xd57b54a1
    ensures BigSigma0(0x4172328d) == 0x0cfcb237 && Maj(0x4172328d, 0xa14c14b0, 0x72ab4b91) == 0x616a1291
    ensures BigSigma1(0xbd714038) == 0x5d427776 && Ch(0xbd714038, 0xfecf0bc6, 0xd57b94a9) == 0xfc4b9481
    ensures BigSigma0(0x05757ceb) == 0xf3f6d884 && Maj(0x05757ceb, 0x4172328d, 0xa14c14b0) == 0x017434a9
    ensures BigSigma1(0x6e5c390c) == 0x3e283d54 && Ch(0x6e5c390c, 0xbd714038, 0xfecf0bc6) == 0xbcd302ca
    ensures BigSigma0(0xf11bfaa8) == 0x86ebd5b1 && Maj(0xf11bfaa8, 0x05757ceb, 0x4172328d) == 0x41737aa9
    ensures BigSigma1(0x52f1ccf7) == 0x3b47e2a3 && Ch(0x52f1ccf7, 0x6e5c390c, 0xbd714038) == 0xef50080c
    ensures BigSigma0(0x7a0508a1) == 0x0fa817e8 && Maj(0x7a0508a1, 0xf11bfaa8, 0x05757ceb) == 0x711578a9
    ensures BigSigma1(0x49231c1e) == 0x6b63a737 && Ch(0x49231c1e, 0x52f1ccf7, 0x6e5c390c) == 0x667d2d16
    ensures BigSigma0(0x886e7a22) == 0xcae757da && Maj(0x886e7a22, 0x7a0508a1, 0xf11bfaa8) == 0xf80f7aa0
    ensures BigSigma1(0x529e7d00) == 0xee7eaa12 && Ch(0x529e7d00, 0x49231c1e, 0x52f1ccf7) == 0x40639cf7
    ensures BigSigma0(0x101fd28f) == 0x2f35481d && Maj(0x101fd28f, 0x886e7a22, 0x7a0508a1) == 0x180f5aa3
    ensures BigSigma1(0x9f4787c3) == 0x55cd1720 && Ch(0x9f4787c3, 0x529e7d00, 0x49231c1e) == 0x52261d1c
    ensures BigSigma0(0xf5702fdb) == 0x433ccfa2 && Maj(0xf5702fdb, 0x101fd28f, 0x886e7a22) == 0x907e7a8b
    ensures BigSigma1(0xe50e1b4f) == 0xd1653e5c && Ch(0xe50e1b4f, 0x9f4787c3, 0x529e7d00) == 0x97966743
    ensures BigSigma0(0x3ec45cdb) == 0x381b8def && Maj(0x3ec45cdb, 0xf5702fdb, 0x101fd28f) == 0x34545edb
  {
  }

  lemma Constants48()
    ensures K(48) == 0x19a4c116 && K(49) == 0x1e376c08 && K(50) == 0x2748774c && K(51) == 0x34b0bcb5
    ensures K(52) == 0x391c0cb3 && K(53) == 0x4ed8aa4a && K(54) == 0x5b9cca4f && K(55) == 0x682e6ff3
  {
  }

  lemma Rounds48(m: seq<Word>)
    requires Words48(m)
    requires After(m, 48,
      Vars(0x4172328d, 0xa14c14b0, 0x72ab4b91, 0x26628815, 0xfecf0bc6, 0xd57b94a9, 0xb7755da1, 0xa80f11f0))
    ensures After(m, 56,
      Vars(0x38cc9913, 0x3ec45cdb, 0xf5702fdb, 0x101fd28f, 0x54cb266b, 0xe50e1b4f, 0x9f4787c3, 0x529e7d00))
  {
    hide BigSigma1, BigSigma0, Ch, Maj, K, After, Scheduled;
    Functions48();
    Constants48();
    var v48 := Vars(0x4172328d, 0xa14c14b0, 0x72ab4b91, 0x26628815, 0xfecf0bc6, 0xd57b94a9, 0xb7755da1, 0xa80f11f0);
    var v49 := Vars(0x05757ceb, 0x4172328d, 0xa14c14b0, 0x72ab4b91, 0xbd714038, 0xfecf0bc6, 0xd57b94a9, 0xb7755da1);
    NextRound(m, 48, v48, 0xfb3e89cb, v49);
    var v50 := Vars(0xf11bfaa8, 0x05757ceb, 0x4172328d, 0xa14c14b0, 0x6e5c390c, 0xbd714038, 0xfecf0bc6, 0xd57b94a9);
    NextRound(m, 49, v49, 0xcc7617db, v50);
    var v51 := Vars(0x7a0508a1, 0xf11bfaa8, 0x05757ceb, 0x4172328d, 0x52f1ccf7, 0x6e5c390c, 0xbd714038, 0xfecf0bc6);
    NextRound(m, 50, v50, 0xb9e66c34, v51);
    var v52 := Vars(0x886e7a22, 0x7a0508a1, 0xf11bfaa8, 0x05757ceb, 0x49231c1e, 0x52f1ccf7, 0x6e5c390c, 0xbd714038);
    NextRound(m, 51, v51, 0xa9993667, v52);
    var v53 := Vars(0x101fd28f, 0x886e7a22, 0x7a0508a1, 0xf11bfaa8, 0x529e7d00, 0x49231c1e, 0x52f1ccf7, 0x6e5c390c);
    NextRound(m, 52, v52, 0x84badedd, v53);
    var v54 := Vars(0xf5702fdb, 0x101fd28f, 0x886e7a22, 0x7a0508a1, 0x9f4787c3, 0x529e7d00, 0x49231c1e, 0x52f1ccf7);
    NextRound(m, 53, v53, 0xc21462bc, v54);
    var v55 := Vars(0x3ec45cdb, 0xf5702fdb, 0x101fd28f, 0x886e7a22, 0xe50e1b4f, 0x9f4787c3, 0x529e7d00, 0x49231c1e);
    NextRound(m, 54, v54, 0x1487472c, v55);
    var v56 := Vars(0x38cc9913, 0x3ec45cdb, 0xf5702fdb, 0x101fd28f, 0x54cb266b, 0xe50e1b4f, 0x9f4787c3, 0x529e7d00);
    NextRound(m, 55, v55, 0xb20f7a99, v56);
  }

  lemma Functions56()
    ensures BigSigma1(0x54cb266b) == 0x05aa8057 && Ch(0x54cb266b, 0xe50e1b4f, 0x9f4787c3) == 0xcf0e83cb
    ensures BigSigma0(0x38cc9913) == 0x34ceacc3 && Maj(0x38cc9913, 0x3ec45cdb, 0xf5702fdb) == 0x3cc41ddb
    ensures BigSigma1(0x9b5e906c) == 0x10b627de && Ch(0x9b5e906c, 0x54cb266b, 0xe50e1b4f) == 0x744a0b6b
    ensures BigSigma0(0xfcd1887b) == 0xfaca6b61 && Maj(0xfcd1887b, 0x38cc9913, 0x3ec45cdb) == 0x3cc4985b
    ensures BigSigma1(0x7e44008e) == 0x0a369fbd && Ch(0x7e44008e, 0x9b5e906c, 0x54cb266b) == 0x1acf266d
    ensures BigSigma0(0xc062d46f) == 0xd837090c && Maj(0xc062d46f, 0xfcd1887b, 0x38cc9913) == 0xf8c0987b
    ensures BigSigma1(0x6d83bfc6) == 0x20a45dbe && Ch(0x6d83bfc6, 0x7e44008e, 0x9b5e906c) == 0xfe5c00ae
    ensures BigSigma0(0xffb70472) == 0x406bf75a && Maj(0xffb70472, 0xc062d46f, 0xfcd1887b) == 0xfcf3847b
    ensures BigSigma1(0xb21bad3d) == 0x5ca8b318 && Ch(0xb21bad3d, 0x6d83bfc6, 0x7e44008e) == 0x6c47ad86
    ensures BigSigma0(0xb6ae8fff) == 0x2869e851 && Maj(0xb6ae8fff, 0xffb70472, 0xc062d46f) == 0xf6a6847f
    ensures BigSigma1(0x961f4894) == 0x4f6ef480 && Ch(0x961f4894, 0xb21bad3d, 0x6d83bfc6) == 0xfb9bbf56
    ensures BigSigma0(0xb85e2ce9) == 0x71e9ef2a && Maj(0xb85e2ce9, 0xb6ae8fff, 0xffb70472) == 0xbebe0cfb
    ensures BigSigma1(0x948d25b6) == 0x2a127e78 && Ch(0x948d25b6, 0x961f4894, 0xb21bad3d) == 0xb61f889d
    ensures BigSigma0(0x04d24d6c) == 0x236105da && Maj(0x04d24d6c, 0xb85e2ce9, 0xb6ae8fff) == 0xb4de0ded
    ensures BigSigma1(0xfb121210) == 0x88fa2277 && Ch(0xfb121210, 0x948d25b6, 0x961f4894) == 0x940d4894
    ensures BigSigma0(0xd39a2165) == 0x174d83c6 && Maj(0xd39a2165, 0x04d24d6c, 0xb85e2ce9) == 0x90da2d6d
  {
  }

  lemma Constants56()
    ensures K(56) == 0x748f82ee && K(57) == 0x78a5636f && K(58) == 0x84c87814 && K(59) == 0x8cc70208
    ensures K(60) == 0x90befffa && K(61) == 0xa4506ceb && K(62) == 0xbef9a3f7 && K(63) == 0xc67178f2
  {
  }

  lemma Rounds56(m: seq<Word>)
    requires Words56(m)
    requires After(m, 56,
      Vars(0x38cc9913, 0x3ec45cdb, 0xf5702fdb, 0x101fd28f, 0x54cb266b, 0xe50e1b4f, 0x9f4787c3, 0x529e7d00))
    ensures After(m, 64,
      Vars(0x506e3058, 0xd39a2165, 0x04d24d6c, 0xb85e2ce9, 0x5ef50f24, 0xfb121210, 0x948d25b6, 0x961f4894))
  {
    hide BigSigma1, BigSigma0, Ch, Maj, K, After, Scheduled;
    Functions56();
    Constants56();
    var v56 := Vars(0x38cc9913, 0x3ec45cdb, 0xf5702fdb, 0x101fd28f, 0x54cb266b, 0xe50e1b4f, 0x9f4787c3, 0x529e7d00);
    var v57 := Vars(0xfcd1887b, 0x38cc9913, 0x3ec45cdb, 0xf5702fdb, 0x9b5e906c, 0x54cb266b, 0xe50e1b4f, 0x9f4787c3);
    NextRound(m, 56, v56, 0xef57b9cd, v57);
    var v58 := Vars(0xc062d46f, 0xfcd1887b, 0x38cc9913, 0x3ec45cdb, 0x7e44008e, 0x9b5e906c, 0x54cb266b, 0xe50e1b4f);
    NextRound(m, 57, v57, 0xebe6b238, v58);
    var v59 := Vars(0xffb70472, 0xc062d46f, 0xfcd1887b, 0x38cc9913, 0x6d83bfc6, 0x7e44008e, 0x9b5e906c, 0x54cb266b);
    NextRound(m, 58, v58, 0x9fe3095e, v59);
    var v60 := Vars(0xb6ae8fff, 0xffb70472, 0xc062d46f, 0xfcd1887b, 0xb21bad3d, 0x6d83bfc6, 0x7e44008e, 0x9b5e906c);
    NextRound(m, 59, v59, 0x78bc8d4b, v60);
    var v61 := Vars(0xb85e2ce9, 0xb6ae8fff, 0xffb70472, 0xc062d46f, 0x961f4894, 0xb21bad3d, 0x6d83bfc6, 0x7e44008e);
    NextRound(m, 60, v60, 0xa43fcf15, v61);
    var v62 := Vars(0x04d24d6c, 0xb85e2ce9, 0xb6ae8fff, 0xffb70472, 0x948d25b6, 0x961f4894, 0xb21bad3d, 0x6d83bfc6);
    NextRound(m, 61, v61, 0x668b2ff8, v62);
    var v63 := Vars(0xd39a2165, 0x04d24d6c, 0xb85e2ce9, 0xb6ae8fff, 0xfb121210, 0x948d25b6, 0x961f4894, 0xb21bad3d);
    NextRound(m, 62, v62, 0xeeaba2cc, v63);
    var v64 := Vars(0x506e3058, 0xd39a2165, 0x04d24d6c, 0xb85e2ce9, 0x5ef50f24, 0xfb121210, 0x948d25b6, 0x961f4894);
    NextRound(m, 63, v63, 0x12b1edeb, v64);
  }

  /** The digest of "abc" is the published one. */
  lemma KnownAnswer()
    ensures Hash(START, MESSAGE) == DIGEST
  {
    BlockWords();
    var m := Words(MESSAGE);
    FirstWords(m);
    NoRounds(m);
    hide After, Scheduled, Words;
    Schedule16(m);
    Schedule24(m);
    Schedule32(m);
    Schedule40(m);
    Schedule48(m);
    Schedule56(m);
    Rounds0(m);
    Rounds8(m);
    Rounds16(m);
    Rounds24(m);
    Rounds32(m);
    Rounds40(m);
    Rounds48(m);
    Rounds56(m);
    Digested(m);
  }

  lemma NoRounds(m: seq<Word>)
    requires |m| == 16
    ensures After(m, 0, START)
  {
  }

  lemma Digested(m: seq<Word>)
    requires m == BLOCK && |MESSAGE| == 64 && Words(MESSAGE) == m && |m| == 16
    requires After(m, 64,
      Vars(0x506e3058, 0xd39a2165, 0x04d24d6c, 0xb85e2ce9, 0x5ef50f24, 0xfb121210, 0x948d25b6, 0x961f4894))
    ensures Hash(START, MESSAGE) == DIGEST
  {
    hide Rounds, Words, W, Zeros, ZeroWords;
    assert MESSAGE[..64] == MESSAGE && MESSAGE[64..] == [];
    assert Compress(START, m) == DIGEST;
    assert Hash(DIGEST, []) == DIGEST;
  }
}
