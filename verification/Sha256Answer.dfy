/**
 The known answer of SHA-256 for "abc", as FIPS 180-4 implementations are
 validated with: the schedule word by word and the registers round by round.
 Literal values of the bit functions stand in lemmas of their own.
 */
module Sha256Answer {
  import opened Bytes
  import opened Sha256

  /** The padded chunk of "abc": the text, the marker, zeros and the bit count 24. */
  predicate IsBlock(b: seq<byte>) {
    && |b| == 64 && b[0] == 0x61 && b[1] == 0x62 && b[2] == 0x63 && b[3] == 0x80 && b[63] == 24
    && forall i :: 4 <= i < 63 ==> b[i] == 0
  }

  lemma Count24()
    ensures BigEndian64(24) == [0, 0, 0, 0, 0, 0, 0, 24]
  {}

  lemma PaddedAbc(d: seq<byte>)
    requires d == [0x61, 0x62, 0x63]
    ensures IsBlock(Padded(d))
  {
    Count24();
    assert Gap(3) == 52;
    hide BigEndian64, Gap;
  }

  // ---------------------------------------------------------------- the schedule

  predicate WordIs(b: seq<byte>, t: nat, w: word) {
    |b| == 64 && Schedule(b, t) == w
  }

  lemma FirstWords(b: seq<byte>, t: nat)
    requires IsBlock(b) && t < 16
    ensures WordIs(b, t, if t == 0 then 0x61626380 else if t == 15 then 24 else 0)
  {
    assert b[4 * t..4 * t + 4] == [b[4 * t], b[4 * t + 1], b[4 * t + 2], b[4 * t + 3]];
  }

  lemma NextWord(b: seq<byte>, t: nat, w2: word, w7: word, w15: word, w16: word, s1: word, s0: word, w: word)
    requires t >= 16 && WordIs(b, t - 2, w2) && WordIs(b, t - 7, w7) && WordIs(b, t - 15, w15) && WordIs(b, t - 16, w16)
    requires SmallSigma1(w2) == s1 && SmallSigma0(w15) == s0 && w == (s1 + w7 + s0 + w16) % 0x1_0000_0000
    ensures WordIs(b, t, w)
  {
    hide SmallSigma0, SmallSigma1, Add;
    SumOfFour(s1, w7, s0, w16);
  }

  lemma SmallSigmas16()
    ensures SmallSigma1(0x00000000) == 0x00000000 && SmallSigma0(0x00000000) == 0x00000000
    ensures SmallSigma1(0x00000018) == 0x000f0000 && SmallSigma0(0x00000000) == 0x00000000
    ensures SmallSigma1(0x61626380) == 0x7da86405 && SmallSigma0(0x00000000) == 0x00000000
    ensures SmallSigma1(0x000f0000) == 0x600003c6 && SmallSigma0(0x00000000) == 0x00000000
    ensures SmallSigma1(0x7da86405) == 0x3e9d7b78 && SmallSigma0(0x00000000) == 0x00000000
    ensures SmallSigma1(0x600003c6) == 0x0183fc00 && SmallSigma0(0x00000000) == 0x00000000
    ensures SmallSigma1(0x3e9d7b78) == 0x12dcbfc3 && SmallSigma0(0x00000000) == 0x00000000
    ensures SmallSigma1(0x0183fc00) == 0x8180600e && SmallSigma0(0x00000000) == 0x00000000
  {}

  lemma Words16(b: seq<byte>)
    requires IsBlock(b)
    ensures WordIs(b, 16, 0x61626380)
    ensures WordIs(b, 17, 0x000f0000)
    ensures WordIs(b, 18, 0x7da86405)
    ensures WordIs(b, 19, 0x600003c6)
    ensures WordIs(b, 20, 0x3e9d7b78)
    ensures WordIs(b, 21, 0x0183fc00)
    ensures WordIs(b, 22, 0x12dcbfdb)
    ensures WordIs(b, 23, 0xe2e2c38e)
  {
    hide WordIs, IsBlock, SmallSigma0, SmallSigma1;
    FirstWords(b, 0);
    FirstWords(b, 1);
    FirstWords(b, 2);
    FirstWords(b, 3);
    FirstWords(b, 4);
    FirstWords(b, 5);
    FirstWords(b, 6);
    FirstWords(b, 7);
    FirstWords(b, 8);
    FirstWords(b, 9);
    FirstWords(b, 10);
    FirstWords(b, 11);
    FirstWords(b, 12);
    FirstWords(b, 13);
    FirstWords(b, 14);
    FirstWords(b, 15);
    SmallSigmas16();
    NextWord(b, 16, 0x00000000, 0x00000000, 0x00000000, 0x61626380, 0x00000000, 0x00000000, 0x61626380);
    NextWord(b, 17, 0x00000018, 0x00000000, 0x00000000, 0x00000000, 0x000f0000, 0x00000000, 0x000f0000);
    NextWord(b, 18, 0x61626380, 0x00000000, 0x00000000, 0x00000000, 0x7da86405, 0x00000000, 0x7da86405);
    NextWord(b, 19, 0x000f0000, 0x00000000, 0x00000000, 0x00000000, 0x600003c6, 0x00000000, 0x600003c6);
    NextWord(b, 20, 0x7da86405, 0x00000000, 0x00000000, 0x00000000, 0x3e9d7b78, 0x00000000, 0x3e9d7b78);
    NextWord(b, 21, 0x600003c6, 0x00000000, 0x00000000, 0x00000000, 0x0183fc00, 0x00000000, 0x0183fc00);
    NextWord(b, 22, 0x3e9d7b78, 0x00000018, 0x00000000, 0x00000000, 0x12dcbfc3, 0x00000000, 0x12dcbfdb);
    NextWord(b, 23, 0x0183fc00, 0x61626380, 0x00000000, 0x00000000, 0x8180600e, 0x00000000, 0xe2e2c38e);
  }

  lemma SmallSigmas24()
    ensures SmallSigma1(0x12dcbfdb) == 0xc8125c1a && SmallSigma0(0x00000000) == 0x00000000
    ensures SmallSigma1(0xe2e2c38e) == 0x398e159d && SmallSigma0(0x00000000) == 0x00000000
    ensures SmallSigma1(0xc8215c1a) == 0x85bc3543 && SmallSigma0(0x00000000) == 0x00000000
    ensures SmallSigma1(0xb73679a2) == 0xf3c8c0e3 && SmallSigma0(0x00000000) == 0x00000000
    ensures SmallSigma1(0xe5bc3909) == 0x9b9ca167 && SmallSigma0(0x00000000) == 0x00000000
    ensures SmallSigma1(0x32663c5b) == 0xd9aa66f0 && SmallSigma0(0x00000000) == 0x00000000
    ensures SmallSigma1(0x9d209d67) == 0x5d387513 && SmallSigma0(0x00000018) == 0x30060003
    ensures SmallSigma1(0xec8726cb) == 0x7787aa1a && SmallSigma0(0x61626380) == 0x940e90ef
  {}

  lemma Words24(b: seq<byte>)
    requires IsBlock(b)
    ensures WordIs(b, 24, 0xc8215c1a)
    ensures WordIs(b, 25, 0xb73679a2)
    ensures WordIs(b, 26, 0xe5bc3909)
    ensures WordIs(b, 27, 0x32663c5b)
    ensures WordIs(b, 28, 0x9d209d67)
    ensures WordIs(b, 29, 0xec8726cb)
    ensures WordIs(b, 30, 0x702138a4)
    ensures WordIs(b, 31, 0xd3b7973b)
  {
    hide WordIs, IsBlock, SmallSigma0, SmallSigma1;
    FirstWords(b, 8);
    FirstWords(b, 9);
    FirstWords(b, 10);
    FirstWords(b, 11);
    FirstWords(b, 12);
    FirstWords(b, 13);
    FirstWords(b, 14);
    FirstWords(b, 15);
    Words16(b);
    SmallSigmas24();
    NextWord(b, 24, 0x12dcbfdb, 0x000f0000, 0x00000000, 0x00000000, 0xc8125c1a, 0x00000000, 0xc8215c1a);
    NextWord(b, 25, 0xe2e2c38e, 0x7da86405, 0x00000000, 0x00000000, 0x398e159d, 0x00000000, 0xb73679a2);
    NextWord(b, 26, 0xc8215c1a, 0x600003c6, 0x00000000, 0x00000000, 0x85bc3543, 0x00000000, 0xe5bc3909);
    NextWord(b, 27, 0xb73679a2, 0x3e9d7b78, 0x00000000, 0x00000000, 0xf3c8c0e3, 0x00000000, 0x32663c5b);
    NextWord(b, 28, 0xe5bc3909, 0x0183fc00, 0x00000000, 0x00000000, 0x9b9ca167, 0x00000000, 0x9d209d67);
    NextWord(b, 29, 0x32663c5b, 0x12dcbfdb, 0x00000000, 0x00000000, 0xd9aa66f0, 0x00000000, 0xec8726cb);
    NextWord(b, 30, 0x9d209d67, 0xe2e2c38e, 0x00000018, 0x00000000, 0x5d387513, 0x30060003, 0x702138a4);
    NextWord(b, 31, 0xec8726cb, 0xc8215c1a, 0x61626380, 0x00000018, 0x7787aa1a, 0x940e90ef, 0xd3b7973b);
  }

  lemma SmallSigmas32()
    ensures SmallSigma1(0x702138a4) == 0xbb5abe5a && SmallSigma0(0x000f0000) == 0xc001fe03
    ensures SmallSigma1(0xd3b7973b) == 0x394e7e48 && SmallSigma0(0x7da86405) == 0x1c4f0322
    ensures SmallSigma1(0x93f5997f) == 0x7fb4c6e2 && SmallSigma0(0x600003c6) == 0x8031987f
    ensures SmallSigma1(0x3b68ba73) == 0x4a7920f7 && SmallSigma0(0x3e9d7b78) == 0xa9709a3e
    ensures SmallSigma1(0xaff4ffc1) == 0xe0331f3b && SmallSigma0(0x0183fc00) == 0xff337818
    ensures SmallSigma1(0xf10a5c62) == 0x65816433 && SmallSigma0(0x12dcbfdb) == 0x9b88ea33
    ensures SmallSigma1(0x0a8b3996) == 0xfbfb66da && SmallSigma0(0xe2e2c38e) == 0xb17a254e
    ensures SmallSigma1(0x72af830a) == 0x31f8dce2 && SmallSigma0(0xc8215c1a) == 0x7b92db33
  {}

  lemma Words32(b: seq<byte>)
    requires IsBlock(b)
    ensures WordIs(b, 32, 0x93f5997f)
    ensures WordIs(b, 33, 0x3b68ba73)
    ensures WordIs(b, 34, 0xaff4ffc1)
    ensures WordIs(b, 35, 0xf10a5c62)
    ensures WordIs(b, 36, 0x0a8b3996)
    ensures WordIs(b, 37, 0x72af830a)
    ensures WordIs(b, 38, 0x9409e33e)
    ensures WordIs(b, 39, 0x24641522)
  {
    hide WordIs, IsBlock, SmallSigma0, SmallSigma1;
    Words16(b);
    Words24(b);
    SmallSigmas32();
    NextWord(b, 32, 0x702138a4, 0xb73679a2, 0x000f0000, 0x61626380, 0xbb5abe5a, 0xc001fe03, 0x93f5997f);
    NextWord(b, 33, 0xd3b7973b, 0xe5bc3909, 0x7da86405, 0x000f0000, 0x394e7e48, 0x1c4f0322, 0x3b68ba73);
    NextWord(b, 34, 0x93f5997f, 0x32663c5b, 0x600003c6, 0x7da86405, 0x7fb4c6e2, 0x8031987f, 0xaff4ffc1);
    NextWord(b, 35, 0x3b68ba73, 0x9d209d67, 0x3e9d7b78, 0x600003c6, 0x4a7920f7, 0xa9709a3e, 0xf10a5c62);
    NextWord(b, 36, 0xaff4ffc1, 0xec8726cb, 0x0183fc00, 0x3e9d7b78, 0xe0331f3b, 0xff337818, 0x0a8b3996);
    NextWord(b, 37, 0xf10a5c62, 0x702138a4, 0x12dcbfdb, 0x0183fc00, 0x65816433, 0x9b88ea33, 0x72af830a);
    NextWord(b, 38, 0x0a8b3996, 0xd3b7973b, 0xe2e2c38e, 0x12dcbfdb, 0xfbfb66da, 0xb17a254e, 0x9409e33e);
    NextWord(b, 39, 0x72af830a, 0x93f5997f, 0xc8215c1a, 0xe2e2c38e, 0x31f8dce2, 0x7b92db33, 0x24641522);
  }

  lemma SmallSigmas40()
    ensures SmallSigma1(0x9409e33e) == 0xcddd9afd && SmallSigma0(0xb73679a2) == 0xcde00e0a
    ensures SmallSigma1(0x24641522) == 0x883c4fbb && SmallSigma0(0xe5bc3909) == 0x013e863c
    ensures SmallSigma1(0x9f47bf94) == 0x281f0da4 && SmallSigma0(0x32663c5b) == 0x3f3ec76a
    ensures SmallSigma1(0xf0a64f5a) == 0xee7a0fd4 && SmallSigma0(0x9d209d67) == 0xfbc7b5de
    ensures SmallSigma1(0x3e246a79) == 0xb87c31cc && SmallSigma0(0xec8726cb) == 0x43fb11b5
    ensures SmallSigma1(0x27333ba3) == 0xfaac3bb1 && SmallSigma0(0x702138a4) == 0x08cd796d
    ensures SmallSigma1(0x0c4763f2) == 0x5d845673 && SmallSigma0(0xd3b7973b) == 0x881f6924
    ensures SmallSigma1(0x840abf27) == 0x0856302b && SmallSigma0(0x93f5997f) == 0x8b06bce0
  {}

  lemma Words40(b: seq<byte>)
    requires IsBlock(b)
    ensures WordIs(b, 40, 0x9f47bf94)
    ensures WordIs(b, 41, 0xf0a64f5a)
    ensures WordIs(b, 42, 0x3e246a79)
    ensures WordIs(b, 43, 0x27333ba3)
    ensures WordIs(b, 44, 0x0c4763f2)
    ensures WordIs(b, 45, 0x840abf27)
    ensures WordIs(b, 46, 0x7a290d5d)
    ensures WordIs(b, 47, 0x065c43da)
  {
    hide WordIs, IsBlock, SmallSigma0, SmallSigma1;
    Words24(b);
    Words32(b);
    SmallSigmas40();
    NextWord(b, 40, 0x9409e33e, 0x3b68ba73, 0xb73679a2, 0xc8215c1a, 0xcddd9afd, 0xcde00e0a, 0x9f47bf94);
    NextWord(b, 41, 0x24641522, 0xaff4ffc1, 0xe5bc3909, 0xb73679a2, 0x883c4fbb, 0x013e863c, 0xf0a64f5a);
    NextWord(b, 42, 0x9f47bf94, 0xf10a5c62, 0x32663c5b, 0xe5bc3909, 0x281f0da4, 0x3f3ec76a, 0x3e246a79);
    NextWord(b, 43, 0xf0a64f5a, 0x0a8b3996, 0x9d209d67, 0x32663c5b, 0xee7a0fd4, 0xfbc7b5de, 0x27333ba3);
    NextWord(b, 44, 0x3e246a79, 0x72af830a, 0xec8726cb, 0x9d209d67, 0xb87c31cc, 0x43fb11b5, 0x0c4763f2);
    NextWord(b, 45, 0x27333ba3, 0x9409e33e, 0x702138a4, 0xec8726cb, 0xfaac3bb1, 0x08cd796d, 0x840abf27);
    NextWord(b, 46, 0x0c4763f2, 0x24641522, 0xd3b7973b, 0x702138a4, 0x5d845673, 0x881f6924, 0x7a290d5d);
    NextWord(b, 47, 0x840abf27, 0x9f47bf94, 0x93f5997f, 0xd3b7973b, 0x0856302b, 0x8b06bce0, 0x065c43da);
  }

  lemma SmallSigmas48()
    ensures SmallSigma1(0x7a290d5d) == 0xa71b9812 && SmallSigma0(0x3b68ba73) == 0xcf8708e0
    ensures SmallSigma1(0x065c43da) == 0xa997d4f5 && SmallSigma0(0xaff4ffc1) == 0xa9511dfa
    ensures SmallSigma1(0xfb3e89cb) == 0x95e24d5a && SmallSigma0(0xf10a5c62) == 0x4cdbe376
    ensures SmallSigma1(0xcc7617db) == 0xc9258230 && SmallSigma0(0x0a8b3996) == 0xe321f3e3
    ensures SmallSigma1(0xb9e66c34) == 0xfbb2b254 && SmallSigma0(0x72af830a) == 0xfa7233cc
    ensures SmallSigma1(0xa9993667) == 0xbdd547b2 && SmallSigma0(0x9409e33e) == 0x17668aa3
    ensures SmallSigma1(0x84badedd) == 0x34945c7d && SmallSigma0(0x24641522) == 0x458cc397
    ensures SmallSigma1(0xc21462bc) == 0xbd397c50 && SmallSigma0(0x9f47bf94) == 0xd5335f5c
  {}

  lemma Words48(b: seq<byte>)
    requires IsBlock(b)
    ensures WordIs(b, 48, 0xfb3e89cb)
    ensures WordIs(b, 49, 0xcc7617db)
    ensures WordIs(b, 50, 0xb9e66c34)
    ensures WordIs(b, 51, 0xa9993667)
    ensures WordIs(b, 52, 0x84badedd)
    ensures WordIs(b, 53, 0xc21462bc)
    ensures WordIs(b, 54, 0x1487472c)
    ensures WordIs(b, 55, 0xb20f7a99)
  {
    hide WordIs, IsBlock, SmallSigma0, SmallSigma1;
    Words32(b);
    Words40(b);
    SmallSigmas48();
    NextWord(b, 48, 0x7a290d5d, 0xf0a64f5a, 0x3b68ba73, 0x93f5997f, 0xa71b9812, 0xcf8708e0, 0xfb3e89cb);
    NextWord(b, 49, 0x065c43da, 0x3e246a79, 0xaff4ffc1, 0x3b68ba73, 0xa997d4f5, 0xa9511dfa, 0xcc7617db);
    NextWord(b, 50, 0xfb3e89cb, 0x27333ba3, 0xf10a5c62, 0xaff4ffc1, 0x95e24d5a, 0x4cdbe376, 0xb9e66c34);
    NextWord(b, 51, 0xcc7617db, 0x0c4763f2, 0x0a8b3996, 0xf10a5c62, 0xc9258230, 0xe321f3e3, 0xa9993667);
    NextWord(b, 52, 0xb9e66c34, 0x840abf27, 0x72af830a, 0x0a8b3996, 0xfbb2b254, 0xfa7233cc, 0x84badedd);
    NextWord(b, 53, 0xa9993667, 0x7a290d5d, 0x9409e33e, 0x72af830a, 0xbdd547b2, 0x17668aa3, 0xc21462bc);
    NextWord(b, 54, 0x84badedd, 0x065c43da, 0x24641522, 0x9409e33e, 0x34945c7d, 0x458cc397, 0x1487472c);
    NextWord(b, 55, 0xc21462bc, 0xfb3e89cb, 0x9f47bf94, 0x24641522, 0xbd397c50, 0xd5335f5c, 0xb20f7a99);
  }

  lemma SmallSigmas56()
    ensures SmallSigma1(0x1487472c) == 0x4b76a902 && SmallSigma0(0xf0a64f5a) == 0x3823395c
    ensures SmallSigma1(0xb20f7a99) == 0x52336c98 && SmallSigma0(0x3e246a79) == 0xef268a12
    ensures SmallSigma1(0xef57b9cd) == 0x2be49faf && SmallSigma0(0x27333ba3) == 0x8c40c8cf
    ensures SmallSigma1(0xebe6b238) == 0x8f619123 && SmallSigma0(0x0c4763f2) == 0x3d6ce1a8
    ensures SmallSigma1(0x9fe3095e) == 0xe5a364cf && SmallSigma0(0x840abf27) == 0xf040a398
    ensures SmallSigma1(0x78bc8d4b) == 0xd712fc6a && SmallSigma0(0x7a290d5d) == 0xf6e62d3b
    ensures SmallSigma1(0xa43fcf15) == 0x1e41696b && SmallSigma0(0x065c43da) == 0xa431b16b
    ensures SmallSigma1(0x668b2ff8) == 0xf21a9d5f && SmallSigma0(0xfb3e89cb) == 0x2ae352e5
  {}

  lemma Words56(b: seq<byte>)
    requires IsBlock(b)
    ensures WordIs(b, 56, 0xef57b9cd)
    ensures WordIs(b, 57, 0xebe6b238)
    ensures WordIs(b, 58, 0x9fe3095e)
    ensures WordIs(b, 59, 0x78bc8d4b)
    ensures WordIs(b, 60, 0xa43fcf15)
    ensures WordIs(b, 61, 0x668b2ff8)
    ensures WordIs(b, 62, 0xeeaba2cc)
    ensures WordIs(b, 63, 0x12b1edeb)
  {
    hide WordIs, IsBlock, SmallSigma0, SmallSigma1;
    Words40(b);
    Words48(b);
    SmallSigmas56();
    NextWord(b, 56, 0x1487472c, 0xcc7617db, 0xf0a64f5a, 0x9f47bf94, 0x4b76a902, 0x3823395c, 0xef57b9cd);
    NextWord(b, 57, 0xb20f7a99, 0xb9e66c34, 0x3e246a79, 0xf0a64f5a, 0x52336c98, 0xef268a12, 0xebe6b238);
    NextWord(b, 58, 0xef57b9cd, 0xa9993667, 0x27333ba3, 0x3e246a79, 0x2be49faf, 0x8c40c8cf, 0x9fe3095e);
    NextWord(b, 59, 0xebe6b238, 0x84badedd, 0x0c4763f2, 0x27333ba3, 0x8f619123, 0x3d6ce1a8, 0x78bc8d4b);
    NextWord(b, 60, 0x9fe3095e, 0xc21462bc, 0x840abf27, 0x0c4763f2, 0xe5a364cf, 0xf040a398, 0xa43fcf15);
    NextWord(b, 61, 0x78bc8d4b, 0x1487472c, 0x7a290d5d, 0x840abf27, 0xd712fc6a, 0xf6e62d3b, 0x668b2ff8);
    NextWord(b, 62, 0xa43fcf15, 0xb20f7a99, 0x065c43da, 0x7a290d5d, 0x1e41696b, 0xa431b16b, 0xeeaba2cc);
    NextWord(b, 63, 0x668b2ff8, 0xef57b9cd, 0xfb3e89cb, 0x065c43da, 0xf21a9d5f, 0x2ae352e5, 0x12b1edeb);
  }

  // ---------------------------------------------------------------- the rounds

  /** The registers after t rounds. */
  predicate Reached(b: seq<byte>, t: nat, r: Registers) {
    |b| == 64 && t <= 64 && Rounds(START, b, t) == r
  }

  predicate ConstantIs(t: nat, k: word) {
    t < 64 && Constants()[t] == k
  }

  lemma NextRound(x: seq<byte>, t: nat, a: word, b: word, c: word, d: word, e: word, f: word, g: word, h: word,
                  k: word, w: word, s1: word, ch: word, s0: word, maj: word, a': word, e': word)
    requires Reached(x, t, Registers(a, b, c, d, e, f, g, h)) && ConstantIs(t, k) && WordIs(x, t, w)
    requires BigSigma1(e) == s1 && Choose(e, f, g) == ch && BigSigma0(a) == s0 && Majority(a, b, c) == maj
    requires a' == (h + s1 + ch + k + w + s0 + maj) % 0x1_0000_0000 && e' == (d + h + s1 + ch + k + w) % 0x1_0000_0000
    ensures Reached(x, t + 1, Registers(a', a, b, c, e', e, f, g))
  {
    hide Add, BigSigma0, BigSigma1, Choose, Majority, Constants, Schedule;
    SumOfFive(h, s1, ch, k, w);
    TotalOf(h + s1 + ch + k + w, s0, maj);
    OneMore(h + s1 + ch + k + w, d);
  }

  lemma SumOfFive(a: word, b: word, c: word, d: word, e: word)
    ensures Add(Add(Add(Add(a, b), c), d), e) == (a + b + c + d + e) % 0x1_0000_0000
  {
    SumOfFour(a, b, c, d);
    AddReduced(a + b + c + d, e);
  }

  lemma TotalOf(x: int, y: word, z: word)
    ensures Add(x % 0x1_0000_0000, Add(y, z)) == (x + y + z) % 0x1_0000_0000
  {
    AddReduced(x, Add(y, z));
    Reduced(x, y + z);
  }

  lemma Reduced(x: int, y: int)
    ensures (x + y % 0x1_0000_0000) % 0x1_0000_0000 == (x + y) % 0x1_0000_0000
  {}

  lemma OneMore(x: int, d: word)
    ensures Add(d, x % 0x1_0000_0000) == (d + x) % 0x1_0000_0000
  {
    Reduced(d, x);
  }

  lemma RowStarts()
    ensures var k := Constants();
            && k[0..8] == RowOne() && k[8..16] == RowTwo() && k[16..24] == RowThree() && k[24..32] == RowFour()
            && k[32..40] == RowFive() && k[40..48] == RowSix() && k[48..56] == RowSeven() && k[56..64] == RowEight()
  {
    hide RowOne, RowTwo, RowThree, RowFour, RowFive, RowSix, RowSeven, RowEight;
  }

  lemma Constants0(t: nat, k: word)
    requires 0 <= t < 8 && RowOne()[t - 0] == k
    ensures ConstantIs(t, k)
  {
    hide Constants, RowOne;
    RowStarts();
    assert Constants()[0..8][t - 0] == Constants()[t];
  }

  lemma Constants8(t: nat, k: word)
    requires 8 <= t < 16 && RowTwo()[t - 8] == k
    ensures ConstantIs(t, k)
  {
    hide Constants, RowTwo;
    RowStarts();
    assert Constants()[8..16][t - 8] == Constants()[t];
  }

  lemma Constants16(t: nat, k: word)
    requires 16 <= t < 24 && RowThree()[t - 16] == k
    ensures ConstantIs(t, k)
  {
    hide Constants, RowThree;
    RowStarts();
    assert Constants()[16..24][t - 16] == Constants()[t];
  }

  lemma Constants24(t: nat, k: word)
    requires 24 <= t < 32 && RowFour()[t - 24] == k
    ensures ConstantIs(t, k)
  {
    hide Constants, RowFour;
    RowStarts();
    assert Constants()[24..32][t - 24] == Constants()[t];
  }

  lemma Constants32(t: nat, k: word)
    requires 32 <= t < 40 && RowFive()[t - 32] == k
    ensures ConstantIs(t, k)
  {
    hide Constants, RowFive;
    RowStarts();
    assert Constants()[32..40][t - 32] == Constants()[t];
  }

  lemma Constants40(t: nat, k: word)
    requires 40 <= t < 48 && RowSix()[t - 40] == k
    ensures ConstantIs(t, k)
  {
    hide Constants, RowSix;
    RowStarts();
    assert Constants()[40..48][t - 40] == Constants()[t];
  }

  lemma Constants48(t: nat, k: word)
    requires 48 <= t < 56 && RowSeven()[t - 48] == k
    ensures ConstantIs(t, k)
  {
    hide Constants, RowSeven;
    RowStarts();
    assert Constants()[48..56][t - 48] == Constants()[t];
  }

  lemma Constants56(t: nat, k: word)
    requires 56 <= t < 64 && RowEight()[t - 56] == k
    ensures ConstantIs(t, k)
  {
    hide Constants, RowEight;
    RowStarts();
    assert Constants()[56..64][t - 56] == Constants()[t];
  }

  lemma NoRounds(b: seq<byte>)
    requires IsBlock(b)
    ensures Reached(b, 0, START)
  {}

  lemma BigSigmas0()
    ensures BigSigma1(0x510e527f) == 0x3587272b && BigSigma0(0x6a09e667) == 0xce20b47e
    ensures BigSigma1(0xfa2a4622) == 0x5a94fd2d && BigSigma0(0x5d6aebcd) == 0xa29f64d1
    ensures BigSigma1(0x78ce7989) == 0x73f0e495 && BigSigma0(0x5a6ad9ad) == 0x3096d054
    ensures BigSigma1(0xf92939eb) == 0x0607743c && BigSigma0(0xc8c347a7) == 0xc21008d0
    ensures BigSigma1(0x24e00850) == 0x3a933432 && BigSigma0(0xd550f666) == 0x45bb0c4b
    ensures BigSigma1(0x43ada245) == 0x8b77e19c && BigSigma0(0x04409a6a) == 0x5029ac8f
    ensures BigSigma1(0x714260ad) == 0x015b7776 && BigSigma0(0x2b4209f5) == 0x0d5e0cc0
    ensures BigSigma1(0x9b27a401) == 0x158dfaa9 && BigSigma0(0xe5030380) == 0x2949eb6c
  {}

  lemma Mixes0()
    ensures Choose(0x510e527f, 0x9b05688c, 0x1f83d9ab) == 0x1f85c98c && Majority(0x6a09e667, 0xbb67ae85, 0x3c6ef372) == 0x3a6fe667
    ensures Choose(0xfa2a4622, 0x510e527f, 0x9b05688c) == 0x510f6aae && Majority(0x5d6aebcd, 0x6a09e667, 0xbb67ae85) == 0x7b6beec5
    ensures Choose(0x78ce7989, 0xfa2a4622, 0x510e527f) == 0x790a4276 && Majority(0x5a6ad9ad, 0x5d6aebcd, 0x6a09e667) == 0x5a6aebed
    ensures Choose(0xf92939eb, 0x78ce7989, 0xfa2a4622) == 0x7a0a7f89 && Majority(0xc8c347a7, 0x5a6ad9ad, 0x5d6aebcd) == 0x586acbad
    ensures Choose(0x24e00850, 0xf92939eb, 0x78ce7989) == 0x782e79c9 && Majority(0xd550f666, 0xc8c347a7, 0x5a6ad9ad) == 0xd842d7a7
    ensures Choose(0x43ada245, 0x24e00850, 0xf92939eb) == 0xb8a019ea && Majority(0x04409a6a, 0xd550f666, 0xc8c347a7) == 0xc440d666
    ensures Choose(0x714260ad, 0x43ada245, 0x24e00850) == 0x45a02855 && Majority(0x2b4209f5, 0x04409a6a, 0xd550f666) == 0x05409a66
    ensures Choose(0x9b27a401, 0x714260ad, 0x43ada245) == 0x518a2245 && Majority(0xe5030380, 0x2b4209f5, 0x04409a6a) == 0x25420be0
  {}

  lemma Rounds0(b: seq<byte>)
    requires IsBlock(b)
    ensures Reached(b, 8, Registers(0x85a07b5f, 0xe5030380, 0x2b4209f5, 0x04409a6a, 0x0c657a79, 0x9b27a401, 0x714260ad, 0x43ada245))
  {
    hide Reached, WordIs, ConstantIs, IsBlock, BigSigma0, BigSigma1, Choose, Majority;
    NoRounds(b);
    FirstWords(b, 0);
    FirstWords(b, 1);
    FirstWords(b, 2);
    FirstWords(b, 3);
    FirstWords(b, 4);
    FirstWords(b, 5);
    FirstWords(b, 6);
    FirstWords(b, 7);
    Constants0(0, 0x428a2f98);
    Constants0(1, 0x71374491);
    Constants0(2, 0xb5c0fbcf);
    Constants0(3, 0xe9b5dba5);
    Constants0(4, 0x3956c25b);
    Constants0(5, 0x59f111f1);
    Constants0(6, 0x923f82a4);
    Constants0(7, 0xab1c5ed5);
    BigSigmas0();
    Mixes0();
    NextRound(b, 0, 0x6a09e667, 0xbb67ae85, 0x3c6ef372, 0xa54ff53a, 0x510e527f, 0x9b05688c, 0x1f83d9ab, 0x5be0cd19,
              0x428a2f98, 0x61626380, 0x3587272b, 0x1f85c98c, 0xce20b47e, 0x3a6fe667, 0x5d6aebcd, 0xfa2a4622);
    NextRound(b, 1, 0x5d6aebcd, 0x6a09e667, 0xbb67ae85, 0x3c6ef372, 0xfa2a4622, 0x510e527f, 0x9b05688c, 0x1f83d9ab,
              0x71374491, 0x00000000, 0x5a94fd2d, 0x510f6aae, 0xa29f64d1, 0x7b6beec5, 0x5a6ad9ad, 0x78ce7989);
    NextRound(b, 2, 0x5a6ad9ad, 0x5d6aebcd, 0x6a09e667, 0xbb67ae85, 0x78ce7989, 0xfa2a4622, 0x510e527f, 0x9b05688c,
              0xb5c0fbcf, 0x00000000, 0x73f0e495, 0x790a4276, 0x3096d054, 0x5a6aebed, 0xc8c347a7, 0xf92939eb);
    NextRound(b, 3, 0xc8c347a7, 0x5a6ad9ad, 0x5d6aebcd, 0x6a09e667, 0xf92939eb, 0x78ce7989, 0xfa2a4622, 0x510e527f,
              0xe9b5dba5, 0x00000000, 0x0607743c, 0x7a0a7f89, 0xc21008d0, 0x586acbad, 0xd550f666, 0x24e00850);
    NextRound(b, 4, 0xd550f666, 0xc8c347a7, 0x5a6ad9ad, 0x5d6aebcd, 0x24e00850, 0xf92939eb, 0x78ce7989, 0xfa2a4622,
              0x3956c25b, 0x00000000, 0x3a933432, 0x782e79c9, 0x45bb0c4b, 0xd842d7a7, 0x04409a6a, 0x43ada245);
    NextRound(b, 5, 0x04409a6a, 0xd550f666, 0xc8c347a7, 0x5a6ad9ad, 0x43ada245, 0x24e00850, 0xf92939eb, 0x78ce7989,
              0x59f111f1, 0x00000000, 0x8b77e19c, 0xb8a019ea, 0x5029ac8f, 0xc440d666, 0x2b4209f5, 0x714260ad);
    NextRound(b, 6, 0x2b4209f5, 0x04409a6a, 0xd550f666, 0xc8c347a7, 0x714260ad, 0x43ada245, 0x24e00850, 0xf92939eb,
              0x923f82a4, 0x00000000, 0x015b7776, 0x45a02855, 0x0d5e0cc0, 0x05409a66, 0xe5030380, 0x9b27a401);
    NextRound(b, 7, 0xe5030380, 0x2b4209f5, 0x04409a6a, 0xd550f666, 0x9b27a401, 0x714260ad, 0x43ada245, 0x24e00850,
              0xab1c5ed5, 0x00000000, 0x158dfaa9, 0x518a2245, 0x2949eb6c, 0x25420be0, 0x85a07b5f, 0x0c657a79);
  }

  lemma BigSigmas8()
    ensures BigSigma1(0x0c657a79) == 0x99ad25c0 && BigSigma0(0x85a07b5f) == 0xba794dc2
    ensures BigSigma1(0x32ca2d8c) == 0xe45bb7ea && BigSigma0(0x8e04ecb9) == 0x15ffad31
    ensures BigSigma1(0x1cc92596) == 0x8e2276bc && BigSigma0(0x8c87346b) == 0x5cac0711
    ensures BigSigma1(0x436b23e8) == 0x699435ca && BigSigma0(0x4798a3f4) == 0x6ccbc526
    ensures BigSigma1(0x816fd6e9) == 0xccdee661 && BigSigma0(0xf71fc5a9) == 0x2f9eee48
    ensures BigSigma1(0x1e578218) == 0x08bb98f7 && BigSigma0(0x87912990) == 0x29c634f3
    ensures BigSigma1(0x745a48de) == 0x4f3b8d50 && BigSigma0(0xd932eb16) == 0x25562836
    ensures BigSigma1(0x0b92f20c) == 0xb8d63f93 && BigSigma0(0xc0645fde) == 0xdf906fd4
  {}

  lemma Mixes8()
    ensures Choose(0x0c657a79, 0x9b27a401, 0x714260ad) == 0x79272085 && Majority(0x85a07b5f, 0xe5030380, 0x2b4209f5) == 0xa5020bd5
    ensures Choose(0x32ca2d8c, 0x0c657a79, 0x9b27a401) == 0x8965a809 && Majority(0x8e04ecb9, 0x85a07b5f, 0xe5030380) == 0x85006b99
    ensures Choose(0x1cc92596, 0x32ca2d8c, 0x0c657a79) == 0x10ec7fed && Majority(0x8c87346b, 0x8e04ecb9, 0x85a07b5f) == 0x8c847c7b
    ensures Choose(0x436b23e8, 0x1cc92596, 0x32ca2d8c) == 0x30c92d84 && Majority(0x4798a3f4, 0x8c87346b, 0x8e04ecb9) == 0x8e84a4f9
    ensures Choose(0x816fd6e9, 0x436b23e8, 0x1cc92596) == 0x1deb23fe && Majority(0xf71fc5a9, 0x4798a3f4, 0x8c87346b) == 0xc79fa5e9
    ensures Choose(0x1e578218, 0x816fd6e9, 0x436b23e8) == 0x416fa3e8 && Majority(0x87912990, 0xf71fc5a9, 0x4798a3f4) == 0xc799a1b0
    ensures Choose(0x745a48de, 0x1e578218, 0x816fd6e9) == 0x95779639 && Majority(0xd932eb16, 0x87912990, 0xf71fc5a9) == 0xd713e990
    ensures Choose(0x0b92f20c, 0x745a48de, 0x1e578218) == 0x1457401c && Majority(0xc0645fde, 0xd932eb16, 0x87912990) == 0xc1306b96
  {}

  lemma Rounds8(b: seq<byte>)
    requires IsBlock(b)
    ensures Reached(b, 16, Registers(0xb0fa238e, 0xc0645fde, 0xd932eb16, 0x87912990, 0x07590dcd, 0x0b92f20c, 0x745a48de, 0x1e578218))
  {
    hide Reached, WordIs, ConstantIs, IsBlock, BigSigma0, BigSigma1, Choose, Majority;
    Rounds0(b);
    FirstWords(b, 8);
    FirstWords(b, 9);
    FirstWords(b, 10);
    FirstWords(b, 11);
    FirstWords(b, 12);
    FirstWords(b, 13);
    FirstWords(b, 14);
    FirstWords(b, 15);
    Constants8(8, 0xd807aa98);
    Constants8(9, 0x12835b01);
    Constants8(10, 0x243185be);
    Constants8(11, 0x550c7dc3);
    Constants8(12, 0x72be5d74);
    Constants8(13, 0x80deb1fe);
    Constants8(14, 0x9bdc06a7);
    Constants8(15, 0xc19bf174);
    BigSigmas8();
    Mixes8();
    NextRound(b, 8, 0x85a07b5f, 0xe5030380, 0x2b4209f5, 0x04409a6a, 0x0c657a79, 0x9b27a401, 0x714260ad, 0x43ada245,
              0xd807aa98, 0x00000000, 0x99ad25c0, 0x79272085, 0xba794dc2, 0xa5020bd5, 0x8e04ecb9, 0x32ca2d8c);
    NextRound(b, 9, 0x8e04ecb9, 0x85a07b5f, 0xe5030380, 0x2b4209f5, 0x32ca2d8c, 0x0c657a79, 0x9b27a401, 0x714260ad,
              0x12835b01, 0x00000000, 0xe45bb7ea, 0x8965a809, 0x15ffad31, 0x85006b99, 0x8c87346b, 0x1cc92596);
    NextRound(b, 10, 0x8c87346b, 0x8e04ecb9, 0x85a07b5f, 0xe5030380, 0x1cc92596, 0x32ca2d8c, 0x0c657a79, 0x9b27a401,
              0x243185be, 0x00000000, 0x8e2276bc, 0x10ec7fed, 0x5cac0711, 0x8c847c7b, 0x4798a3f4, 0x436b23e8);
    NextRound(b, 11, 0x4798a3f4, 0x8c87346b, 0x8e04ecb9, 0x85a07b5f, 0x436b23e8, 0x1cc92596, 0x32ca2d8c, 0x0c657a79,
              0x550c7dc3, 0x00000000, 0x699435ca, 0x30c92d84, 0x6ccbc526, 0x8e84a4f9, 0xf71fc5a9, 0x816fd6e9);
    NextRound(b, 12, 0xf71fc5a9, 0x4798a3f4, 0x8c87346b, 0x8e04ecb9, 0x816fd6e9, 0x436b23e8, 0x1cc92596, 0x32ca2d8c,
              0x72be5d74, 0x00000000, 0xccdee661, 0x1deb23fe, 0x2f9eee48, 0xc79fa5e9, 0x87912990, 0x1e578218);
    NextRound(b, 13, 0x87912990, 0xf71fc5a9, 0x4798a3f4, 0x8c87346b, 0x1e578218, 0x816fd6e9, 0x436b23e8, 0x1cc92596,
              0x80deb1fe, 0x00000000, 0x08bb98f7, 0x416fa3e8, 0x29c634f3, 0xc799a1b0, 0xd932eb16, 0x745a48de);
    NextRound(b, 14, 0xd932eb16, 0x87912990, 0xf71fc5a9, 0x4798a3f4, 0x745a48de, 0x1e578218, 0x816fd6e9, 0x436b23e8,
              0x9bdc06a7, 0x00000000, 0x4f3b8d50, 0x95779639, 0x25562836, 0xd713e990, 0xc0645fde, 0x0b92f20c);
    NextRound(b, 15, 0xc0645fde, 0xd932eb16, 0x87912990, 0xf71fc5a9, 0x0b92f20c, 0x745a48de, 0x1e578218, 0x816fd6e9,
              0xc19bf174, 0x00000018, 0xb8d63f93, 0x1457401c, 0xdf906fd4, 0xc1306b96, 0xb0fa238e, 0x07590dcd);
  }

  lemma BigSigmas16()
    ensures BigSigma1(0x07590dcd) == 0x213b6995 && BigSigma0(0xb0fa238e) == 0x58c535f1
    ensures BigSigma1(0x8034229c) == 0x3b81984e && BigSigma0(0x21da9a9b) == 0x76c5c4f5
    ensures BigSigma1(0x846ee454) == 0xeff31c0f && BigSigma0(0xc2fbd9d1) == 0x5157a6a1
    ensures BigSigma1(0xcc899961) == 0xefc707b0 && BigSigma0(0xfe777bbf) == 0xff8cd2ad
    ensures BigSigma1(0xb0638179) == 0xf8373ead && BigSigma0(0xe1f20c33) == 0x51d3431b
    ensures BigSigma1(0x8ada8930) == 0x897ea930 && BigSigma0(0x9dc68b63) == 0xa640c29b
    ensures BigSigma1(0xe1257970) == 0x7f24093a && BigSigma0(0xc2606d6d) == 0x9a43bf51
    ensures BigSigma1(0x49f5114a) == 0xfae64fc3 && BigSigma0(0xa7a3623f) == 0x759d1b0a
  {}

  lemma Mixes16()
    ensures Choose(0x07590dcd, 0x0b92f20c, 0x745a48de) == 0x7312401e && Majority(0xb0fa238e, 0xc0645fde, 0xd932eb16) == 0xd0726b9e
    ensures Choose(0x8034229c, 0x07590dcd, 0x0b92f20c) == 0x0b92d08c && Majority(0x21da9a9b, 0xb0fa238e, 0xc0645fde) == 0xa0fa1b9e
    ensures Choose(0x846ee454, 0x8034229c, 0x07590dcd) == 0x8335299d && Majority(0xc2fbd9d1, 0x21da9a9b, 0xb0fa238e) == 0xa0fa9b9b
    ensures Choose(0xcc899961, 0x846ee454, 0x8034229c) == 0x843ca2dc && Majority(0xfe777bbf, 0xc2fbd9d1, 0x21da9a9b) == 0xe2fbdb9b
    ensures Choose(0xb0638179, 0xcc899961, 0x846ee454) == 0x840de565 && Majority(0xe1f20c33, 0xfe777bbf, 0xc2fbd9d1) == 0xe2f359b3
    ensures Choose(0x8ada8930, 0xb0638179, 0xcc899961) == 0xc4439171 && Majority(0x9dc68b63, 0xe1f20c33, 0xfe777bbf) == 0xfdf60b33
    ensures Choose(0xe1257970, 0x8ada8930, 0xb0638179) == 0x90428939 && Majority(0xc2606d6d, 0x9dc68b63, 0xe1f20c33) == 0xc1e20d63
    ensures Choose(0x49f5114a, 0xe1257970, 0x8ada8930) == 0xc32f9970 && Majority(0xa7a3623f, 0xc2606d6d, 0x9dc68b63) == 0x87e26b6f
  {}

  lemma Rounds16(b: seq<byte>)
    requires IsBlock(b)
    ensures Reached(b, 24, Registers(0xc5d53d8d, 0xa7a3623f, 0xc2606d6d, 0x9dc68b63, 0xaa47c347, 0x49f5114a, 0xe1257970, 0x8ada8930))
  {
    hide Reached, WordIs, ConstantIs, IsBlock, BigSigma0, BigSigma1, Choose, Majority;
    Rounds8(b);
    Words16(b);
    Constants16(16, 0xe49b69c1);
    Constants16(17, 0xefbe4786);
    Constants16(18, 0x0fc19dc6);
    Constants16(19, 0x240ca1cc);
    Constants16(20, 0x2de92c6f);
    Constants16(21, 0x4a7484aa);
    Constants16(22, 0x5cb0a9dc);
    Constants16(23, 0x76f988da);
    BigSigmas16();
    Mixes16();
    NextRound(b, 16, 0xb0fa238e, 0xc0645fde, 0xd932eb16, 0x87912990, 0x07590dcd, 0x0b92f20c, 0x745a48de, 0x1e578218,
              0xe49b69c1, 0x61626380, 0x213b6995, 0x7312401e, 0x58c535f1, 0xd0726b9e, 0x21da9a9b, 0x8034229c);
    NextRound(b, 17, 0x21da9a9b, 0xb0fa238e, 0xc0645fde, 0xd932eb16, 0x8034229c, 0x07590dcd, 0x0b92f20c, 0x745a48de,
              0xefbe4786, 0x000f0000, 0x3b81984e, 0x0b92d08c, 0x76c5c4f5, 0xa0fa1b9e, 0xc2fbd9d1, 0x846ee454);
    NextRound(b, 18, 0xc2fbd9d1, 0x21da9a9b, 0xb0fa238e, 0xc0645fde, 0x846ee454, 0x8034229c, 0x07590dcd, 0x0b92f20c,
              0x0fc19dc6, 0x7da86405, 0xeff31c0f, 0x8335299d, 0x5157a6a1, 0xa0fa9b9b, 0xfe777bbf, 0xcc899961);
    NextRound(b, 19, 0xfe777bbf, 0xc2fbd9d1, 0x21da9a9b, 0xb0fa238e, 0xcc899961, 0x846ee454, 0x8034229c, 0x07590dcd,
              0x240ca1cc, 0x600003c6, 0xefc707b0, 0x843ca2dc, 0xff8cd2ad, 0xe2fbdb9b, 0xe1f20c33, 0xb0638179);
    NextRound(b, 20, 0xe1f20c33, 0xfe777bbf, 0xc2fbd9d1, 0x21da9a9b, 0xb0638179, 0xcc899961, 0x846ee454, 0x8034229c,
              0x2de92c6f, 0x3e9d7b78, 0xf8373ead, 0x840de565, 0x51d3431b, 0xe2f359b3, 0x9dc68b63, 0x8ada8930);
    NextRound(b, 21, 0x9dc68b63, 0xe1f20c33, 0xfe777bbf, 0xc2fbd9d1, 0x8ada8930, 0xb0638179, 0xcc899961, 0x846ee454,
              0x4a7484aa, 0x0183fc00, 0x897ea930, 0xc4439171, 0xa640c29b, 0xfdf60b33, 0xc2606d6d, 0xe1257970);
    NextRound(b, 22, 0xc2606d6d, 0x9dc68b63, 0xe1f20c33, 0xfe777bbf, 0xe1257970, 0x8ada8930, 0xb0638179, 0xcc899961,
              0x5cb0a9dc, 0x12dcbfdb, 0x7f24093a, 0x90428939, 0x9a43bf51, 0xc1e20d63, 0xa7a3623f, 0x49f5114a);
    NextRound(b, 23, 0xa7a3623f, 0xc2606d6d, 0x9dc68b63, 0xe1f20c33, 0x49f5114a, 0xe1257970, 0x8ada8930, 0xb0638179,
              0x76f988da, 0xe2e2c38e, 0xfae64fc3, 0xc32f9970, 0x759d1b0a, 0x87e26b6f, 0xc5d53d8d, 0xaa47c347);
  }

  lemma BigSigmas24()
    ensures BigSigma1(0xaa47c347) == 0x55bdf420 && BigSigma0(0xc5d53d8d) == 0xc9ed56dd
    ensures BigSigma1(0x2823ef91) == 0xa7724357 && BigSigma0(0x1c2c2838) == 0xf66b0b1f
    ensures BigSigma1(0x14383d8e) == 0x958ca0fb && BigSigma0(0xcde8037d) == 0xc89998a8
    ensures BigSigma1(0xc74c6516) == 0x5ff7537b && BigSigma0(0xb62ec4bc) == 0xb37cf281
    ensures BigSigma1(0xedffbff8) == 0xe375bd7e && BigSigma0(0x77d37528) == 0xf963c20e
    ensures BigSigma1(0x6112a3b7) == 0x2239b36a && BigSigma0(0x363482c9) == 0x89cfb5ce
    ensures BigSigma1(0xade79437) == 0xab883974 && BigSigma0(0xa0060b30) == 0x69a8407c
    ensures BigSigma1(0x0109ab3a) == 0x0b919a99 && BigSigma0(0xea992a22) == 0x8f1995eb
  {}

  lemma Mixes24()
    ensures Choose(0xaa47c347, 0x49f5114a, 0xe1257970) == 0x49653972 && Majority(0xc5d53d8d, 0xa7a3623f, 0xc2606d6d) == 0xc7e16d2d
    ensures Choose(0x2823ef91, 0xaa47c347, 0x49f5114a) == 0x69d7d34b && Majority(0x1c2c2838, 0xc5d53d8d, 0xa7a3623f) == 0x85a5283d
    ensures Choose(0x14383d8e, 0x2823ef91, 0xaa47c347) == 0xaa67efc1 && Majority(0xcde8037d, 0x1c2c2838, 0xc5d53d8d) == 0xcdec293d
    ensures Choose(0xc74c6516, 0x14383d8e, 0x2823ef91) == 0x2c2baf87 && Majority(0xb62ec4bc, 0xcde8037d, 0x1c2c2838) == 0x9c2c003c
    ensures Choose(0xedffbff8, 0xc74c6516, 0x14383d8e) == 0xd54c2516 && Majority(0x77d37528, 0xb62ec4bc, 0xcde8037d) == 0xf7ea453c
    ensures Choose(0x6112a3b7, 0xedffbff8, 0xc74c6516) == 0xe75ee7b0 && Majority(0x363482c9, 0x77d37528, 0xb62ec4bc) == 0x3636c4a8
    ensures Choose(0xade79437, 0x6112a3b7, 0xedffbff8) == 0x611aabff && Majority(0xa0060b30, 0x363482c9, 0x77d37528) == 0x36160328
    ensures Choose(0x0109ab3a, 0xade79437, 0x6112a3b7) == 0x611380b7 && Majority(0xea992a22, 0xa0060b30, 0x363482c9) == 0xa2140a20
  {}

  lemma Rounds24(b: seq<byte>)
    requires IsBlock(b)
    ensures Reached(b, 32, Registers(0x73b33bf5, 0xea992a22, 0xa0060b30, 0x363482c9, 0xba591112, 0x0109ab3a, 0xade79437, 0x6112a3b7))
  {
    hide Reached, WordIs, ConstantIs, IsBlock, BigSigma0, BigSigma1, Choose, Majority;
    Rounds16(b);
    Words24(b);
    Constants24(24, 0x983e5152);
    Constants24(25, 0xa831c66d);
    Constants24(26, 0xb00327c8);
    Constants24(27, 0xbf597fc7);
    Constants24(28, 0xc6e00bf3);
    Constants24(29, 0xd5a79147);
    Constants24(30, 0x06ca6351);
    Constants24(31, 0x14292967);
    BigSigmas24();
    Mixes24();
    NextRound(b, 24, 0xc5d53d8d, 0xa7a3623f, 0xc2606d6d, 0x9dc68b63, 0xaa47c347, 0x49f5114a, 0xe1257970, 0x8ada8930,
              0x983e5152, 0xc8215c1a, 0x55bdf420, 0x49653972, 0xc9ed56dd, 0xc7e16d2d, 0x1c2c2838, 0x2823ef91);
    NextRound(b, 25, 0x1c2c2838, 0xc5d53d8d, 0xa7a3623f, 0xc2606d6d, 0x2823ef91, 0xaa47c347, 0x49f5114a, 0xe1257970,
              0xa831c66d, 0xb73679a2, 0xa7724357, 0x69d7d34b, 0xf66b0b1f, 0x85a5283d, 0xcde8037d, 0x14383d8e);
    NextRound(b, 26, 0xcde8037d, 0x1c2c2838, 0xc5d53d8d, 0xa7a3623f, 0x14383d8e, 0x2823ef91, 0xaa47c347, 0x49f5114a,
              0xb00327c8, 0xe5bc3909, 0x958ca0fb, 0xaa67efc1, 0xc89998a8, 0xcdec293d, 0xb62ec4bc, 0xc74c6516);
    NextRound(b, 27, 0xb62ec4bc, 0xcde8037d, 0x1c2c2838, 0xc5d53d8d, 0xc74c6516, 0x14383d8e, 0x2823ef91, 0xaa47c347,
              0xbf597fc7, 0x32663c5b, 0x5ff7537b, 0x2c2baf87, 0xb37cf281, 0x9c2c003c, 0x77d37528, 0xedffbff8);
    NextRound(b, 28, 0x77d37528, 0xb62ec4bc, 0xcde8037d, 0x1c2c2838, 0xedffbff8, 0xc74c6516, 0x14383d8e, 0x2823ef91,
              0xc6e00bf3, 0x9d209d67, 0xe375bd7e, 0xd54c2516, 0xf963c20e, 0xf7ea453c, 0x363482c9, 0x6112a3b7);
    NextRound(b, 29, 0x363482c9, 0x77d37528, 0xb62ec4bc, 0xcde8037d, 0x6112a3b7, 0xedffbff8, 0xc74c6516, 0x14383d8e,
              0xd5a79147, 0xec8726cb, 0x2239b36a, 0xe75ee7b0, 0x89cfb5ce, 0x3636c4a8, 0xa0060b30, 0xade79437);
    NextRound(b, 30, 0xa0060b30, 0x363482c9, 0x77d37528, 0xb62ec4bc, 0xade79437, 0x6112a3b7, 0xedffbff8, 0xc74c6516,
              0x06ca6351, 0x702138a4, 0xab883974, 0x611aabff, 0x69a8407c, 0x36160328, 0xea992a22, 0x0109ab3a);
    NextRound(b, 31, 0xea992a22, 0xa0060b30, 0x363482c9, 0x77d37528, 0x0109ab3a, 0xade79437, 0x6112a3b7, 0xedffbff8,
              0x14292967, 0xd3b7973b, 0x0b919a99, 0x611380b7, 0x8f1995eb, 0xa2140a20, 0x73b33bf5, 0xba591112);
  }

  lemma BigSigmas32()
    ensures BigSigma1(0xba591112) == 0x4436a63b && BigSigma0(0x73b33bf5) == 0x4fa886aa
    ensures BigSigma1(0x9cd9f5f6) == 0x085a07a7 && BigSigma0(0x98e12507) == 0x4a90902b
    ensures BigSigma1(0x59249dd3) == 0x65415f48 && BigSigma0(0xfe604df5) == 0x91003786
    ensures BigSigma1(0x085f3833) == 0xe5dc6e83 && BigSigma0(0xa9a7738c) == 0x2bc2a37e
    ensures BigSigma1(0xf4b002d6) == 0x590d3d71 && BigSigma0(0x65a0cfe4) == 0xe5748f69
    ensures BigSigma1(0x0772a26b) == 0x582c115e && BigSigma0(0x41a65cb1) == 0x2c915f18
    ensures BigSigma1(0xa507a53d) == 0xd2f220b2 && BigSigma0(0x34df1604) == 0xc14e73aa
    ensures BigSigma1(0xf0781bc8) == 0x66d20b14 && BigSigma0(0x6dc57a8a) == 0x5ac8193e
  {}

  lemma Mixes32()
    ensures Choose(0xba591112, 0x0109ab3a, 0xade79437) == 0x05af8537 && Majority(0x73b33bf5, 0xea992a22, 0xa0060b30) == 0xe2932b30
    ensures Choose(0x9cd9f5f6, 0xba591112, 0x0109ab3a) == 0x99591b1a && Majority(0x98e12507, 0x73b33bf5, 0xea992a22) == 0xfab12b27
    ensures Choose(0x59249dd3, 0x9cd9f5f6, 0xba591112) == 0xba5995d2 && Majority(0xfe604df5, 0x98e12507, 0x73b33bf5) == 0xfae12df5
    ensures Choose(0x085f3833, 0x59249dd3, 0x9cd9f5f6) == 0x9c84ddd7 && Majority(0xa9a7738c, 0xfe604df5, 0x98e12507) == 0xb8e16585
    ensures Choose(0xf4b002d6, 0x085f3833, 0x59249dd3) == 0x09149d13 && Majority(0x65a0cfe4, 0xa9a7738c, 0xfe604df5) == 0xeda04fe4
    ensures Choose(0x0772a26b, 0xf4b002d6, 0x085f3833) == 0x0c3d1a52 && Majority(0x41a65cb1, 0x65a0cfe4, 0xa9a7738c) == 0x61a65fa4
    ensures Choose(0xa507a53d, 0x0772a26b, 0xf4b002d6) == 0x55b2a2eb && Majority(0x34df1604, 0x41a65cb1, 0x65a0cfe4) == 0x65a65ea4
    ensures Choose(0xf0781bc8, 0xa507a53d, 0x0772a26b) == 0xa702a12b && Majority(0x6dc57a8a, 0x34df1604, 0x41a65cb1) == 0x65c75e80
  {}

  lemma Rounds32(b: seq<byte>)
    requires IsBlock(b)
    ensures Reached(b, 40, Registers(0x79ea687a, 0x6dc57a8a, 0x34df1604, 0x41a65cb1, 0x1efbc0a0, 0xf0781bc8, 0xa507a53d, 0x0772a26b))
  {
    hide Reached, WordIs, ConstantIs, IsBlock, BigSigma0, BigSigma1, Choose, Majority;
    Rounds24(b);
    Words32(b);
    Constants32(32, 0x27b70a85);
    Constants32(33, 0x2e1b2138);
    Constants32(34, 0x4d2c6dfc);
    Constants32(35, 0x53380d13);
    Constants32(36, 0x650a7354);
    Constants32(37, 0x766a0abb);
    Constants32(38, 0x81c2c92e);
    Constants32(39, 0x92722c85);
    BigSigmas32();
    Mixes32();
    NextRound(b, 32, 0x73b33bf5, 0xea992a22, 0xa0060b30, 0x363482c9, 0xba591112, 0x0109ab3a, 0xade79437, 0x6112a3b7,
              0x27b70a85, 0x93f5997f, 0x4436a63b, 0x05af8537, 0x4fa886aa, 0xe2932b30, 0x98e12507, 0x9cd9f5f6);
    NextRound(b, 33, 0x98e12507, 0x73b33bf5, 0xea992a22, 0xa0060b30, 0x9cd9f5f6, 0xba591112, 0x0109ab3a, 0xade79437,
              0x2e1b2138, 0x3b68ba73, 0x085a07a7, 0x99591b1a, 0x4a90902b, 0xfab12b27, 0xfe604df5, 0x59249dd3);
    NextRound(b, 34, 0xfe604df5, 0x98e12507, 0x73b33bf5, 0xea992a22, 0x59249dd3, 0x9cd9f5f6, 0xba591112, 0x0109ab3a,
              0x4d2c6dfc, 0xaff4ffc1, 0x65415f48, 0xba5995d2, 0x91003786, 0xfae12df5, 0xa9a7738c, 0x085f3833);
    NextRound(b, 35, 0xa9a7738c, 0xfe604df5, 0x98e12507, 0x73b33bf5, 0x085f3833, 0x59249dd3, 0x9cd9f5f6, 0xba591112,
              0x53380d13, 0xf10a5c62, 0xe5dc6e83, 0x9c84ddd7, 0x2bc2a37e, 0xb8e16585, 0x65a0cfe4, 0xf4b002d6);
    NextRound(b, 36, 0x65a0cfe4, 0xa9a7738c, 0xfe604df5, 0x98e12507, 0xf4b002d6, 0x085f3833, 0x59249dd3, 0x9cd9f5f6,
              0x650a7354, 0x0a8b3996, 0x590d3d71, 0x09149d13, 0xe5748f69, 0xeda04fe4, 0x41a65cb1, 0x0772a26b);
    NextRound(b, 37, 0x41a65cb1, 0x65a0cfe4, 0xa9a7738c, 0xfe604df5, 0x0772a26b, 0xf4b002d6, 0x085f3833, 0x59249dd3,
              0x766a0abb, 0x72af830a, 0x582c115e, 0x0c3d1a52, 0x2c915f18, 0x61a65fa4, 0x34df1604, 0xa507a53d);
    NextRound(b, 38, 0x34df1604, 0x41a65cb1, 0x65a0cfe4, 0xa9a7738c, 0xa507a53d, 0x0772a26b, 0xf4b002d6, 0x085f3833,
              0x81c2c92e, 0x9409e33e, 0xd2f220b2, 0x55b2a2eb, 0xc14e73aa, 0x65a65ea4, 0x6dc57a8a, 0xf0781bc8);
    NextRound(b, 39, 0x6dc57a8a, 0x34df1604, 0x41a65cb1, 0x65a0cfe4, 0xf0781bc8, 0xa507a53d, 0x0772a26b, 0xf4b002d6,
              0x92722c85, 0x24641522, 0x66d20b14, 0xa702a12b, 0x5ac8193e, 0x65c75e80, 0x79ea687a, 0x1efbc0a0);
  }

  lemma BigSigmas40()
    ensures BigSigma1(0x1efbc0a0) == 0xe9986075 && BigSigma0(0x79ea687a) == 0x7408bcaa
    ensures BigSigma1(0x26352d63) == 0x3a6aa383 && BigSigma0(0xd6670766) == 0x12b2e9b8
    ensures BigSigma1(0x838b2711) == 0x61add539 && BigSigma0(0xdf46652f) == 0xc73bdc05
    ensures BigSigma1(0xdecd4715) == 0xd363665b && BigSigma0(0x17aa0dfe) == 0x422dc671
    ensures BigSigma1(0xfda24c2e) == 0xef0f2a07 && BigSigma0(0x9d4baf93) == 0xb5704fcc
    ensures BigSigma1(0xa80f11f0) == 0xfb3dc5f1 && BigSigma0(0x26628815) == 0x8311c588
    ensures BigSigma1(0xb7755da1) == 0x8845eb06 && BigSigma0(0x72ab4b91) == 0xad0f0274
    ensures BigSigma1(0xd57b94a9) == 0x8fa515ca && BigSigma0(0xa14c14b0) == 0xbd84cdc9
  {}

  lemma Mixes40()
    ensures Choose(0x1efbc0a0, 0xf0781bc8, 0xa507a53d) == 0xb17c259d && Majority(0x79ea687a, 0x6dc57a8a, 0x34df1604) == 0x7dcf7a0a
    ensures Choose(0x26352d63, 0x1efbc0a0, 0xf0781bc8) == 0xd67912a8 && Majority(0xd6670766, 0x79ea687a, 0x6dc57a8a) == 0x7de76a6a
    ensures Choose(0x838b2711, 0x26352d63, 0x1efbc0a0) == 0x1e71e5a1 && Majority(0xdf46652f, 0xd6670766, 0x79ea687a) == 0xdf66656e
    ensures Choose(0xdecd4715, 0x838b2711, 0x26352d63) == 0xa2b92f73 && Majority(0x17aa0dfe, 0xdf46652f, 0xd6670766) == 0xd766056e
    ensures Choose(0xfda24c2e, 0xdecd4715, 0x838b2711) == 0xde896715 && Majority(0x9d4baf93, 0x17aa0dfe, 0xdf46652f) == 0x9f4a2dbf
    ensures Choose(0xa80f11f0, 0xfda24c2e, 0xdecd4715) == 0xfec24625 && Majority(0x26628815, 0x9d4baf93, 0x17aa0dfe) == 0x176a8d97
    ensures Choose(0xb7755da1, 0xa80f11f0, 0xfda24c2e) == 0xe88711ae && Majority(0x72ab4b91, 0x26628815, 0x9d4baf93) == 0x366b8b91
    ensures Choose(0xd57b94a9, 0xb7755da1, 0xa80f11f0) == 0xbd7515f1 && Majority(0xa14c14b0, 0x72ab4b91, 0x26628815) == 0x226a0891
  {}

  lemma Rounds40(b: seq<byte>)
    requires IsBlock(b)
    ensures Reached(b, 48, Registers(0x4172328d, 0xa14c14b0, 0x72ab4b91, 0x26628815, 0xfecf0bc6, 0xd57b94a9, 0xb7755da1, 0xa80f11f0))
  {
    hide Reached, WordIs, ConstantIs, IsBlock, BigSigma0, BigSigma1, Choose, Majority;
    Rounds32(b);
    Words40(b);
    Constants40(40, 0xa2bfe8a1);
    Constants40(41, 0xa81a664b);
    Constants40(42, 0xc24b8b70);
    Constants40(43, 0xc76c51a3);
    Constants40(44, 0xd192e819);
    Constants40(45, 0xd6990624);
    Constants40(46, 0xf40e3585);
    Constants40(47, 0x106aa070);
    BigSigmas40();
    Mixes40();
    NextRound(b, 40, 0x79ea687a, 0x6dc57a8a, 0x34df1604, 0x41a65cb1, 0x1efbc0a0, 0xf0781bc8, 0xa507a53d, 0x0772a26b,
              0xa2bfe8a1, 0x9f47bf94, 0xe9986075, 0xb17c259d, 0x7408bcaa, 0x7dcf7a0a, 0xd6670766, 0x26352d63);
    NextRound(b, 41, 0xd6670766, 0x79ea687a, 0x6dc57a8a, 0x34df1604, 0x26352d63, 0x1efbc0a0, 0xf0781bc8, 0xa507a53d,
              0xa81a664b, 0xf0a64f5a, 0x3a6aa383, 0xd67912a8, 0x12b2e9b8, 0x7de76a6a, 0xdf46652f, 0x838b2711);
    NextRound(b, 42, 0xdf46652f, 0xd6670766, 0x79ea687a, 0x6dc57a8a, 0x838b2711, 0x26352d63, 0x1efbc0a0, 0xf0781bc8,
              0xc24b8b70, 0x3e246a79, 0x61add539, 0x1e71e5a1, 0xc73bdc05, 0xdf66656e, 0x17aa0dfe, 0xdecd4715);
    NextRound(b, 43, 0x17aa0dfe, 0xdf46652f, 0xd6670766, 0x79ea687a, 0xdecd4715, 0x838b2711, 0x26352d63, 0x1efbc0a0,
              0xc76c51a3, 0x27333ba3, 0xd363665b, 0xa2b92f73, 0x422dc671, 0xd766056e, 0x9d4baf93, 0xfda24c2e);
    NextRound(b, 44, 0x9d4baf93, 0x17aa0dfe, 0xdf46652f, 0xd6670766, 0xfda24c2e, 0xdecd4715, 0x838b2711, 0x26352d63,
              0xd192e819, 0x0c4763f2, 0xef0f2a07, 0xde896715, 0xb5704fcc, 0x9f4a2dbf, 0x26628815, 0xa80f11f0);
    NextRound(b, 45, 0x26628815, 0x9d4baf93, 0x17aa0dfe, 0xdf46652f, 0xa80f11f0, 0xfda24c2e, 0xdecd4715, 0x838b2711,
              0xd6990624, 0x840abf27, 0xfb3dc5f1, 0xfec24625, 0x8311c588, 0x176a8d97, 0x72ab4b91, 0xb7755da1);
    NextRound(b, 46, 0x72ab4b91, 0x26628815, 0x9d4baf93, 0x17aa0dfe, 0xb7755da1, 0xa80f11f0, 0xfda24c2e, 0xdecd4715,
              0xf40e3585, 0x7a290d5d, 0x8845eb06, 0xe88711ae, 0xad0f0274, 0x366b8b91, 0xa14c14b0, 0xd57b94a9);
    NextRound(b, 47, 0xa14c14b0, 0x72ab4b91, 0x26628815, 0x9d4baf93, 0xd57b94a9, 0xb7755da1, 0xa80f11f0, 0xfda24c2e,
              0x106aa070, 0x065c43da, 0x8fa515ca, 0xbd7515f1, 0xbd84cdc9, 0x226a0891, 0x4172328d, 0xfecf0bc6);
  }

  lemma BigSigmas48()
    ensures BigSigma1(0xfecf0bc6) == 0x04a106b1 && BigSigma0(0x4172328d) == 0x0cfcb237
    ensures BigSigma1(0xbd714038) == 0x5d427776 && BigSigma0(0x05757ceb) == 0xf3f6d884
    ensures BigSigma1(0x6e5c390c) == 0x3e283d54 && BigSigma0(0xf11bfaa8) == 0x86ebd5b1
    ensures BigSigma1(0x52f1ccf7) == 0x3b47e2a3 && BigSigma0(0x7a0508a1) == 0x0fa817e8
    ensures BigSigma1(0x49231c1e) == 0x6b63a737 && BigSigma0(0x886e7a22) == 0xcae757da
    ensures BigSigma1(0x529e7d00) == 0xee7eaa12 && BigSigma0(0x101fd28f) == 0x2f35481d
    ensures BigSigma1(0x9f4787c3) == 0x55cd1720 && BigSigma0(0xf5702fdb) == 0x433ccfa2
    ensures BigSigma1(0xe50e1b4f) == 0xd1653e5c && BigSigma0(0x3ec45cdb) == 0x381b8def
  {}

  lemma Mixes48()
    ensures Choose(0xfecf0bc6, 0xd57b94a9, 0xb7755da1) == 0xd57b54a1 && Majority(0x4172328d, 0xa14c14b0, 0x72ab4b91) == 0x616a1291
    ensures Choose(0xbd714038, 0xfecf0bc6, 0xd57b94a9) == 0xfc4b9481 && Majority(0x05757ceb, 0x4172328d, 0xa14c14b0) == 0x017434a9
    ensures Choose(0x6e5c390c, 0xbd714038, 0xfecf0bc6) == 0xbcd302ca && Majority(0xf11bfaa8, 0x05757ceb, 0x4172328d) == 0x41737aa9
    ensures Choose(0x52f1ccf7, 0x6e5c390c, 0xbd714038) == 0xef50080c && Majority(0x7a0508a1, 0xf11bfaa8, 0x05757ceb) == 0x711578a9
    ensures Choose(0x49231c1e, 0x52f1ccf7, 0x6e5c390c) == 0x667d2d16 && Majority(0x886e7a22, 0x7a0508a1, 0xf11bfaa8) == 0xf80f7aa0
    ensures Choose(0x529e7d00, 0x49231c1e, 0x52f1ccf7) == 0x40639cf7 && Majority(0x101fd28f, 0x886e7a22, 0x7a0508a1) == 0x180f5aa3
    ensures Choose(0x9f4787c3, 0x529e7d00, 0x49231c1e) == 0x52261d1c && Majority(0xf5702fdb, 0x101fd28f, 0x886e7a22) == 0x907e7a8b
    ensures Choose(0xe50e1b4f, 0x9f4787c3, 0x529e7d00) == 0x97966743 && Majority(0x3ec45cdb, 0xf5702fdb, 0x101fd28f) == 0x34545edb
  {}

  lemma Rounds48(b: seq<byte>)
    requires IsBlock(b)
    ensures Reached(b, 56, Registers(0x38cc9913, 0x3ec45cdb, 0xf5702fdb, 0x101fd28f, 0x54cb266b, 0xe50e1b4f, 0x9f4787c3, 0x529e7d00))
  {
    hide Reached, WordIs, ConstantIs, IsBlock, BigSigma0, BigSigma1, Choose, Majority;
    Rounds40(b);
    Words48(b);
    Constants48(48, 0x19a4c116);
    Constants48(49, 0x1e376c08);
    Constants48(50, 0x2748774c);
    Constants48(51, 0x34b0bcb5);
    Constants48(52, 0x391c0cb3);
    Constants48(53, 0x4ed8aa4a);
    Constants48(54, 0x5b9cca4f);
    Constants48(55, 0x682e6ff3);
    BigSigmas48();
    Mixes48();
    NextRound(b, 48, 0x4172328d, 0xa14c14b0, 0x72ab4b91, 0x26628815, 0xfecf0bc6, 0xd57b94a9, 0xb7755da1, 0xa80f11f0,
              0x19a4c116, 0xfb3e89cb, 0x04a106b1, 0xd57b54a1, 0x0cfcb237, 0x616a1291, 0x05757ceb, 0xbd714038);
    NextRound(b, 49, 0x05757ceb, 0x4172328d, 0xa14c14b0, 0x72ab4b91, 0xbd714038, 0xfecf0bc6, 0xd57b94a9, 0xb7755da1,
              0x1e376c08, 0xcc7617db, 0x5d427776, 0xfc4b9481, 0xf3f6d884, 0x017434a9, 0xf11bfaa8, 0x6e5c390c);
    NextRound(b, 50, 0xf11bfaa8, 0x05757ceb, 0x4172328d, 0xa14c14b0, 0x6e5c390c, 0xbd714038, 0xfecf0bc6, 0xd57b94a9,
              0x2748774c, 0xb9e66c34, 0x3e283d54, 0xbcd302ca, 0x86ebd5b1, 0x41737aa9, 0x7a0508a1, 0x52f1ccf7);
    NextRound(b, 51, 0x7a0508a1, 0xf11bfaa8, 0x05757ceb, 0x4172328d, 0x52f1ccf7, 0x6e5c390c, 0xbd714038, 0xfecf0bc6,
              0x34b0bcb5, 0xa9993667, 0x3b47e2a3, 0xef50080c, 0x0fa817e8, 0x711578a9, 0x886e7a22, 0x49231c1e);
    NextRound(b, 52, 0x886e7a22, 0x7a0508a1, 0xf11bfaa8, 0x05757ceb, 0x49231c1e, 0x52f1ccf7, 0x6e5c390c, 0xbd714038,
              0x391c0cb3, 0x84badedd, 0x6b63a737, 0x667d2d16, 0xcae757da, 0xf80f7aa0, 0x101fd28f, 0x529e7d00);
    NextRound(b, 53, 0x101fd28f, 0x886e7a22, 0x7a0508a1, 0xf11bfaa8, 0x529e7d00, 0x49231c1e, 0x52f1ccf7, 0x6e5c390c,
              0x4ed8aa4a, 0xc21462bc, 0xee7eaa12, 0x40639cf7, 0x2f35481d, 0x180f5aa3, 0xf5702fdb, 0x9f4787c3);
    NextRound(b, 54, 0xf5702fdb, 0x101fd28f, 0x886e7a22, 0x7a0508a1, 0x9f4787c3, 0x529e7d00, 0x49231c1e, 0x52f1ccf7,
              0x5b9cca4f, 0x1487472c, 0x55cd1720, 0x52261d1c, 0x433ccfa2, 0x907e7a8b, 0x3ec45cdb, 0xe50e1b4f);
    NextRound(b, 55, 0x3ec45cdb, 0xf5702fdb, 0x101fd28f, 0x886e7a22, 0xe50e1b4f, 0x9f4787c3, 0x529e7d00, 0x49231c1e,
              0x682e6ff3, 0xb20f7a99, 0xd1653e5c, 0x97966743, 0x381b8def, 0x34545edb, 0x38cc9913, 0x54cb266b);
  }

  lemma BigSigmas56()
    ensures BigSigma1(0x54cb266b) == 0x05aa8057 && BigSigma0(0x38cc9913) == 0x34ceacc3
    ensures BigSigma1(0x9b5e906c) == 0x10b627de && BigSigma0(0xfcd1887b) == 0xfaca6b61
    ensures BigSigma1(0x7e44008e) == 0x0a369fbd && BigSigma0(0xc062d46f) == 0xd837090c
    ensures BigSigma1(0x6d83bfc6) == 0x20a45dbe && BigSigma0(0xffb70472) == 0x406bf75a
    ensures BigSigma1(0xb21bad3d) == 0x5ca8b318 && BigSigma0(0xb6ae8fff) == 0x2869e851
    ensures BigSigma1(0x961f4894) == 0x4f6ef480 && BigSigma0(0xb85e2ce9) == 0x71e9ef2a
    ensures BigSigma1(0x948d25b6) == 0x2a127e78 && BigSigma0(0x04d24d6c) == 0x236105da
    ensures BigSigma1(0xfb121210) == 0x88fa2277 && BigSigma0(0xd39a2165) == 0x174d83c6
  {}

  lemma Mixes56()
    ensures Choose(0x54cb266b, 0xe50e1b4f, 0x9f4787c3) == 0xcf0e83cb && Majority(0x38cc9913, 0x3ec45cdb, 0xf5702fdb) == 0x3cc41ddb
    ensures Choose(0x9b5e906c, 0x54cb266b, 0xe50e1b4f) == 0x744a0b6b && Majority(0xfcd1887b, 0x38cc9913, 0x3ec45cdb) == 0x3cc4985b
    ensures Choose(0x7e44008e, 0x9b5e906c, 0x54cb266b) == 0x1acf266d && Majority(0xc062d46f, 0xfcd1887b, 0x38cc9913) == 0xf8c0987b
    ensures Choose(0x6d83bfc6, 0x7e44008e, 0x9b5e906c) == 0xfe5c00ae && Majority(0xffb70472, 0xc062d46f, 0xfcd1887b) == 0xfcf3847b
    ensures Choose(0xb21bad3d, 0x6d83bfc6, 0x7e44008e) == 0x6c47ad86 && Majority(0xb6ae8fff, 0xffb70472, 0xc062d46f) == 0xf6a6847f
    ensures Choose(0x961f4894, 0xb21bad3d, 0x6d83bfc6) == 0xfb9bbf56 && Majority(0xb85e2ce9, 0xb6ae8fff, 0xffb70472) == 0xbebe0cfb
    ensures Choose(0x948d25b6, 0x961f4894, 0xb21bad3d) == 0xb61f889d && Majority(0x04d24d6c, 0xb85e2ce9, 0xb6ae8fff) == 0xb4de0ded
    ensures Choose(0xfb121210, 0x948d25b6, 0x961f4894) == 0x940d4894 && Majority(0xd39a2165, 0x04d24d6c, 0xb85e2ce9) == 0x90da2d6d
  {}

  lemma Rounds56(b: seq<byte>)
    requires IsBlock(b)
    ensures Reached(b, 64, Registers(0x506e3058, 0xd39a2165, 0x04d24d6c, 0xb85e2ce9, 0x5ef50f24, 0xfb121210, 0x948d25b6, 0x961f4894))
  {
    hide Reached, WordIs, ConstantIs, IsBlock, BigSigma0, BigSigma1, Choose, Majority;
    Rounds48(b);
    Words56(b);
    Constants56(56, 0x748f82ee);
    Constants56(57, 0x78a5636f);
    Constants56(58, 0x84c87814);
    Constants56(59, 0x8cc70208);
    Constants56(60, 0x90befffa);
    Constants56(61, 0xa4506ceb);
    Constants56(62, 0xbef9a3f7);
    Constants56(63, 0xc67178f2);
    BigSigmas56();
    Mixes56();
    NextRound(b, 56, 0x38cc9913, 0x3ec45cdb, 0xf5702fdb, 0x101fd28f, 0x54cb266b, 0xe50e1b4f, 0x9f4787c3, 0x529e7d00,
              0x748f82ee, 0xef57b9cd, 0x05aa8057, 0xcf0e83cb, 0x34ceacc3, 0x3cc41ddb, 0xfcd1887b, 0x9b5e906c);
    NextRound(b, 57, 0xfcd1887b, 0x38cc9913, 0x3ec45cdb, 0xf5702fdb, 0x9b5e906c, 0x54cb266b, 0xe50e1b4f, 0x9f4787c3,
              0x78a5636f, 0xebe6b238, 0x10b627de, 0x744a0b6b, 0xfaca6b61, 0x3cc4985b, 0xc062d46f, 0x7e44008e);
    NextRound(b, 58, 0xc062d46f, 0xfcd1887b, 0x38cc9913, 0x3ec45cdb, 0x7e44008e, 0x9b5e906c, 0x54cb266b, 0xe50e1b4f,
              0x84c87814, 0x9fe3095e, 0x0a369fbd, 0x1acf266d, 0xd837090c, 0xf8c0987b, 0xffb70472, 0x6d83bfc6);
    NextRound(b, 59, 0xffb70472, 0xc062d46f, 0xfcd1887b, 0x38cc9913, 0x6d83bfc6, 0x7e44008e, 0x9b5e906c, 0x54cb266b,
              0x8cc70208, 0x78bc8d4b, 0x20a45dbe, 0xfe5c00ae, 0x406bf75a, 0xfcf3847b, 0xb6ae8fff, 0xb21bad3d);
    NextRound(b, 60, 0xb6ae8fff, 0xffb70472, 0xc062d46f, 0xfcd1887b, 0xb21bad3d, 0x6d83bfc6, 0x7e44008e, 0x9b5e906c,
              0x90befffa, 0xa43fcf15, 0x5ca8b318, 0x6c47ad86, 0x2869e851, 0xf6a6847f, 0xb85e2ce9, 0x961f4894);
    NextRound(b, 61, 0xb85e2ce9, 0xb6ae8fff, 0xffb70472, 0xc062d46f, 0x961f4894, 0xb21bad3d, 0x6d83bfc6, 0x7e44008e,
              0xa4506ceb, 0x668b2ff8, 0x4f6ef480, 0xfb9bbf56, 0x71e9ef2a, 0xbebe0cfb, 0x04d24d6c, 0x948d25b6);
    NextRound(b, 62, 0x04d24d6c, 0xb85e2ce9, 0xb6ae8fff, 0xffb70472, 0x948d25b6, 0x961f4894, 0xb21bad3d, 0x6d83bfc6,
              0xbef9a3f7, 0xeeaba2cc, 0x2a127e78, 0xb61f889d, 0x236105da, 0xb4de0ded, 0xd39a2165, 0xfb121210);
    NextRound(b, 63, 0xd39a2165, 0x04d24d6c, 0xb85e2ce9, 0xb6ae8fff, 0xfb121210, 0x948d25b6, 0x961f4894, 0xb21bad3d,
              0xc67178f2, 0x12b1edeb, 0x88fa2277, 0x940d4894, 0x174d83c6, 0x90da2d6d, 0x506e3058, 0x5ef50f24);
  }

  // ---------------------------------------------------------------- the answer

  lemma OneChunk(b: seq<byte>, last: Registers, sum: Registers, n: nat)
    requires Reached(b, 64, last) && sum == Plus(START, last) && n == |b| / 64
    ensures 64 * n <= |b| && Hash(b, n) == sum
  {
    hide Rounds, Plus;
    assert Chunk(b, 0) == b;
    assert Hash(b, 0) == START;
  }

  /** SHA-256 of "abc". */
  lemma DigestAbc(d: seq<byte>)
    requires d == [0x61, 0x62, 0x63]
    ensures Digest(d) == [0xba7816bf, 0x8f01cfea, 0x414140de, 0x5dae2223, 0xb00361a3, 0x96177a9c, 0xb410ff61, 0xf20015ad]
  {
    hide Hash, IsBlock, Padded, Reached;
    var b := Padded(d);
    PaddedAbc(d);
    Rounds56(b);
    OneChunk(b, Registers(0x506e3058, 0xd39a2165, 0x04d24d6c, 0xb85e2ce9, 0x5ef50f24, 0xfb121210, 0x948d25b6, 0x961f4894),
             Registers(0xba7816bf, 0x8f01cfea, 0x414140de, 0x5dae2223, 0xb00361a3, 0x96177a9c, 0xb410ff61, 0xf20015ad), |b| / 64);
  }

  lemma MoreText(ws: seq<word>, w: word, text: string)
    requires HexBytes(BigEndian(w)) == text
    ensures HexBytes(WordBytes(ws + [w])) == HexBytes(WordBytes(ws)) + text
  {
    hide HexBytes, BigEndian;
    assert (ws + [w])[..|ws|] == ws;
    HexAppend(WordBytes(ws), BigEndian(w));
  }

  lemma WordText(w: word, a: byte, b: byte, c: byte, d: byte, text: string)
    requires BigEndian(w) == [a, b, c, d] && text == HexByte(a) + HexByte(b) + HexByte(c) + HexByte(d)
    ensures HexBytes(BigEndian(w)) == text
  {
    hide HexByte;
    HexOfFour(BigEndian(w));
  }

  lemma TextOne(w: word)
    requires w == 0xba7816bf
    ensures HexBytes(BigEndian(w)) == "ba7816bf"
  {
    WordText(w, 0xba, 0x78, 0x16, 0xbf, "ba7816bf");
  }

  lemma TextTwo(w: word)
    requires w == 0x8f01cfea
    ensures HexBytes(BigEndian(w)) == "8f01cfea"
  {
    WordText(w, 0x8f, 0x01, 0xcf, 0xea, "8f01cfea");
  }

  lemma TextThree(w: word)
    requires w == 0x414140de
    ensures HexBytes(BigEndian(w)) == "414140de"
  {
    WordText(w, 0x41, 0x41, 0x40, 0xde, "414140de");
  }

  lemma TextFour(w: word)
    requires w == 0x5dae2223
    ensures HexBytes(BigEndian(w)) == "5dae2223"
  {
    WordText(w, 0x5d, 0xae, 0x22, 0x23, "5dae2223");
  }

  lemma TextFive(w: word)
    requires w == 0xb00361a3
    ensures HexBytes(BigEndian(w)) == "b00361a3"
  {
    WordText(w, 0xb0, 0x03, 0x61, 0xa3, "b00361a3");
  }

  lemma TextSix(w: word)
    requires w == 0x96177a9c
    ensures HexBytes(BigEndian(w)) == "96177a9c"
  {
    WordText(w, 0x96, 0x17, 0x7a, 0x9c, "96177a9c");
  }

  lemma TextSeven(w: word)
    requires w == 0xb410ff61
    ensures HexBytes(BigEndian(w)) == "b410ff61"
  {
    WordText(w, 0xb4, 0x10, 0xff, 0x61, "b410ff61");
  }

  lemma TextEight(w: word)
    requires w == 0xf20015ad
    ensures HexBytes(BigEndian(w)) == "f20015ad"
  {
    WordText(w, 0xf2, 0x00, 0x15, 0xad, "f20015ad");
  }

  /** The text of that digest: lower-case digits, most significant first. */
  lemma TextAbc(d: seq<byte>)
    requires d == [0x61, 0x62, 0x63]
    ensures HexBytes(WordBytes(Digest(d)))
         == "ba7816bf" + "8f01cfea" + "414140de" + "5dae2223" + "b00361a3" + "96177a9c" + "b410ff61" + "f20015ad"
  {
    hide HexBytes, WordBytes, Digest, BigEndian;
    DigestAbc(d);
    NoText();
    var ws: seq<word> := Digest(d);
    TextOne(ws[0]);
    MoreText(ws[..0], ws[0], "ba7816bf");
    assert ws[..0] + [ws[0]] == ws[..1];
    TextTwo(ws[1]);
    MoreText(ws[..1], ws[1], "8f01cfea");
    assert ws[..1] + [ws[1]] == ws[..2];
    TextThree(ws[2]);
    MoreText(ws[..2], ws[2], "414140de");
    assert ws[..2] + [ws[2]] == ws[..3];
    TextFour(ws[3]);
    MoreText(ws[..3], ws[3], "5dae2223");
    assert ws[..3] + [ws[3]] == ws[..4];
    TextFive(ws[4]);
    MoreText(ws[..4], ws[4], "b00361a3");
    assert ws[..4] + [ws[4]] == ws[..5];
    TextSix(ws[5]);
    MoreText(ws[..5], ws[5], "96177a9c");
    assert ws[..5] + [ws[5]] == ws[..6];
    TextSeven(ws[6]);
    MoreText(ws[..6], ws[6], "b410ff61");
    assert ws[..6] + [ws[6]] == ws[..7];
    TextEight(ws[7]);
    MoreText(ws[..7], ws[7], "f20015ad");
    assert ws[..7] + [ws[7]] == ws[..8];
    assert ws[..8] == ws && ws[..0] == [];
  }

  lemma NoText()
    ensures HexBytes(WordBytes([])) == []
  {}
}
