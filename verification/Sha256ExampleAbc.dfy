/** The one-block example of the Secure Hash Standard: the digest of "abc". */
module Sha256ExampleAbc {
  import opened Base
  import opened Sha256Constants
  import opened Sha256Spec
  import opened Sha256Steps
  import BigEndian

  /** The padded message: three bytes, a one bit, zeros, and the length of 24 bits. */
  const ABC: Bytes := [0x61, 0x62, 0x63] + [0x80] + Zeros(52) + [0, 0, 0, 0, 0, 0, 0, 0x18]

  lemma AbcBlockWords0()
    ensures WordIs(ABC, 0, 0x61626380)
    ensures WordIs(ABC, 1, 0x00000000)
    ensures WordIs(ABC, 2, 0x00000000)
    ensures WordIs(ABC, 3, 0x00000000)
  {
    hide WordIs;
    BlockWordIs(ABC, 0, 0x61, 0x62, 0x63, 0x80, 0x61626380);
    BlockWordIs(ABC, 1, 0x00, 0x00, 0x00, 0x00, 0x00000000);
    BlockWordIs(ABC, 2, 0x00, 0x00, 0x00, 0x00, 0x00000000);
    BlockWordIs(ABC, 3, 0x00, 0x00, 0x00, 0x00, 0x00000000);
  }

  lemma AbcBlockWords1()
    ensures WordIs(ABC, 4, 0x00000000)
    ensures WordIs(ABC, 5, 0x00000000)
    ensures WordIs(ABC, 6, 0x00000000)
    ensures WordIs(ABC, 7, 0x00000000)
  {
    hide WordIs;
    BlockWordIs(ABC, 4, 0x00, 0x00, 0x00, 0x00, 0x00000000);
    BlockWordIs(ABC, 5, 0x00, 0x00, 0x00, 0x00, 0x00000000);
    BlockWordIs(ABC, 6, 0x00, 0x00, 0x00, 0x00, 0x00000000);
    BlockWordIs(ABC, 7, 0x00, 0x00, 0x00, 0x00, 0x00000000);
  }

  lemma AbcBlockWords2()
    ensures WordIs(ABC, 8, 0x00000000)
    ensures WordIs(ABC, 9, 0x00000000)
    ensures WordIs(ABC, 10, 0x00000000)
    ensures WordIs(ABC, 11, 0x00000000)
  {
    hide WordIs;
    BlockWordIs(ABC, 8, 0x00, 0x00, 0x00, 0x00, 0x00000000);
    BlockWordIs(ABC, 9, 0x00, 0x00, 0x00, 0x00, 0x00000000);
    BlockWordIs(ABC, 10, 0x00, 0x00, 0x00, 0x00, 0x00000000);
    BlockWordIs(ABC, 11, 0x00, 0x00, 0x00, 0x00, 0x00000000);
  }

  lemma AbcBlockWords3()
    ensures WordIs(ABC, 12, 0x00000000)
    ensures WordIs(ABC, 13, 0x00000000)
    ensures WordIs(ABC, 14, 0x00000000)
    ensures WordIs(ABC, 15, 0x00000018)
  {
    hide WordIs;
    BlockWordIs(ABC, 12, 0x00, 0x00, 0x00, 0x00, 0x00000000);
    BlockWordIs(ABC, 13, 0x00, 0x00, 0x00, 0x00, 0x00000000);
    BlockWordIs(ABC, 14, 0x00, 0x00, 0x00, 0x00, 0x00000000);
    BlockWordIs(ABC, 15, 0x00, 0x00, 0x00, 0x18, 0x00000018);
  }

  lemma AbcWords0()
    ensures WordIs(ABC, 0, 0x61626380)
    ensures WordIs(ABC, 1, 0x00000000)
    ensures WordIs(ABC, 2, 0x00000000)
    ensures WordIs(ABC, 3, 0x00000000)
    ensures WordIs(ABC, 4, 0x00000000)
    ensures WordIs(ABC, 5, 0x00000000)
    ensures WordIs(ABC, 6, 0x00000000)
    ensures WordIs(ABC, 7, 0x00000000)
    ensures WordIs(ABC, 8, 0x00000000)
    ensures WordIs(ABC, 9, 0x00000000)
    ensures WordIs(ABC, 10, 0x00000000)
    ensures WordIs(ABC, 11, 0x00000000)
    ensures WordIs(ABC, 12, 0x00000000)
    ensures WordIs(ABC, 13, 0x00000000)
    ensures WordIs(ABC, 14, 0x00000000)
    ensures WordIs(ABC, 15, 0x00000018)
  {
    hide WordIs;
    AbcBlockWords0();
    AbcBlockWords1();
    AbcBlockWords2();
    AbcBlockWords3();
  }

  lemma AbcWordBits1()
    ensures SmallSigma1(0x00000000) == 0x00000000 && SmallSigma0(0x00000000) == 0x00000000
    ensures SmallSigma1(0x00000018) == 0x000f0000 && SmallSigma0(0x00000000) == 0x00000000
    ensures SmallSigma1(0x61626380) == 0x7da86405 && SmallSigma0(0x00000000) == 0x00000000
    ensures SmallSigma1(0x000f0000) == 0x600003c6 && SmallSigma0(0x00000000) == 0x00000000
    ensures SmallSigma1(0x7da86405) == 0x3e9d7b78 && SmallSigma0(0x00000000) == 0x00000000
    ensures SmallSigma1(0x600003c6) == 0x0183fc00 && SmallSigma0(0x00000000) == 0x00000000
    ensures SmallSigma1(0x3e9d7b78) == 0x12dcbfc3 && SmallSigma0(0x00000000) == 0x00000000
    ensures SmallSigma1(0x0183fc00) == 0x8180600e && SmallSigma0(0x00000000) == 0x00000000
  {
  }

  lemma AbcWords1()
    ensures WordIs(ABC, 16, 0x61626380)
    ensures WordIs(ABC, 17, 0x000f0000)
    ensures WordIs(ABC, 18, 0x7da86405)
    ensures WordIs(ABC, 19, 0x600003c6)
    ensures WordIs(ABC, 20, 0x3e9d7b78)
    ensures WordIs(ABC, 21, 0x0183fc00)
    ensures WordIs(ABC, 22, 0x12dcbfdb)
    ensures WordIs(ABC, 23, 0xe2e2c38e)
  {
    hide WordIs, SmallSigma0, SmallSigma1;
    AbcWordBits1();
    AbcWords0();
    WordTo(ABC, 16, 0x00000000, 0x00000000, 0x00000000, 0x61626380, 0x00000000, 0x00000000, 0x61626380);
    WordTo(ABC, 17, 0x00000018, 0x00000000, 0x00000000, 0x00000000, 0x000f0000, 0x00000000, 0x000f0000);
    WordTo(ABC, 18, 0x61626380, 0x00000000, 0x00000000, 0x00000000, 0x7da86405, 0x00000000, 0x7da86405);
    WordTo(ABC, 19, 0x000f0000, 0x00000000, 0x00000000, 0x00000000, 0x600003c6, 0x00000000, 0x600003c6);
    WordTo(ABC, 20, 0x7da86405, 0x00000000, 0x00000000, 0x00000000, 0x3e9d7b78, 0x00000000, 0x3e9d7b78);
    WordTo(ABC, 21, 0x600003c6, 0x00000000, 0x00000000, 0x00000000, 0x0183fc00, 0x00000000, 0x0183fc00);
    WordTo(ABC, 22, 0x3e9d7b78, 0x00000018, 0x00000000, 0x00000000, 0x12dcbfc3, 0x00000000, 0x12dcbfdb);
    WordTo(ABC, 23, 0x0183fc00, 0x61626380, 0x00000000, 0x00000000, 0x8180600e, 0x00000000, 0xe2e2c38e);
  }

  lemma AbcWordBits2()
    ensures SmallSigma1(0x12dcbfdb) == 0xc8125c1a && SmallSigma0(0x00000000) == 0x00000000
    ensures SmallSigma1(0xe2e2c38e) == 0x398e159d && SmallSigma0(0x00000000) == 0x00000000
    ensures SmallSigma1(0xc8215c1a) == 0x85bc3543 && SmallSigma0(0x00000000) == 0x00000000
    ensures SmallSigma1(0xb73679a2) == 0xf3c8c0e3 && SmallSigma0(0x00000000) == 0x00000000
    ensures SmallSigma1(0xe5bc3909) == 0x9b9ca167 && SmallSigma0(0x00000000) == 0x00000000
    ensures SmallSigma1(0x32663c5b) == 0xd9aa66f0 && SmallSigma0(0x00000000) == 0x00000000
    ensures SmallSigma1(0x9d209d67) == 0x5d387513 && SmallSigma0(0x00000018) == 0x30060003
    ensures SmallSigma1(0xec8726cb) == 0x7787aa1a && SmallSigma0(0x61626380) == 0x940e90ef
  {
  }

  lemma AbcWords2()
    ensures WordIs(ABC, 24, 0xc8215c1a)
    ensures WordIs(ABC, 25, 0xb73679a2)
    ensures WordIs(ABC, 26, 0xe5bc3909)
    ensures WordIs(ABC, 27, 0x32663c5b)
    ensures WordIs(ABC, 28, 0x9d209d67)
    ensures WordIs(ABC, 29, 0xec8726cb)
    ensures WordIs(ABC, 30, 0x702138a4)
    ensures WordIs(ABC, 31, 0xd3b7973b)
  {
    hide WordIs, SmallSigma0, SmallSigma1;
    AbcWordBits2();
    AbcWords0();
    AbcWords1();
    WordTo(ABC, 24, 0x12dcbfdb, 0x000f0000, 0x00000000, 0x00000000, 0xc8125c1a, 0x00000000, 0xc8215c1a);
    WordTo(ABC, 25, 0xe2e2c38e, 0x7da86405, 0x00000000, 0x00000000, 0x398e159d, 0x00000000, 0xb73679a2);
    WordTo(ABC, 26, 0xc8215c1a, 0x600003c6, 0x00000000, 0x00000000, 0x85bc3543, 0x00000000, 0xe5bc3909);
    WordTo(ABC, 27, 0xb73679a2, 0x3e9d7b78, 0x00000000, 0x00000000, 0xf3c8c0e3, 0x00000000, 0x32663c5b);
    WordTo(ABC, 28, 0xe5bc3909, 0x0183fc00, 0x00000000, 0x00000000, 0x9b9ca167, 0x00000000, 0x9d209d67);
    WordTo(ABC, 29, 0x32663c5b, 0x12dcbfdb, 0x00000000, 0x00000000, 0xd9aa66f0, 0x00000000, 0xec8726cb);
    WordTo(ABC, 30, 0x9d209d67, 0xe2e2c38e, 0x00000018, 0x00000000, 0x5d387513, 0x30060003, 0x702138a4);
    WordTo(ABC, 31, 0xec8726cb, 0xc8215c1a, 0x61626380, 0x00000018, 0x7787aa1a, 0x940e90ef, 0xd3b7973b);
  }

  lemma AbcWordBits3()
    ensures SmallSigma1(0x702138a4) == 0xbb5abe5a && SmallSigma0(0x000f0000) == 0xc001fe03
    ensures SmallSigma1(0xd3b7973b) == 0x394e7e48 && SmallSigma0(0x7da86405) == 0x1c4f0322
    ensures SmallSigma1(0x93f5997f) == 0x7fb4c6e2 && SmallSigma0(0x600003c6) == 0x8031987f
    ensures SmallSigma1(0x3b68ba73) == 0x4a7920f7 && SmallSigma0(0x3e9d7b78) == 0xa9709a3e
    ensures SmallSigma1(0xaff4ffc1) == 0xe0331f3b && SmallSigma0(0x0183fc00) == 0xff337818
    ensures SmallSigma1(0xf10a5c62) == 0x65816433 && SmallSigma0(0x12dcbfdb) == 0x9b88ea33
    ensures SmallSigma1(0x0a8b3996) == 0xfbfb66da && SmallSigma0(0xe2e2c38e) == 0xb17a254e
    ensures SmallSigma1(0x72af830a) == 0x31f8dce2 && SmallSigma0(0xc8215c1a) == 0x7b92db33
  {
  }

  lemma AbcWords3()
    ensures WordIs(ABC, 32, 0x93f5997f)
    ensures WordIs(ABC, 33, 0x3b68ba73)
    ensures WordIs(ABC, 34, 0xaff4ffc1)
    ensures WordIs(ABC, 35, 0xf10a5c62)
    ensures WordIs(ABC, 36, 0x0a8b3996)
    ensures WordIs(ABC, 37, 0x72af830a)
    ensures WordIs(ABC, 38, 0x9409e33e)
    ensures WordIs(ABC, 39, 0x24641522)
  {
    hide WordIs, SmallSigma0, SmallSigma1;
    AbcWordBits3();
    AbcWords1();
    AbcWords2();
    WordTo(ABC, 32, 0x702138a4, 0xb73679a2, 0x000f0000, 0x61626380, 0xbb5abe5a, 0xc001fe03, 0x93f5997f);
    WordTo(ABC, 33, 0xd3b7973b, 0xe5bc3909, 0x7da86405, 0x000f0000, 0x394e7e48, 0x1c4f0322, 0x3b68ba73);
    WordTo(ABC, 34, 0x93f5997f, 0x32663c5b, 0x600003c6, 0x7da86405, 0x7fb4c6e2, 0x8031987f, 0xaff4ffc1);
    WordTo(ABC, 35, 0x3b68ba73, 0x9d209d67, 0x3e9d7b78, 0x600003c6, 0x4a7920f7, 0xa9709a3e, 0xf10a5c62);
    WordTo(ABC, 36, 0xaff4ffc1, 0xec8726cb, 0x0183fc00, 0x3e9d7b78, 0xe0331f3b, 0xff337818, 0x0a8b3996);
    WordTo(ABC, 37, 0xf10a5c62, 0x702138a4, 0x12dcbfdb, 0x0183fc00, 0x65816433, 0x9b88ea33, 0x72af830a);
    WordTo(ABC, 38, 0x0a8b3996, 0xd3b7973b, 0xe2e2c38e, 0x12dcbfdb, 0xfbfb66da, 0xb17a254e, 0x9409e33e);
    WordTo(ABC, 39, 0x72af830a, 0x93f5997f, 0xc8215c1a, 0xe2e2c38e, 0x31f8dce2, 0x7b92db33, 0x24641522);
  }

  lemma AbcWordBits4()
    ensures SmallSigma1(0x9409e33e) == 0xcddd9afd && SmallSigma0(0xb73679a2) == 0xcde00e0a
    ensures SmallSigma1(0x24641522) == 0x883c4fbb && SmallSigma0(0xe5bc3909) == 0x013e863c
    ensures SmallSigma1(0x9f47bf94) == 0x281f0da4 && SmallSigma0(0x32663c5b) == 0x3f3ec76a
    ensures SmallSigma1(0xf0a64f5a) == 0xee7a0fd4 && SmallSigma0(0x9d209d67) == 0xfbc7b5de
    ensures SmallSigma1(0x3e246a79) == 0xb87c31cc && SmallSigma0(0xec8726cb) == 0x43fb11b5
    ensures SmallSigma1(0x27333ba3) == 0xfaac3bb1 && SmallSigma0(0x702138a4) == 0x08cd796d
    ensures SmallSigma1(0x0c4763f2) == 0x5d845673 && SmallSigma0(0xd3b7973b) == 0x881f6924
    ensures SmallSigma1(0x840abf27) == 0x0856302b && SmallSigma0(0x93f5997f) == 0x8b06bce0
  {
  }

  lemma AbcWords4()
    ensures WordIs(ABC, 40, 0x9f47bf94)
    ensures WordIs(ABC, 41, 0xf0a64f5a)
    ensures WordIs(ABC, 42, 0x3e246a79)
    ensures WordIs(ABC, 43, 0x27333ba3)
    ensures WordIs(ABC, 44, 0x0c4763f2)
    ensures WordIs(ABC, 45, 0x840abf27)
    ensures WordIs(ABC, 46, 0x7a290d5d)
    ensures WordIs(ABC, 47, 0x065c43da)
  {
    hide WordIs, SmallSigma0, SmallSigma1;
    AbcWordBits4();
    AbcWords2();
    AbcWords3();
    WordTo(ABC, 40, 0x9409e33e, 0x3b68ba73, 0xb73679a2, 0xc8215c1a, 0xcddd9afd, 0xcde00e0a, 0x9f47bf94);
    WordTo(ABC, 41, 0x24641522, 0xaff4ffc1, 0xe5bc3909, 0xb73679a2, 0x883c4fbb, 0x013e863c, 0xf0a64f5a);
    WordTo(ABC, 42, 0x9f47bf94, 0xf10a5c62, 0x32663c5b, 0xe5bc3909, 0x281f0da4, 0x3f3ec76a, 0x3e246a79);
    WordTo(ABC, 43, 0xf0a64f5a, 0x0a8b3996, 0x9d209d67, 0x32663c5b, 0xee7a0fd4, 0xfbc7b5de, 0x27333ba3);
    WordTo(ABC, 44, 0x3e246a79, 0x72af830a, 0xec8726cb, 0x9d209d67, 0xb87c31cc, 0x43fb11b5, 0x0c4763f2);
    WordTo(ABC, 45, 0x27333ba3, 0x9409e33e, 0x702138a4, 0xec8726cb, 0xfaac3bb1, 0x08cd796d, 0x840abf27);
    WordTo(ABC, 46, 0x0c4763f2, 0x24641522, 0xd3b7973b, 0x702138a4, 0x5d845673, 0x881f6924, 0x7a290d5d);
    WordTo(ABC, 47, 0x840abf27, 0x9f47bf94, 0x93f5997f, 0xd3b7973b, 0x0856302b, 0x8b06bce0, 0x065c43da);
  }

  lemma AbcWordBits5()
    ensures SmallSigma1(0x7a290d5d) == 0xa71b9812 && SmallSigma0(0x3b68ba73) == 0xcf8708e0
    ensures SmallSigma1(0x065c43da) == 0xa997d4f5 && SmallSigma0(0xaff4ffc1) == 0xa9511dfa
    ensures SmallSigma1(0xfb3e89cb) == 0x95e24d5a && SmallSigma0(0xf10a5c62) == 0x4cdbe376
    ensures SmallSigma1(0xcc7617db) == 0xc9258230 && SmallSigma0(0x0a8b3996) == 0xe321f3e3
    ensures SmallSigma1(0xb9e66c34) == 0xfbb2b254 && SmallSigma0(0x72af830a) == 0xfa7233cc
    ensures SmallSigma1(0xa9993667) == 0xbdd547b2 && SmallSigma0(0x9409e33e) == 0x17668aa3
    ensures SmallSigma1(0x84badedd) == 0x34945c7d && SmallSigma0(0x24641522) == 0x458cc397
    ensures SmallSigma1(0xc21462bc) == 0xbd397c50 && SmallSigma0(0x9f47bf94) == 0xd5335f5c
  {
  }

  lemma AbcWords5()
    ensures WordIs(ABC, 48, 0xfb3e89cb)
    ensures WordIs(ABC, 49, 0xcc7617db)
    ensures WordIs(ABC, 50, 0xb9e66c34)
    ensures WordIs(ABC, 51, 0xa9993667)
    ensures WordIs(ABC, 52, 0x84badedd)
    ensures WordIs(ABC, 53, 0xc21462bc)
    ensures WordIs(ABC, 54, 0x1487472c)
    ensures WordIs(ABC, 55, 0xb20f7a99)
  {
    hide WordIs, SmallSigma0, SmallSigma1;
    AbcWordBits5();
    AbcWords3();
    AbcWords4();
    WordTo(ABC, 48, 0x7a290d5d, 0xf0a64f5a, 0x3b68ba73, 0x93f5997f, 0xa71b9812, 0xcf8708e0, 0xfb3e89cb);
    WordTo(ABC, 49, 0x065c43da, 0x3e246a79, 0xaff4ffc1, 0x3b68ba73, 0xa997d4f5, 0xa9511dfa, 0xcc7617db);
    WordTo(ABC, 50, 0xfb3e89cb, 0x27333ba3, 0xf10a5c62, 0xaff4ffc1, 0x95e24d5a, 0x4cdbe376, 0xb9e66c34);
    WordTo(ABC, 51, 0xcc7617db, 0x0c4763f2, 0x0a8b3996, 0xf10a5c62, 0xc9258230, 0xe321f3e3, 0xa9993667);
    WordTo(ABC, 52, 0xb9e66c34, 0x840abf27, 0x72af830a, 0x0a8b3996, 0xfbb2b254, 0xfa7233cc, 0x84badedd);
    WordTo(ABC, 53, 0xa9993667, 0x7a290d5d, 0x9409e33e, 0x72af830a, 0xbdd547b2, 0x17668aa3, 0xc21462bc);
    WordTo(ABC, 54, 0x84badedd, 0x065c43da, 0x24641522, 0x9409e33e, 0x34945c7d, 0x458cc397, 0x1487472c);
    WordTo(ABC, 55, 0xc21462bc, 0xfb3e89cb, 0x9f47bf94, 0x24641522, 0xbd397c50, 0xd5335f5c, 0xb20f7a99);
  }

  lemma AbcWordBits6()
    ensures SmallSigma1(0x1487472c) == 0x4b76a902 && SmallSigma0(0xf0a64f5a) == 0x3823395c
    ensures SmallSigma1(0xb20f7a99) == 0x52336c98 && SmallSigma0(0x3e246a79) == 0xef268a12
    ensures SmallSigma1(0xef57b9cd) == 0x2be49faf && SmallSigma0(0x27333ba3) == 0x8c40c8cf
    ensures SmallSigma1(0xebe6b238) == 0x8f619123 && SmallSigma0(0x0c4763f2) == 0x3d6ce1a8
    ensures SmallSigma1(0x9fe3095e) == 0xe5a364cf && SmallSigma0(0x840abf27) == 0xf040a398
    ensures SmallSigma1(0x78bc8d4b) == 0xd712fc6a && SmallSigma0(0x7a290d5d) == 0xf6e62d3b
    ensures SmallSigma1(0xa43fcf15) == 0x1e41696b && SmallSigma0(0x065c43da) == 0xa431b16b
    ensures SmallSigma1(0x668b2ff8) == 0xf21a9d5f && SmallSigma0(0xfb3e89cb) == 0x2ae352e5
  {
  }

  lemma AbcWords6()
    ensures WordIs(ABC, 56, 0xef57b9cd)
    ensures WordIs(ABC, 57, 0xebe6b238)
    ensures WordIs(ABC, 58, 0x9fe3095e)
    ensures WordIs(ABC, 59, 0x78bc8d4b)
    ensures WordIs(ABC, 60, 0xa43fcf15)
    ensures WordIs(ABC, 61, 0x668b2ff8)
    ensures WordIs(ABC, 62, 0xeeaba2cc)
    ensures WordIs(ABC, 63, 0x12b1edeb)
  {
    hide WordIs, SmallSigma0, SmallSigma1;
    AbcWordBits6();
    AbcWords4();
    AbcWords5();
    WordTo(ABC, 56, 0x1487472c, 0xcc7617db, 0xf0a64f5a, 0x9f47bf94, 0x4b76a902, 0x3823395c, 0xef57b9cd);
    WordTo(ABC, 57, 0xb20f7a99, 0xb9e66c34, 0x3e246a79, 0xf0a64f5a, 0x52336c98, 0xef268a12, 0xebe6b238);
    WordTo(ABC, 58, 0xef57b9cd, 0xa9993667, 0x27333ba3, 0x3e246a79, 0x2be49faf, 0x8c40c8cf, 0x9fe3095e);
    WordTo(ABC, 59, 0xebe6b238, 0x84badedd, 0x0c4763f2, 0x27333ba3, 0x8f619123, 0x3d6ce1a8, 0x78bc8d4b);
    WordTo(ABC, 60, 0x9fe3095e, 0xc21462bc, 0x840abf27, 0x0c4763f2, 0xe5a364cf, 0xf040a398, 0xa43fcf15);
    WordTo(ABC, 61, 0x78bc8d4b, 0x1487472c, 0x7a290d5d, 0x840abf27, 0xd712fc6a, 0xf6e62d3b, 0x668b2ff8);
    WordTo(ABC, 62, 0xa43fcf15, 0xb20f7a99, 0x065c43da, 0x7a290d5d, 0x1e41696b, 0xa431b16b, 0xeeaba2cc);
    WordTo(ABC, 63, 0x668b2ff8, 0xef57b9cd, 0xfb3e89cb, 0x065c43da, 0xf21a9d5f, 0x2ae352e5, 0x12b1edeb);
  }

  lemma AbcRoundBits0()
    ensures BigSigma1(0x510e527f) == 0x3587272b && Choose(0x510e527f, 0x9b05688c, 0x1f83d9ab) == 0x1f85c98c
    ensures BigSigma0(0x6a09e667) == 0xce20b47e && Majority(0x6a09e667, 0xbb67ae85, 0x3c6ef372) == 0x3a6fe667
    ensures BigSigma1(0xfa2a4622) == 0x5a94fd2d && Choose(0xfa2a4622, 0x510e527f, 0x9b05688c) == 0x510f6aae
    ensures BigSigma0(0x5d6aebcd) == 0xa29f64d1 && Majority(0x5d6aebcd, 0x6a09e667, 0xbb67ae85) == 0x7b6beec5
    ensures BigSigma1(0x78ce7989) == 0x73f0e495 && Choose(0x78ce7989, 0xfa2a4622, 0x510e527f) == 0x790a4276
    ensures BigSigma0(0x5a6ad9ad) == 0x3096d054 && Majority(0x5a6ad9ad, 0x5d6aebcd, 0x6a09e667) == 0x5a6aebed
    ensures BigSigma1(0xf92939eb) == 0x0607743c && Choose(0xf92939eb, 0x78ce7989, 0xfa2a4622) == 0x7a0a7f89
    ensures BigSigma0(0xc8c347a7) == 0xc21008d0 && Majority(0xc8c347a7, 0x5a6ad9ad, 0x5d6aebcd) == 0x586acbad
    ensures BigSigma1(0x24e00850) == 0x3a933432 && Choose(0x24e00850, 0xf92939eb, 0x78ce7989) == 0x782e79c9
    ensures BigSigma0(0xd550f666) == 0x45bb0c4b && Majority(0xd550f666, 0xc8c347a7, 0x5a6ad9ad) == 0xd842d7a7
    ensures BigSigma1(0x43ada245) == 0x8b77e19c && Choose(0x43ada245, 0x24e00850, 0xf92939eb) == 0xb8a019ea
    ensures BigSigma0(0x04409a6a) == 0x5029ac8f && Majority(0x04409a6a, 0xd550f666, 0xc8c347a7) == 0xc440d666
    ensures BigSigma1(0x714260ad) == 0x015b7776 && Choose(0x714260ad, 0x43ada245, 0x24e00850) == 0x45a02855
    ensures BigSigma0(0x2b4209f5) == 0x0d5e0cc0 && Majority(0x2b4209f5, 0x04409a6a, 0xd550f666) == 0x05409a66
    ensures BigSigma1(0x9b27a401) == 0x158dfaa9 && Choose(0x9b27a401, 0x714260ad, 0x43ada245) == 0x518a2245
    ensures BigSigma0(0xe5030380) == 0x2949eb6c && Majority(0xe5030380, 0x2b4209f5, 0x04409a6a) == 0x25420be0
  {
  }

  lemma AbcRounds0() returns (r: Regs)
    ensures r == Regs(0x85a07b5f, 0xe5030380, 0x2b4209f5, 0x04409a6a, 0x0c657a79, 0x9b27a401, 0x714260ad, 0x43ada245)
    ensures StateIs(INITIAL, ABC, 8, r)
  {
    hide StateIs, WordIs, ConstantIs, BigSigma0, BigSigma1, Choose, Majority;
    r := INITIAL;
    NoRounds(INITIAL, ABC);
    Constants0();
    AbcRoundBits0();
    AbcWords0();
    r := RoundTo(INITIAL, ABC, 0, r, 0x428a2f98, 0x61626380, 0x3587272b, 0x1f85c98c, 0xce20b47e, 0x3a6fe667,
             0x5d6aebcd, 0xfa2a4622);
    r := RoundTo(INITIAL, ABC, 1, r, 0x71374491, 0x00000000, 0x5a94fd2d, 0x510f6aae, 0xa29f64d1, 0x7b6beec5,
             0x5a6ad9ad, 0x78ce7989);
    r := RoundTo(INITIAL, ABC, 2, r, 0xb5c0fbcf, 0x00000000, 0x73f0e495, 0x790a4276, 0x3096d054, 0x5a6aebed,
             0xc8c347a7, 0xf92939eb);
    r := RoundTo(INITIAL, ABC, 3, r, 0xe9b5dba5, 0x00000000, 0x0607743c, 0x7a0a7f89, 0xc21008d0, 0x586acbad,
             0xd550f666, 0x24e00850);
    r := RoundTo(INITIAL, ABC, 4, r, 0x3956c25b, 0x00000000, 0x3a933432, 0x782e79c9, 0x45bb0c4b, 0xd842d7a7,
             0x04409a6a, 0x43ada245);
    r := RoundTo(INITIAL, ABC, 5, r, 0x59f111f1, 0x00000000, 0x8b77e19c, 0xb8a019ea, 0x5029ac8f, 0xc440d666,
             0x2b4209f5, 0x714260ad);
    r := RoundTo(INITIAL, ABC, 6, r, 0x923f82a4, 0x00000000, 0x015b7776, 0x45a02855, 0x0d5e0cc0, 0x05409a66,
             0xe5030380, 0x9b27a401);
    r := RoundTo(INITIAL, ABC, 7, r, 0xab1c5ed5, 0x00000000, 0x158dfaa9, 0x518a2245, 0x2949eb6c, 0x25420be0,
             0x85a07b5f, 0x0c657a79);
  }

  lemma AbcRoundBits1()
    ensures BigSigma1(0x0c657a79) == 0x99ad25c0 && Choose(0x0c657a79, 0x9b27a401, 0x714260ad) == 0x79272085
    ensures BigSigma0(0x85a07b5f) == 0xba794dc2 && Majority(0x85a07b5f, 0xe5030380, 0x2b4209f5) == 0xa5020bd5
    ensures BigSigma1(0x32ca2d8c) == 0xe45bb7ea && Choose(0x32ca2d8c, 0x0c657a79, 0x9b27a401) == 0x8965a809
    ensures BigSigma0(0x8e04ecb9) == 0x15ffad31 && Majority(0x8e04ecb9, 0x85a07b5f, 0xe5030380) == 0x85006b99
    ensures BigSigma1(0x1cc92596) == 0x8e2276bc && Choose(0x1cc92596, 0x32ca2d8c, 0x0c657a79) == 0x10ec7fed
    ensures BigSigma0(0x8c87346b) == 0x5cac0711 && Majority(0x8c87346b, 0x8e04ecb9, 0x85a07b5f) == 0x8c847c7b
    ensures BigSigma1(0x436b23e8) == 0x699435ca && Choose(0x436b23e8, 0x1cc92596, 0x32ca2d8c) == 0x30c92d84
    ensures BigSigma0(0x4798a3f4) == 0x6ccbc526 && Majority(0x4798a3f4, 0x8c87346b, 0x8e04ecb9) == 0x8e84a4f9
    ensures BigSigma1(0x816fd6e9) == 0xccdee661 && Choose(0x816fd6e9, 0x436b23e8, 0x1cc92596) == 0x1deb23fe
    ensures BigSigma0(0xf71fc5a9) == 0x2f9eee48 && Majority(0xf71fc5a9, 0x4798a3f4, 0x8c87346b) == 0xc79fa5e9
    ensures BigSigma1(0x1e578218) == 0x08bb98f7 && Choose(0x1e578218, 0x816fd6e9, 0x436b23e8) == 0x416fa3e8
    ensures BigSigma0(0x87912990) == 0x29c634f3 && Majority(0x87912990, 0xf71fc5a9, 0x4798a3f4) == 0xc799a1b0
    ensures BigSigma1(0x745a48de) == 0x4f3b8d50 && Choose(0x745a48de, 0x1e578218, 0x816fd6e9) == 0x95779639
    ensures BigSigma0(0xd932eb16) == 0x25562836 && Majority(0xd932eb16, 0x87912990, 0xf71fc5a9) == 0xd713e990
    ensures BigSigma1(0x0b92f20c) == 0xb8d63f93 && Choose(0x0b92f20c, 0x745a48de, 0x1e578218) == 0x1457401c
    ensures BigSigma0(0xc0645fde) == 0xdf906fd4 && Majority(0xc0645fde, 0xd932eb16, 0x87912990) == 0xc1306b96
  {
  }

  lemma AbcRounds1() returns (r: Regs)
    ensures r == Regs(0xb0fa238e, 0xc0645fde, 0xd932eb16, 0x87912990, 0x07590dcd, 0x0b92f20c, 0x745a48de, 0x1e578218)
    ensures StateIs(INITIAL, ABC, 16, r)
  {
    hide StateIs, WordIs, ConstantIs, BigSigma0, BigSigma1, Choose, Majority;
    r := AbcRounds0();
    Constants1();
    AbcRoundBits1();
    AbcWords0();
    r := RoundTo(INITIAL, ABC, 8, r, 0xd807aa98, 0x00000000, 0x99ad25c0, 0x79272085, 0xba794dc2, 0xa5020bd5,
             0x8e04ecb9, 0x32ca2d8c);
    r := RoundTo(INITIAL, ABC, 9, r, 0x12835b01, 0x00000000, 0xe45bb7ea, 0x8965a809, 0x15ffad31, 0x85006b99,
             0x8c87346b, 0x1cc92596);
    r := RoundTo(INITIAL, ABC, 10, r, 0x243185be, 0x00000000, 0x8e2276bc, 0x10ec7fed, 0x5cac0711, 0x8c847c7b,
             0x4798a3f4, 0x436b23e8);
    r := RoundTo(INITIAL, ABC, 11, r, 0x550c7dc3, 0x00000000, 0x699435ca, 0x30c92d84, 0x6ccbc526, 0x8e84a4f9,
             0xf71fc5a9, 0x816fd6e9);
    r := RoundTo(INITIAL, ABC, 12, r, 0x72be5d74, 0x00000000, 0xccdee661, 0x1deb23fe, 0x2f9eee48, 0xc79fa5e9,
             0x87912990, 0x1e578218);
    r := RoundTo(INITIAL, ABC, 13, r, 0x80deb1fe, 0x00000000, 0x08bb98f7, 0x416fa3e8, 0x29c634f3, 0xc799a1b0,
             0xd932eb16, 0x745a48de);
    r := RoundTo(INITIAL, ABC, 14, r, 0x9bdc06a7, 0x00000000, 0x4f3b8d50, 0x95779639, 0x25562836, 0xd713e990,
             0xc0645fde, 0x0b92f20c);
    r := RoundTo(INITIAL, ABC, 15, r, 0xc19bf174, 0x00000018, 0xb8d63f93, 0x1457401c, 0xdf906fd4, 0xc1306b96,
             0xb0fa238e, 0x07590dcd);
  }

  lemma AbcRoundBits2()
    ensures BigSigma1(0x07590dcd) == 0x213b6995 && Choose(0x07590dcd, 0x0b92f20c, 0x745a48de) == 0x7312401e
    ensures BigSigma0(0xb0fa238e) == 0x58c535f1 && Majority(0xb0fa238e, 0xc0645fde, 0xd932eb16) == 0xd0726b9e
    ensures BigSigma1(0x8034229c) == 0x3b81984e && Choose(0x8034229c, 0x07590dcd, 0x0b92f20c) == 0x0b92d08c
    ensures BigSigma0(0x21da9a9b) == 0x76c5c4f5 && Majority(0x21da9a9b, 0xb0fa238e, 0xc0645fde) == 0xa0fa1b9e
    ensures BigSigma1(0x846ee454) == 0xeff31c0f && Choose(0x846ee454, 0x8034229c, 0x07590dcd) == 0x8335299d
    ensures BigSigma0(0xc2fbd9d1) == 0x5157a6a1 && Majority(0xc2fbd9d1, 0x21da9a9b, 0xb0fa238e) == 0xa0fa9b9b
    ensures BigSigma1(0xcc899961) == 0xefc707b0 && Choose(0xcc899961, 0x846ee454, 0x8034229c) == 0x843ca2dc
    ensures BigSigma0(0xfe777bbf) == 0xff8cd2ad && Majority(0xfe777bbf, 0xc2fbd9d1, 0x21da9a9b) == 0xe2fbdb9b
    ensures BigSigma1(0xb0638179) == 0xf8373ead && Choose(0xb0638179, 0xcc899961, 0x846ee454) == 0x840de565
    ensures BigSigma0(0xe1f20c33) == 0x51d3431b && Majority(0xe1f20c33, 0xfe777bbf, 0xc2fbd9d1) == 0xe2f359b3
    ensures BigSigma1(0x8ada8930) == 0x897ea930 && Choose(0x8ada8930, 0xb0638179, 0xcc899961) == 0xc4439171
    ensures BigSigma0(0x9dc68b63) == 0xa640c29b && Majority(0x9dc68b63, 0xe1f20c33, 0xfe777bbf) == 0xfdf60b33
    ensures BigSigma1(0xe1257970) == 0x7f24093a && Choose(0xe1257970, 0x8ada8930, 0xb0638179) == 0x90428939
    ensures BigSigma0(0xc2606d6d) == 0x9a43bf51 && Majority(0xc2606d6d, 0x9dc68b63, 0xe1f20c33) == 0xc1e20d63
    ensures BigSigma1(0x49f5114a) == 0xfae64fc3 && Choose(0x49f5114a, 0xe1257970, 0x8ada8930) == 0xc32f9970
    ensures BigSigma0(0xa7a3623f) == 0x759d1b0a && Majority(0xa7a3623f, 0xc2606d6d, 0x9dc68b63) == 0x87e26b6f
  {
  }

  lemma AbcRounds2() returns (r: Regs)
    ensures r == Regs(0xc5d53d8d, 0xa7a3623f, 0xc2606d6d, 0x9dc68b63, 0xaa47c347, 0x49f5114a, 0xe1257970, 0x8ada8930)
    ensures StateIs(INITIAL, ABC, 24, r)
  {
    hide StateIs, WordIs, ConstantIs, BigSigma0, BigSigma1, Choose, Majority;
    r := AbcRounds1();
    Constants2();
    AbcRoundBits2();
    AbcWords1();
    r := RoundTo(INITIAL, ABC, 16, r, 0xe49b69c1, 0x61626380, 0x213b6995, 0x7312401e, 0x58c535f1, 0xd0726b9e,
             0x21da9a9b, 0x8034229c);
    r := RoundTo(INITIAL, ABC, 17, r, 0xefbe4786, 0x000f0000, 0x3b81984e, 0x0b92d08c, 0x76c5c4f5, 0xa0fa1b9e,
             0xc2fbd9d1, 0x846ee454);
    r := RoundTo(INITIAL, ABC, 18, r, 0x0fc19dc6, 0x7da86405, 0xeff31c0f, 0x8335299d, 0x5157a6a1, 0xa0fa9b9b,
             0xfe777bbf, 0xcc899961);
    r := RoundTo(INITIAL, ABC, 19, r, 0x240ca1cc, 0x600003c6, 0xefc707b0, 0x843ca2dc, 0xff8cd2ad, 0xe2fbdb9b,
             0xe1f20c33, 0xb0638179);
    r := RoundTo(INITIAL, ABC, 20, r, 0x2de92c6f, 0x3e9d7b78, 0xf8373ead, 0x840de565, 0x51d3431b, 0xe2f359b3,
             0x9dc68b63, 0x8ada8930);
    r := RoundTo(INITIAL, ABC, 21, r, 0x4a7484aa, 0x0183fc00, 0x897ea930, 0xc4439171, 0xa640c29b, 0xfdf60b33,
             0xc2606d6d, 0xe1257970);
    r := RoundTo(INITIAL, ABC, 22, r, 0x5cb0a9dc, 0x12dcbfdb, 0x7f24093a, 0x90428939, 0x9a43bf51, 0xc1e20d63,
             0xa7a3623f, 0x49f5114a);
    r := RoundTo(INITIAL, ABC, 23, r, 0x76f988da, 0xe2e2c38e, 0xfae64fc3, 0xc32f9970, 0x759d1b0a, 0x87e26b6f,
             0xc5d53d8d, 0xaa47c347);
  }

  lemma AbcRoundBits3()
    ensures BigSigma1(0xaa47c347) == 0x55bdf420 && Choose(0xaa47c347, 0x49f5114a, 0xe1257970) == 0x49653972
    ensures BigSigma0(0xc5d53d8d) == 0xc9ed56dd && Majority(0xc5d53d8d, 0xa7a3623f, 0xc2606d6d) == 0xc7e16d2d
    ensures BigSigma1(0x2823ef91) == 0xa7724357 && Choose(0x2823ef91, 0xaa47c347, 0x49f5114a) == 0x69d7d34b
    ensures BigSigma0(0x1c2c2838) == 0xf66b0b1f && Majority(0x1c2c2838, 0xc5d53d8d, 0xa7a3623f) == 0x85a5283d
    ensures BigSigma1(0x14383d8e) == 0x958ca0fb && Choose(0x14383d8e, 0x2823ef91, 0xaa47c347) == 0xaa67efc1
    ensures BigSigma0(0xcde8037d) == 0xc89998a8 && Majority(0xcde8037d, 0x1c2c2838, 0xc5d53d8d) == 0xcdec293d
    ensures BigSigma1(0xc74c6516) == 0x5ff7537b && Choose(0xc74c6516, 0x14383d8e, 0x2823ef91) == 0x2c2baf87
    ensures BigSigma0(0xb62ec4bc) == 0xb37cf281 && Majority(0xb62ec4bc, 0xcde8037d, 0x1c2c2838) == 0x9c2c003c
    ensures BigSigma1(0xedffbff8) == 0xe375bd7e && Choose(0xedffbff8, 0xc74c6516, 0x14383d8e) == 0xd54c2516
    ensures BigSigma0(0x77d37528) == 0xf963c20e && Majority(0x77d37528, 0xb62ec4bc, 0xcde8037d) == 0xf7ea453c
    ensures BigSigma1(0x6112a3b7) == 0x2239b36a && Choose(0x6112a3b7, 0xedffbff8, 0xc74c6516) == 0xe75ee7b0
    ensures BigSigma0(0x363482c9) == 0x89cfb5ce && Majority(0x363482c9, 0x77d37528, 0xb62ec4bc) == 0x3636c4a8
    ensures BigSigma1(0xade79437) == 0xab883974 && Choose(0xade79437, 0x6112a3b7, 0xedffbff8) == 0x611aabff
    ensures BigSigma0(0xa0060b30) == 0x69a8407c && Majority(0xa0060b30, 0x363482c9, 0x77d37528) == 0x36160328
    ensures BigSigma1(0x0109ab3a) == 0x0b919a99 && Choose(0x0109ab3a, 0xade79437, 0x6112a3b7) == 0x611380b7
    ensures BigSigma0(0xea992a22) == 0x8f1995eb && Majority(0xea992a22, 0xa0060b30, 0x363482c9) == 0xa2140a20
  {
  }

  lemma AbcRounds3() returns (r: Regs)
    ensures r == Regs(0x73b33bf5, 0xea992a22, 0xa0060b30, 0x363482c9, 0xba591112, 0x0109ab3a, 0xade79437, 0x6112a3b7)
    ensures StateIs(INITIAL, ABC, 32, r)
  {
    hide StateIs, WordIs, ConstantIs, BigSigma0, BigSigma1, Choose, Majority;
    r := AbcRounds2();
    Constants3();
    AbcRoundBits3();
    AbcWords2();
    r := RoundTo(INITIAL, ABC, 24, r, 0x983e5152, 0xc8215c1a, 0x55bdf420, 0x49653972, 0xc9ed56dd, 0xc7e16d2d,
             0x1c2c2838, 0x2823ef91);
    r := RoundTo(INITIAL, ABC, 25, r, 0xa831c66d, 0xb73679a2, 0xa7724357, 0x69d7d34b, 0xf66b0b1f, 0x85a5283d,
             0xcde8037d, 0x14383d8e);
    r := RoundTo(INITIAL, ABC, 26, r, 0xb00327c8, 0xe5bc3909, 0x958ca0fb, 0xaa67efc1, 0xc89998a8, 0xcdec293d,
             0xb62ec4bc, 0xc74c6516);
    r := RoundTo(INITIAL, ABC, 27, r, 0xbf597fc7, 0x32663c5b, 0x5ff7537b, 0x2c2baf87, 0xb37cf281, 0x9c2c003c,
             0x77d37528, 0xedffbff8);
    r := RoundTo(INITIAL, ABC, 28, r, 0xc6e00bf3, 0x9d209d67, 0xe375bd7e, 0xd54c2516, 0xf963c20e, 0xf7ea453c,
             0x363482c9, 0x6112a3b7);
    r := RoundTo(INITIAL, ABC, 29, r, 0xd5a79147, 0xec8726cb, 0x2239b36a, 0xe75ee7b0, 0x89cfb5ce, 0x3636c4a8,
             0xa0060b30, 0xade79437);
    r := RoundTo(INITIAL, ABC, 30, r, 0x06ca6351, 0x702138a4, 0xab883974, 0x611aabff, 0x69a8407c, 0x36160328,
             0xea992a22, 0x0109ab3a);
    r := RoundTo(INITIAL, ABC, 31, r, 0x14292967, 0xd3b7973b, 0x0b919a99, 0x611380b7, 0x8f1995eb, 0xa2140a20,
             0x73b33bf5, 0xba591112);
  }

  lemma AbcRoundBits4()
    ensures BigSigma1(0xba591112) == 0x4436a63b && Choose(0xba591112, 0x0109ab3a, 0xade79437) == 0x05af8537
    ensures BigSigma0(0x73b33bf5) == 0x4fa886aa && Majority(0x73b33bf5, 0xea992a22, 0xa0060b30) == 0xe2932b30
    ensures BigSigma1(0x9cd9f5f6) == 0x085a07a7 && Choose(0x9cd9f5f6, 0xba591112, 0x0109ab3a) == 0x99591b1a
    ensures BigSigma0(0x98e12507) == 0x4a90902b && Majority(0x98e12507, 0x73b33bf5, 0xea992a22) == 0xfab12b27
    ensures BigSigma1(0x59249dd3) == 0x65415f48 && Choose(0x59249dd3, 0x9cd9f5f6, 0xba591112) == 0xba5995d2
    ensures BigSigma0(0xfe604df5) == 0x91003786 && Majority(0xfe604df5, 0x98e12507, 0x73b33bf5) == 0xfae12df5
    ensures BigSigma1(0x085f3833) == 0xe5dc6e83 && Choose(0x085f3833, 0x59249dd3, 0x9cd9f5f6) == 0x9c84ddd7
    ensures BigSigma0(0xa9a7738c) == 0x2bc2a37e && Majority(0xa9a7738c, 0xfe604df5, 0x98e12507) == 0xb8e16585
    ensures BigSigma1(0xf4b002d6) == 0x590d3d71 && Choose(0xf4b002d6, 0x085f3833, 0x59249dd3) == 0x09149d13
    ensures BigSigma0(0x65a0cfe4) == 0xe5748f69 && Majority(0x65a0cfe4, 0xa9a7738c, 0xfe604df5) == 0xeda04fe4
    ensures BigSigma1(0x0772a26b) == 0x582c115e && Choose(0x0772a26b, 0xf4b002d6, 0x085f3833) == 0x0c3d1a52
    ensures BigSigma0(0x41a65cb1) == 0x2c915f18 && Majority(0x41a65cb1, 0x65a0cfe4, 0xa9a7738c) == 0x61a65fa4
    ensures BigSigma1(0xa507a53d) == 0xd2f220b2 && Choose(0xa507a53d, 0x0772a26b, 0xf4b002d6) == 0x55b2a2eb
    ensures BigSigma0(0x34df1604) == 0xc14e73aa && Majority(0x34df1604, 0x41a65cb1, 0x65a0cfe4) == 0x65a65ea4
    ensures BigSigma1(0xf0781bc8) == 0x66d20b14 && Choose(0xf0781bc8, 0xa507a53d, 0x0772a26b) == 0xa702a12b
    ensures BigSigma0(0x6dc57a8a) == 0x5ac8193e && Majority(0x6dc57a8a, 0x34df1604, 0x41a65cb1) == 0x65c75e80
  {
  }

  lemma AbcRounds4() returns (r: Regs)
    ensures r == Regs(0x79ea687a, 0x6dc57a8a, 0x34df1604, 0x41a65cb1, 0x1efbc0a0, 0xf0781bc8, 0xa507a53d, 0x0772a26b)
    ensures StateIs(INITIAL, ABC, 40, r)
  {
    hide StateIs, WordIs, ConstantIs, BigSigma0, BigSigma1, Choose, Majority;
    r := AbcRounds3();
    Constants4();
    AbcRoundBits4();
    AbcWords3();
    r := RoundTo(INITIAL, ABC, 32, r, 0x27b70a85, 0x93f5997f, 0x4436a63b, 0x05af8537, 0x4fa886aa, 0xe2932b30,
             0x98e12507, 0x9cd9f5f6);
    r := RoundTo(INITIAL, ABC, 33, r, 0x2e1b2138, 0x3b68ba73, 0x085a07a7, 0x99591b1a, 0x4a90902b, 0xfab12b27,
             0xfe604df5, 0x59249dd3);
    r := RoundTo(INITIAL, ABC, 34, r, 0x4d2c6dfc, 0xaff4ffc1, 0x65415f48, 0xba5995d2, 0x91003786, 0xfae12df5,
             0xa9a7738c, 0x085f3833);
    r := RoundTo(INITIAL, ABC, 35, r, 0x53380d13, 0xf10a5c62, 0xe5dc6e83, 0x9c84ddd7, 0x2bc2a37e, 0xb8e16585,
             0x65a0cfe4, 0xf4b002d6);
    r := RoundTo(INITIAL, ABC, 36, r, 0x650a7354, 0x0a8b3996, 0x590d3d71, 0x09149d13, 0xe5748f69, 0xeda04fe4,
             0x41a65cb1, 0x0772a26b);
    r := RoundTo(INITIAL, ABC, 37, r, 0x766a0abb, 0x72af830a, 0x582c115e, 0x0c3d1a52, 0x2c915f18, 0x61a65fa4,
             0x34df1604, 0xa507a53d);
    r := RoundTo(INITIAL, ABC, 38, r, 0x81c2c92e, 0x9409e33e, 0xd2f220b2, 0x55b2a2eb, 0xc14e73aa, 0x65a65ea4,
             0x6dc57a8a, 0xf0781bc8);
    r := RoundTo(INITIAL, ABC, 39, r, 0x92722c85, 0x24641522, 0x66d20b14, 0xa702a12b, 0x5ac8193e, 0x65c75e80,
             0x79ea687a, 0x1efbc0a0);
  }

  lemma AbcRoundBits5()
    ensures BigSigma1(0x1efbc0a0) == 0xe9986075 && Choose(0x1efbc0a0, 0xf0781bc8, 0xa507a53d) == 0xb17c259d
    ensures BigSigma0(0x79ea687a) == 0x7408bcaa && Majority(0x79ea687a, 0x6dc57a8a, 0x34df1604) == 0x7dcf7a0a
    ensures BigSigma1(0x26352d63) == 0x3a6aa383 && Choose(0x26352d63, 0x1efbc0a0, 0xf0781bc8) == 0xd67912a8
    ensures BigSigma0(0xd6670766) == 0x12b2e9b8 && Majority(0xd6670766, 0x79ea687a, 0x6dc57a8a) == 0x7de76a6a
    ensures BigSigma1(0x838b2711) == 0x61add539 && Choose(0x838b2711, 0x26352d63, 0x1efbc0a0) == 0x1e71e5a1
    ensures BigSigma0(0xdf46652f) == 0xc73bdc05 && Majority(0xdf46652f, 0xd6670766, 0x79ea687a) == 0xdf66656e
    ensures BigSigma1(0xdecd4715) == 0xd363665b && Choose(0xdecd4715, 0x838b2711, 0x26352d63) == 0xa2b92f73
    ensures BigSigma0(0x17aa0dfe) == 0x422dc671 && Majority(0x17aa0dfe, 0xdf46652f, 0xd6670766) == 0xd766056e
    ensures BigSigma1(0xfda24c2e) == 0xef0f2a07 && Choose(0xfda24c2e, 0xdecd4715, 0x838b2711) == 0xde896715
    ensures BigSigma0(0x9d4baf93) == 0xb5704fcc && Majority(0x9d4baf93, 0x17aa0dfe, 0xdf46652f) == 0x9f4a2dbf
    ensures BigSigma1(0xa80f11f0) == 0xfb3dc5f1 && Choose(0xa80f11f0, 0xfda24c2e, 0xdecd4715) == 0xfec24625
    ensures BigSigma0(0x26628815) == 0x8311c588 && Majority(0x26628815, 0x9d4baf93, 0x17aa0dfe) == 0x176a8d97
    ensures BigSigma1(0xb7755da1) == 0x8845eb06 && Choose(0xb7755da1, 0xa80f11f0, 0xfda24c2e) == 0xe88711ae
    ensures BigSigma0(0x72ab4b91) == 0xad0f0274 && Majority(0x72ab4b91, 0x26628815, 0x9d4baf93) == 0x366b8b91
    ensures BigSigma1(0xd57b94a9) == 0x8fa515ca && Choose(0xd57b94a9, 0xb7755da1, 0xa80f11f0) == 0xbd7515f1
    ensures BigSigma0(0xa14c14b0) == 0xbd84cdc9 && Majority(0xa14c14b0, 0x72ab4b91, 0x26628815) == 0x226a0891
  {
  }

  lemma AbcRounds5() returns (r: Regs)
    ensures r == Regs(0x4172328d, 0xa14c14b0, 0x72ab4b91, 0x26628815, 0xfecf0bc6, 0xd57b94a9, 0xb7755da1, 0xa80f11f0)
    ensures StateIs(INITIAL, ABC, 48, r)
  {
    hide StateIs, WordIs, ConstantIs, BigSigma0, BigSigma1, Choose, Majority;
    r := AbcRounds4();
    Constants5();
    AbcRoundBits5();
    AbcWords4();
    r := RoundTo(INITIAL, ABC, 40, r, 0xa2bfe8a1, 0x9f47bf94, 0xe9986075, 0xb17c259d, 0x7408bcaa, 0x7dcf7a0a,
             0xd6670766, 0x26352d63);
    r := RoundTo(INITIAL, ABC, 41, r, 0xa81a664b, 0xf0a64f5a, 0x3a6aa383, 0xd67912a8, 0x12b2e9b8, 0x7de76a6a,
             0xdf46652f, 0x838b2711);
    r := RoundTo(INITIAL, ABC, 42, r, 0xc24b8b70, 0x3e246a79, 0x61add539, 0x1e71e5a1, 0xc73bdc05, 0xdf66656e,
             0x17aa0dfe, 0xdecd4715);
    r := RoundTo(INITIAL, ABC, 43, r, 0xc76c51a3, 0x27333ba3, 0xd363665b, 0xa2b92f73, 0x422dc671, 0xd766056e,
             0x9d4baf93, 0xfda24c2e);
    r := RoundTo(INITIAL, ABC, 44, r, 0xd192e819, 0x0c4763f2, 0xef0f2a07, 0xde896715, 0xb5704fcc, 0x9f4a2dbf,
             0x26628815, 0xa80f11f0);
    r := RoundTo(INITIAL, ABC, 45, r, 0xd6990624, 0x840abf27, 0xfb3dc5f1, 0xfec24625, 0x8311c588, 0x176a8d97,
             0x72ab4b91, 0xb7755da1);
    r := RoundTo(INITIAL, ABC, 46, r, 0xf40e3585, 0x7a290d5d, 0x8845eb06, 0xe88711ae, 0xad0f0274, 0x366b8b91,
             0xa14c14b0, 0xd57b94a9);
    r := RoundTo(INITIAL, ABC, 47, r, 0x106aa070, 0x065c43da, 0x8fa515ca, 0xbd7515f1, 0xbd84cdc9, 0x226a0891,
             0x4172328d, 0xfecf0bc6);
  }

  lemma AbcRoundBits6()
    ensures BigSigma1(0xfecf0bc6) == 0x04a106b1 && Choose(0xfecf0bc6, 0xd57b94a9, 0xb7755da1) == 0xd57b54a1
    ensures BigSigma0(0x4172328d) == 0x0cfcb237 && Majority(0x4172328d, 0xa14c14b0, 0x72ab4b91) == 0x616a1291
    ensures BigSigma1(0xbd714038) == 0x5d427776 && Choose(0xbd714038, 0xfecf0bc6, 0xd57b94a9) == 0xfc4b9481
    ensures BigSigma0(0x05757ceb) == 0xf3f6d884 && Majority(0x05757ceb, 0x4172328d, 0xa14c14b0) == 0x017434a9
    ensures BigSigma1(0x6e5c390c) == 0x3e283d54 && Choose(0x6e5c390c, 0xbd714038, 0xfecf0bc6) == 0xbcd302ca
    ensures BigSigma0(0xf11bfaa8) == 0x86ebd5b1 && Majority(0xf11bfaa8, 0x05757ceb, 0x4172328d) == 0x41737aa9
    ensures BigSigma1(0x52f1ccf7) == 0x3b47e2a3 && Choose(0x52f1ccf7, 0x6e5c390c, 0xbd714038) == 0xef50080c
    ensures BigSigma0(0x7a0508a1) == 0x0fa817e8 && Majority(0x7a0508a1, 0xf11bfaa8, 0x05757ceb) == 0x711578a9
    ensures BigSigma1(0x49231c1e) == 0x6b63a737 && Choose(0x49231c1e, 0x52f1ccf7, 0x6e5c390c) == 0x667d2d16
    ensures BigSigma0(0x886e7a22) == 0xcae757da && Majority(0x886e7a22, 0x7a0508a1, 0xf11bfaa8) == 0xf80f7aa0
    ensures BigSigma1(0x529e7d00) == 0xee7eaa12 && Choose(0x529e7d00, 0x49231c1e, 0x52f1ccf7) == 0x40639cf7
    ensures BigSigma0(0x101fd28f) == 0x2f35481d && Majority(0x101fd28f, 0x886e7a22, 0x7a0508a1) == 0x180f5aa3
    ensures BigSigma1(0x9f4787c3) == 0x55cd1720 && Choose(0x9f4787c3, 0x529e7d00, 0x49231c1e) == 0x52261d1c
    ensures BigSigma0(0xf5702fdb) == 0x433ccfa2 && Majority(0xf5702fdb, 0x101fd28f, 0x886e7a22) == 0x907e7a8b
    ensures BigSigma1(0xe50e1b4f) == 0xd1653e5c && Choose(0xe50e1b4f, 0x9f4787c3, 0x529e7d00) == 0x97966743
    ensures BigSigma0(0x3ec45cdb) == 0x381b8def && Majority(0x3ec45cdb, 0xf5702fdb, 0x101fd28f) == 0x34545edb
  {
  }

  lemma AbcRounds6() returns (r: Regs)
    ensures r == Regs(0x38cc9913, 0x3ec45cdb, 0xf5702fdb, 0x101fd28f, 0x54cb266b, 0xe50e1b4f, 0x9f4787c3, 0x529e7d00)
    ensures StateIs(INITIAL, ABC, 56, r)
  {
    hide StateIs, WordIs, ConstantIs, BigSigma0, BigSigma1, Choose, Majority;
    r := AbcRounds5();
    Constants6();
    AbcRoundBits6();
    AbcWords5();
    r := RoundTo(INITIAL, ABC, 48, r, 0x19a4c116, 0xfb3e89cb, 0x04a106b1, 0xd57b54a1, 0x0cfcb237, 0x616a1291,
             0x05757ceb, 0xbd714038);
    r := RoundTo(INITIAL, ABC, 49, r, 0x1e376c08, 0xcc7617db, 0x5d427776, 0xfc4b9481, 0xf3f6d884, 0x017434a9,
             0xf11bfaa8, 0x6e5c390c);
    r := RoundTo(INITIAL, ABC, 50, r, 0x2748774c, 0xb9e66c34, 0x3e283d54, 0xbcd302ca, 0x86ebd5b1, 0x41737aa9,
             0x7a0508a1, 0x52f1ccf7);
    r := RoundTo(INITIAL, ABC, 51, r, 0x34b0bcb5, 0xa9993667, 0x3b47e2a3, 0xef50080c, 0x0fa817e8, 0x711578a9,
             0x886e7a22, 0x49231c1e);
    r := RoundTo(INITIAL, ABC, 52, r, 0x391c0cb3, 0x84badedd, 0x6b63a737, 0x667d2d16, 0xcae757da, 0xf80f7aa0,
             0x101fd28f, 0x529e7d00);
    r := RoundTo(INITIAL, ABC, 53, r, 0x4ed8aa4a, 0xc21462bc, 0xee7eaa12, 0x40639cf7, 0x2f35481d, 0x180f5aa3,
             0xf5702fdb, 0x9f4787c3);
    r := RoundTo(INITIAL, ABC, 54, r, 0x5b9cca4f, 0x1487472c, 0x55cd1720, 0x52261d1c, 0x433ccfa2, 0x907e7a8b,
             0x3ec45cdb, 0xe50e1b4f);
    r := RoundTo(INITIAL, ABC, 55, r, 0x682e6ff3, 0xb20f7a99, 0xd1653e5c, 0x97966743, 0x381b8def, 0x34545edb,
             0x38cc9913, 0x54cb266b);
  }

  lemma AbcRoundBits7()
    ensures BigSigma1(0x54cb266b) == 0x05aa8057 && Choose(0x54cb266b, 0xe50e1b4f, 0x9f4787c3) == 0xcf0e83cb
    ensures BigSigma0(0x38cc9913) == 0x34ceacc3 && Majority(0x38cc9913, 0x3ec45cdb, 0xf5702fdb) == 0x3cc41ddb
    ensures BigSigma1(0x9b5e906c) == 0x10b627de && Choose(0x9b5e906c, 0x54cb266b, 0xe50e1b4f) == 0x744a0b6b
    ensures BigSigma0(0xfcd1887b) == 0xfaca6b61 && Majority(0xfcd1887b, 0x38cc9913, 0x3ec45cdb) == 0x3cc4985b
    ensures BigSigma1(0x7e44008e) == 0x0a369fbd && Choose(0x7e44008e, 0x9b5e906c, 0x54cb266b) == 0x1acf266d
    ensures BigSigma0(0xc062d46f) == 0xd837090c && Majority(0xc062d46f, 0xfcd1887b, 0x38cc9913) == 0xf8c0987b
    ensures BigSigma1(0x6d83bfc6) == 0x20a45dbe && Choose(0x6d83bfc6, 0x7e44008e, 0x9b5e906c) == 0xfe5c00ae
    ensures BigSigma0(0xffb70472) == 0x406bf75a && Majority(0xffb70472, 0xc062d46f, 0xfcd1887b) == 0xfcf3847b
    ensures BigSigma1(0xb21bad3d) == 0x5ca8b318 && Choose(0xb21bad3d, 0x6d83bfc6, 0x7e44008e) == 0x6c47ad86
    ensures BigSigma0(0xb6ae8fff) == 0x2869e851 && Majority(0xb6ae8fff, 0xffb70472, 0xc062d46f) == 0xf6a6847f
    ensures BigSigma1(0x961f4894) == 0x4f6ef480 && Choose(0x961f4894, 0xb21bad3d, 0x6d83bfc6) == 0xfb9bbf56
    ensures BigSigma0(0xb85e2ce9) == 0x71e9ef2a && Majority(0xb85e2ce9, 0xb6ae8fff, 0xffb70472) == 0xbebe0cfb
    ensures BigSigma1(0x948d25b6) == 0x2a127e78 && Choose(0x948d25b6, 0x961f4894, 0xb21bad3d) == 0xb61f889d
    ensures BigSigma0(0x04d24d6c) == 0x236105da && Majority(0x04d24d6c, 0xb85e2ce9, 0xb6ae8fff) == 0xb4de0ded
    ensures BigSigma1(0xfb121210) == 0x88fa2277 && Choose(0xfb121210, 0x948d25b6, 0x961f4894) == 0x940d4894
    ensures BigSigma0(0xd39a2165) == 0x174d83c6 && Majority(0xd39a2165, 0x04d24d6c, 0xb85e2ce9) == 0x90da2d6d
  {
  }

  lemma AbcRounds7() returns (r: Regs)
    ensures r == Regs(0x506e3058, 0xd39a2165, 0x04d24d6c, 0xb85e2ce9, 0x5ef50f24, 0xfb121210, 0x948d25b6, 0x961f4894)
    ensures StateIs(INITIAL, ABC, 64, r)
  {
    hide StateIs, WordIs, ConstantIs, BigSigma0, BigSigma1, Choose, Majority;
    r := AbcRounds6();
    Constants7();
    AbcRoundBits7();
    AbcWords6();
    r := RoundTo(INITIAL, ABC, 56, r, 0x748f82ee, 0xef57b9cd, 0x05aa8057, 0xcf0e83cb, 0x34ceacc3, 0x3cc41ddb,
             0xfcd1887b, 0x9b5e906c);
    r := RoundTo(INITIAL, ABC, 57, r, 0x78a5636f, 0xebe6b238, 0x10b627de, 0x744a0b6b, 0xfaca6b61, 0x3cc4985b,
             0xc062d46f, 0x7e44008e);
    r := RoundTo(INITIAL, ABC, 58, r, 0x84c87814, 0x9fe3095e, 0x0a369fbd, 0x1acf266d, 0xd837090c, 0xf8c0987b,
             0xffb70472, 0x6d83bfc6);
    r := RoundTo(INITIAL, ABC, 59, r, 0x8cc70208, 0x78bc8d4b, 0x20a45dbe, 0xfe5c00ae, 0x406bf75a, 0xfcf3847b,
             0xb6ae8fff, 0xb21bad3d);
    r := RoundTo(INITIAL, ABC, 60, r, 0x90befffa, 0xa43fcf15, 0x5ca8b318, 0x6c47ad86, 0x2869e851, 0xf6a6847f,
             0xb85e2ce9, 0x961f4894);
    r := RoundTo(INITIAL, ABC, 61, r, 0xa4506ceb, 0x668b2ff8, 0x4f6ef480, 0xfb9bbf56, 0x71e9ef2a, 0xbebe0cfb,
             0x04d24d6c, 0x948d25b6);
    r := RoundTo(INITIAL, ABC, 62, r, 0xbef9a3f7, 0xeeaba2cc, 0x2a127e78, 0xb61f889d, 0x236105da, 0xb4de0ded,
             0xd39a2165, 0xfb121210);
    r := RoundTo(INITIAL, ABC, 63, r, 0xc67178f2, 0x12b1edeb, 0x88fa2277, 0x940d4894, 0x174d83c6, 0x90da2d6d,
             0x506e3058, 0x5ef50f24);
  }

  lemma AbcPadded()
    ensures Pad([0x61, 0x62, 0x63]) == ABC
  {
    hide BigEndian.Encode;
    AbcLengthField();
  }

  lemma AbcLengthField()
    ensures BigEndian.Encode(24, 8) == [0, 0, 0, 0, 0, 0, 0, 0x18]
  {
  }

  lemma AbcHex()
    ensures Hex(0xba7816bf, 8) == "ba7816bf"
    ensures Hex(0x8f01cfea, 8) == "8f01cfea"
    ensures Hex(0x414140de, 8) == "414140de"
    ensures Hex(0x5dae2223, 8) == "5dae2223"
    ensures Hex(0xb00361a3, 8) == "b00361a3"
    ensures Hex(0x96177a9c, 8) == "96177a9c"
    ensures Hex(0xb410ff61, 8) == "b410ff61"
    ensures Hex(0xf20015ad, 8) == "f20015ad"
  {
    hide Hex;
    HexTo(0xba7816bf, 11, 10, 7, 8, 1, 6, 11, 15);
    HexTo(0x8f01cfea, 8, 15, 0, 1, 12, 15, 14, 10);
    HexTo(0x414140de, 4, 1, 4, 1, 4, 0, 13, 14);
    HexTo(0x5dae2223, 5, 13, 10, 14, 2, 2, 2, 3);
    HexTo(0xb00361a3, 11, 0, 0, 3, 6, 1, 10, 3);
    HexTo(0x96177a9c, 9, 6, 1, 7, 7, 10, 9, 12);
    HexTo(0xb410ff61, 11, 4, 1, 0, 15, 15, 6, 1);
    HexTo(0xf20015ad, 15, 2, 0, 0, 1, 5, 10, 13);
  }

  /** The published digest of "abc". */
  lemma AbcDigest()
    ensures Sha256Hex([0x61, 0x62, 0x63]) ==
            "ba7816bf" + "8f01cfea" + "414140de" + "5dae2223" + "b00361a3" + "96177a9c" + "b410ff61" + "f20015ad"
  {
    hide Rounds, Schedule, StateIs, Compress, HashBlocks, Pad, Hex;
    AbcPadded();
    OneBlock(ABC);
    var r := AbcRounds7();
    CompressTo(INITIAL, ABC, r, Regs(
      0xba7816bf, 0x8f01cfea, 0x414140de, 0x5dae2223, 0xb00361a3, 0x96177a9c, 0xb410ff61, 0xf20015ad));
    AbcHex();
  }
}
