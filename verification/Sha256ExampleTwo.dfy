/** The two-block example of the Secure Hash Standard. */
module Sha256ExampleTwo {
  import opened Base
  import opened Sha256Constants
  import opened Sha256Spec
  import opened Sha256Steps
  import BigEndian

  /** The text "abcdbcdecdefdefgefghfghighijhijkijkljklmklmnlmnomnopnopq". */
  const MESSAGE: Bytes :=
    [0x61, 0x62, 0x63, 0x64, 0x62, 0x63, 0x64, 0x65] +
    [0x63, 0x64, 0x65, 0x66, 0x64, 0x65, 0x66, 0x67] +
    [0x65, 0x66, 0x67, 0x68, 0x66, 0x67, 0x68, 0x69] +
    [0x67, 0x68, 0x69, 0x6a, 0x68, 0x69, 0x6a, 0x6b] +
    [0x69, 0x6a, 0x6b, 0x6c, 0x6a, 0x6b, 0x6c, 0x6d] +
    [0x6b, 0x6c, 0x6d, 0x6e, 0x6c, 0x6d, 0x6e, 0x6f] +
    [0x6d, 0x6e, 0x6f, 0x70, 0x6e, 0x6f, 0x70, 0x71]

  /** The two blocks of the padded message, whose length is 448 bits. */
  const FIRST: Bytes := MESSAGE + [0x80] + Zeros(7)
  const SECOND: Bytes := Zeros(56) + [0, 0, 0, 0, 0, 0, 0x01, 0xc0]

  /** The hash value after the first block. */
  const MIDDLE := Regs(
    0x85e655d6, 0x417a1795, 0x3363376a, 0x624cde5c, 0x76e09589, 0xcac5f811, 0xcc4b32c1, 0xf20e533a)

  lemma FirstBlockWords0()
    ensures WordIs(FIRST, 0, 0x61626364)
    ensures WordIs(FIRST, 1, 0x62636465)
    ensures WordIs(FIRST, 2, 0x63646566)
    ensures WordIs(FIRST, 3, 0x64656667)
  {
    hide WordIs;
    BlockWordIs(FIRST, 0, 0x61, 0x62, 0x63, 0x64, 0x61626364);
    BlockWordIs(FIRST, 1, 0x62, 0x63, 0x64, 0x65, 0x62636465);
    BlockWordIs(FIRST, 2, 0x63, 0x64, 0x65, 0x66, 0x63646566);
    BlockWordIs(FIRST, 3, 0x64, 0x65, 0x66, 0x67, 0x64656667);
  }

  lemma FirstBlockWords1()
    ensures WordIs(FIRST, 4, 0x65666768)
    ensures WordIs(FIRST, 5, 0x66676869)
    ensures WordIs(FIRST, 6, 0x6768696a)
    ensures WordIs(FIRST, 7, 0x68696a6b)
  {
    hide WordIs;
    BlockWordIs(FIRST, 4, 0x65, 0x66, 0x67, 0x68, 0x65666768);
    BlockWordIs(FIRST, 5, 0x66, 0x67, 0x68, 0x69, 0x66676869);
    BlockWordIs(FIRST, 6, 0x67, 0x68, 0x69, 0x6a, 0x6768696a);
    BlockWordIs(FIRST, 7, 0x68, 0x69, 0x6a, 0x6b, 0x68696a6b);
  }

  lemma FirstBlockWords2()
    ensures WordIs(FIRST, 8, 0x696a6b6c)
    ensures WordIs(FIRST, 9, 0x6a6b6c6d)
    ensures WordIs(FIRST, 10, 0x6b6c6d6e)
    ensures WordIs(FIRST, 11, 0x6c6d6e6f)
  {
    hide WordIs;
    BlockWordIs(FIRST, 8, 0x69, 0x6a, 0x6b, 0x6c, 0x696a6b6c);
    BlockWordIs(FIRST, 9, 0x6a, 0x6b, 0x6c, 0x6d, 0x6a6b6c6d);
    BlockWordIs(FIRST, 10, 0x6b, 0x6c, 0x6d, 0x6e, 0x6b6c6d6e);
    BlockWordIs(FIRST, 11, 0x6c, 0x6d, 0x6e, 0x6f, 0x6c6d6e6f);
  }

  lemma FirstBlockWords3()
    ensures WordIs(FIRST, 12, 0x6d6e6f70)
    ensures WordIs(FIRST, 13, 0x6e6f7071)
    ensures WordIs(FIRST, 14, 0x80000000)
    ensures WordIs(FIRST, 15, 0x00000000)
  {
    hide WordIs;
    BlockWordIs(FIRST, 12, 0x6d, 0x6e, 0x6f, 0x70, 0x6d6e6f70);
    BlockWordIs(FIRST, 13, 0x6e, 0x6f, 0x70, 0x71, 0x6e6f7071);
    BlockWordIs(FIRST, 14, 0x80, 0x00, 0x00, 0x00, 0x80000000);
    BlockWordIs(FIRST, 15, 0x00, 0x00, 0x00, 0x00, 0x00000000);
  }

  lemma FirstWords0()
    ensures WordIs(FIRST, 0, 0x61626364)
    ensures WordIs(FIRST, 1, 0x62636465)
    ensures WordIs(FIRST, 2, 0x63646566)
    ensures WordIs(FIRST, 3, 0x64656667)
    ensures WordIs(FIRST, 4, 0x65666768)
    ensures WordIs(FIRST, 5, 0x66676869)
    ensures WordIs(FIRST, 6, 0x6768696a)
    ensures WordIs(FIRST, 7, 0x68696a6b)
    ensures WordIs(FIRST, 8, 0x696a6b6c)
    ensures WordIs(FIRST, 9, 0x6a6b6c6d)
    ensures WordIs(FIRST, 10, 0x6b6c6d6e)
    ensures WordIs(FIRST, 11, 0x6c6d6e6f)
    ensures WordIs(FIRST, 12, 0x6d6e6f70)
    ensures WordIs(FIRST, 13, 0x6e6f7071)
    ensures WordIs(FIRST, 14, 0x80000000)
    ensures WordIs(FIRST, 15, 0x00000000)
  {
    hide WordIs;
    FirstBlockWords0();
    FirstBlockWords1();
    FirstBlockWords2();
    FirstBlockWords3();
  }

  lemma FirstWordBits1()
    ensures SmallSigma1(0x80000000) == 0x00205000 && SmallSigma0(0x62636465) == 0x1f91f2dc
    ensures SmallSigma1(0x00000000) == 0x00000000 && SmallSigma0(0x63646566) == 0xd9f3dcbf
    ensures SmallSigma1(0xeb8012ad) == 0x0b39a8b4 && SmallSigma0(0x64656667) == 0x9bddbf19
    ensures SmallSigma1(0xa7c3ae92) == 0xa2b2f7f2 && SmallSigma0(0x65666768) == 0x45bc197a
    ensures SmallSigma1(0x76e93ba2) == 0xbab8cfe7 && SmallSigma0(0x66676869) == 0x041a7a44
    ensures SmallSigma1(0xba42e743) == 0x2f673ad0 && SmallSigma0(0x6768696a) == 0xc2794425
    ensures SmallSigma1(0x92a92204) == 0xb5667149 && SmallSigma0(0x68696a6b) == 0x81472583
    ensures SmallSigma1(0xd847e75e) == 0x0f72a6d2 && SmallSigma0(0x696a6b6c) == 0x4f2483e1
  {
  }

  lemma FirstWords1()
    ensures WordIs(FIRST, 16, 0xeb8012ad)
    ensures WordIs(FIRST, 17, 0xa7c3ae92)
    ensures WordIs(FIRST, 18, 0x76e93ba2)
    ensures WordIs(FIRST, 19, 0xba42e743)
    ensures WordIs(FIRST, 20, 0x92a92204)
    ensures WordIs(FIRST, 21, 0xd847e75e)
    ensures WordIs(FIRST, 22, 0x9e160036)
    ensures WordIs(FIRST, 23, 0xb280a7cb)
  {
    hide WordIs, SmallSigma0, SmallSigma1;
    FirstWordBits1();
    FirstWords0();
    WordTo(FIRST, 16, 0x80000000, 0x6a6b6c6d, 0x62636465, 0x61626364, 0x00205000, 0x1f91f2dc, 0xeb8012ad);
    WordTo(FIRST, 17, 0x00000000, 0x6b6c6d6e, 0x63646566, 0x62636465, 0x00000000, 0xd9f3dcbf, 0xa7c3ae92);
    WordTo(FIRST, 18, 0xeb8012ad, 0x6c6d6e6f, 0x64656667, 0x63646566, 0x0b39a8b4, 0x9bddbf19, 0x76e93ba2);
    WordTo(FIRST, 19, 0xa7c3ae92, 0x6d6e6f70, 0x65666768, 0x64656667, 0xa2b2f7f2, 0x45bc197a, 0xba42e743);
    WordTo(FIRST, 20, 0x76e93ba2, 0x6e6f7071, 0x66676869, 0x65666768, 0xbab8cfe7, 0x041a7a44, 0x92a92204);
    WordTo(FIRST, 21, 0xba42e743, 0x80000000, 0x6768696a, 0x66676869, 0x2f673ad0, 0xc2794425, 0xd847e75e);
    WordTo(FIRST, 22, 0x92a92204, 0x00000000, 0x68696a6b, 0x6768696a, 0xb5667149, 0x81472583, 0x9e160036);
    WordTo(FIRST, 23, 0xd847e75e, 0xeb8012ad, 0x696a6b6c, 0x68696a6b, 0x0f72a6d2, 0x4f2483e1, 0xb280a7cb);
  }

  lemma FirstWordBits2()
    ensures SmallSigma1(0x9e160036) == 0xc03a1949 && SmallSigma0(0x6a6b6c6d) == 0x0c82e1cf
    ensures SmallSigma1(0xb280a7cb) == 0x47300f39 && SmallSigma0(0x6b6c6d6e) == 0xcae0cfac
    ensures SmallSigma1(0xddeb1516) == 0xe81ecf8d && SmallSigma0(0x6c6d6e6f) == 0x88ceac0a
    ensures SmallSigma1(0xf36586f4) == 0x73983ebf && SmallSigma0(0x6d6e6f70) == 0x76ab0a6b
    ensures SmallSigma1(0x969cd048) == 0xf208fea9 && SmallSigma0(0x6e6f7071) == 0x330d6b75
    ensures SmallSigma1(0xe959d99d) == 0xd7c71ff1 && SmallSigma0(0x80000000) == 0x11002000
    ensures SmallSigma1(0x6accc0ec) == 0xf8710b0f && SmallSigma0(0x00000000) == 0x00000000
    ensures SmallSigma1(0xf54cb098) == 0xce623723 && SmallSigma0(0xeb8012ad) == 0x420c7890
  {
  }

  lemma FirstWords2()
    ensures WordIs(FIRST, 24, 0xddeb1516)
    ensures WordIs(FIRST, 25, 0xf36586f4)
    ensures WordIs(FIRST, 26, 0x969cd048)
    ensures WordIs(FIRST, 27, 0xe959d99d)
    ensures WordIs(FIRST, 28, 0x6accc0ec)
    ensures WordIs(FIRST, 29, 0xf54cb098)
    ensures WordIs(FIRST, 30, 0x2af1b2da)
    ensures WordIs(FIRST, 31, 0xee59c4c9)
  {
    hide WordIs, SmallSigma0, SmallSigma1;
    FirstWordBits2();
    FirstWords0();
    FirstWords1();
    WordTo(FIRST, 24, 0x9e160036, 0xa7c3ae92, 0x6a6b6c6d, 0x696a6b6c, 0xc03a1949, 0x0c82e1cf, 0xddeb1516);
    WordTo(FIRST, 25, 0xb280a7cb, 0x76e93ba2, 0x6b6c6d6e, 0x6a6b6c6d, 0x47300f39, 0xcae0cfac, 0xf36586f4);
    WordTo(FIRST, 26, 0xddeb1516, 0xba42e743, 0x6c6d6e6f, 0x6b6c6d6e, 0xe81ecf8d, 0x88ceac0a, 0x969cd048);
    WordTo(FIRST, 27, 0xf36586f4, 0x92a92204, 0x6d6e6f70, 0x6c6d6e6f, 0x73983ebf, 0x76ab0a6b, 0xe959d99d);
    WordTo(FIRST, 28, 0x969cd048, 0xd847e75e, 0x6e6f7071, 0x6d6e6f70, 0xf208fea9, 0x330d6b75, 0x6accc0ec);
    WordTo(FIRST, 29, 0xe959d99d, 0x9e160036, 0x80000000, 0x6e6f7071, 0xd7c71ff1, 0x11002000, 0xf54cb098);
    WordTo(FIRST, 30, 0x6accc0ec, 0xb280a7cb, 0x00000000, 0x80000000, 0xf8710b0f, 0x00000000, 0x2af1b2da);
    WordTo(FIRST, 31, 0xf54cb098, 0xddeb1516, 0xeb8012ad, 0x00000000, 0xce623723, 0x420c7890, 0xee59c4c9);
  }

  lemma FirstWordBits3()
    ensures SmallSigma1(0x2af1b2da) == 0xef3cec4a && SmallSigma0(0xa7c3ae92) == 0xda135b7f
    ensures SmallSigma1(0xee59c4c9) == 0xdac65c96 && SmallSigma0(0x76e93ba2) == 0x04d868b9
    ensures SmallSigma1(0xa835e16a) == 0x4cb20c64 && SmallSigma0(0xba42e743) == 0x29ec37b6
    ensures SmallSigma1(0x1dff4429) == 0x4a96d291 && SmallSigma0(0x92a92204) == 0x53f152ae
    ensures SmallSigma1(0xd6e15959) == 0x87b269fa && SmallSigma0(0xd847e75e) == 0x5f6fc534
    ensures SmallSigma1(0xc397cd6e) == 0x1f2a5c4a && SmallSigma0(0x9e160036) == 0xfef34b83
    ensures SmallSigma1(0x6f1801ca) == 0x00c7bc6f && SmallSigma0(0xb280a7cb) == 0xa8c7f916
    ensures SmallSigma1(0x21574205) == 0x494a6151 && SmallSigma0(0xddeb1516) == 0xf34303f2
  {
  }

  lemma FirstWords3()
    ensures WordIs(FIRST, 32, 0xa835e16a)
    ensures WordIs(FIRST, 33, 0x1dff4429)
    ensures WordIs(FIRST, 34, 0xd6e15959)
    ensures WordIs(FIRST, 35, 0xc397cd6e)
    ensures WordIs(FIRST, 36, 0x6f1801ca)
    ensures WordIs(FIRST, 37, 0x21574205)
    ensures WordIs(FIRST, 38, 0x35ff7a84)
    ensures WordIs(FIRST, 39, 0x9743ee78)
  {
    hide WordIs, SmallSigma0, SmallSigma1;
    FirstWordBits3();
    FirstWords1();
    FirstWords2();
    WordTo(FIRST, 32, 0x2af1b2da, 0xf36586f4, 0xa7c3ae92, 0xeb8012ad, 0xef3cec4a, 0xda135b7f, 0xa835e16a);
    WordTo(FIRST, 33, 0xee59c4c9, 0x969cd048, 0x76e93ba2, 0xa7c3ae92, 0xdac65c96, 0x04d868b9, 0x1dff4429);
    WordTo(FIRST, 34, 0xa835e16a, 0xe959d99d, 0xba42e743, 0x76e93ba2, 0x4cb20c64, 0x29ec37b6, 0xd6e15959);
    WordTo(FIRST, 35, 0x1dff4429, 0x6accc0ec, 0x92a92204, 0xba42e743, 0x4a96d291, 0x53f152ae, 0xc397cd6e);
    WordTo(FIRST, 36, 0xd6e15959, 0xf54cb098, 0xd847e75e, 0x92a92204, 0x87b269fa, 0x5f6fc534, 0x6f1801ca);
    WordTo(FIRST, 37, 0xc397cd6e, 0x2af1b2da, 0x9e160036, 0xd847e75e, 0x1f2a5c4a, 0xfef34b83, 0x21574205);
    WordTo(FIRST, 38, 0x6f1801ca, 0xee59c4c9, 0xb280a7cb, 0x9e160036, 0x00c7bc6f, 0xa8c7f916, 0x35ff7a84);
    WordTo(FIRST, 39, 0x21574205, 0xa835e16a, 0xddeb1516, 0xb280a7cb, 0x494a6151, 0xf34303f2, 0x9743ee78);
  }

  lemma FirstWordBits4()
    ensures SmallSigma1(0x35ff7a84) == 0x521fe39e && SmallSigma0(0xf36586f4) == 0x9637470a
    ensures SmallSigma1(0x9743ee78) == 0x8ad689b2 && SmallSigma0(0x969cd048) == 0xb7ec860e
    ensures SmallSigma1(0xe44183e7) == 0xf1b61ec8 && SmallSigma0(0xe959d99d) == 0x509ef2d6
    ensures SmallSigma1(0x0d09f00d) == 0xc6046559 && SmallSigma0(0x6accc0ec) == 0xe5b71b2f
    ensures SmallSigma1(0x9c89af54) == 0xe267ffbe && SmallSigma0(0xf54cb098) == 0x03653221
    ensures SmallSigma1(0x042d5bef) == 0x068b69c5 && SmallSigma0(0x2af1b2da) == 0xddbd5f82
    ensures SmallSigma1(0x71f134d0) == 0xbcee4a8b && SmallSigma0(0xee59c4c9) == 0xff25f086
    ensures SmallSigma1(0x0f94f463) == 0xe4be0305 && SmallSigma0(0xa835e16a) == 0xb80c7de2
  {
  }

  lemma FirstWords4()
    ensures WordIs(FIRST, 40, 0xe44183e7)
    ensures WordIs(FIRST, 41, 0x0d09f00d)
    ensures WordIs(FIRST, 42, 0x9c89af54)
    ensures WordIs(FIRST, 43, 0x042d5bef)
    ensures WordIs(FIRST, 44, 0x71f134d0)
    ensures WordIs(FIRST, 45, 0x0f94f463)
    ensures WordIs(FIRST, 46, 0x7e49dc63)
    ensures WordIs(FIRST, 47, 0x6f65c997)
  {
    hide WordIs, SmallSigma0, SmallSigma1;
    FirstWordBits4();
    FirstWords2();
    FirstWords3();
    WordTo(FIRST, 40, 0x35ff7a84, 0x1dff4429, 0xf36586f4, 0xddeb1516, 0x521fe39e, 0x9637470a, 0xe44183e7);
    WordTo(FIRST, 41, 0x9743ee78, 0xd6e15959, 0x969cd048, 0xf36586f4, 0x8ad689b2, 0xb7ec860e, 0x0d09f00d);
    WordTo(FIRST, 42, 0xe44183e7, 0xc397cd6e, 0xe959d99d, 0x969cd048, 0xf1b61ec8, 0x509ef2d6, 0x9c89af54);
    WordTo(FIRST, 43, 0x0d09f00d, 0x6f1801ca, 0x6accc0ec, 0xe959d99d, 0xc6046559, 0xe5b71b2f, 0x042d5bef);
    WordTo(FIRST, 44, 0x9c89af54, 0x21574205, 0xf54cb098, 0x6accc0ec, 0xe267ffbe, 0x03653221, 0x71f134d0);
    WordTo(FIRST, 45, 0x042d5bef, 0x35ff7a84, 0x2af1b2da, 0xf54cb098, 0x068b69c5, 0xddbd5f82, 0x0f94f463);
    WordTo(FIRST, 46, 0x71f134d0, 0x9743ee78, 0xee59c4c9, 0x2af1b2da, 0xbcee4a8b, 0xff25f086, 0x7e49dc63);
    WordTo(FIRST, 47, 0x0f94f463, 0xe44183e7, 0xa835e16a, 0xee59c4c9, 0xe4be0305, 0xb80c7de2, 0x6f65c997);
  }

  lemma FirstWordBits5()
    ensures SmallSigma1(0x7e49dc63) == 0xd5a2429a && SmallSigma0(0x1dff4429) == 0x808e5172
    ensures SmallSigma1(0x6f65c997) == 0x5de2832c && SmallSigma0(0xd6e15959) == 0xff279c21
    ensures SmallSigma1(0x0b706583) == 0x3e7338cf && SmallSigma0(0xc397cd6e) == 0x36ae66d2
    ensures SmallSigma1(0x179312ca) == 0xeb39adff && SmallSigma0(0x6f1801ca) == 0x994fabfc
    ensures SmallSigma1(0x503054e9) == 0x20fd8e0b && SmallSigma0(0x21574205) == 0xdee90e91
    ensures SmallSigma1(0xba125c39) == 0x65b56edc && SmallSigma0(0x35ff7a84) == 0xd0751cda
    ensures SmallSigma1(0x7e9392c9) == 0xbb22347f && SmallSigma0(0x9743ee78) == 0x1858dfc3
    ensures SmallSigma1(0xd5cbaa1e) == 0xa079c2b6 && SmallSigma0(0xe44183e7) == 0xb3b94a6b
  {
  }

  lemma FirstWords5()
    ensures WordIs(FIRST, 48, 0x0b706583)
    ensures WordIs(FIRST, 49, 0x179312ca)
    ensures WordIs(FIRST, 50, 0x503054e9)
    ensures WordIs(FIRST, 51, 0xba125c39)
    ensures WordIs(FIRST, 52, 0x7e9392c9)
    ensures WordIs(FIRST, 53, 0xd5cbaa1e)
    ensures WordIs(FIRST, 54, 0x78e0585d)
    ensures WordIs(FIRST, 55, 0xf6e7611c)
  {
    hide WordIs, SmallSigma0, SmallSigma1;
    FirstWordBits5();
    FirstWords3();
    FirstWords4();
    WordTo(FIRST, 48, 0x7e49dc63, 0x0d09f00d, 0x1dff4429, 0xa835e16a, 0xd5a2429a, 0x808e5172, 0x0b706583);
    WordTo(FIRST, 49, 0x6f65c997, 0x9c89af54, 0xd6e15959, 0x1dff4429, 0x5de2832c, 0xff279c21, 0x179312ca);
    WordTo(FIRST, 50, 0x0b706583, 0x042d5bef, 0xc397cd6e, 0xd6e15959, 0x3e7338cf, 0x36ae66d2, 0x503054e9);
    WordTo(FIRST, 51, 0x179312ca, 0x71f134d0, 0x6f1801ca, 0xc397cd6e, 0xeb39adff, 0x994fabfc, 0xba125c39);
    WordTo(FIRST, 52, 0x503054e9, 0x0f94f463, 0x21574205, 0x6f1801ca, 0x20fd8e0b, 0xdee90e91, 0x7e9392c9);
    WordTo(FIRST, 53, 0xba125c39, 0x7e49dc63, 0x35ff7a84, 0x21574205, 0x65b56edc, 0xd0751cda, 0xd5cbaa1e);
    WordTo(FIRST, 54, 0x7e9392c9, 0x6f65c997, 0x9743ee78, 0x35ff7a84, 0xbb22347f, 0x1858dfc3, 0x78e0585d);
    WordTo(FIRST, 55, 0xd5cbaa1e, 0x0b706583, 0xe44183e7, 0x9743ee78, 0xa079c2b6, 0xb3b94a6b, 0xf6e7611c);
  }

  lemma FirstWordBits6()
    ensures SmallSigma1(0x78e0585d) == 0x273b2b7a && SmallSigma0(0x0d09f00d) == 0x67b86ea3
    ensures SmallSigma1(0xf6e7611c) == 0x5c905c77 && SmallSigma0(0x9c89af54) == 0xd17d0196
    ensures SmallSigma1(0x8ac830ce) == 0x1e5c2631 && SmallSigma0(0x042d5bef) == 0x887630c1
    ensures SmallSigma1(0x8b47a303) == 0x25c36523 && SmallSigma0(0x71f134d0) == 0xe3e9d88f
    ensures SmallSigma1(0xfd6e627f) == 0xfd4f5a82 && SmallSigma0(0x0f94f463) == 0xfaf57481
    ensures SmallSigma1(0x8c6e2c6a) == 0xd39b0c31 && SmallSigma0(0x7e49dc63) == 0xbe2d77a6
    ensures SmallSigma1(0x4001adf1) == 0xe356886b && SmallSigma0(0x6f65c997) == 0x5157a978
    ensures SmallSigma1(0x1a3dd097) == 0x525fe12d && SmallSigma0(0x0b706583) == 0x1e182ea7
  {
  }

  lemma FirstWords6()
    ensures WordIs(FIRST, 56, 0x8ac830ce)
    ensures WordIs(FIRST, 57, 0x8b47a303)
    ensures WordIs(FIRST, 58, 0xfd6e627f)
    ensures WordIs(FIRST, 59, 0x8c6e2c6a)
    ensures WordIs(FIRST, 60, 0x4001adf1)
    ensures WordIs(FIRST, 61, 0x1a3dd097)
    ensures WordIs(FIRST, 62, 0xa9df6f62)
    ensures WordIs(FIRST, 63, 0x6aa60a39)
  {
    hide WordIs, SmallSigma0, SmallSigma1;
    FirstWordBits6();
    FirstWords4();
    FirstWords5();
    WordTo(FIRST, 56, 0x78e0585d, 0x179312ca, 0x0d09f00d, 0xe44183e7, 0x273b2b7a, 0x67b86ea3, 0x8ac830ce);
    WordTo(FIRST, 57, 0xf6e7611c, 0x503054e9, 0x9c89af54, 0x0d09f00d, 0x5c905c77, 0xd17d0196, 0x8b47a303);
    WordTo(FIRST, 58, 0x8ac830ce, 0xba125c39, 0x042d5bef, 0x9c89af54, 0x1e5c2631, 0x887630c1, 0xfd6e627f);
    WordTo(FIRST, 59, 0x8b47a303, 0x7e9392c9, 0x71f134d0, 0x042d5bef, 0x25c36523, 0xe3e9d88f, 0x8c6e2c6a);
    WordTo(FIRST, 60, 0xfd6e627f, 0xd5cbaa1e, 0x0f94f463, 0x71f134d0, 0xfd4f5a82, 0xfaf57481, 0x4001adf1);
    WordTo(FIRST, 61, 0x8c6e2c6a, 0x78e0585d, 0x7e49dc63, 0x0f94f463, 0xd39b0c31, 0xbe2d77a6, 0x1a3dd097);
    WordTo(FIRST, 62, 0x4001adf1, 0xf6e7611c, 0x6f65c997, 0x7e49dc63, 0xe356886b, 0x5157a978, 0xa9df6f62);
    WordTo(FIRST, 63, 0x1a3dd097, 0x8ac830ce, 0x0b706583, 0x6f65c997, 0x525fe12d, 0x1e182ea7, 0x6aa60a39);
  }

  lemma FirstRoundBits0()
    ensures BigSigma1(0x510e527f) == 0x3587272b && Choose(0x510e527f, 0x9b05688c, 0x1f83d9ab) == 0x1f85c98c
    ensures BigSigma0(0x6a09e667) == 0xce20b47e && Majority(0x6a09e667, 0xbb67ae85, 0x3c6ef372) == 0x3a6fe667
    ensures BigSigma1(0xfa2a4606) == 0xce14ef2d && Choose(0xfa2a4606, 0x510e527f, 0x9b05688c) == 0x510f6a8e
    ensures BigSigma0(0x5d6aebb1) == 0xa17e94ce && Majority(0x5d6aebb1, 0x6a09e667, 0xbb67ae85) == 0x7b6beea5
    ensures BigSigma1(0x4eb1cfce) == 0x9814f621 && Choose(0x4eb1cfce, 0xfa2a4606, 0x510e527f) == 0x5b2e5637
    ensures BigSigma0(0x2f2d5fcf) == 0x80cd1225 && Majority(0x2f2d5fcf, 0x5d6aebb1, 0x6a09e667) == 0x6f29efe7
    ensures BigSigma1(0x62d5c49e) == 0x80a5429b && Choose(0x62d5c49e, 0x4eb1cfce, 0xfa2a4606) == 0xdabbc68e
    ensures BigSigma0(0x97651825) == 0x30956b7c && Majority(0x97651825, 0x2f2d5fcf, 0x5d6aebb1) == 0x1f6d5ba5
    ensures BigSigma1(0x6494841b) == 0xa4bccd32 && Choose(0x6494841b, 0x62d5c49e, 0x4eb1cfce) == 0x6ab5cfde
    ensures BigSigma0(0x4a8d64d5) == 0x419a5874 && Majority(0x4a8d64d5, 0x97651825, 0x2f2d5fcf) == 0x0f2d5cc5
    ensures BigSigma1(0x05c4f88a) == 0xdb2bee7f && Choose(0x05c4f88a, 0x6494841b, 0x62d5c49e) == 0x6695841e
    ensures BigSigma0(0xf921c212) == 0x29d7f26e && Majority(0xf921c212, 0x4a8d64d5, 0x97651825) == 0xdb254015
    ensures BigSigma1(0x7ff91c94) == 0x3ffe516e && Choose(0x7ff91c94, 0x05c4f88a, 0x6494841b) == 0x05c4988b
    ensures BigSigma0(0x55c8ef48) == 0x4c8db4c2 && Majority(0x55c8ef48, 0xf921c212, 0x4a8d64d5) == 0x5989e650
    ensures BigSigma1(0x39a5b2ca) == 0xa378c761 && Choose(0x39a5b2ca, 0x7ff91c94, 0x05c4f88a) == 0x3de15880
    ensures BigSigma0(0x485835b7) == 0x1f7a928d && Majority(0x485835b7, 0x55c8ef48, 0xf921c212) == 0x5948e712
  {
  }

  lemma FirstRounds0() returns (r: Regs)
    ensures r == Regs(0xd237e6db, 0x485835b7, 0x55c8ef48, 0xf921c212, 0xa401d211, 0x39a5b2ca, 0x7ff91c94, 0x05c4f88a)
    ensures StateIs(INITIAL, FIRST, 8, r)
  {
    hide StateIs, WordIs, ConstantIs, BigSigma0, BigSigma1, Choose, Majority;
    r := INITIAL;
    NoRounds(INITIAL, FIRST);
    Constants0();
    FirstRoundBits0();
    FirstWords0();
    r := RoundTo(INITIAL, FIRST, 0, r, 0x428a2f98, 0x61626364, 0x3587272b, 0x1f85c98c, 0xce20b47e, 0x3a6fe667,
             0x5d6aebb1, 0xfa2a4606);
    r := RoundTo(INITIAL, FIRST, 1, r, 0x71374491, 0x62636465, 0xce14ef2d, 0x510f6a8e, 0xa17e94ce, 0x7b6beea5,
             0x2f2d5fcf, 0x4eb1cfce);
    r := RoundTo(INITIAL, FIRST, 2, r, 0xb5c0fbcf, 0x63646566, 0x9814f621, 0x5b2e5637, 0x80cd1225, 0x6f29efe7,
             0x97651825, 0x62d5c49e);
    r := RoundTo(INITIAL, FIRST, 3, r, 0xe9b5dba5, 0x64656667, 0x80a5429b, 0xdabbc68e, 0x30956b7c, 0x1f6d5ba5,
             0x4a8d64d5, 0x6494841b);
    r := RoundTo(INITIAL, FIRST, 4, r, 0x3956c25b, 0x65666768, 0xa4bccd32, 0x6ab5cfde, 0x419a5874, 0x0f2d5cc5,
             0xf921c212, 0x05c4f88a);
    r := RoundTo(INITIAL, FIRST, 5, r, 0x59f111f1, 0x66676869, 0xdb2bee7f, 0x6695841e, 0x29d7f26e, 0xdb254015,
             0x55c8ef48, 0x7ff91c94);
    r := RoundTo(INITIAL, FIRST, 6, r, 0x923f82a4, 0x6768696a, 0x3ffe516e, 0x05c4988b, 0x4c8db4c2, 0x5989e650,
             0x485835b7, 0x39a5b2ca);
    r := RoundTo(INITIAL, FIRST, 7, r, 0xab1c5ed5, 0x68696a6b, 0xa378c761, 0x3de15880, 0x1f7a928d, 0x5948e712,
             0xd237e6db, 0xa401d211);
  }

  lemma FirstRoundBits1()
    ensures BigSigma1(0xa401d211) == 0x044d8fa0 && Choose(0xa401d211, 0x39a5b2ca, 0x7ff91c94) == 0x7bf99e84
    ensures BigSigma0(0xd237e6db) == 0x1dc80741 && Majority(0xd237e6db, 0x485835b7, 0x55c8ef48) == 0x5058e7db
    ensures BigSigma1(0xc09ffec4) == 0x84650e64 && Choose(0xc09ffec4, 0xa401d211, 0x39a5b2ca) == 0xb921d20a
    ensures BigSigma0(0x359f2bce) == 0xafb95edc && Majority(0x359f2bce, 0xd237e6db, 0x485835b7) == 0x501f27df
    ensures BigSigma1(0x9037b3b8) == 0x8e8b0470 && Choose(0x9037b3b8, 0xc09ffec4, 0xa401d211) == 0xa417f281
    ensures BigSigma0(0x3a474b2b) == 0x8ae4ac19 && Majority(0x3a474b2b, 0x359f2bce, 0xd237e6db) == 0x32176bcb
    ensures BigSigma1(0x443ed29e) == 0x35b133b2 && Choose(0x443ed29e, 0x9037b3b8, 0xc09ffec4) == 0x80b7bed8
    ensures BigSigma0(0xb8e2b4cb) == 0xc2b644c4 && Majority(0xb8e2b4cb, 0x3a474b2b, 0x359f2bce) == 0x38c72bcb
    ensures BigSigma1(0xee1c97a8) == 0x58ee65bb && Choose(0xee1c97a8, 0x443ed29e, 0x9037b3b8) == 0x543fb298
    ensures BigSigma0(0x1762215c) == 0x87bd431b && Majority(0x1762215c, 0xb8e2b4cb, 0x3a474b2b) == 0x3a62214b
    ensures BigSigma1(0x839a0fc9) == 0x1239ffbf && Choose(0x839a0fc9, 0xee1c97a8, 0x443ed29e) == 0xc63cd79e
    ensures BigSigma0(0x101a4861) == 0x6e2f968a && Majority(0x101a4861, 0x1762215c, 0xb8e2b4cb) == 0x10622049
    ensures BigSigma1(0x9243f8af) == 0x8a471054 && Choose(0x9243f8af, 0x839a0fc9, 0xee1c97a8) == 0xee1e0f89
    ensures BigSigma0(0xd68e6457) == 0xee8c723c && Majority(0xd68e6457, 0x101a4861, 0x1762215c) == 0x160a6055
    ensures BigSigma1(0x9162aded) == 0xbaa1502a && Choose(0x9162aded, 0x9243f8af, 0x839a0fc9) == 0x92daaaad
    ensures BigSigma0(0xdd16cbb3) == 0xf1f5952e && Majority(0xdd16cbb3, 0xd68e6457, 0x101a4861) == 0xd41e4873
  {
  }

  lemma FirstRounds1() returns (r: Regs)
    ensures r == Regs(0xc3486194, 0xdd16cbb3, 0xd68e6457, 0x101a4861, 0x1496a54f, 0x9162aded, 0x9243f8af, 0x839a0fc9)
    ensures StateIs(INITIAL, FIRST, 16, r)
  {
    hide StateIs, WordIs, ConstantIs, BigSigma0, BigSigma1, Choose, Majority;
    r := FirstRounds0();
    Constants1();
    FirstRoundBits1();
    FirstWords0();
    r := RoundTo(INITIAL, FIRST, 8, r, 0xd807aa98, 0x696a6b6c, 0x044d8fa0, 0x7bf99e84, 0x1dc80741, 0x5058e7db,
             0x359f2bce, 0xc09ffec4);
    r := RoundTo(INITIAL, FIRST, 9, r, 0x12835b01, 0x6a6b6c6d, 0x84650e64, 0xb921d20a, 0xafb95edc, 0x501f27df,
             0x3a474b2b, 0x9037b3b8);
    r := RoundTo(INITIAL, FIRST, 10, r, 0x243185be, 0x6b6c6d6e, 0x8e8b0470, 0xa417f281, 0x8ae4ac19, 0x32176bcb,
             0xb8e2b4cb, 0x443ed29e);
    r := RoundTo(INITIAL, FIRST, 11, r, 0x550c7dc3, 0x6c6d6e6f, 0x35b133b2, 0x80b7bed8, 0xc2b644c4, 0x38c72bcb,
             0x1762215c, 0xee1c97a8);
    r := RoundTo(INITIAL, FIRST, 12, r, 0x72be5d74, 0x6d6e6f70, 0x58ee65bb, 0x543fb298, 0x87bd431b, 0x3a62214b,
             0x101a4861, 0x839a0fc9);
    r := RoundTo(INITIAL, FIRST, 13, r, 0x80deb1fe, 0x6e6f7071, 0x1239ffbf, 0xc63cd79e, 0x6e2f968a, 0x10622049,
             0xd68e6457, 0x9243f8af);
    r := RoundTo(INITIAL, FIRST, 14, r, 0x9bdc06a7, 0x80000000, 0x8a471054, 0xee1e0f89, 0xee8c723c, 0x160a6055,
             0xdd16cbb3, 0x9162aded);
    r := RoundTo(INITIAL, FIRST, 15, r, 0xc19bf174, 0x00000000, 0xbaa1502a, 0x92daaaad, 0xf1f5952e, 0xd41e4873,
             0xc3486194, 0x1496a54f);
  }

  lemma FirstRoundBits2()
    ensures BigSigma1(0x1496a54f) == 0xdee26fcb && Choose(0x1496a54f, 0x9162aded, 0x9243f8af) == 0x9243fded
    ensures BigSigma0(0xc3486194) == 0x1df2512b && Majority(0xc3486194, 0xdd16cbb3, 0xd68e6457) == 0xd70e6197
    ensures BigSigma1(0xd4f64250) == 0x72686fab && Choose(0xd4f64250, 0x1496a54f, 0x9162aded) == 0x1596aded
    ensures BigSigma0(0xb9dcacb1) == 0x7948232e && Majority(0xb9dcacb1, 0xc3486194, 0xdd16cbb3) == 0xd95ce9b1
    ensures BigSigma1(0x885370b6) == 0xe5481ce8 && Choose(0x885370b6, 0xd4f64250, 0x1496a54f) == 0x94d6c559
    ensures BigSigma0(0x046a193e) == 0xe08e5d0e && Majority(0x046a193e, 0xb9dcacb1, 0xc3486194) == 0x814829b4
    ensures BigSigma1(0x6f433549) == 0x2d0a4004 && Choose(0x6f433549, 0x885370b6, 0xd4f64250) == 0x98f77210
    ensures BigSigma0(0xf402f058) == 0xb4067fd1 && Majority(0xf402f058, 0x046a193e, 0xb9dcacb1) == 0xb44ab838
    ensures BigSigma1(0x7c304206) == 0x411e443e && Choose(0x7c304206, 0x6f433549, 0x885370b6) == 0xec4330b0
    ensures BigSigma0(0x2139187b) == 0xeff6a352 && Majority(0x2139187b, 0xf402f058, 0x046a193e) == 0x242a187a
    ensures BigSigma1(0x7cc6b262) == 0xa6e5b321 && Choose(0x7cc6b262, 0x7c304206, 0x6f433549) == 0x7f01070b
    ensures BigSigma0(0xd70ac17d) == 0x5529ff55 && Majority(0xd70ac17d, 0x2139187b, 0xf402f058) == 0xf50ad079
    ensures BigSigma1(0xd560b028) == 0x16173abc && Choose(0xd560b028, 0x7cc6b262, 0x7c304206) == 0x7c50f226
    ensures BigSigma0(0x1b2b66b8) == 0x9e90e099 && Majority(0x1b2b66b8, 0xd70ac17d, 0x2139187b) == 0x132b4079
    ensures BigSigma1(0xf074fc95) == 0xff019795 && Choose(0xf074fc95, 0xd560b028, 0x7cc6b262) == 0xdce2b262
    ensures BigSigma0(0xae2e2d4f) == 0x3943c49a && Majority(0xae2e2d4f, 0x1b2b66b8, 0xd70ac17d) == 0x9f2a657d
  {
  }

  lemma FirstRounds2() returns (r: Regs)
    ensures r == Regs(0x59fce6b9, 0xae2e2d4f, 0x1b2b66b8, 0xd70ac17d, 0xa2c7d51d, 0xf074fc95, 0xd560b028, 0x7cc6b262)
    ensures StateIs(INITIAL, FIRST, 24, r)
  {
    hide StateIs, WordIs, ConstantIs, BigSigma0, BigSigma1, Choose, Majority;
    r := FirstRounds1();
    Constants2();
    FirstRoundBits2();
    FirstWords1();
    r := RoundTo(INITIAL, FIRST, 16, r, 0xe49b69c1, 0xeb8012ad, 0xdee26fcb, 0x9243fded, 0x1df2512b, 0xd70e6197,
             0xb9dcacb1, 0xd4f64250);
    r := RoundTo(INITIAL, FIRST, 17, r, 0xefbe4786, 0xa7c3ae92, 0x72686fab, 0x1596aded, 0x7948232e, 0xd95ce9b1,
             0x046a193e, 0x885370b6);
    r := RoundTo(INITIAL, FIRST, 18, r, 0x0fc19dc6, 0x76e93ba2, 0xe5481ce8, 0x94d6c559, 0xe08e5d0e, 0x814829b4,
             0xf402f058, 0x6f433549);
    r := RoundTo(INITIAL, FIRST, 19, r, 0x240ca1cc, 0xba42e743, 0x2d0a4004, 0x98f77210, 0xb4067fd1, 0xb44ab838,
             0x2139187b, 0x7c304206);
    r := RoundTo(INITIAL, FIRST, 20, r, 0x2de92c6f, 0x92a92204, 0x411e443e, 0xec4330b0, 0xeff6a352, 0x242a187a,
             0xd70ac17d, 0x7cc6b262);
    r := RoundTo(INITIAL, FIRST, 21, r, 0x4a7484aa, 0xd847e75e, 0xa6e5b321, 0x7f01070b, 0x5529ff55, 0xf50ad079,
             0x1b2b66b8, 0xd560b028);
    r := RoundTo(INITIAL, FIRST, 22, r, 0x5cb0a9dc, 0x9e160036, 0x16173abc, 0x7c50f226, 0x9e90e099, 0x132b4079,
             0xae2e2d4f, 0xf074fc95);
    r := RoundTo(INITIAL, FIRST, 23, r, 0x76f988da, 0xb280a7cb, 0xff019795, 0xdce2b262, 0x3943c49a, 0x9f2a657d,
             0x59fce6b9, 0xa2c7d51d);
  }

  lemma FirstRoundBits3()
    ensures BigSigma1(0xa2c7d51d) == 0xb6d5c97f && Choose(0xa2c7d51d, 0xf074fc95, 0xd560b028) == 0xf564f435
    ensures BigSigma0(0x59fce6b9) == 0x902f132e && Majority(0x59fce6b9, 0xae2e2d4f, 0x1b2b66b8) == 0x1b2e66b9
    ensures BigSigma1(0x763597fb) == 0x087ded56 && Choose(0x763597fb, 0xa2c7d51d, 0xf074fc95) == 0xa245fd1d
    ensures BigSigma0(0x4a885065) == 0xf0c9d571 && Majority(0x4a885065, 0x59fce6b9, 0xae2e2d4f) == 0x4aac646d
    ensures BigSigma1(0x36e74eb4) == 0x75fa1bc8 && Choose(0x36e74eb4, 0x763597fb, 0xa2c7d51d) == 0xb62597b9
    ensures BigSigma0(0x573221da) == 0x539958bb && Majority(0x573221da, 0x4a885065, 0x59fce6b9) == 0x5bb860f9
    ensures BigSigma1(0x1162d575) == 0xcb8d1d87 && Choose(0x1162d575, 0x36e74eb4, 0x763597fb) == 0x767746be
    ensures BigSigma0(0x128661da) == 0x93f6640f && Majority(0x128661da, 0x573221da, 0x4a885065) == 0x528261da
    ensures BigSigma1(0xe77c797f) == 0x6e5da199 && Choose(0xe77c797f, 0x1162d575, 0x36e74eb4) == 0x11e357f5
    ensures BigSigma0(0x73f858af) == 0xf8e73426 && Majority(0x73f858af, 0x128661da, 0x573221da) == 0x53b261da
    ensures BigSigma1(0x72abaecd) == 0xb9b39d77 && Choose(0x72abaecd, 0xe77c797f, 0x1162d575) == 0x6368797d
    ensures BigSigma0(0x74bcf468) == 0x4dbd392f && Majority(0x74bcf468, 0x73f858af, 0x128661da) == 0x72bc70ea
    ensures BigSigma1(0x7629c961) == 0xbd12d2a7 && Choose(0x7629c961, 0x72abaecd, 0xe77c797f) == 0xf37db85f
    ensures BigSigma0(0xdf7151a0) == 0x7f9c2c9f && Majority(0xdf7151a0, 0x74bcf468, 0x73f858af) == 0x77f850a8
    ensures BigSigma1(0x0635d880) == 0x0af451da && Choose(0x0635d880, 0x7629c961, 0x72abaecd) == 0x76abee4d
    ensures BigSigma0(0xeb43f3ed) == 0xea701149 && Majority(0xeb43f3ed, 0xdf7151a0, 0x74bcf468) == 0xff71f1e8
  {
  }

  lemma FirstRounds3() returns (r: Regs)
    ensures r == Regs(0x5581ab07, 0xeb43f3ed, 0xdf7151a0, 0x74bcf468, 0xdf980085, 0x0635d880, 0x7629c961, 0x72abaecd)
    ensures StateIs(INITIAL, FIRST, 32, r)
  {
    hide StateIs, WordIs, ConstantIs, BigSigma0, BigSigma1, Choose, Majority;
    r := FirstRounds2();
    Constants3();
    FirstRoundBits3();
    FirstWords2();
    r := RoundTo(INITIAL, FIRST, 24, r, 0x983e5152, 0xddeb1516, 0xb6d5c97f, 0xf564f435, 0x902f132e, 0x1b2e66b9,
             0x4a885065, 0x763597fb);
    r := RoundTo(INITIAL, FIRST, 25, r, 0xa831c66d, 0xf36586f4, 0x087ded56, 0xa245fd1d, 0xf0c9d571, 0x4aac646d,
             0x573221da, 0x36e74eb4);
    r := RoundTo(INITIAL, FIRST, 26, r, 0xb00327c8, 0x969cd048, 0x75fa1bc8, 0xb62597b9, 0x539958bb, 0x5bb860f9,
             0x128661da, 0x1162d575);
    r := RoundTo(INITIAL, FIRST, 27, r, 0xbf597fc7, 0xe959d99d, 0xcb8d1d87, 0x767746be, 0x93f6640f, 0x528261da,
             0x73f858af, 0xe77c797f);
    r := RoundTo(INITIAL, FIRST, 28, r, 0xc6e00bf3, 0x6accc0ec, 0x6e5da199, 0x11e357f5, 0xf8e73426, 0x53b261da,
             0x74bcf468, 0x72abaecd);
    r := RoundTo(INITIAL, FIRST, 29, r, 0xd5a79147, 0xf54cb098, 0xb9b39d77, 0x6368797d, 0x4dbd392f, 0x72bc70ea,
             0xdf7151a0, 0x7629c961);
    r := RoundTo(INITIAL, FIRST, 30, r, 0x06ca6351, 0x2af1b2da, 0xbd12d2a7, 0xf37db85f, 0x7f9c2c9f, 0x77f850a8,
             0xeb43f3ed, 0x0635d880);
    r := RoundTo(INITIAL, FIRST, 31, r, 0x14292967, 0xee59c4c9, 0x0af451da, 0x76abee4d, 0xea701149, 0xff71f1e8,
             0x5581ab07, 0xdf980085);
  }

  lemma FirstRoundBits4()
    ensures BigSigma1(0xdf980085) == 0xcbc5d1ed && Choose(0xdf980085, 0x0635d880, 0x7629c961) == 0x2631c9e0
    ensures BigSigma0(0x5581ab07) == 0x8bf6db9a && Majority(0x5581ab07, 0xeb43f3ed, 0xdf7151a0) == 0xdf41f3a5
    ensures BigSigma1(0xa94d2af1) == 0x3e0565da && Choose(0xa94d2af1, 0xdf980085, 0x0635d880) == 0x8f38d081
    ensures BigSigma0(0x9fc905c8) == 0x2da19d45 && Majority(0x9fc905c8, 0x5581ab07, 0xeb43f3ed) == 0xdfc1a3cd
    ensures BigSigma1(0x6ef3b6bd) == 0x5bcd4e1b && Choose(0x6ef3b6bd, 0xa94d2af1, 0xdf980085) == 0xb94922b1
    ensures BigSigma0(0x9ce5a62f) == 0x40dd30d5 && Majority(0x9ce5a62f, 0x9fc905c8, 0x5581ab07) == 0x9dc1a70f
    ensures BigSigma1(0x2a9e048e) == 0xe66d6cc7 && Choose(0x2a9e048e, 0x6ef3b6bd, 0xa94d2af1) == 0xabd32efd
    ensures BigSigma0(0x1df8e885) == 0xe0f4c191 && Majority(0x1df8e885, 0x9ce5a62f, 0x9fc905c8) == 0x9de9a48d
    ensures BigSigma1(0xde2a21d1) == 0x6853852c && Choose(0xde2a21d1, 0x2a9e048e, 0x6ef3b6bd) == 0x2adb96ac
    ensures BigSigma0(0x0786dce8) == 0xfdd22b12 && Majority(0x0786dce8, 0x1df8e885, 0x9ce5a62f) == 0x1de4ecad
    ensures BigSigma1(0xb067c1af) == 0xb8d74426 && Choose(0xb067c1af, 0xde2a21d1, 0x2a9e048e) == 0x9aba0581
    ensures BigSigma0(0x2c55d3a6) == 0x416a8ef6 && Majority(0x2c55d3a6, 0x0786dce8, 0x1df8e885) == 0x0dd4d8a4
    ensures BigSigma1(0xf72bf353) == 0xb05be348 && Choose(0xf72bf353, 0xb067c1af, 0xde2a21d1) == 0xb823c183
    ensures BigSigma0(0xa985b4be) == 0x1946dba4 && Majority(0xa985b4be, 0x2c55d3a6, 0x0786dce8) == 0x2d85d4ae
    ensures BigSigma1(0x68d8d590) == 0x9fc4b078 && Choose(0x68d8d590, 0xf72bf353, 0xb067c1af) == 0xf02fd13f
    ensures BigSigma0(0x91ac9d5d) == 0x3cf2dc75 && Majority(0x91ac9d5d, 0xa985b4be, 0x2c55d3a6) == 0xa98595be
  {
  }

  lemma FirstRounds4() returns (r: Regs)
    ensures r == Regs(0x7e4d30b8, 0x91ac9d5d, 0xa985b4be, 0x2c55d3a6, 0x9f5b9b6d, 0x68d8d590, 0xf72bf353, 0xb067c1af)
    ensures StateIs(INITIAL, FIRST, 40, r)
  {
    hide StateIs, WordIs, ConstantIs, BigSigma0, BigSigma1, Choose, Majority;
    r := FirstRounds3();
    Constants4();
    FirstRoundBits4();
    FirstWords3();
    r := RoundTo(INITIAL, FIRST, 32, r, 0x27b70a85, 0xa835e16a, 0xcbc5d1ed, 0x2631c9e0, 0x8bf6db9a, 0xdf41f3a5,
             0x9fc905c8, 0xa94d2af1);
    r := RoundTo(INITIAL, FIRST, 33, r, 0x2e1b2138, 0x1dff4429, 0x3e0565da, 0x8f38d081, 0x2da19d45, 0xdfc1a3cd,
             0x9ce5a62f, 0x6ef3b6bd);
    r := RoundTo(INITIAL, FIRST, 34, r, 0x4d2c6dfc, 0xd6e15959, 0x5bcd4e1b, 0xb94922b1, 0x40dd30d5, 0x9dc1a70f,
             0x1df8e885, 0x2a9e048e);
    r := RoundTo(INITIAL, FIRST, 35, r, 0x53380d13, 0xc397cd6e, 0xe66d6cc7, 0xabd32efd, 0xe0f4c191, 0x9de9a48d,
             0x0786dce8, 0xde2a21d1);
    r := RoundTo(INITIAL, FIRST, 36, r, 0x650a7354, 0x6f1801ca, 0x6853852c, 0x2adb96ac, 0xfdd22b12, 0x1de4ecad,
             0x2c55d3a6, 0xb067c1af);
    r := RoundTo(INITIAL, FIRST, 37, r, 0x766a0abb, 0x21574205, 0xb8d74426, 0x9aba0581, 0x416a8ef6, 0x0dd4d8a4,
             0xa985b4be, 0xf72bf353);
    r := RoundTo(INITIAL, FIRST, 38, r, 0x81c2c92e, 0x35ff7a84, 0xb05be348, 0xb823c183, 0x1946dba4, 0x2d85d4ae,
             0x91ac9d5d, 0x68d8d590);
    r := RoundTo(INITIAL, FIRST, 39, r, 0x92722c85, 0x9743ee78, 0x9fc4b078, 0xf02fd13f, 0x3cf2dc75, 0xa98595be,
             0x7e4d30b8, 0x9f5b9b6d);
  }

  lemma FirstRoundBits5()
    ensures BigSigma1(0x9f5b9b6d) == 0x760333d1 && Choose(0x9f5b9b6d, 0x68d8d590, 0xf72bf353) == 0x6878f112
    ensures BigSigma0(0x7e4d30b8) == 0xae925fbe && Majority(0x7e4d30b8, 0x91ac9d5d, 0xa985b4be) == 0xb98db4bc
    ensures BigSigma1(0x423b26c0) == 0xc493cbde && Choose(0x423b26c0, 0x9f5b9b6d, 0x68d8d590) == 0x2adbd350
    ensures BigSigma0(0x7e056794) == 0x36bcf836 && Majority(0x7e056794, 0x7e4d30b8, 0x91ac9d5d) == 0x7e0d359c
    ensures BigSigma1(0x45459d97) == 0x4d337567 && Choose(0x45459d97, 0x423b26c0, 0x9f5b9b6d) == 0xda1b06e8
    ensures BigSigma0(0x508a16ab) == 0x4922acb8 && Majority(0x508a16ab, 0x7e056794, 0x7e4d30b8) == 0x7e0d36b8
    ensures BigSigma1(0x80a92a00) == 0x1687b1cd && Choose(0x80a92a00, 0x45459d97, 0x423b26c0) == 0x42130cc0
    ensures BigSigma0(0xb62c7013) == 0xdcd6e3bf && Majority(0xb62c7013, 0x508a16ab, 0x7e056794) == 0x760c7693
    ensures BigSigma1(0x41dd3844) == 0xf7136d66 && Choose(0x41dd3844, 0x80a92a00, 0x45459d97) == 0x0489ad93
    ensures BigSigma0(0x167361de) == 0x46eb13b5 && Majority(0x167361de, 0xb62c7013, 0x508a16ab) == 0x162a709b
    ensures BigSigma1(0xff61c636) == 0xadc1705f && Choose(0xff61c636, 0x41dd3844, 0x80a92a00) == 0x41c92804
    ensures BigSigma0(0xde71e2f2) == 0x6781404a && Majority(0xde71e2f2, 0x167361de, 0xb62c7013) == 0x967160d2
    ensures BigSigma1(0x6b88472c) == 0x9000c621 && Choose(0x6b88472c, 0xff61c636, 0x41dd3844) == 0x6b557e64
    ensures BigSigma0(0x18f0d19d) == 0x09928782 && Majority(0x18f0d19d, 0xde71e2f2, 0x167361de) == 0x1e71e1de
    ensures BigSigma1(0xa483f080) == 0x537edfee && Choose(0xa483f080, 0x6b88472c, 0xff61c636) == 0x7be04636
    ensures BigSigma0(0x165be9cd) == 0x64597cf5 && Majority(0x165be9cd, 0x18f0d19d, 0xde71e2f2) == 0x1e71e1dd
  {
  }

  lemma FirstRounds5() returns (r: Regs)
    ensures r == Regs(0x13d82741, 0x165be9cd, 0x18f0d19d, 0xde71e2f2, 0xa7802a4d, 0xa483f080, 0x6b88472c, 0xff61c636)
    ensures StateIs(INITIAL, FIRST, 48, r)
  {
    hide StateIs, WordIs, ConstantIs, BigSigma0, BigSigma1, Choose, Majority;
    r := FirstRounds4();
    Constants5();
    FirstRoundBits5();
    FirstWords4();
    r := RoundTo(INITIAL, FIRST, 40, r, 0xa2bfe8a1, 0xe44183e7, 0x760333d1, 0x6878f112, 0xae925fbe, 0xb98db4bc,
             0x7e056794, 0x423b26c0);
    r := RoundTo(INITIAL, FIRST, 41, r, 0xa81a664b, 0x0d09f00d, 0xc493cbde, 0x2adbd350, 0x36bcf836, 0x7e0d359c,
             0x508a16ab, 0x45459d97);
    r := RoundTo(INITIAL, FIRST, 42, r, 0xc24b8b70, 0x9c89af54, 0x4d337567, 0xda1b06e8, 0x4922acb8, 0x7e0d36b8,
             0xb62c7013, 0x80a92a00);
    r := RoundTo(INITIAL, FIRST, 43, r, 0xc76c51a3, 0x042d5bef, 0x1687b1cd, 0x42130cc0, 0xdcd6e3bf, 0x760c7693,
             0x167361de, 0x41dd3844);
    r := RoundTo(INITIAL, FIRST, 44, r, 0xd192e819, 0x71f134d0, 0xf7136d66, 0x0489ad93, 0x46eb13b5, 0x162a709b,
             0xde71e2f2, 0xff61c636);
    r := RoundTo(INITIAL, FIRST, 45, r, 0xd6990624, 0x0f94f463, 0xadc1705f, 0x41c92804, 0x6781404a, 0x967160d2,
             0x18f0d19d, 0x6b88472c);
    r := RoundTo(INITIAL, FIRST, 46, r, 0xf40e3585, 0x7e49dc63, 0x9000c621, 0x6b557e64, 0x09928782, 0x1e71e1de,
             0x165be9cd, 0xa483f080);
    r := RoundTo(INITIAL, FIRST, 47, r, 0x106aa070, 0x6f65c997, 0x537edfee, 0x7be04636, 0x64597cf5, 0x1e71e1dd,
             0x13d82741, 0xa7802a4d);
  }

  lemma FirstRoundBits6()
    ensures BigSigma1(0xa7802a4d) == 0xbf3fd67f && Choose(0xa7802a4d, 0xa483f080, 0x6b88472c) == 0xec886520
    ensures BigSigma0(0x13d82741) == 0x1e63935e && Majority(0x13d82741, 0x165be9cd, 0x18f0d19d) == 0x12d8e1cd
    ensures BigSigma1(0xaeb10b60) == 0xb62aa25b && Choose(0xaeb10b60, 0xa7802a4d, 0xa483f080) == 0xa682fac0
    ensures BigSigma0(0x017b9d99) == 0x42e088bf && Majority(0x017b9d99, 0x13d82741, 0x165be9cd) == 0x135badc9
    ensures BigSigma1(0x16f134b6) == 0x360341ff && Choose(0x16f134b6, 0xaeb10b60, 0xa7802a4d) == 0xa7b10a69
    ensures BigSigma0(0x543c99a1) == 0x6a6302dc && Majority(0x543c99a1, 0x017b9d99, 0x13d82741) == 0x11789d81
    ensures BigSigma1(0x100cf2ea) == 0xf37b475d && Choose(0x100cf2ea, 0x16f134b6, 0xaeb10b60) == 0xbeb139a2
    ensures BigSigma0(0x758ca97a) == 0xe4156fed && Majority(0x758ca97a, 0x543c99a1, 0x017b9d99) == 0x553c99b9
    ensures BigSigma1(0x5c47eb7b) == 0xa1ef2afe && Choose(0x5c47eb7b, 0x100cf2ea, 0x16f134b6) == 0x12b4f6ee
    ensures BigSigma0(0x81c1cde0) == 0x4843ff71 && Majority(0x81c1cde0, 0x758ca97a, 0x543c99a1) == 0x558c89e0
    ensures BigSigma1(0x1c806a61) == 0x8864a12a && Choose(0x1c806a61, 0x5c47eb7b, 0x100cf2ea) == 0x1c0cfaeb
    ensures BigSigma0(0xb8d55619) == 0x8ba0f5cf && Majority(0xb8d55619, 0x81c1cde0, 0x758ca97a) == 0xb1c5cd78
    ensures BigSigma1(0x3443bed4) == 0xab88ec96 && Choose(0x3443bed4, 0x1c806a61, 0x5c47eb7b) == 0x5c046b6b
    ensures BigSigma0(0x1d6de87a) == 0x732a7904 && Majority(0x1d6de87a, 0xb8d55619, 0x81c1cde0) == 0x99c5cc78
    ensures BigSigma1(0x61a41711) == 0x75a12c6e && Choose(0x61a41711, 0x3443bed4, 0x1c806a61) == 0x3c007e70
    ensures BigSigma0(0xf907b313) == 0x78126b1d && Majority(0xf907b313, 0x1d6de87a, 0xb8d55619) == 0xb945f21b
  {
  }

  lemma FirstRounds6() returns (r: Regs)
    ensures r == Regs(0x9e57c4a0, 0xf907b313, 0x1d6de87a, 0xb8d55619, 0xeec13548, 0x61a41711, 0x3443bed4, 0x1c806a61)
    ensures StateIs(INITIAL, FIRST, 56, r)
  {
    hide StateIs, WordIs, ConstantIs, BigSigma0, BigSigma1, Choose, Majority;
    r := FirstRounds5();
    Constants6();
    FirstRoundBits6();
    FirstWords5();
    r := RoundTo(INITIAL, FIRST, 48, r, 0x19a4c116, 0x0b706583, 0xbf3fd67f, 0xec886520, 0x1e63935e, 0x12d8e1cd,
             0x017b9d99, 0xaeb10b60);
    r := RoundTo(INITIAL, FIRST, 49, r, 0x1e376c08, 0x179312ca, 0xb62aa25b, 0xa682fac0, 0x42e088bf, 0x135badc9,
             0x543c99a1, 0x16f134b6);
    r := RoundTo(INITIAL, FIRST, 50, r, 0x2748774c, 0x503054e9, 0x360341ff, 0xa7b10a69, 0x6a6302dc, 0x11789d81,
             0x758ca97a, 0x100cf2ea);
    r := RoundTo(INITIAL, FIRST, 51, r, 0x34b0bcb5, 0xba125c39, 0xf37b475d, 0xbeb139a2, 0xe4156fed, 0x553c99b9,
             0x81c1cde0, 0x5c47eb7b);
    r := RoundTo(INITIAL, FIRST, 52, r, 0x391c0cb3, 0x7e9392c9, 0xa1ef2afe, 0x12b4f6ee, 0x4843ff71, 0x558c89e0,
             0xb8d55619, 0x1c806a61);
    r := RoundTo(INITIAL, FIRST, 53, r, 0x4ed8aa4a, 0xd5cbaa1e, 0x8864a12a, 0x1c0cfaeb, 0x8ba0f5cf, 0xb1c5cd78,
             0x1d6de87a, 0x3443bed4);
    r := RoundTo(INITIAL, FIRST, 54, r, 0x5b9cca4f, 0x78e0585d, 0xab88ec96, 0x5c046b6b, 0x732a7904, 0x99c5cc78,
             0xf907b313, 0x61a41711);
    r := RoundTo(INITIAL, FIRST, 55, r, 0x682e6ff3, 0xf6e7611c, 0x75a12c6e, 0x3c007e70, 0x78126b1d, 0xb945f21b,
             0x9e57c4a0, 0xeec13548);
  }

  lemma FirstRoundBits7()
    ensures BigSigma1(0xeec13548) == 0xea3c7884 && Choose(0xeec13548, 0x61a41711, 0x3443bed4) == 0x70829f94
    ensures BigSigma0(0x9e57c4a0) == 0x5d8381ef && Majority(0x9e57c4a0, 0xf907b313, 0x1d6de87a) == 0x9d47e032
    ensures BigSigma1(0x2f6c8c4e) == 0x073e78b7 && Choose(0x2f6c8c4e, 0xeec13548, 0x61a41711) == 0x6ec01759
    ensures BigSigma0(0x71629856) == 0xd48a74c4 && Majority(0x71629856, 0x9e57c4a0, 0xf907b313) == 0xf9479012
    ensures BigSigma1(0xcb9d3dd0) == 0x37a9ef35 && Choose(0xcb9d3dd0, 0x2f6c8c4e, 0xeec13548) == 0x2f4c0c48
    ensures BigSigma0(0x7c015a2c) == 0xcb0b0771 && Majority(0x7c015a2c, 0x71629856, 0x9e57c4a0) == 0x7c43d824
    ensures BigSigma1(0x43d8a034) == 0x3bd703b5 && Choose(0x43d8a034, 0xcb9d3dd0, 0x2f6c8c4e) == 0x6fbc2c5a
    ensures BigSigma0(0x921fccb6) == 0xbe01b99b && Majority(0x921fccb6, 0x7c015a2c, 0x71629856) == 0x7003d836
    ensures BigSigma1(0x51e15869) == 0x58c18de2 && Choose(0x51e15869, 0x43d8a034, 0xcb9d3dd0) == 0xcbdc25b0
    ensures BigSigma0(0xe18f259a) == 0xa822ae99 && Majority(0xe18f259a, 0x921fccb6, 0x7c015a2c) == 0xf00f4cbe
    ensures BigSigma1(0x962d8621) == 0x54a96363 && Choose(0x962d8621, 0x51e15869, 0x43d8a034) == 0x51f12035
    ensures BigSigma0(0xbcfce922) == 0x158e575c && Majority(0xbcfce922, 0xe18f259a, 0x921fccb6) == 0xb09fedb2
    ensures BigSigma1(0xacc75916) == 0x1bca0ed9 && Choose(0xacc75916, 0x962d8621, 0x51e15869) == 0xd5250069
    ensures BigSigma0(0xf6f443f8) == 0xf3754487 && Majority(0xf6f443f8, 0xbcfce922, 0xe18f259a) == 0xf4fc61ba
    ensures BigSigma1(0x2fc08f85) == 0x045d38b8 && Choose(0x2fc08f85, 0xacc75916, 0x962d8621) == 0xbced0924
    ensures BigSigma0(0x86126910) == 0x20a4e8cf && Majority(0x86126910, 0xf6f443f8, 0xbcfce922) == 0xb6f46930
  {
  }

  lemma FirstRounds7() returns (r: Regs)
    ensures r == Regs(0x1bdc6f6f, 0x86126910, 0xf6f443f8, 0xbcfce922, 0x25d2430a, 0x2fc08f85, 0xacc75916, 0x962d8621)
    ensures StateIs(INITIAL, FIRST, 64, r)
  {
    hide StateIs, WordIs, ConstantIs, BigSigma0, BigSigma1, Choose, Majority;
    r := FirstRounds6();
    Constants7();
    FirstRoundBits7();
    FirstWords6();
    r := RoundTo(INITIAL, FIRST, 56, r, 0x748f82ee, 0x8ac830ce, 0xea3c7884, 0x70829f94, 0x5d8381ef, 0x9d47e032,
             0x71629856, 0x2f6c8c4e);
    r := RoundTo(INITIAL, FIRST, 57, r, 0x78a5636f, 0x8b47a303, 0x073e78b7, 0x6ec01759, 0xd48a74c4, 0xf9479012,
             0x7c015a2c, 0xcb9d3dd0);
    r := RoundTo(INITIAL, FIRST, 58, r, 0x84c87814, 0xfd6e627f, 0x37a9ef35, 0x2f4c0c48, 0xcb0b0771, 0x7c43d824,
             0x921fccb6, 0x43d8a034);
    r := RoundTo(INITIAL, FIRST, 59, r, 0x8cc70208, 0x8c6e2c6a, 0x3bd703b5, 0x6fbc2c5a, 0xbe01b99b, 0x7003d836,
             0xe18f259a, 0x51e15869);
    r := RoundTo(INITIAL, FIRST, 60, r, 0x90befffa, 0x4001adf1, 0x58c18de2, 0xcbdc25b0, 0xa822ae99, 0xf00f4cbe,
             0xbcfce922, 0x962d8621);
    r := RoundTo(INITIAL, FIRST, 61, r, 0xa4506ceb, 0x1a3dd097, 0x54a96363, 0x51f12035, 0x158e575c, 0xb09fedb2,
             0xf6f443f8, 0xacc75916);
    r := RoundTo(INITIAL, FIRST, 62, r, 0xbef9a3f7, 0xa9df6f62, 0x1bca0ed9, 0xd5250069, 0xf3754487, 0xf4fc61ba,
             0x86126910, 0x2fc08f85);
    r := RoundTo(INITIAL, FIRST, 63, r, 0xc67178f2, 0x6aa60a39, 0x045d38b8, 0xbced0924, 0x20a4e8cf, 0xb6f46930,
             0x1bdc6f6f, 0x25d2430a);
  }

  lemma SecondBlockWords0()
    ensures WordIs(SECOND, 0, 0x00000000)
    ensures WordIs(SECOND, 1, 0x00000000)
    ensures WordIs(SECOND, 2, 0x00000000)
    ensures WordIs(SECOND, 3, 0x00000000)
  {
    hide WordIs;
    BlockWordIs(SECOND, 0, 0x00, 0x00, 0x00, 0x00, 0x00000000);
    BlockWordIs(SECOND, 1, 0x00, 0x00, 0x00, 0x00, 0x00000000);
    BlockWordIs(SECOND, 2, 0x00, 0x00, 0x00, 0x00, 0x00000000);
    BlockWordIs(SECOND, 3, 0x00, 0x00, 0x00, 0x00, 0x00000000);
  }

  lemma SecondBlockWords1()
    ensures WordIs(SECOND, 4, 0x00000000)
    ensures WordIs(SECOND, 5, 0x00000000)
    ensures WordIs(SECOND, 6, 0x00000000)
    ensures WordIs(SECOND, 7, 0x00000000)
  {
    hide WordIs;
    BlockWordIs(SECOND, 4, 0x00, 0x00, 0x00, 0x00, 0x00000000);
    BlockWordIs(SECOND, 5, 0x00, 0x00, 0x00, 0x00, 0x00000000);
    BlockWordIs(SECOND, 6, 0x00, 0x00, 0x00, 0x00, 0x00000000);
    BlockWordIs(SECOND, 7, 0x00, 0x00, 0x00, 0x00, 0x00000000);
  }

  lemma SecondBlockWords2()
    ensures WordIs(SECOND, 8, 0x00000000)
    ensures WordIs(SECOND, 9, 0x00000000)
    ensures WordIs(SECOND, 10, 0x00000000)
    ensures WordIs(SECOND, 11, 0x00000000)
  {
    hide WordIs;
    BlockWordIs(SECOND, 8, 0x00, 0x00, 0x00, 0x00, 0x00000000);
    BlockWordIs(SECOND, 9, 0x00, 0x00, 0x00, 0x00, 0x00000000);
    BlockWordIs(SECOND, 10, 0x00, 0x00, 0x00, 0x00, 0x00000000);
    BlockWordIs(SECOND, 11, 0x00, 0x00, 0x00, 0x00, 0x00000000);
  }

  lemma SecondBlockWords3()
    ensures WordIs(SECOND, 12, 0x00000000)
    ensures WordIs(SECOND, 13, 0x00000000)
    ensures WordIs(SECOND, 14, 0x00000000)
    ensures WordIs(SECOND, 15, 0x000001c0)
  {
    hide WordIs;
    BlockWordIs(SECOND, 12, 0x00, 0x00, 0x00, 0x00, 0x00000000);
    BlockWordIs(SECOND, 13, 0x00, 0x00, 0x00, 0x00, 0x00000000);
    BlockWordIs(SECOND, 14, 0x00, 0x00, 0x00, 0x00, 0x00000000);
    BlockWordIs(SECOND, 15, 0x00, 0x00, 0x01, 0xc0, 0x000001c0);
  }

  lemma SecondWords0()
    ensures WordIs(SECOND, 0, 0x00000000)
    ensures WordIs(SECOND, 1, 0x00000000)
    ensures WordIs(SECOND, 2, 0x00000000)
    ensures WordIs(SECOND, 3, 0x00000000)
    ensures WordIs(SECOND, 4, 0x00000000)
    ensures WordIs(SECOND, 5, 0x00000000)
    ensures WordIs(SECOND, 6, 0x00000000)
    ensures WordIs(SECOND, 7, 0x00000000)
    ensures WordIs(SECOND, 8, 0x00000000)
    ensures WordIs(SECOND, 9, 0x00000000)
    ensures WordIs(SECOND, 10, 0x00000000)
    ensures WordIs(SECOND, 11, 0x00000000)
    ensures WordIs(SECOND, 12, 0x00000000)
    ensures WordIs(SECOND, 13, 0x00000000)
    ensures WordIs(SECOND, 14, 0x00000000)
    ensures WordIs(SECOND, 15, 0x000001c0)
  {
    hide WordIs;
    SecondBlockWords0();
    SecondBlockWords1();
    SecondBlockWords2();
    SecondBlockWords3();
  }

  lemma SecondWordBits1()
    ensures SmallSigma1(0x00000000) == 0x00000000 && SmallSigma0(0x00000000) == 0x00000000
    ensures SmallSigma1(0x000001c0) == 0x00d80000 && SmallSigma0(0x00000000) == 0x00000000
    ensures SmallSigma1(0x00000000) == 0x00000000 && SmallSigma0(0x00000000) == 0x00000000
    ensures SmallSigma1(0x00d80000) == 0x00003677 && SmallSigma0(0x00000000) == 0x00000000
    ensures SmallSigma1(0x00000000) == 0x00000000 && SmallSigma0(0x00000000) == 0x00000000
    ensures SmallSigma1(0x00003677) == 0x1df5600d && SmallSigma0(0x00000000) == 0x00000000
    ensures SmallSigma1(0x00000000) == 0x00000000 && SmallSigma0(0x00000000) == 0x00000000
    ensures SmallSigma1(0x1df5600d) == 0x1c00501c && SmallSigma0(0x00000000) == 0x00000000
  {
  }

  lemma SecondWords1()
    ensures WordIs(SECOND, 16, 0x00000000)
    ensures WordIs(SECOND, 17, 0x00d80000)
    ensures WordIs(SECOND, 18, 0x00000000)
    ensures WordIs(SECOND, 19, 0x00003677)
    ensures WordIs(SECOND, 20, 0x00000000)
    ensures WordIs(SECOND, 21, 0x1df5600d)
    ensures WordIs(SECOND, 22, 0x000001c0)
    ensures WordIs(SECOND, 23, 0x1c00501c)
  {
    hide WordIs, SmallSigma0, SmallSigma1;
    SecondWordBits1();
    SecondWords0();
    WordTo(SECOND, 16, 0x00000000, 0x00000000, 0x00000000, 0x00000000, 0x00000000, 0x00000000, 0x00000000);
    WordTo(SECOND, 17, 0x000001c0, 0x00000000, 0x00000000, 0x00000000, 0x00d80000, 0x00000000, 0x00d80000);
    WordTo(SECOND, 18, 0x00000000, 0x00000000, 0x00000000, 0x00000000, 0x00000000, 0x00000000, 0x00000000);
    WordTo(SECOND, 19, 0x00d80000, 0x00000000, 0x00000000, 0x00000000, 0x00003677, 0x00000000, 0x00003677);
    WordTo(SECOND, 20, 0x00000000, 0x00000000, 0x00000000, 0x00000000, 0x00000000, 0x00000000, 0x00000000);
    WordTo(SECOND, 21, 0x00003677, 0x00000000, 0x00000000, 0x00000000, 0x1df5600d, 0x00000000, 0x1df5600d);
    WordTo(SECOND, 22, 0x00000000, 0x000001c0, 0x00000000, 0x00000000, 0x00000000, 0x00000000, 0x000001c0);
    WordTo(SECOND, 23, 0x1df5600d, 0x00000000, 0x00000000, 0x00000000, 0x1c00501c, 0x00000000, 0x1c00501c);
  }

  lemma SecondWordBits2()
    ensures SmallSigma1(0x000001c0) == 0x00d80000 && SmallSigma0(0x00000000) == 0x00000000
    ensures SmallSigma1(0x1c00501c) == 0x220a8d94 && SmallSigma0(0x00000000) == 0x00000000
    ensures SmallSigma1(0x01b00000) == 0x00006cee && SmallSigma0(0x00000000) == 0x00000000
    ensures SmallSigma1(0x220a8d94) == 0x177017e7 && SmallSigma0(0x00000000) == 0x00000000
    ensures SmallSigma1(0x0000a365) == 0x45de2028 && SmallSigma0(0x00000000) == 0x00000000
    ensures SmallSigma1(0x177017e7) == 0x090ab553 && SmallSigma0(0x00000000) == 0x00000000
    ensures SmallSigma1(0x63d38035) == 0xb004e973 && SmallSigma0(0x000001c0) == 0x8070003b
    ensures SmallSigma1(0x090ab713) == 0x0d69a709 && SmallSigma0(0x00000000) == 0x00000000
  {
  }

  lemma SecondWords2()
    ensures WordIs(SECOND, 24, 0x01b00000)
    ensures WordIs(SECOND, 25, 0x220a8d94)
    ensures WordIs(SECOND, 26, 0x0000a365)
    ensures WordIs(SECOND, 27, 0x177017e7)
    ensures WordIs(SECOND, 28, 0x63d38035)
    ensures WordIs(SECOND, 29, 0x090ab713)
    ensures WordIs(SECOND, 30, 0x4c7539ca)
    ensures WordIs(SECOND, 31, 0x0f19a8c9)
  {
    hide WordIs, SmallSigma0, SmallSigma1;
    SecondWordBits2();
    SecondWords0();
    SecondWords1();
    WordTo(SECOND, 24, 0x000001c0, 0x00d80000, 0x00000000, 0x00000000, 0x00d80000, 0x00000000, 0x01b00000);
    WordTo(SECOND, 25, 0x1c00501c, 0x00000000, 0x00000000, 0x00000000, 0x220a8d94, 0x00000000, 0x220a8d94);
    WordTo(SECOND, 26, 0x01b00000, 0x00003677, 0x00000000, 0x00000000, 0x00006cee, 0x00000000, 0x0000a365);
    WordTo(SECOND, 27, 0x220a8d94, 0x00000000, 0x00000000, 0x00000000, 0x177017e7, 0x00000000, 0x177017e7);
    WordTo(SECOND, 28, 0x0000a365, 0x1df5600d, 0x00000000, 0x00000000, 0x45de2028, 0x00000000, 0x63d38035);
    WordTo(SECOND, 29, 0x177017e7, 0x000001c0, 0x00000000, 0x00000000, 0x090ab553, 0x00000000, 0x090ab713);
    WordTo(SECOND, 30, 0x63d38035, 0x1c00501c, 0x000001c0, 0x00000000, 0xb004e973, 0x8070003b, 0x4c7539ca);
    WordTo(SECOND, 31, 0x090ab713, 0x01b00000, 0x00000000, 0x000001c0, 0x0d69a709, 0x00000000, 0x0f19a8c9);
  }

  lemma SecondWordBits3()
    ensures SmallSigma1(0x4c7539ca) == 0x3bcf72fa && SmallSigma0(0x00d80000) == 0x001ab036
    ensures SmallSigma1(0x0f19a8c9) == 0xe17e6005 && SmallSigma0(0x00000000) == 0x00000000
    ensures SmallSigma1(0x5df4b0c4) == 0xce6dd868 && SmallSigma0(0x00003677) == 0xe39dc6a2
    ensures SmallSigma1(0xe257036a) == 0x61e0b8a1 && SmallSigma0(0x00000000) == 0x00000000
    ensures SmallSigma1(0xc97bb6f1) == 0xad94837f && SmallSigma0(0x1df5600d) == 0x418601bc
    ensures SmallSigma1(0xc5b46f4d) == 0xba7e3777 && SmallSigma0(0x000001c0) == 0x8070003b
    ensures SmallSigma1(0xf8253c4e) == 0x3990aa59 && SmallSigma0(0x1c00501c) == 0x2fbf0da3
    ensures SmallSigma1(0xa558d189) == 0x72dcb033 && SmallSigma0(0x01b00000) == 0x0035606c
  {
  }

  lemma SecondWords3()
    ensures WordIs(SECOND, 32, 0x5df4b0c4)
    ensures WordIs(SECOND, 33, 0xe257036a)
    ensures WordIs(SECOND, 34, 0xc97bb6f1)
    ensures WordIs(SECOND, 35, 0xc5b46f4d)
    ensures WordIs(SECOND, 36, 0xf8253c4e)
    ensures WordIs(SECOND, 37, 0xa558d189)
    ensures WordIs(SECOND, 38, 0x78696285)
    ensures WordIs(SECOND, 39, 0xed07117f)
  {
    hide WordIs, SmallSigma0, SmallSigma1;
    SecondWordBits3();
    SecondWords1();
    SecondWords2();
    WordTo(SECOND, 32, 0x4c7539ca, 0x220a8d94, 0x00d80000, 0x00000000, 0x3bcf72fa, 0x001ab036, 0x5df4b0c4);
    WordTo(SECOND, 33, 0x0f19a8c9, 0x0000a365, 0x00000000, 0x00d80000, 0xe17e6005, 0x00000000, 0xe257036a);
    WordTo(SECOND, 34, 0x5df4b0c4, 0x177017e7, 0x00003677, 0x00000000, 0xce6dd868, 0xe39dc6a2, 0xc97bb6f1);
    WordTo(SECOND, 35, 0xe257036a, 0x63d38035, 0x00000000, 0x00003677, 0x61e0b8a1, 0x00000000, 0xc5b46f4d);
    WordTo(SECOND, 36, 0xc97bb6f1, 0x090ab713, 0x1df5600d, 0x00000000, 0xad94837f, 0x418601bc, 0xf8253c4e);
    WordTo(SECOND, 37, 0xc5b46f4d, 0x4c7539ca, 0x000001c0, 0x1df5600d, 0xba7e3777, 0x8070003b, 0xa558d189);
    WordTo(SECOND, 38, 0xf8253c4e, 0x0f19a8c9, 0x1c00501c, 0x000001c0, 0x3990aa59, 0x2fbf0da3, 0x78696285);
    WordTo(SECOND, 39, 0xa558d189, 0x5df4b0c4, 0x01b00000, 0x1c00501c, 0x72dcb033, 0x0035606c, 0xed07117f);
  }

  lemma SecondWordBits4()
    ensures SmallSigma1(0x78696285) == 0x9d0c0961 && SmallSigma0(0x220a8d94) == 0x8f604c2b
    ensures SmallSigma1(0xed07117f) == 0x6aab4ae7 && SmallSigma0(0x0000a365) == 0xe2d9552a
    ensures SmallSigma1(0x107358f6) == 0xc761d6e1 && SmallSigma0(0x177017e7) == 0xc939270f
    ensures SmallSigma1(0x390ae496) == 0x2ed7991d && SmallSigma0(0x63d38035) == 0x86b08ff2
    ensures SmallSigma1(0x565010a2) == 0x0a50f5e6 && SmallSigma0(0x090ab713) == 0x8af781ce
    ensures SmallSigma1(0xc51d7d44) == 0x113bbd72 && SmallSigma0(0x4c7539ca) == 0xd364de57
    ensures SmallSigma1(0x9e74c972) == 0xfdb081c6 && SmallSigma0(0x0f19a8c9) == 0xf9cf458e
    ensures SmallSigma1(0x6614b561) == 0xcc051ae5 && SmallSigma0(0x5df4b0c4) == 0xaf346804
  {
  }

  lemma SecondWords4()
    ensures WordIs(SECOND, 40, 0x107358f6)
    ensures WordIs(SECOND, 41, 0x390ae496)
    ensures WordIs(SECOND, 42, 0x565010a2)
    ensures WordIs(SECOND, 43, 0xc51d7d44)
    ensures WordIs(SECOND, 44, 0x9e74c972)
    ensures WordIs(SECOND, 45, 0x6614b561)
    ensures WordIs(SECOND, 46, 0x30fc129d)
    ensures WordIs(SECOND, 47, 0x9ac684a8)
  {
    hide WordIs, SmallSigma0, SmallSigma1;
    SecondWordBits4();
    SecondWords2();
    SecondWords3();
    WordTo(SECOND, 40, 0x78696285, 0xe257036a, 0x220a8d94, 0x01b00000, 0x9d0c0961, 0x8f604c2b, 0x107358f6);
    WordTo(SECOND, 41, 0xed07117f, 0xc97bb6f1, 0x0000a365, 0x220a8d94, 0x6aab4ae7, 0xe2d9552a, 0x390ae496);
    WordTo(SECOND, 42, 0x107358f6, 0xc5b46f4d, 0x177017e7, 0x0000a365, 0xc761d6e1, 0xc939270f, 0x565010a2);
    WordTo(SECOND, 43, 0x390ae496, 0xf8253c4e, 0x63d38035, 0x177017e7, 0x2ed7991d, 0x86b08ff2, 0xc51d7d44);
    WordTo(SECOND, 44, 0x565010a2, 0xa558d189, 0x090ab713, 0x63d38035, 0x0a50f5e6, 0x8af781ce, 0x9e74c972);
    WordTo(SECOND, 45, 0xc51d7d44, 0x78696285, 0x4c7539ca, 0x090ab713, 0x113bbd72, 0xd364de57, 0x6614b561);
    WordTo(SECOND, 46, 0x9e74c972, 0xed07117f, 0x0f19a8c9, 0x4c7539ca, 0xfdb081c6, 0xf9cf458e, 0x30fc129d);
    WordTo(SECOND, 47, 0x6614b561, 0x107358f6, 0x5df4b0c4, 0x0f19a8c9, 0xcc051ae5, 0xaf346804, 0x9ac684a8);
  }

  lemma SecondWordBits5()
    ensures SmallSigma1(0x30fc129d) == 0x8b110165 && SmallSigma0(0xe257036a) == 0x0954f6fe
    ensures SmallSigma1(0x9ac684a8) == 0x92e7ef9a && SmallSigma0(0xc97bb6f1) == 0x1701f3ed
    ensures SmallSigma1(0x2b658dbd) == 0x7763e9bd && SmallSigma0(0xc5b46f4d) == 0x98ee945a
    ensures SmallSigma1(0xe290f793) == 0x65032927 && SmallSigma0(0xf8253c4e) == 0xcde753f8
    ensures SmallSigma1(0x9eebb24c) == 0xaf486644 && SmallSigma0(0xa558d189) == 0x3383c2c4
    ensures SmallSigma1(0x9713b5de) == 0xac715d86 && SmallSigma0(0x78696285) == 0x5d5ca08f
    ensures SmallSigma1(0x41061ab7) == 0xce1d0925 && SmallSigma0(0xed07117f) == 0x2625174c
    ensures SmallSigma1(0xe022e23b) == 0x2d6284ad && SmallSigma0(0x107358f6) == 0x381309b3
  {
  }

  lemma SecondWords5()
    ensures WordIs(SECOND, 48, 0x2b658dbd)
    ensures WordIs(SECOND, 49, 0xe290f793)
    ensures WordIs(SECOND, 50, 0x9eebb24c)
    ensures WordIs(SECOND, 51, 0x9713b5de)
    ensures WordIs(SECOND, 52, 0x41061ab7)
    ensures WordIs(SECOND, 53, 0xe022e23b)
    ensures WordIs(SECOND, 54, 0x0772079e)
    ensures WordIs(SECOND, 55, 0x7de22d9c)
  {
    hide WordIs, SmallSigma0, SmallSigma1;
    SecondWordBits5();
    SecondWords3();
    SecondWords4();
    WordTo(SECOND, 48, 0x30fc129d, 0x390ae496, 0xe257036a, 0x5df4b0c4, 0x8b110165, 0x0954f6fe, 0x2b658dbd);
    WordTo(SECOND, 49, 0x9ac684a8, 0x565010a2, 0xc97bb6f1, 0xe257036a, 0x92e7ef9a, 0x1701f3ed, 0xe290f793);
    WordTo(SECOND, 50, 0x2b658dbd, 0xc51d7d44, 0xc5b46f4d, 0xc97bb6f1, 0x7763e9bd, 0x98ee945a, 0x9eebb24c);
    WordTo(SECOND, 51, 0xe290f793, 0x9e74c972, 0xf8253c4e, 0xc5b46f4d, 0x65032927, 0xcde753f8, 0x9713b5de);
    WordTo(SECOND, 52, 0x9eebb24c, 0x6614b561, 0xa558d189, 0xf8253c4e, 0xaf486644, 0x3383c2c4, 0x41061ab7);
    WordTo(SECOND, 53, 0x9713b5de, 0x30fc129d, 0x78696285, 0xa558d189, 0xac715d86, 0x5d5ca08f, 0xe022e23b);
    WordTo(SECOND, 54, 0x41061ab7, 0x9ac684a8, 0xed07117f, 0x78696285, 0xce1d0925, 0x2625174c, 0x0772079e);
    WordTo(SECOND, 55, 0xe022e23b, 0x2b658dbd, 0x107358f6, 0xed07117f, 0x2d6284ad, 0x381309b3, 0x7de22d9c);
  }

  lemma SecondWordBits6()
    ensures SmallSigma1(0x0772079e) == 0x433d1fd6 && SmallSigma0(0x390ae496) == 0x9276c719
    ensures SmallSigma1(0x7de22d9c) == 0x5362c9c6 && SmallSigma0(0x565010a2) == 0x4a4e37a1
    ensures SmallSigma1(0xc8b83778) == 0x1d615346 && SmallSigma0(0xc51d7d44) == 0xce78a415
    ensures SmallSigma1(0x75a79849) == 0x3f30fd81 && SmallSigma0(0x9e74c972) == 0xc4aed721
    ensures SmallSigma1(0xd93dbddb) == 0x6960d8d6 && SmallSigma0(0x6614b561) == 0xe356e643
    ensures SmallSigma1(0x0a036c9d) == 0xdbdfa49a && SmallSigma0(0x30fc129d) == 0x38d93649
    ensures SmallSigma1(0xcb4f6ac6) == 0x58096f14 && SmallSigma0(0x9ac684a8) == 0xe3477b2d
    ensures SmallSigma1(0x823f97e2) == 0x392d9ebd && SmallSigma0(0x2b658dbd) == 0x1c553075
  {
  }

  lemma SecondWords6()
    ensures WordIs(SECOND, 56, 0xc8b83778)
    ensures WordIs(SECOND, 57, 0x75a79849)
    ensures WordIs(SECOND, 58, 0xd93dbddb)
    ensures WordIs(SECOND, 59, 0x0a036c9d)
    ensures WordIs(SECOND, 60, 0xcb4f6ac6)
    ensures WordIs(SECOND, 61, 0x823f97e2)
    ensures WordIs(SECOND, 62, 0xea2f2a7a)
    ensures WordIs(SECOND, 63, 0xb9018b52)
  {
    hide WordIs, SmallSigma0, SmallSigma1;
    SecondWordBits6();
    SecondWords4();
    SecondWords5();
    WordTo(SECOND, 56, 0x0772079e, 0xe290f793, 0x390ae496, 0x107358f6, 0x433d1fd6, 0x9276c719, 0xc8b83778);
    WordTo(SECOND, 57, 0x7de22d9c, 0x9eebb24c, 0x565010a2, 0x390ae496, 0x5362c9c6, 0x4a4e37a1, 0x75a79849);
    WordTo(SECOND, 58, 0xc8b83778, 0x9713b5de, 0xc51d7d44, 0x565010a2, 0x1d615346, 0xce78a415, 0xd93dbddb);
    WordTo(SECOND, 59, 0x75a79849, 0x41061ab7, 0x9e74c972, 0xc51d7d44, 0x3f30fd81, 0xc4aed721, 0x0a036c9d);
    WordTo(SECOND, 60, 0xd93dbddb, 0xe022e23b, 0x6614b561, 0x9e74c972, 0x6960d8d6, 0xe356e643, 0xcb4f6ac6);
    WordTo(SECOND, 61, 0x0a036c9d, 0x0772079e, 0x30fc129d, 0x6614b561, 0xdbdfa49a, 0x38d93649, 0x823f97e2);
    WordTo(SECOND, 62, 0xcb4f6ac6, 0x7de22d9c, 0x9ac684a8, 0x30fc129d, 0x58096f14, 0xe3477b2d, 0xea2f2a7a);
    WordTo(SECOND, 63, 0x823f97e2, 0xc8b83778, 0x2b658dbd, 0x9ac684a8, 0x392d9ebd, 0x1c553075, 0xb9018b52);
  }

  lemma SecondRoundBits0()
    ensures BigSigma1(0x76e09589) == 0xe4bf9aff && Choose(0x76e09589, 0xcac5f811, 0xcc4b32c1) == 0xcacbb241
    ensures BigSigma0(0x85e655d6) == 0x969ae050 && Majority(0x85e655d6, 0x417a1795, 0x3363376a) == 0x016217d6
    ensures BigSigma1(0x4670ae6e) == 0x4c863b8f && Choose(0x4670ae6e, 0x76e09589, 0xcac5f811) == 0xcee5d419
    ensures BigSigma0(0x7c20c838) == 0xddeb32f8 && Majority(0x7c20c838, 0x85e655d6, 0x417a1795) == 0x45625594
    ensures BigSigma1(0x8c51be64) == 0x767ffe88 && Choose(0x8c51be64, 0x4670ae6e, 0x76e09589) == 0x76f0afed
    ensures BigSigma0(0x7c3c0f86) == 0x1302fbf1 && Majority(0x7c3c0f86, 0x7c20c838, 0x85e655d6) == 0x7c244d96
    ensures BigSigma1(0xaf71b9ea) == 0x2f34dd87 && Choose(0xaf71b9ea, 0x8c51be64, 0x4670ae6e) == 0xcc51be64
    ensures BigSigma0(0xfd1eebdc) == 0x1a0f21f4 && Majority(0xfd1eebdc, 0x7c3c0f86, 0x7c20c838) == 0x7c3ccb9c
    ensures BigSigma1(0xe20362ef) == 0xe3c53a16 && Choose(0xe20362ef, 0xaf71b9ea, 0x8c51be64) == 0xae51bcea
    ensures BigSigma0(0xf268faa9) == 0x0a3f0a24 && Majority(0xf268faa9, 0xfd1eebdc, 0x7c3c0f86) == 0xfc3ceb8c
    ensures BigSigma1(0x8dff3001) == 0xf99e43e0 && Choose(0x8dff3001, 0xe20362ef, 0xaf71b9ea) == 0xa203a9eb
    ensures BigSigma0(0x185a5d79) == 0xc4abb1ed && Majority(0x185a5d79, 0xf268faa9, 0xfd1eebdc) == 0xf85afbf9
    ensures BigSigma1(0xfe20cda6) == 0x3f419450 && Choose(0xfe20cda6, 0x8dff3001, 0xe20362ef) == 0x8c232249
    ensures BigSigma0(0x3eeb6c06) == 0x423b34a1 && Majority(0x3eeb6c06, 0x185a5d79, 0xf268faa9) == 0x3a6a7c29
    ensures BigSigma1(0x0a34df03) == 0xf6261462 && Choose(0x0a34df03, 0xfe20cda6, 0x8dff3001) == 0x8febed02
    ensures BigSigma0(0x89bba3f1) == 0x936d6307 && Majority(0x89bba3f1, 0x3eeb6c06, 0x185a5d79) == 0x18fb6d71
  {
  }

  lemma SecondRounds0() returns (r: Regs)
    ensures r == Regs(0xbf9a93a0, 0x89bba3f1, 0x3eeb6c06, 0x185a5d79, 0x059abdd1, 0x0a34df03, 0xfe20cda6, 0x8dff3001)
    ensures StateIs(MIDDLE, SECOND, 8, r)
  {
    hide StateIs, WordIs, ConstantIs, BigSigma0, BigSigma1, Choose, Majority;
    r := MIDDLE;
    NoRounds(MIDDLE, SECOND);
    Constants0();
    SecondRoundBits0();
    SecondWords0();
    r := RoundTo(MIDDLE, SECOND, 0, r, 0x428a2f98, 0x00000000, 0xe4bf9aff, 0xcacbb241, 0x969ae050, 0x016217d6,
             0x7c20c838, 0x4670ae6e);
    r := RoundTo(MIDDLE, SECOND, 1, r, 0x71374491, 0x00000000, 0x4c863b8f, 0xcee5d419, 0xddeb32f8, 0x45625594,
             0x7c3c0f86, 0x8c51be64);
    r := RoundTo(MIDDLE, SECOND, 2, r, 0xb5c0fbcf, 0x00000000, 0x767ffe88, 0x76f0afed, 0x1302fbf1, 0x7c244d96,
             0xfd1eebdc, 0xaf71b9ea);
    r := RoundTo(MIDDLE, SECOND, 3, r, 0xe9b5dba5, 0x00000000, 0x2f34dd87, 0xcc51be64, 0x1a0f21f4, 0x7c3ccb9c,
             0xf268faa9, 0xe20362ef);
    r := RoundTo(MIDDLE, SECOND, 4, r, 0x3956c25b, 0x00000000, 0xe3c53a16, 0xae51bcea, 0x0a3f0a24, 0xfc3ceb8c,
             0x185a5d79, 0x8dff3001);
    r := RoundTo(MIDDLE, SECOND, 5, r, 0x59f111f1, 0x00000000, 0xf99e43e0, 0xa203a9eb, 0xc4abb1ed, 0xf85afbf9,
             0x3eeb6c06, 0xfe20cda6);
    r := RoundTo(MIDDLE, SECOND, 6, r, 0x923f82a4, 0x00000000, 0x3f419450, 0x8c232249, 0x423b34a1, 0x3a6a7c29,
             0x89bba3f1, 0x0a34df03);
    r := RoundTo(MIDDLE, SECOND, 7, r, 0xab1c5ed5, 0x00000000, 0xf6261462, 0x8febed02, 0x936d6307, 0x18fb6d71,
             0xbf9a93a0, 0x059abdd1);
  }

  lemma SecondRoundBits1()
    ensures BigSigma1(0x059abdd1) == 0x33683122 && Choose(0x059abdd1, 0x0a34df03, 0xfe20cda6) == 0xfa30dd27
    ensures BigSigma0(0xbf9a93a0) == 0xd8addac2 && Majority(0xbf9a93a0, 0x89bba3f1, 0x3eeb6c06) == 0xbfbba3a0
    ensures BigSigma1(0xabfa465b) == 0x58f9bb84 && Choose(0xabfa465b, 0x059abdd1, 0x0a34df03) == 0x019e9d51
    ensures BigSigma0(0x2c096744) == 0x14be292a && Majority(0x2c096744, 0xbf9a93a0, 0x89bba3f1) == 0xad9ba3e0
    ensures BigSigma1(0xaa27ed82) == 0xa90b1a1e && Choose(0xaa27ed82, 0xabfa465b, 0x059abdd1) == 0xafba5453
    ensures BigSigma0(0x2d964e86) == 0xa66ee7a5 && Majority(0x2d964e86, 0x2c096744, 0xbf9a93a0) == 0x2d9a4784
    ensures BigSigma1(0x10e77723) == 0x1b9a10ba && Choose(0x10e77723, 0xaa27ed82, 0xabfa465b) == 0xab3f655a
    ensures BigSigma0(0x5b35025b) == 0x101ef452 && Majority(0x5b35025b, 0x2d964e86, 0x2c096744) == 0x2d154646
    ensures BigSigma1(0xe11b4548) == 0x073aea0d && Choose(0xe11b4548, 0x10e77723, 0xaa27ed82) == 0x0a27ed82
    ensures BigSigma0(0x5eb4ec40) == 0xa61ecfcd && Majority(0x5eb4ec40, 0x5b35025b, 0x2d964e86) == 0x5fb44e42
    ensures BigSigma1(0x5c24e2a2) == 0xcf4a4638 && Choose(0x5c24e2a2, 0xe11b4548, 0x10e77723) == 0x40c35501
    ensures BigSigma0(0x35ee996d) == 0x3c77bdf8 && Majority(0x35ee996d, 0x5eb4ec40, 0x5b35025b) == 0x5fb48849
    ensures BigSigma1(0x68aa893f) == 0x8f0b20c1 && Choose(0x68aa893f, 0x5c24e2a2, 0xe11b4548) == 0xc931c462
    ensures BigSigma0(0xd74080fa) == 0xb0057167 && Majority(0xd74080fa, 0x35ee996d, 0x5eb4ec40) == 0x57e48868
    ensures BigSigma1(0x60356548) == 0x923e7709 && Choose(0x60356548, 0x68aa893f, 0x5c24e2a2) == 0x7c2083aa
    ensures BigSigma0(0x0cea5cbc) == 0x4fa8004e && Majority(0x0cea5cbc, 0xd74080fa, 0x35ee996d) == 0x15ea98fc
  {
  }

  lemma SecondRounds1() returns (r: Regs)
    ensures r == Regs(0x16a8cc79, 0x0cea5cbc, 0xd74080fa, 0x35ee996d, 0x0fcb1f6f, 0x60356548, 0x68aa893f, 0x5c24e2a2)
    ensures StateIs(MIDDLE, SECOND, 16, r)
  {
    hide StateIs, WordIs, ConstantIs, BigSigma0, BigSigma1, Choose, Majority;
    r := SecondRounds0();
    Constants1();
    SecondRoundBits1();
    SecondWords0();
    r := RoundTo(MIDDLE, SECOND, 8, r, 0xd807aa98, 0x00000000, 0x33683122, 0xfa30dd27, 0xd8addac2, 0xbfbba3a0,
             0x2c096744, 0xabfa465b);
    r := RoundTo(MIDDLE, SECOND, 9, r, 0x12835b01, 0x00000000, 0x58f9bb84, 0x019e9d51, 0x14be292a, 0xad9ba3e0,
             0x2d964e86, 0xaa27ed82);
    r := RoundTo(MIDDLE, SECOND, 10, r, 0x243185be, 0x00000000, 0xa90b1a1e, 0xafba5453, 0xa66ee7a5, 0x2d9a4784,
             0x5b35025b, 0x10e77723);
    r := RoundTo(MIDDLE, SECOND, 11, r, 0x550c7dc3, 0x00000000, 0x1b9a10ba, 0xab3f655a, 0x101ef452, 0x2d154646,
             0x5eb4ec40, 0xe11b4548);
    r := RoundTo(MIDDLE, SECOND, 12, r, 0x72be5d74, 0x00000000, 0x073aea0d, 0x0a27ed82, 0xa61ecfcd, 0x5fb44e42,
             0x35ee996d, 0x5c24e2a2);
    r := RoundTo(MIDDLE, SECOND, 13, r, 0x80deb1fe, 0x00000000, 0xcf4a4638, 0x40c35501, 0x3c77bdf8, 0x5fb48849,
             0xd74080fa, 0x68aa893f);
    r := RoundTo(MIDDLE, SECOND, 14, r, 0x9bdc06a7, 0x00000000, 0x8f0b20c1, 0xc931c462, 0xb0057167, 0x57e48868,
             0x0cea5cbc, 0x60356548);
    r := RoundTo(MIDDLE, SECOND, 15, r, 0xc19bf174, 0x000001c0, 0x923e7709, 0x7c2083aa, 0x4fa8004e, 0x15ea98fc,
             0x16a8cc79, 0x0fcb1f6f);
  }

  lemma SecondRoundBits2()
    ensures BigSigma1(0x0fcb1f6f) == 0xb4516299 && Choose(0x0fcb1f6f, 0x60356548, 0x68aa893f) == 0x60218558
    ensures BigSigma0(0x16a8cc79) == 0x85536202 && Majority(0x16a8cc79, 0x0cea5cbc, 0xd74080fa) == 0x16e8ccf8
    ensures BigSigma1(0x8b21cdc1) == 0x2efb03cb && Choose(0x8b21cdc1, 0x0fcb1f6f, 0x60356548) == 0x6b152d49
    ensures BigSigma0(0xf16f634e) == 0x1ba1686d && Majority(0xf16f634e, 0x16a8cc79, 0x0cea5cbc) == 0x14ea4c7c
    ensures BigSigma1(0xca9182d3) == 0x5d927dde && Choose(0xca9182d3, 0x8b21cdc1, 0x0fcb1f6f) == 0x8f4b9ded
    ensures BigSigma0(0x23dcb6c2) == 0x4c3d3bda && Majority(0x23dcb6c2, 0xf16f634e, 0x16a8cc79) == 0x33ece64a
    ensures BigSigma1(0x69bf7b95) == 0xf8b600b5 && Choose(0x69bf7b95, 0xca9182d3, 0x8b21cdc1) == 0xca9186d1
    ensures BigSigma0(0xdcff40fd) == 0x8dd2c0b6 && Majority(0xdcff40fd, 0x23dcb6c2, 0xf16f634e) == 0xf1ff62ce
    ensures BigSigma1(0x0dc84bb1) == 0x563340a1 && Choose(0x0dc84bb1, 0x69bf7b95, 0xca9182d3) == 0xcb99cbd3
    ensures BigSigma0(0x76f1a2bc) == 0xced52ef9 && Majority(0x76f1a2bc, 0xdcff40fd, 0x23dcb6c2) == 0x76fda2fc
    ensures BigSigma1(0xcc4769f2) == 0xd6dc6c2c && Choose(0xcc4769f2, 0x0dc84bb1, 0x69bf7b95) == 0x2df85bb5
    ensures BigSigma0(0x20aad899) == 0x2781d7f2 && Majority(0x20aad899, 0x76f1a2bc, 0xdcff40fd) == 0x74fbc0bd
    ensures BigSigma1(0x5bace62d) == 0xa6b6d0a9 && Choose(0x5bace62d, 0xcc4769f2, 0x0dc84bb1) == 0x4c4469b0
    ensures BigSigma0(0xd44dc81a) == 0xc2e5bb39 && Majority(0xd44dc81a, 0x20aad899, 0x76f1a2bc) == 0x74e9c898
    ensures BigSigma1(0x966aa287) == 0x7bfa2415 && Choose(0x966aa287, 0x5bace62d, 0xcc4769f2) == 0x5a2deb75
    ensures BigSigma0(0xf13ae55b) == 0x3d045f45 && Majority(0xf13ae55b, 0xd44dc81a, 0x20aad899) == 0xf02ac81b
  {
  }

  lemma SecondRounds2() returns (r: Regs)
    ensures r == Regs(0xa4195b91, 0xf13ae55b, 0xd44dc81a, 0x20aad899, 0xeddbd6ed, 0x966aa287, 0x5bace62d, 0xcc4769f2)
    ensures StateIs(MIDDLE, SECOND, 24, r)
  {
    hide StateIs, WordIs, ConstantIs, BigSigma0, BigSigma1, Choose, Majority;
    r := SecondRounds1();
    Constants2();
    SecondRoundBits2();
    SecondWords1();
    r := RoundTo(MIDDLE, SECOND, 16, r, 0xe49b69c1, 0x00000000, 0xb4516299, 0x60218558, 0x85536202, 0x16e8ccf8,
             0xf16f634e, 0x8b21cdc1);
    r := RoundTo(MIDDLE, SECOND, 17, r, 0xefbe4786, 0x00d80000, 0x2efb03cb, 0x6b152d49, 0x1ba1686d, 0x14ea4c7c,
             0x23dcb6c2, 0xca9182d3);
    r := RoundTo(MIDDLE, SECOND, 18, r, 0x0fc19dc6, 0x00000000, 0x5d927dde, 0x8f4b9ded, 0x4c3d3bda, 0x33ece64a,
             0xdcff40fd, 0x69bf7b95);
    r := RoundTo(MIDDLE, SECOND, 19, r, 0x240ca1cc, 0x00003677, 0xf8b600b5, 0xca9186d1, 0x8dd2c0b6, 0xf1ff62ce,
             0x76f1a2bc, 0x0dc84bb1);
    r := RoundTo(MIDDLE, SECOND, 20, r, 0x2de92c6f, 0x00000000, 0x563340a1, 0xcb99cbd3, 0xced52ef9, 0x76fda2fc,
             0x20aad899, 0xcc4769f2);
    r := RoundTo(MIDDLE, SECOND, 21, r, 0x4a7484aa, 0x1df5600d, 0xd6dc6c2c, 0x2df85bb5, 0x2781d7f2, 0x74fbc0bd,
             0xd44dc81a, 0x5bace62d);
    r := RoundTo(MIDDLE, SECOND, 22, r, 0x5cb0a9dc, 0x000001c0, 0xa6b6d0a9, 0x4c4469b0, 0xc2e5bb39, 0x74e9c898,
             0xf13ae55b, 0x966aa287);
    r := RoundTo(MIDDLE, SECOND, 23, r, 0x76f988da, 0x1c00501c, 0x7bfa2415, 0x5a2deb75, 0x3d045f45, 0xf02ac81b,
             0xa4195b91, 0xeddbd6ed);
  }

  lemma SecondRoundBits3()
    ensures BigSigma1(0xeddbd6ed) == 0x87e1a2d7 && Choose(0xeddbd6ed, 0x966aa287, 0x5bace62d) == 0x966ea285
    ensures BigSigma0(0xa4195b91) == 0xd0e530be && Majority(0xa4195b91, 0xf13ae55b, 0xd44dc81a) == 0xf419c91b
    ensures BigSigma1(0xa530d939) == 0x59ccf9ad && Choose(0xa530d939, 0xeddbd6ed, 0x966aa287) == 0xb75af2af
    ensures BigSigma0(0x4984fa79) == 0x9242979f && Majority(0x4984fa79, 0xa4195b91, 0xf13ae55b) == 0xe118fb59
    ensures BigSigma1(0x0b5eeea4) == 0xebdb4262 && Choose(0x0b5eeea4, 0xa530d939, 0xeddbd6ed) == 0xe591d869
    ensures BigSigma0(0xaa6cb982) == 0xd46877ac && Majority(0xaa6cb982, 0x4984fa79, 0xa4195b91) == 0xa80cfb91
    ensures BigSigma1(0x09166dda) == 0x5853967e && Choose(0x09166dda, 0x0b5eeea4, 0xa530d939) == 0xad36fca1
    ensures BigSigma0(0x9450fbbc) == 0xbb1e6e39 && Majority(0x9450fbbc, 0xaa6cb982, 0x4984fa79) == 0x8844fbb8
    ensures BigSigma1(0x6e495d4b) == 0xa07a49e9 && Choose(0x6e495d4b, 0x09166dda, 0x0b5eeea4) == 0x0916efee
    ensures BigSigma0(0x0d936bab) == 0xd3921a47 && Majority(0x0d936bab, 0x9450fbbc, 0xaa6cb982) == 0x8c50fbaa
    ensures BigSigma1(0xc2fa99b1) == 0x8c7f6dd4 && Choose(0xc2fa99b1, 0x6e495d4b, 0x09166dda) == 0x4b4c7d4b
    ensures BigSigma0(0xd958b529) == 0xbdcc40ea && Majority(0xd958b529, 0x0d936bab, 0x9450fbbc) == 0x9d50fba9
    ensures BigSigma1(0x6c49db9f) == 0x2ab161e3 && Choose(0x6c49db9f, 0xc2fa99b1, 0x6e495d4b) == 0x42489dd1
    ensures BigSigma0(0x1cfa5eb0) == 0x1bc4b00d && Majority(0x1cfa5eb0, 0xd958b529, 0x0d936bab) == 0x1dda7fa9
    ensures BigSigma1(0x5da10665) == 0x895e0297 && Choose(0x5da10665, 0x6c49db9f, 0xc2fa99b1) == 0xce5b9b95
    ensures BigSigma0(0x02ef3a5f) == 0xaeaaa5e5 && Majority(0x02ef3a5f, 0x1cfa5eb0, 0xd958b529) == 0x18fa3e39
  {
  }

  lemma SecondRounds3() returns (r: Regs)
    ensures r == Regs(0xb0eab1c5, 0x02ef3a5f, 0x1cfa5eb0, 0xd958b529, 0xf6d93952, 0x5da10665, 0x6c49db9f, 0xc2fa99b1)
    ensures StateIs(MIDDLE, SECOND, 32, r)
  {
    hide StateIs, WordIs, ConstantIs, BigSigma0, BigSigma1, Choose, Majority;
    r := SecondRounds2();
    Constants3();
    SecondRoundBits3();
    SecondWords2();
    r := RoundTo(MIDDLE, SECOND, 24, r, 0x983e5152, 0x01b00000, 0x87e1a2d7, 0x966ea285, 0xd0e530be, 0xf419c91b,
             0x4984fa79, 0xa530d939);
    r := RoundTo(MIDDLE, SECOND, 25, r, 0xa831c66d, 0x220a8d94, 0x59ccf9ad, 0xb75af2af, 0x9242979f, 0xe118fb59,
             0xaa6cb982, 0x0b5eeea4);
    r := RoundTo(MIDDLE, SECOND, 26, r, 0xb00327c8, 0x0000a365, 0xebdb4262, 0xe591d869, 0xd46877ac, 0xa80cfb91,
             0x9450fbbc, 0x09166dda);
    r := RoundTo(MIDDLE, SECOND, 27, r, 0xbf597fc7, 0x177017e7, 0x5853967e, 0xad36fca1, 0xbb1e6e39, 0x8844fbb8,
             0x0d936bab, 0x6e495d4b);
    r := RoundTo(MIDDLE, SECOND, 28, r, 0xc6e00bf3, 0x63d38035, 0xa07a49e9, 0x0916efee, 0xd3921a47, 0x8c50fbaa,
             0xd958b529, 0xc2fa99b1);
    r := RoundTo(MIDDLE, SECOND, 29, r, 0xd5a79147, 0x090ab713, 0x8c7f6dd4, 0x4b4c7d4b, 0xbdcc40ea, 0x9d50fba9,
             0x1cfa5eb0, 0x6c49db9f);
    r := RoundTo(MIDDLE, SECOND, 30, r, 0x06ca6351, 0x4c7539ca, 0x2ab161e3, 0x42489dd1, 0x1bc4b00d, 0x1dda7fa9,
             0x02ef3a5f, 0x5da10665);
    r := RoundTo(MIDDLE, SECOND, 31, r, 0x14292967, 0x0f19a8c9, 0x895e0297, 0xce5b9b95, 0xaeaaa5e5, 0x18fa3e39,
             0xb0eab1c5, 0xf6d93952);
  }

  lemma SecondRoundBits4()
    ensures BigSigma1(0xf6d93952) == 0x0d1916b9 && Choose(0xf6d93952, 0x5da10665, 0x6c49db9f) == 0x5c81c2cd
    ensures BigSigma0(0xb0eab1c5) == 0x48d03de7 && Majority(0xb0eab1c5, 0x02ef3a5f, 0x1cfa5eb0) == 0x10ea3ad5
    ensures BigSigma1(0x8b99e3a9) == 0x1feec077 && Choose(0x8b99e3a9, 0xf6d93952, 0x5da10665) == 0xd6b92544
    ensures BigSigma0(0x0bfba73c) == 0xd582463d && Majority(0x0bfba73c, 0xb0eab1c5, 0x02ef3a5f) == 0x02ebb35d
    ensures BigSigma1(0x905e44ac) == 0x08f12492 && Choose(0x905e44ac, 0x8b99e3a9, 0xf6d93952) == 0xe69979fa
    ensures BigSigma0(0x4bd1df96) == 0x29387044 && Majority(0x4bd1df96, 0x0bfba73c, 0xb0eab1c5) == 0x0bfbb794
    ensures BigSigma1(0x66c3043d) == 0x13b5cac3 && Choose(0x66c3043d, 0x905e44ac, 0x8b99e3a9) == 0x895ae7ac
    ensures BigSigma0(0x9907f1b6) == 0x3433ee36 && Majority(0x9907f1b6, 0x4bd1df96, 0x0bfba73c) == 0x0bd3f7b6
    ensures BigSigma1(0x5dc119e6) == 0x45304f6a && Choose(0x5dc119e6, 0x66c3043d, 0x905e44ac) == 0xc4df442c
    ensures BigSigma0(0xecde4e0d) == 0x7260c2c2 && Majority(0xecde4e0d, 0x9907f1b6, 0x4bd1df96) == 0xc9d7df96
    ensures BigSigma1(0xfed4ce1d) == 0xde23875e && Choose(0xfed4ce1d, 0x5dc119e6, 0x66c3043d) == 0x5cc30824
    ensures BigSigma0(0x2f11c939) == 0x4529ee7c && Majority(0x2f11c939, 0xecde4e0d, 0x9907f1b6) == 0xad17c93d
    ensures BigSigma1(0x32d99008) == 0x4d05396b && Choose(0x32d99008, 0xfed4ce1d, 0x5dc119e6) == 0x7fd089ee
    ensures BigSigma0(0xd949682b) == 0x92ac3f24 && Majority(0xd949682b, 0x2f11c939, 0xecde4e0d) == 0xed594829
    ensures BigSigma1(0xc6cce4ff) == 0x069195ec && Choose(0xc6cce4ff, 0x32d99008, 0xfed4ce1d) == 0x3ad88a08
    ensures BigSigma0(0xadca7a96) == 0x562daa41 && Majority(0xadca7a96, 0xd949682b, 0x2f11c939) == 0xad49683b
  {
  }

  lemma SecondRounds4() returns (r: Regs)
    ensures r == Regs(0x221b8a5a, 0xadca7a96, 0xd949682b, 0x2f11c939, 0x0b82c5eb, 0xc6cce4ff, 0x32d99008, 0xfed4ce1d)
    ensures StateIs(MIDDLE, SECOND, 40, r)
  {
    hide StateIs, WordIs, ConstantIs, BigSigma0, BigSigma1, Choose, Majority;
    r := SecondRounds3();
    Constants4();
    SecondRoundBits4();
    SecondWords3();
    r := RoundTo(MIDDLE, SECOND, 32, r, 0x27b70a85, 0x5df4b0c4, 0x0d1916b9, 0x5c81c2cd, 0x48d03de7, 0x10ea3ad5,
             0x0bfba73c, 0x8b99e3a9);
    r := RoundTo(MIDDLE, SECOND, 33, r, 0x2e1b2138, 0xe257036a, 0x1feec077, 0xd6b92544, 0xd582463d, 0x02ebb35d,
             0x4bd1df96, 0x905e44ac);
    r := RoundTo(MIDDLE, SECOND, 34, r, 0x4d2c6dfc, 0xc97bb6f1, 0x08f12492, 0xe69979fa, 0x29387044, 0x0bfbb794,
             0x9907f1b6, 0x66c3043d);
    r := RoundTo(MIDDLE, SECOND, 35, r, 0x53380d13, 0xc5b46f4d, 0x13b5cac3, 0x895ae7ac, 0x3433ee36, 0x0bd3f7b6,
             0xecde4e0d, 0x5dc119e6);
    r := RoundTo(MIDDLE, SECOND, 36, r, 0x650a7354, 0xf8253c4e, 0x45304f6a, 0xc4df442c, 0x7260c2c2, 0xc9d7df96,
             0x2f11c939, 0xfed4ce1d);
    r := RoundTo(MIDDLE, SECOND, 37, r, 0x766a0abb, 0xa558d189, 0xde23875e, 0x5cc30824, 0x4529ee7c, 0xad17c93d,
             0xd949682b, 0x32d99008);
    r := RoundTo(MIDDLE, SECOND, 38, r, 0x81c2c92e, 0x78696285, 0x4d05396b, 0x7fd089ee, 0x92ac3f24, 0xed594829,
             0xadca7a96, 0xc6cce4ff);
    r := RoundTo(MIDDLE, SECOND, 39, r, 0x92722c85, 0xed07117f, 0x069195ec, 0x3ad88a08, 0x562daa41, 0xad49683b,
             0x221b8a5a, 0x0b82c5eb);
  }

  lemma SecondRoundBits5()
    ensures BigSigma1(0x0b82c5eb) == 0xd02d8eca && Choose(0x0b82c5eb, 0xc6cce4ff, 0x32d99008) == 0x32d9d4eb
    ensures BigSigma0(0x221b8a5a) == 0xb47e9ac2 && Majority(0x221b8a5a, 0xadca7a96, 0xd949682b) == 0xa94b6a1a
    ensures BigSigma1(0xe4213ca2) == 0x0f5251a7 && Choose(0xe4213ca2, 0x0b82c5eb, 0xc6cce4ff) == 0x02ccc4ff
    ensures BigSigma0(0x12d97845) == 0xe37fdc91 && Majority(0x12d97845, 0x221b8a5a, 0xadca7a96) == 0x22db7a56
    ensures BigSigma1(0xff6759ba) == 0x6f0eacf2 && Choose(0xff6759ba, 0xe4213ca2, 0x0b82c5eb) == 0xe4a19ce3
    ensures BigSigma0(0x2c794876) == 0x2d8ee966 && Majority(0x2c794876, 0x12d97845, 0x221b8a5a) == 0x22594856
    ensures BigSigma1(0xe0e3457c) == 0x2dbd2f0d && Choose(0xe0e3457c, 0xff6759ba, 0xe4213ca2) == 0xe46379ba
    ensures BigSigma0(0x8300fca2) == 0x4626ad23 && Majority(0x8300fca2, 0x2c794876, 0x12d97845) == 0x02597866
    ensures BigSigma1(0xcc48c7f3) == 0x152b53e1 && Choose(0xcc48c7f3, 0xe0e3457c, 0xff6759ba) == 0xf3675d78
    ensures BigSigma0(0xf2ad6322) == 0x10304669 && Majority(0xf2ad6322, 0x8300fca2, 0x2c794876) == 0xa2296822
    ensures BigSigma1(0x6f9517cb) == 0x1e58434a && Choose(0x6f9517cb, 0xcc48c7f3, 0xe0e3457c) == 0xcc6247f7
    ensures BigSigma0(0x0f154e11) == 0x66756f12 && Majority(0x0f154e11, 0xf2ad6322, 0x8300fca2) == 0x83056e22
    ensures BigSigma1(0x5348e8f6) == 0x63f33197 && Choose(0x5348e8f6, 0x6f9517cb, 0xcc48c7f3) == 0xcf0007c3
    ensures BigSigma0(0x104a7db4) == 0xc044cd7f && Majority(0x104a7db4, 0x0f154e11, 0xf2ad6322) == 0x120d6f30
    ensures BigSigma1(0xbbe1c39a) == 0xe959366b && Choose(0xbbe1c39a, 0x5348e8f6, 0x6f9517cb) == 0x5754d4d3
    ensures BigSigma0(0x0b3303a7) == 0x13fa055d && Majority(0x0b3303a7, 0x104a7db4, 0x0f154e11) == 0x0b134fb5
  {
  }

  lemma SecondRounds5() returns (r: Regs)
    ensures r == Regs(0xd7354d5b, 0x0b3303a7, 0x104a7db4, 0x0f154e11, 0xaad55b6b, 0xbbe1c39a, 0x5348e8f6, 0x6f9517cb)
    ensures StateIs(MIDDLE, SECOND, 48, r)
  {
    hide StateIs, WordIs, ConstantIs, BigSigma0, BigSigma1, Choose, Majority;
    r := SecondRounds4();
    Constants5();
    SecondRoundBits5();
    SecondWords4();
    r := RoundTo(MIDDLE, SECOND, 40, r, 0xa2bfe8a1, 0x107358f6, 0xd02d8eca, 0x32d9d4eb, 0xb47e9ac2, 0xa94b6a1a,
             0x12d97845, 0xe4213ca2);
    r := RoundTo(MIDDLE, SECOND, 41, r, 0xa81a664b, 0x390ae496, 0x0f5251a7, 0x02ccc4ff, 0xe37fdc91, 0x22db7a56,
             0x2c794876, 0xff6759ba);
    r := RoundTo(MIDDLE, SECOND, 42, r, 0xc24b8b70, 0x565010a2, 0x6f0eacf2, 0xe4a19ce3, 0x2d8ee966, 0x22594856,
             0x8300fca2, 0xe0e3457c);
    r := RoundTo(MIDDLE, SECOND, 43, r, 0xc76c51a3, 0xc51d7d44, 0x2dbd2f0d, 0xe46379ba, 0x4626ad23, 0x02597866,
             0xf2ad6322, 0xcc48c7f3);
    r := RoundTo(MIDDLE, SECOND, 44, r, 0xd192e819, 0x9e74c972, 0x152b53e1, 0xf3675d78, 0x10304669, 0xa2296822,
             0x0f154e11, 0x6f9517cb);
    r := RoundTo(MIDDLE, SECOND, 45, r, 0xd6990624, 0x6614b561, 0x1e58434a, 0xcc6247f7, 0x66756f12, 0x83056e22,
             0x104a7db4, 0x5348e8f6);
    r := RoundTo(MIDDLE, SECOND, 46, r, 0xf40e3585, 0x30fc129d, 0x63f33197, 0xcf0007c3, 0xc044cd7f, 0x120d6f30,
             0x0b3303a7, 0xbbe1c39a);
    r := RoundTo(MIDDLE, SECOND, 47, r, 0x106aa070, 0x9ac684a8, 0xe959366b, 0x5754d4d3, 0x13fa055d, 0x0b134fb5,
             0xd7354d5b, 0xaad55b6b);
  }

  lemma SecondRoundBits6()
    ensures BigSigma1(0xaad55b6b) == 0xa973ba13 && Choose(0xaad55b6b, 0xbbe1c39a, 0x5348e8f6) == 0xfbc9e39e
    ensures BigSigma0(0xd7354d5b) == 0x4a2685a0 && Majority(0xd7354d5b, 0x0b3303a7, 0x104a7db4) == 0x13334db7
    ensures BigSigma1(0x68f25260) == 0xb487e737 && Choose(0x68f25260, 0xaad55b6b, 0xbbe1c39a) == 0xbbd1d3fa
    ensures BigSigma0(0xb736d7a6) == 0xcba69683 && Majority(0xb736d7a6, 0xd7354d5b, 0x0b3303a7) == 0x973747a7
    ensures BigSigma1(0xd4b58576) == 0x2f4afbcf && Choose(0xd4b58576, 0x68f25260, 0xaad55b6b) == 0x6af05a69
    ensures BigSigma0(0x2748e5ec) == 0x0524b3a1 && Majority(0x2748e5ec, 0xb736d7a6, 0xd7354d5b) == 0xb734c5ee
    ensures BigSigma1(0x27844711) == 0x64996907 && Choose(0x27844711, 0xd4b58576, 0x68f25260) == 0x4cf61570
    ensures BigSigma0(0xd8aabcf9) == 0x3b178d09 && Majority(0xd8aabcf9, 0x2748e5ec, 0xb736d7a6) == 0xb72af5ec
    ensures BigSigma1(0xff5e99d0) == 0xd6ae79cb && Choose(0xff5e99d0, 0x27844711, 0xd4b58576) == 0x27a50536
    ensures BigSigma0(0x1a6bcf6a) == 0x52f788ed && Majority(0x1a6bcf6a, 0xd8aabcf9, 0x2748e5ec) == 0x1a6aede8
    ensures BigSigma1(0x989ed071) == 0x87395057 && Choose(0x989ed071, 0xff5e99d0, 0x27844711) == 0xbf1e9750
    ensures BigSigma0(0x4eca6fa0) == 0x470e6c80 && Majority(0x4eca6fa0, 0x1a6bcf6a, 0xd8aabcf9) == 0x5aeaefe8
    ensures BigSigma1(0x7151df8e) == 0x60e4aa7d && Choose(0x7151df8e, 0x989ed071, 0xff5e99d0) == 0x9e1ed050
    ensures BigSigma0(0xec02560a) == 0x020fde20 && Majority(0xec02560a, 0x4eca6fa0, 0x1a6bcf6a) == 0x4e4a4f2a
    ensures BigSigma1(0x624150c4) == 0x29ad2f58 && Choose(0x624150c4, 0x7151df8e, 0x989ed071) == 0xf8dfd0b5
    ensures BigSigma0(0xd9f0c115) == 0xbdd6a8a4 && Majority(0xd9f0c115, 0xec02560a, 0x4eca6fa0) == 0xccc24700
  {
  }

  lemma SecondRounds6() returns (r: Regs)
    ensures r == Regs(0x92952710, 0xd9f0c115, 0xec02560a, 0x4eca6fa0, 0x226806d6, 0x624150c4, 0x7151df8e, 0x989ed071)
    ensures StateIs(MIDDLE, SECOND, 56, r)
  {
    hide StateIs, WordIs, ConstantIs, BigSigma0, BigSigma1, Choose, Majority;
    r := SecondRounds5();
    Constants6();
    SecondRoundBits6();
    SecondWords5();
    r := RoundTo(MIDDLE, SECOND, 48, r, 0x19a4c116, 0x2b658dbd, 0xa973ba13, 0xfbc9e39e, 0x4a2685a0, 0x13334db7,
             0xb736d7a6, 0x68f25260);
    r := RoundTo(MIDDLE, SECOND, 49, r, 0x1e376c08, 0xe290f793, 0xb487e737, 0xbbd1d3fa, 0xcba69683, 0x973747a7,
             0x2748e5ec, 0xd4b58576);
    r := RoundTo(MIDDLE, SECOND, 50, r, 0x2748774c, 0x9eebb24c, 0x2f4afbcf, 0x6af05a69, 0x0524b3a1, 0xb734c5ee,
             0xd8aabcf9, 0x27844711);
    r := RoundTo(MIDDLE, SECOND, 51, r, 0x34b0bcb5, 0x9713b5de, 0x64996907, 0x4cf61570, 0x3b178d09, 0xb72af5ec,
             0x1a6bcf6a, 0xff5e99d0);
    r := RoundTo(MIDDLE, SECOND, 52, r, 0x391c0cb3, 0x41061ab7, 0xd6ae79cb, 0x27a50536, 0x52f788ed, 0x1a6aede8,
             0x4eca6fa0, 0x989ed071);
    r := RoundTo(MIDDLE, SECOND, 53, r, 0x4ed8aa4a, 0xe022e23b, 0x87395057, 0xbf1e9750, 0x470e6c80, 0x5aeaefe8,
             0xec02560a, 0x7151df8e);
    r := RoundTo(MIDDLE, SECOND, 54, r, 0x5b9cca4f, 0x0772079e, 0x60e4aa7d, 0x9e1ed050, 0x020fde20, 0x4e4a4f2a,
             0xd9f0c115, 0x624150c4);
    r := RoundTo(MIDDLE, SECOND, 55, r, 0x682e6ff3, 0x7de22d9c, 0x29ad2f58, 0xf8dfd0b5, 0xbdd6a8a4, 0xccc24700,
             0x92952710, 0x226806d6);
  }

  lemma SecondRoundBits7()
    ensures BigSigma1(0x226806d6) == 0xb64e860a && Choose(0x226806d6, 0x624150c4, 0x7151df8e) == 0x7351d9cc
    ensures BigSigma0(0x92952710) == 0x48bd9f27 && Majority(0x92952710, 0xd9f0c115, 0xec02560a) == 0xd8904710
    ensures BigSigma1(0x4e515a4d) == 0x543da9e5 && Choose(0x4e515a4d, 0x226806d6, 0x624150c4) == 0x224002c4
    ensures BigSigma0(0x20d4d0e4) == 0xdc57a21c && Majority(0x20d4d0e4, 0x92952710, 0xd9f0c115) == 0x90d4c114
    ensures BigSigma1(0xc21eddf9) == 0x575ec44d && Choose(0xc21eddf9, 0x4e515a4d, 0x226806d6) == 0x62705a4f
    ensures BigSigma0(0x4348eb1f) == 0xab845d8d && Majority(0x4348eb1f, 0x20d4d0e4, 0x92952710) == 0x02d4e314
    ensures BigSigma1(0x54076664) == 0x5e69af5f && Choose(0x54076664, 0xc21eddf9, 0x4e515a4d) == 0x4a565c69
    ensures BigSigma0(0x286fe5f0) == 0x9a0d7aa2 && Majority(0x286fe5f0, 0x4348eb1f, 0x20d4d0e4) == 0x204ce1f4
    ensures BigSigma1(0xf487a853) == 0x0678a7ae && Choose(0xf487a853, 0x54076664, 0xc21eddf9) == 0x561f75e8
    ensures BigSigma0(0x1c4cddd9) == 0x9aacb161 && Majority(0x1c4cddd9, 0x286fe5f0, 0x4348eb1f) == 0x084cedd9
    ensures BigSigma1(0x27ccb387) == 0x8a2208cb && Choose(0x27ccb387, 0xf487a853, 0x54076664) == 0x7487e463
    ensures BigSigma0(0xa9f181dd) == 0xa296595c && Majority(0xa9f181dd, 0x1c4cddd9, 0x286fe5f0) == 0x286dc5d9
    ensures BigSigma1(0x2aa1bb13) == 0x7e125b4e && Choose(0x2aa1bb13, 0x27ccb387, 0xf487a853) == 0xf686b343
    ensures BigSigma0(0xb25cef29) == 0x66660fe4 && Majority(0xb25cef29, 0xa9f181dd, 0x1c4cddd9) == 0xb85ccdd9
    ensures BigSigma1(0x9a392956) == 0x6c2f08cd && Choose(0x9a392956, 0x2aa1bb13, 0x27ccb387) == 0x2fe5bb93
    ensures BigSigma0(0x908c2123) == 0xddbb026b && Majority(0x908c2123, 0xb25cef29, 0xa9f181dd) == 0xb0dca129
  {
  }

  lemma SecondRounds7() returns (r: Regs)
    ensures r == Regs(0x9ea7148b, 0x908c2123, 0xb25cef29, 0xa9f181dd, 0x2c5c4ed0, 0x9a392956, 0x2aa1bb13, 0x27ccb387)
    ensures StateIs(MIDDLE, SECOND, 64, r)
  {
    hide StateIs, WordIs, ConstantIs, BigSigma0, BigSigma1, Choose, Majority;
    r := SecondRounds6();
    Constants7();
    SecondRoundBits7();
    SecondWords6();
    r := RoundTo(MIDDLE, SECOND, 56, r, 0x748f82ee, 0xc8b83778, 0xb64e860a, 0x7351d9cc, 0x48bd9f27, 0xd8904710,
             0x20d4d0e4, 0x4e515a4d);
    r := RoundTo(MIDDLE, SECOND, 57, r, 0x78a5636f, 0x75a79849, 0x543da9e5, 0x224002c4, 0xdc57a21c, 0x90d4c114,
             0x4348eb1f, 0xc21eddf9);
    r := RoundTo(MIDDLE, SECOND, 58, r, 0x84c87814, 0xd93dbddb, 0x575ec44d, 0x62705a4f, 0xab845d8d, 0x02d4e314,
             0x286fe5f0, 0x54076664);
    r := RoundTo(MIDDLE, SECOND, 59, r, 0x8cc70208, 0x0a036c9d, 0x5e69af5f, 0x4a565c69, 0x9a0d7aa2, 0x204ce1f4,
             0x1c4cddd9, 0xf487a853);
    r := RoundTo(MIDDLE, SECOND, 60, r, 0x90befffa, 0xcb4f6ac6, 0x0678a7ae, 0x561f75e8, 0x9aacb161, 0x084cedd9,
             0xa9f181dd, 0x27ccb387);
    r := RoundTo(MIDDLE, SECOND, 61, r, 0xa4506ceb, 0x823f97e2, 0x8a2208cb, 0x7487e463, 0xa296595c, 0x286dc5d9,
             0xb25cef29, 0x2aa1bb13);
    r := RoundTo(MIDDLE, SECOND, 62, r, 0xbef9a3f7, 0xea2f2a7a, 0x7e125b4e, 0xf686b343, 0x66660fe4, 0xb85ccdd9,
             0x908c2123, 0x9a392956);
    r := RoundTo(MIDDLE, SECOND, 63, r, 0xc67178f2, 0xb9018b52, 0x6c2f08cd, 0x2fe5bb93, 0xddbb026b, 0xb0dca129,
             0x9ea7148b, 0x2c5c4ed0);
  }

  lemma Padded()
    ensures Pad(MESSAGE) == FIRST + SECOND
  {
    hide BigEndian.Encode;
    LengthField();
    assert Zeros(63) == Zeros(7) + Zeros(56);
  }

  lemma LengthField()
    ensures BigEndian.Encode(448, 8) == [0, 0, 0, 0, 0, 0, 0x01, 0xc0]
  {
  }

  lemma TwoHex()
    ensures Hex(0x248d6a61, 8) == "248d6a61"
    ensures Hex(0xd20638b8, 8) == "d20638b8"
    ensures Hex(0xe5c02693, 8) == "e5c02693"
    ensures Hex(0x0c3e6039, 8) == "0c3e6039"
    ensures Hex(0xa33ce459, 8) == "a33ce459"
    ensures Hex(0x64ff2167, 8) == "64ff2167"
    ensures Hex(0xf6ecedd4, 8) == "f6ecedd4"
    ensures Hex(0x19db06c1, 8) == "19db06c1"
  {
    hide Hex;
    HexTo(0x248d6a61, 2, 4, 8, 13, 6, 10, 6, 1);
    HexTo(0xd20638b8, 13, 2, 0, 6, 3, 8, 11, 8);
    HexTo(0xe5c02693, 14, 5, 12, 0, 2, 6, 9, 3);
    HexTo(0x0c3e6039, 0, 12, 3, 14, 6, 0, 3, 9);
    HexTo(0xa33ce459, 10, 3, 3, 12, 14, 4, 5, 9);
    HexTo(0x64ff2167, 6, 4, 15, 15, 2, 1, 6, 7);
    HexTo(0xf6ecedd4, 15, 6, 14, 12, 14, 13, 13, 4);
    HexTo(0x19db06c1, 1, 9, 13, 11, 0, 6, 12, 1);
  }

  /** The published digest of the message. */
  lemma TwoBlockDigest()
    ensures Sha256Hex(MESSAGE) ==
            "248d6a61" + "d20638b8" + "e5c02693" + "0c3e6039" + "a33ce459" + "64ff2167" + "f6ecedd4" + "19db06c1"
  {
    hide Rounds, Schedule, StateIs, Compress, HashBlocks, Pad, Hex;
    Padded();
    OneBlock(FIRST);
    NextBlock(FIRST, SECOND);
    var r := FirstRounds7();
    CompressTo(INITIAL, FIRST, r, MIDDLE);
    r := SecondRounds7();
    CompressTo(MIDDLE, SECOND, r, Regs(
      0x248d6a61, 0xd20638b8, 0xe5c02693, 0x0c3e6039, 0xa33ce459, 0x64ff2167, 0xf6ecedd4, 0x19db06c1));
    TwoHex();
  }
}
