/** SHA-256 step by step on given values, for the published examples. */
module Sha256Steps {
  import opened Base
  import opened Sha256Constants
  import opened Sha256Spec
  import BigEndian
  import Sha256

  /** Word `t` of the message schedule of a block is `w`. */
  ghost predicate WordIs(block: Bytes, t: nat, w: u32) {
    |block| == 64 && t < 64 && Schedule(block, t) == w
  }

  /** From `h`, the working variables after `n` rounds on a block are `r`. */
  ghost predicate StateIs(h: Regs, block: Bytes, n: nat, r: Regs) {
    |block| == 64 && n <= 64 && Rounds(h, block, n) == r
  }

  predicate ConstantIs(t: nat, k: u32) {
    t < 64 && K(t) == k
  }

  lemma Wrap32Add(x: int, y: int)
    ensures Wrap32(Wrap32(x) + y) == Wrap32(x + y)
  {
  }

  lemma WrapIsRemainder(x: int)
    ensures Wrap32(x) == x % 0x1_0000_0000
  {
  }

  lemma NoRounds(h: Regs, block: Bytes)
    requires |block| == 64
    ensures StateIs(h, block, 0, h)
  {
  }

  /** One round, from the values of its four bit functions and the two sums that they make. */
  lemma RoundTo(h: Regs, block: Bytes, n: nat, r: Regs, k: u32, w: u32,
                s1: u32, ch: u32, s0: u32, mj: u32, a: u32, e: u32) returns (next: Regs)
    requires n < 64 && StateIs(h, block, n, r) && ConstantIs(n, k) && WordIs(block, n, w)
    requires BigSigma1(r.e) == s1 && Choose(r.e, r.f, r.g) == ch
    requires BigSigma0(r.a) == s0 && Majority(r.a, r.b, r.c) == mj
    requires a == (r.h + s1 + ch + k + w + s0 + mj) % 0x1_0000_0000
    requires e == (r.h + s1 + ch + k + w + r.d) % 0x1_0000_0000
    ensures next == Regs(a, r.a, r.b, r.c, e, r.e, r.f, r.g) && StateIs(h, block, n + 1, next)
  {
    hide BigSigma0, BigSigma1, Choose, Majority, Schedule, K, Wrap32;
    var x, y := r.h + s1 + ch + k + w, s0 + mj;
    Wrap32Add(x, Wrap32(y));
    Wrap32Add(y, x);
    Wrap32Add(x, r.d);
    WrapIsRemainder(x + y);
    WrapIsRemainder(x + r.d);
    next := Regs(a, r.a, r.b, r.c, e, r.e, r.f, r.g);
  }

  /** One word of the message schedule, from earlier ones and the values of its two bit functions. */
  lemma WordTo(block: Bytes, t: nat, w2: u32, w7: u32, w15: u32, w16: u32, s1: u32, s0: u32, w: u32)
    requires 16 <= t < 64 && WordIs(block, t - 2, w2) && WordIs(block, t - 7, w7)
    requires WordIs(block, t - 15, w15) && WordIs(block, t - 16, w16)
    requires SmallSigma1(w2) == s1 && SmallSigma0(w15) == s0
    requires w == (s1 + w7 + s0 + w16) % 0x1_0000_0000
    ensures WordIs(block, t, w)
  {
    hide SmallSigma0, SmallSigma1, Wrap32;
    WrapIsRemainder(s1 + w7 + s0 + w16);
  }

  /** The end of a block: the working variables are added to the hash value. */
  lemma CompressTo(h: Regs, block: Bytes, r: Regs, sum: Regs)
    requires StateIs(h, block, 64, r)
    requires sum.a == (h.a + r.a) % 0x1_0000_0000 && sum.b == (h.b + r.b) % 0x1_0000_0000
    requires sum.c == (h.c + r.c) % 0x1_0000_0000 && sum.d == (h.d + r.d) % 0x1_0000_0000
    requires sum.e == (h.e + r.e) % 0x1_0000_0000 && sum.f == (h.f + r.f) % 0x1_0000_0000
    requires sum.g == (h.g + r.g) % 0x1_0000_0000 && sum.h == (h.h + r.h) % 0x1_0000_0000
    ensures Compress(h, block) == sum
  {
    hide Rounds;
  }

  lemma OneBlock(block: Bytes)
    requires |block| == 64
    ensures HashBlocks(block) == Compress(INITIAL, block)
  {
    hide Compress;
    assert block[..0] == [] && block[0..] == block;
  }

  lemma NextBlock(b: Bytes, block: Bytes)
    requires |b| % 64 == 0 && |block| == 64
    ensures |b + block| % 64 == 0 && HashBlocks(b + block) == Compress(HashBlocks(b), block)
  {
    hide Compress;
    var all := b + block;
    assert all[..|all| - 64] == b && all[|all| - 64..] == block;
  }

  lemma HexStep(m: nat, d: nat, width: nat)
    requires d < 16
    ensures Hex(16 * m + d, width + 1) == Hex(m, width) + [HexChar(d)]
  {
    assert (16 * m + d) / 16 == m && (16 * m + d) % 16 == d;
  }

  /** The eight hexadecimal digits of a word. */
  lemma HexTo(n: u32, d7: nat, d6: nat, d5: nat, d4: nat, d3: nat, d2: nat, d1: nat, d0: nat)
    requires d7 < 16 && d6 < 16 && d5 < 16 && d4 < 16 && d3 < 16 && d2 < 16 && d1 < 16 && d0 < 16
    requires n == 16 * (16 * (16 * (16 * (16 * (16 * (16 * d7 + d6) + d5) + d4) + d3) + d2) + d1) + d0
    ensures Hex(n, 8) == [HexChar(d7), HexChar(d6), HexChar(d5), HexChar(d4),
                          HexChar(d3), HexChar(d2), HexChar(d1), HexChar(d0)]
  {
    hide Hex, HexChar;
    var m1 := 16 * d7 + d6;
    var m2 := 16 * m1 + d5;
    var m3 := 16 * m2 + d4;
    var m4 := 16 * m3 + d3;
    var m5 := 16 * m4 + d2;
    NoHex(0);
    HexStep(0, d7, 0);
    HexStep(d7, d6, 1);
    HexStep(m1, d5, 2);
    HexStep(m2, d4, 3);
    HexStep(m3, d3, 4);
    HexStep(m4, d2, 5);
    HexStep(m5, d1, 6);
    HexStep(16 * m5 + d1, d0, 7);
  }

  lemma NoHex(n: nat)
    ensures Hex(n, 0) == ""
  {
  }

  /** A word of the block itself, from its four bytes. */
  lemma BlockWordIs(block: Bytes, t: nat, b0: u8, b1: u8, b2: u8, b3: u8, w: u32)
    requires |block| == 64 && t < 16 && block[4 * t] == b0 && block[4 * t + 1] == b1
    requires block[4 * t + 2] == b2 && block[4 * t + 3] == b3
    requires w == (((b0 as int) * 256 + b1) * 256 + b2) * 256 + b3
    ensures WordIs(block, t, w)
  {
    hide BigEndian.Decode;
    Sha256.WordOfBlock(block, 4 * t);
  }

  lemma Constants0()
    ensures ConstantIs(0, 0x428a2f98) && ConstantIs(1, 0x71374491)
    ensures ConstantIs(2, 0xb5c0fbcf) && ConstantIs(3, 0xe9b5dba5)
    ensures ConstantIs(4, 0x3956c25b) && ConstantIs(5, 0x59f111f1)
    ensures ConstantIs(6, 0x923f82a4) && ConstantIs(7, 0xab1c5ed5)
  {
  }

  lemma Constants1()
    ensures ConstantIs(8, 0xd807aa98) && ConstantIs(9, 0x12835b01)
    ensures ConstantIs(10, 0x243185be) && ConstantIs(11, 0x550c7dc3)
    ensures ConstantIs(12, 0x72be5d74) && ConstantIs(13, 0x80deb1fe)
    ensures ConstantIs(14, 0x9bdc06a7) && ConstantIs(15, 0xc19bf174)
  {
  }

  lemma Constants2()
    ensures ConstantIs(16, 0xe49b69c1) && ConstantIs(17, 0xefbe4786)
    ensures ConstantIs(18, 0x0fc19dc6) && ConstantIs(19, 0x240ca1cc)
    ensures ConstantIs(20, 0x2de92c6f) && ConstantIs(21, 0x4a7484aa)
    ensures ConstantIs(22, 0x5cb0a9dc) && ConstantIs(23, 0x76f988da)
  {
  }

  lemma Constants3()
    ensures ConstantIs(24, 0x983e5152) && ConstantIs(25, 0xa831c66d)
    ensures ConstantIs(26, 0xb00327c8) && ConstantIs(27, 0xbf597fc7)
    ensures ConstantIs(28, 0xc6e00bf3) && ConstantIs(29, 0xd5a79147)
    ensures ConstantIs(30, 0x06ca6351) && ConstantIs(31, 0x14292967)
  {
  }

  lemma Constants4()
    ensures ConstantIs(32, 0x27b70a85) && ConstantIs(33, 0x2e1b2138)
    ensures ConstantIs(34, 0x4d2c6dfc) && ConstantIs(35, 0x53380d13)
    ensures ConstantIs(36, 0x650a7354) && ConstantIs(37, 0x766a0abb)
    ensures ConstantIs(38, 0x81c2c92e) && ConstantIs(39, 0x92722c85)
  {
  }

  lemma Constants5()
    ensures ConstantIs(40, 0xa2bfe8a1) && ConstantIs(41, 0xa81a664b)
    ensures ConstantIs(42, 0xc24b8b70) && ConstantIs(43, 0xc76c51a3)
    ensures ConstantIs(44, 0xd192e819) && ConstantIs(45, 0xd6990624)
    ensures ConstantIs(46, 0xf40e3585) && ConstantIs(47, 0x106aa070)
  {
  }

  lemma Constants6()
    ensures ConstantIs(48, 0x19a4c116) && ConstantIs(49, 0x1e376c08)
    ensures ConstantIs(50, 0x2748774c) && ConstantIs(51, 0x34b0bcb5)
    ensures ConstantIs(52, 0x391c0cb3) && ConstantIs(53, 0x4ed8aa4a)
    ensures ConstantIs(54, 0x5b9cca4f) && ConstantIs(55, 0x682e6ff3)
  {
  }

  lemma Constants7()
    ensures ConstantIs(56, 0x748f82ee) && ConstantIs(57, 0x78a5636f)
    ensures ConstantIs(58, 0x84c87814) && ConstantIs(59, 0x8cc70208)
    ensures ConstantIs(60, 0x90befffa) && ConstantIs(61, 0xa4506ceb)
    ensures ConstantIs(62, 0xbef9a3f7) && ConstantIs(63, 0xc67178f2)
  {
  }
}
