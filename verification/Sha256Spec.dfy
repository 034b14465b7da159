/**
 * The Secure Hash Standard, FIPS 180-4, for SHA-256 on whole messages of bytes:
 * functions (section 4.1.2), padding (5.1.1), parsing (5.2.1) and hash
 * computation (6.2.2).
 */
module Sha256Spec {
  import opened Base
  import BigEndian
  import opened Sha256Constants

  // Words are 32-bit unsigned integers; addition wraps, and the bitwise functions
  // go through bit vectors.

  function RotateRight(value: bv32, bits: nat): bv32
    requires 0 < bits < 32
  {
    (value >> bits) | (value << (32 - bits))
  }

  function ChooseBits(x: bv32, y: bv32, z: bv32): bv32 {
    (x & y) ^ (!x & z)
  }

  function MajorityBits(x: bv32, y: bv32, z: bv32): bv32 {
    (x & y) ^ (x & z) ^ (y & z)
  }

  /** Choose takes each bit from `y` or `z` as `x` tells it. */
  lemma ChooseSelects(x: bv32, y: bv32, z: bv32)
    ensures ChooseBits(x, y, z) == (x & y) | (!x & z)
  {
  }

  /** Majority has a bit exactly where at least two of its arguments have it. */
  lemma MajorityVotes(x: bv32, y: bv32, z: bv32)
    ensures MajorityBits(x, y, z) == (x & y) | (x & z) | (y & z)
  {
  }

  function Choose(x: u32, y: u32, z: u32): u32 {
    ChooseBits(x as bv32, y as bv32, z as bv32) as int
  }

  function Majority(x: u32, y: u32, z: u32): u32 {
    MajorityBits(x as bv32, y as bv32, z as bv32) as int
  }

  function BigSigma0(x: u32): u32 {
    var v := x as bv32;
    (RotateRight(v, 2) ^ RotateRight(v, 13) ^ RotateRight(v, 22)) as int
  }

  function BigSigma1(x: u32): u32 {
    var v := x as bv32;
    (RotateRight(v, 6) ^ RotateRight(v, 11) ^ RotateRight(v, 25)) as int
  }

  function SmallSigma0(x: u32): u32 {
    var v := x as bv32;
    (RotateRight(v, 7) ^ RotateRight(v, 18) ^ (v >> 3)) as int
  }

  function SmallSigma1(x: u32): u32 {
    var v := x as bv32;
    (RotateRight(v, 17) ^ RotateRight(v, 19) ^ (v >> 10)) as int
  }

  /** Their values on the initial hash value, and on the first word of the one-block message "abc". */
  lemma BitFunctionValues()
    ensures BigSigma0(INITIAL.a) == 0xce20b47e && BigSigma1(INITIAL.e) == 0x3587272b
    ensures Choose(INITIAL.e, INITIAL.f, INITIAL.g) == 0x1f85c98c
    ensures Majority(INITIAL.a, INITIAL.b, INITIAL.c) == 0x3a6fe667
    ensures SmallSigma0(0x61626380) == 0x940e90ef && SmallSigma1(0x61626380) == 0x7da86405
  {
  }

  // ---------------------------------------------------------------- padding

  function Zeros(n: nat): (z: Bytes)
    ensures |z| == n
  {
    seq(n, _ => 0)
  }

  /** The least number of zero bytes that brings a message and its one bit to 56 modulo 64. */
  function PadZeros(len: nat): (k: nat)
    ensures k < 64 && (len + 1 + k) % 64 == 56
  {
    (119 - len % 64) % 64
  }

  /** The bit length modulo 2^64. */
  function BitCount(message: Bytes): u64 {
    Wrap64(8 * |message|)
  }

  /** Section 5.1.1. The length field holds the bit length, which fits for every message below 2^61 bytes. */
  function Pad(message: Bytes): (p: Bytes)
    ensures |p| % 64 == 0
    ensures |p| == |message| + 9 + PadZeros(|message|)
  {
    WholeBlocks(|message| + 1 + PadZeros(|message|));
    message + [0x80] + Zeros(PadZeros(|message|)) + BigEndian.Encode(BitCount(message), 8)
  }

  lemma WholeBlocks(n: nat)
    requires n % 64 == 56
    ensures (n + 8) % 64 == 0
  {
  }

  // ---------------------------------------------------------------- hash computation

  /** Word `t` of a block, big-endian (section 5.2.1). */
  function BlockWord(block: Bytes, t: nat): u32
    requires |block| == 64 && t < 16
  {
    BigEndian.Decode32(block[4 * t..4 * t + 4])
  }

  /** The message schedule W_t. */
  function Schedule(block: Bytes, t: nat): u32
    requires |block| == 64 && t < 64
  {
    if t < 16 then BlockWord(block, t)
    else
      Wrap32(SmallSigma1(Schedule(block, t - 2)) + Schedule(block, t - 7) +
             SmallSigma0(Schedule(block, t - 15)) + Schedule(block, t - 16))
  }

  /** Step 3 of the computation, for round constant `k` and schedule word `w`. */
  function Round(r: Regs, k: u32, w: u32): Regs {
    var t1: int := Wrap32(r.h + BigSigma1(r.e) + Choose(r.e, r.f, r.g) + k + w);
    var t2: int := Wrap32(BigSigma0(r.a) + Majority(r.a, r.b, r.c));
    Regs(Wrap32(t1 + t2), r.a, r.b, r.c, Wrap32(r.d + t1), r.e, r.f, r.g)
  }

  /** The working variables after the first `n` rounds. */
  function Rounds(start: Regs, block: Bytes, n: nat): Regs
    requires |block| == 64 && n <= 64
  {
    if n == 0 then start
    else Round(Rounds(start, block, n - 1), K(n - 1), Schedule(block, n - 1))
  }

  function Add(x: Regs, y: Regs): Regs {
    Regs(Wrap32(x.a + y.a), Wrap32(x.b + y.b), Wrap32(x.c + y.c), Wrap32(x.d + y.d),
         Wrap32(x.e + y.e), Wrap32(x.f + y.f), Wrap32(x.g + y.g), Wrap32(x.h + y.h))
  }

  function Compress(h: Regs, block: Bytes): Regs
    requires |block| == 64
  {
    Add(h, Rounds(h, block, 64))
  }

  /** The hash value after the blocks of `b`, in order. */
  function HashBlocks(b: Bytes): Regs
    requires |b| % 64 == 0
  {
    if b == [] then INITIAL
    else Compress(HashBlocks(b[..|b| - 64]), b[|b| - 64..])
  }

  function Digest(message: Bytes): Regs {
    HashBlocks(Pad(message))
  }

  // ---------------------------------------------------------------- hexadecimal

  function HexChar(d: nat): char
    requires d < 16
  {
    if d < 10 then '0' + d as char else 'a' + (d - 10) as char
  }

  /** The `width` low-order hexadecimal digits of `n`. */
  function Hex(n: nat, width: nat): (s: string)
    ensures |s| == width
  {
    if width == 0 then "" else Hex(n / 16, width - 1) + [HexChar(n % 16)]
  }

  function DigestHex(r: Regs): (s: string)
    ensures |s| == 64
  {
    Hex(r.a, 8) + Hex(r.b, 8) + Hex(r.c, 8) + Hex(r.d, 8) + Hex(r.e, 8) + Hex(r.f, 8) + Hex(r.g, 8) + Hex(r.h, 8)
  }

  /** The digest of a message, as 64 lowercase hexadecimal characters. */
  function Sha256Hex(message: Bytes): (s: string)
    ensures |s| == 64
  {
    DigestHex(Digest(message))
  }
}
