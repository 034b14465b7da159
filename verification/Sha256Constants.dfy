/**
 * The constants of SHA-256: sixty-four round constants (FIPS 180-4, section
 * 4.2.2) and the initial hash value (section 5.3.3).
 */
module Sha256Constants {
  import opened Base

  const ROUND_CONSTANTS: seq<seq<u32>> := [
    [0x428a2f98, 0x71374491, 0xb5c0fbcf, 0xe9b5dba5, 0x3956c25b, 0x59f111f1, 0x923f82a4, 0xab1c5ed5],
    [0xd807aa98, 0x12835b01, 0x243185be, 0x550c7dc3, 0x72be5d74, 0x80deb1fe, 0x9bdc06a7, 0xc19bf174],
    [0xe49b69c1, 0xefbe4786, 0x0fc19dc6, 0x240ca1cc, 0x2de92c6f, 0x4a7484aa, 0x5cb0a9dc, 0x76f988da],
    [0x983e5152, 0xa831c66d, 0xb00327c8, 0xbf597fc7, 0xc6e00bf3, 0xd5a79147, 0x06ca6351, 0x14292967],
    [0x27b70a85, 0x2e1b2138, 0x4d2c6dfc, 0x53380d13, 0x650a7354, 0x766a0abb, 0x81c2c92e, 0x92722c85],
    [0xa2bfe8a1, 0xa81a664b, 0xc24b8b70, 0xc76c51a3, 0xd192e819, 0xd6990624, 0xf40e3585, 0x106aa070],
    [0x19a4c116, 0x1e376c08, 0x2748774c, 0x34b0bcb5, 0x391c0cb3, 0x4ed8aa4a, 0x5b9cca4f, 0x682e6ff3],
    [0x748f82ee, 0x78a5636f, 0x84c87814, 0x8cc70208, 0x90befffa, 0xa4506ceb, 0xbef9a3f7, 0xc67178f2]]

  /** Eight words: a hash value, or the working variables of one compression. */
  datatype Regs = Regs(a: u32, b: u32, c: u32, d: u32, e: u32, f: u32, g: u32, h: u32)

  const INITIAL := Regs(
    0x6a09e667, 0xbb67ae85, 0x3c6ef372, 0xa54ff53a, 0x510e527f, 0x9b05688c, 0x1f83d9ab, 0x5be0cd19)

  /** The first sixty-four primes. */
  const PRIMES: seq<seq<nat>> := [
    [2, 3, 5, 7, 11, 13, 17, 19],
    [23, 29, 31, 37, 41, 43, 47, 53],
    [59, 61, 67, 71, 73, 79, 83, 89],
    [97, 101, 103, 107, 109, 113, 127, 131],
    [137, 139, 149, 151, 157, 163, 167, 173],
    [179, 181, 191, 193, 197, 199, 211, 223],
    [227, 229, 233, 239, 241, 251, 257, 263],
    [269, 271, 277, 281, 283, 293, 307, 311]]

  function K(t: nat): u32
    requires t < 64
  {
    ROUND_CONSTANTS[t / 8][t % 8]
  }

  function Prime(t: nat): nat
    requires t < 64
  {
    PRIMES[t / 8][t % 8]
  }

  function Square(x: int): int {
    x * x
  }

  function Cube(x: int): int {
    x * x * x
  }

  /** `k` is the first 32 bits of the fractional part of the cube root of `p`, whose integer part is `a`. */
  predicate CubeRootFraction(p: nat, a: nat, k: u32) {
    Cube(a) <= p < Cube(a + 1) &&
    Cube(a * TWO_32 + k) <= p * (TWO_32 * TWO_32 * TWO_32) < Cube(a * TWO_32 + k + 1)
  }

  /** `h` is the first 32 bits of the fractional part of the square root of `p`, whose integer part is `a`. */
  predicate SquareRootFraction(p: nat, a: nat, h: u32) {
    Square(a) <= p < Square(a + 1) &&
    Square(a * TWO_32 + h) <= p * TWO_64 < Square(a * TWO_32 + h + 1)
  }

  function CubeRootFloor(p: nat): nat {
    if p < 8 then 1 else if p < 27 then 2 else if p < 64 then 3 else if p < 125 then 4 else if p < 216 then 5 else 6
  }

  /** The round constants are what section 4.2.2 defines them to be. */
  lemma RoundConstantsAreCubeRoots(t: nat)
    requires t < 64
    ensures CubeRootFraction(Prime(t), CubeRootFloor(Prime(t)), K(t))
  {
    if
    case t < 8 => Row0(t);
    case 8 <= t < 16 => Row1(t);
    case 16 <= t < 24 => Row2(t);
    case 24 <= t < 32 => Row3(t);
    case 32 <= t < 40 => Row4(t);
    case 40 <= t < 48 => Row5(t);
    case 48 <= t < 56 => Row6(t);
    case 56 <= t < 64 => Row7(t);
  }

  lemma Row0(t: nat)
    requires 0 <= t < 8
    ensures CubeRootFraction(Prime(t), CubeRootFloor(Prime(t)), K(t))
  {
  }

  lemma Row1(t: nat)
    requires 8 <= t < 16
    ensures CubeRootFraction(Prime(t), CubeRootFloor(Prime(t)), K(t))
  {
  }

  lemma Row2(t: nat)
    requires 16 <= t < 24
    ensures CubeRootFraction(Prime(t), CubeRootFloor(Prime(t)), K(t))
  {
  }

  lemma Row3(t: nat)
    requires 24 <= t < 32
    ensures CubeRootFraction(Prime(t), CubeRootFloor(Prime(t)), K(t))
  {
  }

  lemma Row4(t: nat)
    requires 32 <= t < 40
    ensures CubeRootFraction(Prime(t), CubeRootFloor(Prime(t)), K(t))
  {
  }

  lemma Row5(t: nat)
    requires 40 <= t < 48
    ensures CubeRootFraction(Prime(t), CubeRootFloor(Prime(t)), K(t))
  {
  }

  lemma Row6(t: nat)
    requires 48 <= t < 56
    ensures CubeRootFraction(Prime(t), CubeRootFloor(Prime(t)), K(t))
  {
  }

  lemma Row7(t: nat)
    requires 56 <= t < 64
    ensures CubeRootFraction(Prime(t), CubeRootFloor(Prime(t)), K(t))
  {
  }

  /** The initial hash value is what section 5.3.3 defines it to be. */
  lemma InitialValueIsSquareRoots()
    ensures SquareRootFraction(2, 1, INITIAL.a) && SquareRootFraction(3, 1, INITIAL.b)
    ensures SquareRootFraction(5, 2, INITIAL.c) && SquareRootFraction(7, 2, INITIAL.d)
    ensures SquareRootFraction(11, 3, INITIAL.e) && SquareRootFraction(13, 3, INITIAL.f)
    ensures SquareRootFraction(17, 4, INITIAL.g) && SquareRootFraction(19, 4, INITIAL.h)
  {
  }
}
