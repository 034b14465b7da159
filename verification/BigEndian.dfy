/**
 * Big-endian integers, as every binary codec of the transfer protocol writes
 * and reads them: a shift loop that appends one byte at a time, and a loop that
 * shifts the accumulator left by eight and advances a read offset.
 */
module BigEndian {
  import opened Base

  function Pow256(n: nat): (p: nat)
    ensures p > 0
  {
    if n == 0 then 1 else 256 * Pow256(n - 1)
  }

  /** The `width` low-order base-256 digits of `value`, most significant first. */
  function Encode(value: nat, width: nat): (b: Bytes)
    ensures |b| == width
  {
    if width == 0 then [] else Encode(value / 256, width - 1) + [value % 256]
  }

  function Decode(b: Bytes): nat {
    if b == [] then 0 else Decode(b[..|b| - 1]) * 256 + b[|b| - 1]
  }

  lemma {:induction false} DecodeBound(b: Bytes)
    ensures Decode(b) < Pow256(|b|)
  {
    if b != [] {
      DecodeBound(b[..|b| - 1]);
    }
  }

  lemma Widths()
    ensures Pow256(2) == TWO_16 && Pow256(4) == TWO_32 && Pow256(8) == TWO_64
  {
    assert Pow256(2) == 256 * Pow256(1) == 0x1_0000;
    assert Pow256(3) == 256 * Pow256(2) == 0x100_0000;
    assert Pow256(4) == 256 * Pow256(3);
    assert Pow256(5) == 256 * Pow256(4) == 0x100_0000_0000;
    assert Pow256(6) == 256 * Pow256(5) == 0x1_0000_0000_0000;
    assert Pow256(7) == 256 * Pow256(6) == 0x100_0000_0000_0000;
    assert Pow256(8) == 256 * Pow256(7);
  }

  lemma Base256(value: nat, p: nat)
    requires value < 256 * p
    ensures value / 256 < p && value == value / 256 * 256 + value % 256
  {
  }

  lemma DecodeAppend(b: Bytes, last: u8)
    ensures Decode(b + [last]) == Decode(b) * 256 + last
  {
    assert (b + [last])[..|b|] == b;
  }

  lemma {:induction false} DecodeEncode(value: nat, width: nat)
    requires value < Pow256(width)
    ensures Decode(Encode(value, width)) == value
  {
    hide Decode;
    if width == 0 {
      DecodeNothing(Encode(value, width));
    } else {
      Base256(value, Pow256(width - 1));
      DecodeEncode(value / 256, width - 1);
      DecodeAppend(Encode(value / 256, width - 1), value % 256);
    }
  }

  lemma DecodeNothing(b: Bytes)
    requires b == []
    ensures Decode(b) == 0
  {
  }

  lemma {:induction false} EncodeDecode(b: Bytes)
    ensures Encode(Decode(b), |b|) == b
  {
    if b != [] {
      EncodeDecode(b[..|b| - 1]);
      assert b == b[..|b| - 1] + [b[|b| - 1]];
    }
  }

  lemma RoundTrip16(v: u16)
    ensures Decode(Encode(v, 2)) == v
  {
    Widths();
    DecodeEncode(v, 2);
  }

  lemma RoundTrip32(v: u32)
    ensures Decode(Encode(v, 4)) == v
  {
    Widths();
    DecodeEncode(v, 4);
  }

  lemma RoundTrip64(v: u64)
    ensures Decode(Encode(v, 8)) == v
  {
    Widths();
    DecodeEncode(v, 8);
  }

  /** The value of a two-byte field. */
  function Decode16(b: Bytes): u16
    requires |b| == 2
  {
    Widths();
    DecodeBound(b);
    Decode(b)
  }

  /** The value of a four-byte field. */
  function Decode32(b: Bytes): u32
    requires |b| == 4
  {
    Widths();
    DecodeBound(b);
    Decode(b)
  }

  /** The value of an eight-byte field. */
  function Decode64(b: Bytes): u64
    requires |b| == 8
  {
    Widths();
    DecodeBound(b);
    Decode(b)
  }

  /** `value >> 8 * k`. */
  function ShiftRight(value: nat, k: nat): nat {
    if k == 0 then value else ShiftRight(value, k - 1) / 256
  }

  /** append_u32 (width 4) and append_u64 (width 8): shift down, mask, push back. */
  method Append(output: Bytes, value: nat, width: nat) returns (r: Bytes)
    ensures r == output + Encode(value, width)
  {
    r := output;
    var k := width;
    ghost var done: Bytes := [];
    while k > 0
      invariant 0 <= k <= width
      invariant done == Encode(ShiftRight(value, k), width - k)
      invariant r == output + done
    {
      var b := ShiftRight(value, k - 1) % 256;
      r := r + [b];
      done := done + [b];
      k := k - 1;
    }
  }

  /** read_u32 (width 4) and read_u64 (width 8): accumulate and advance the offset. */
  method Read(input: Bytes, offset: nat, width: nat) returns (value: nat, next: nat)
    requires offset + width <= |input|
    ensures next == offset + width
    ensures value == Decode(input[offset..next])
  {
    value, next := 0, offset;
    while next < offset + width
      invariant offset <= next <= offset + width
      invariant value == Decode(input[offset..next])
    {
      var grown := input[offset..next + 1];
      assert grown[..|grown| - 1] == input[offset..next];
      value := value * 256 + input[next];
      next := next + 1;
    }
  }

  // ---------------------------------------------------------------- numbers by position

  /** The number in two bytes of a message, the more significant one first. */
  function Number2(f: Bytes, i: nat): int
    requires i + 2 <= |f|
  {
    f[i] as int * 0x100 + f[i + 1]
  }

  /** The number in four bytes. */
  function Number4(f: Bytes, i: nat): int
    requires i + 4 <= |f|
  {
    f[i] as int * 0x100_0000 + f[i + 1] as int * 0x1_0000 + f[i + 2] as int * 0x100 + f[i + 3]
  }

  /** The number in eight bytes. */
  function Number8(f: Bytes, i: nat): int
    requires i + 8 <= |f|
  {
    f[i] as int * 0x100_0000_0000_0000 + f[i + 1] as int * 0x1_0000_0000_0000 +
    f[i + 2] as int * 0x100_0000_0000 + f[i + 3] as int * 0x1_0000_0000 + Number4(f, i + 4)
  }

  /** Four bytes that spell a word. */
  lemma Spells(v: u32, s: ByteString)
    requires |s| == 4
    requires v == (((s[0] as int) * 0x100 + s[1] as int) * 0x100 + s[2] as int) * 0x100 + s[3] as int
    ensures Encode(v, 4) == ToBytes(s)
  {
    hide Encode, Decode;
    var b := ToBytes(s);
    DecodeFour(b);
    EncodeDecode(b);
  }

  lemma DecodeTwo(b: Bytes)
    requires |b| == 2
    ensures Decode(b) == Number2(b, 0)
  {
    assert b[..1][..0] == [];
    assert Decode(b[..1]) == b[0];
  }

  lemma DecodeMore(b: Bytes, n: nat)
    requires n < |b|
    ensures Decode(b[..n + 1]) == Decode(b[..n]) * 256 + b[n]
  {
    assert b[..n + 1][..n] == b[..n];
  }

  lemma DecodeFour(b: Bytes)
    requires |b| == 4
    ensures Decode(b) == Number4(b, 0)
  {
    hide Decode;
    DecodeNothing(b[..0]);
    DecodeMore(b, 0);
    DecodeMore(b, 1);
    DecodeMore(b, 2);
    DecodeMore(b, 3);
    assert b[..4] == b;
  }

  lemma DecodeEight(b: Bytes)
    requires |b| == 8
    ensures Decode(b) == Number8(b, 0)
  {
    hide Decode;
    DecodeNothing(b[..0]);
    DecodeMore(b, 0);
    DecodeMore(b, 1);
    DecodeMore(b, 2);
    DecodeMore(b, 3);
    DecodeMore(b, 4);
    DecodeMore(b, 5);
    DecodeMore(b, 6);
    DecodeMore(b, 7);
    assert b[..8] == b;
  }

  /** A field of two, four or eight bytes holds its number with the most significant byte first. */
  lemma Field2(f: Bytes, i: nat, v: u16)
    requires i + 2 <= |f| && f[i..i + 2] == Encode(v, 2)
    ensures Number2(f, i) == v
  {
    hide Encode, Decode;
    var b := f[i..i + 2];
    RoundTrip16(v);
    DecodeTwo(b);
    assert b[0] == f[i] && b[1] == f[i + 1];
  }

  lemma Field4(f: Bytes, i: nat, v: u32)
    requires i + 4 <= |f| && f[i..i + 4] == Encode(v, 4)
    ensures Number4(f, i) == v
  {
    hide Encode, Decode;
    var b := f[i..i + 4];
    RoundTrip32(v);
    DecodeFour(b);
    assert b[0] == f[i] && b[1] == f[i + 1] && b[2] == f[i + 2] && b[3] == f[i + 3];
  }

  lemma Field8(f: Bytes, i: nat, v: u64)
    requires i + 8 <= |f| && f[i..i + 8] == Encode(v, 8)
    ensures Number8(f, i) == v
  {
    hide Encode, Decode;
    var b := f[i..i + 8];
    RoundTrip64(v);
    DecodeEight(b);
    assert forall k :: 0 <= k < 8 ==> b[k] == f[i + k];
  }
}
