/** Fixed-width integers, bytes and the option type shared by every module. */
module Base {

  datatype Option<+T> = None | Some(value: T)

  const TWO_16: int := 0x1_0000
  const TWO_32: int := 0x1_0000_0000
  const TWO_64: int := 0x1_0000_0000_0000_0000

  type u8 = x: int | 0 <= x < 0x100
  type u16 = x: int | 0 <= x < 0x1_0000
  type u32 = x: int | 0 <= x < 0x1_0000_0000
  type u64 = x: int | 0 <= x < 0x1_0000_0000_0000_0000

  type Bytes = seq<u8>

  /** Reduction modulo 2^64, the meaning of unsigned 64-bit overflow and underflow. */
  function Wrap64(x: int): u64 {
    x % 0x1_0000_0000_0000_0000
  }

  /** Truncation by a cast to a 32-bit unsigned integer. */
  function Wrap32(x: int): u32 {
    x % 0x1_0000_0000
  }

  /** Nothing wraps below 2^64. */
  lemma WrapSmall(x: int)
    requires 0 <= x < TWO_64
    ensures Wrap64(x) == x
  {
  }

  lemma Wrap32Small(x: u32)
    ensures Wrap32(x) == x
  {
  }

  lemma WrapAdd(x: int, y: int)
    ensures Wrap64(Wrap64(x) + y) == Wrap64(x + y)
  {
  }

  function Min(x: int, y: int): int {
    if x <= y then x else y
  }

  /** A std::string: every char is one byte. */
  type ByteString = s: string | forall i :: 0 <= i < |s| ==> s[i] as int < 256

  function ToBytes(s: ByteString): (b: Bytes)
    ensures |b| == |s|
    ensures forall i :: 0 <= i < |s| ==> b[i] == s[i] as int
  {
    seq(|s|, i requires 0 <= i < |s| => s[i] as int)
  }

  function FromBytes(b: Bytes): (s: ByteString)
    ensures |s| == |b|
    ensures ToBytes(s) == b
  {
    seq(|b|, i requires 0 <= i < |b| => b[i] as char)
  }

  lemma FromToBytes(s: ByteString)
    ensures FromBytes(ToBytes(s)) == s
  {
    assert forall i :: 0 <= i < |s| ==> FromBytes(ToBytes(s))[i] == s[i];
  }
}
