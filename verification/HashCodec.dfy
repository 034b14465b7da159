/** The hash packet: 76 bytes, the digest as text (src/transfer/hash_codec.cpp). */
module HashCodec {
  import opened Base
  import opened Protocol
  import BigEndian
  import opened Sha256

  const MAGIC: u32 := 0x50424853
  const SIZE: nat := 76

  /** Empty, which the sender treats as an error, when the digest is not 64 lowercase hexadecimal characters. */
  function Encode(packet: HashPacket): Bytes {
    if !IsSha256Hex(packet.sha256Hex) then []
    else BigEndian.Encode(MAGIC, 4) + BigEndian.Encode(packet.sessionId, 8) + ToBytes(packet.sha256Hex)
  }

  function Decode(p: Bytes): Option<HashPacket> {
    if |p| != SIZE || BigEndian.Decode32(p[0..4]) != MAGIC || !IsSha256Hex(FromBytes(p[12..])) then None
    else Some(HashPacket(BigEndian.Decode64(p[4..12]), FromBytes(p[12..])))
  }

  /** Packets with a proper digest and accepted byte strings correspond one to one; nothing else is accepted. */
  lemma Bijection(packet: HashPacket, p: Bytes)
    ensures Decode(p) == Some(packet) <==> IsSha256Hex(packet.sha256Hex) && p == Encode(packet)
  {
    hide BigEndian.Encode, BigEndian.Decode, IsSha256Hex;
    if Decode(p) == Some(packet) {
      BigEndian.EncodeDecode(p[0..4]);
      BigEndian.EncodeDecode(p[4..12]);
      assert p == p[0..4] + p[4..12] + p[12..];
    }
    if IsSha256Hex(packet.sha256Hex) && p == Encode(packet) {
      DigestLength(packet.sha256Hex);
      assert p[0..4] == BigEndian.Encode(MAGIC, 4);
      assert p[4..12] == BigEndian.Encode(packet.sessionId, 8);
      assert p[12..] == ToBytes(packet.sha256Hex);
      BigEndian.RoundTrip32(MAGIC);
      BigEndian.RoundTrip64(packet.sessionId);
      FromToBytes(packet.sha256Hex);
    }
  }

  lemma DigestLength(value: string)
    requires IsSha256Hex(value)
    ensures |value| == 64
  {
  }

  method Serialize(packet: HashPacket) returns (payload: Bytes)
    ensures payload == Encode(packet)
  {
    hide BigEndian.Encode, IsSha256Hex;
    var ok := CheckSha256Hex(packet.sha256Hex);
    if !ok {
      return [];
    }
    payload := BigEndian.Append([], MAGIC, 4);
    payload := BigEndian.Append(payload, packet.sessionId, 8);
    payload := payload + ToBytes(packet.sha256Hex);
  }

  method Deserialize(payload: Bytes) returns (packet: Option<HashPacket>)
    ensures packet == Decode(payload)
  {
    hide BigEndian.Decode, IsSha256Hex;
    if |payload| != SIZE {
      return None;
    }
    var magic, sessionId, offset;
    magic, offset := BigEndian.Read(payload, 0, 4);
    if magic != MAGIC {
      return None;
    }
    sessionId, offset := BigEndian.Read(payload, offset, 8);
    assert sessionId == BigEndian.Decode64(payload[4..12]);
    var hex := FromBytes(payload[offset..]);
    var ok := CheckSha256Hex(hex);
    return if ok then Some(HashPacket(sessionId, hex)) else None;
  }

  /** Where each field of a packet is. */
  lemma Layout(packet: HashPacket)
    requires IsSha256Hex(packet.sha256Hex)
    ensures var p := Encode(packet);
            |p| == 76 && p[0..4] == ToBytes("PBHS") && BigEndian.Number8(p, 4) == packet.sessionId &&
            p[12..] == ToBytes(packet.sha256Hex)
  {
    hide BigEndian.Encode, BigEndian.Number8, IsSha256Hex;
    var p := Encode(packet);
    DigestLength(packet.sha256Hex);
    assert p[0..4] == BigEndian.Encode(MAGIC, 4);
    assert p[4..12] == BigEndian.Encode(packet.sessionId, 8);
    BigEndian.Spells(MAGIC, "PBHS");
    BigEndian.Field8(p, 4, packet.sessionId);
  }
}
