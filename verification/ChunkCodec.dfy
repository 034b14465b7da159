/** The chunk header message: 32 bytes, big-endian (src/transfer/chunk_codec.cpp). */
module ChunkCodec {
  import opened Base
  import opened Protocol
  import BigEndian

  const MAGIC: u32 := 0x50424348
  const SIZE: nat := 32

  function Encode(h: ChunkHeader): (p: Bytes)
    ensures |p| == SIZE
  {
    BigEndian.Encode(MAGIC, 4) + BigEndian.Encode(h.sessionId, 8) + BigEndian.Encode(h.chunkIndex, 8) +
    BigEndian.Encode(h.byteOffset, 8) + BigEndian.Encode(h.payloadSize, 4)
  }

  function Decode(p: Bytes): Option<ChunkHeader> {
    if |p| != SIZE || BigEndian.Decode32(p[0..4]) != MAGIC then None
    else
      Some(ChunkHeader(BigEndian.Decode64(p[4..12]), BigEndian.Decode64(p[12..20]),
                       BigEndian.Decode64(p[20..28]), BigEndian.Decode32(p[28..32])))
  }

  lemma FieldSlices(h: ChunkHeader)
    ensures var p := Encode(h);
            p[0..4] == BigEndian.Encode(MAGIC, 4) && p[4..12] == BigEndian.Encode(h.sessionId, 8) &&
            p[12..20] == BigEndian.Encode(h.chunkIndex, 8) && p[20..28] == BigEndian.Encode(h.byteOffset, 8) &&
            p[28..32] == BigEndian.Encode(h.payloadSize, 4)
  {
    hide BigEndian.Encode;
    var p3 := BigEndian.Encode(MAGIC, 4) + BigEndian.Encode(h.sessionId, 8) + BigEndian.Encode(h.chunkIndex, 8);
    assert p3[0..4] == BigEndian.Encode(MAGIC, 4) && p3[4..12] == BigEndian.Encode(h.sessionId, 8);
    assert p3[12..20] == BigEndian.Encode(h.chunkIndex, 8);
    var p4 := p3 + BigEndian.Encode(h.byteOffset, 8);
    assert p4[..20] == p3 && p4[20..28] == BigEndian.Encode(h.byteOffset, 8);
    var p := Encode(h);
    assert p[..28] == p4 && p[28..32] == BigEndian.Encode(h.payloadSize, 4);
  }

  /** Headers and accepted byte strings correspond one to one. */
  lemma Bijection(h: ChunkHeader, p: Bytes)
    ensures Decode(p) == Some(h) <==> p == Encode(h)
  {
    hide BigEndian.Encode, BigEndian.Decode;
    if Decode(p) == Some(h) {
      BigEndian.EncodeDecode(p[0..4]);
      BigEndian.EncodeDecode(p[4..12]);
      BigEndian.EncodeDecode(p[12..20]);
      BigEndian.EncodeDecode(p[20..28]);
      BigEndian.EncodeDecode(p[28..32]);
      assert p == p[0..4] + p[4..12] + p[12..20] + p[20..28] + p[28..32];
    }
    if p == Encode(h) {
      FieldSlices(h);
      BigEndian.RoundTrip32(MAGIC);
      BigEndian.RoundTrip64(h.sessionId);
      BigEndian.RoundTrip64(h.chunkIndex);
      BigEndian.RoundTrip64(h.byteOffset);
      BigEndian.RoundTrip32(h.payloadSize);
    }
  }

  method Serialize(h: ChunkHeader) returns (payload: Bytes)
    ensures payload == Encode(h)
  {
    hide BigEndian.Encode;
    payload := BigEndian.Append([], MAGIC, 4);
    payload := BigEndian.Append(payload, h.sessionId, 8);
    payload := BigEndian.Append(payload, h.chunkIndex, 8);
    payload := BigEndian.Append(payload, h.byteOffset, 8);
    payload := BigEndian.Append(payload, h.payloadSize, 4);
  }

  method Deserialize(payload: Bytes) returns (header: Option<ChunkHeader>)
    ensures header == Decode(payload)
  {
    hide BigEndian.Decode;
    if |payload| != SIZE {
      return None;
    }
    var magic, sessionId, chunkIndex, byteOffset, payloadSize, offset;
    magic, offset := BigEndian.Read(payload, 0, 4);
    if magic != MAGIC {
      return None;
    }
    sessionId, offset := BigEndian.Read(payload, offset, 8);
    chunkIndex, offset := BigEndian.Read(payload, offset, 8);
    byteOffset, offset := BigEndian.Read(payload, offset, 8);
    payloadSize, offset := BigEndian.Read(payload, offset, 4);
    assert sessionId == BigEndian.Decode64(payload[4..12]) && chunkIndex == BigEndian.Decode64(payload[12..20]);
    assert byteOffset == BigEndian.Decode64(payload[20..28]) && payloadSize == BigEndian.Decode32(payload[28..32]);
    return Some(ChunkHeader(sessionId, chunkIndex, byteOffset, payloadSize));
  }

  /** Where each field of a header is. */
  lemma Layout(h: ChunkHeader)
    ensures var p := Encode(h);
            |p| == 32 && p[0..4] == ToBytes("PBCH") && BigEndian.Number8(p, 4) == h.sessionId &&
            BigEndian.Number8(p, 12) == h.chunkIndex && BigEndian.Number8(p, 20) == h.byteOffset &&
            BigEndian.Number4(p, 28) == h.payloadSize
  {
    hide BigEndian.Encode, BigEndian.Number4, BigEndian.Number8;
    var p := Encode(h);
    FieldSlices(h);
    BigEndian.Spells(MAGIC, "PBCH");
    BigEndian.Field8(p, 4, h.sessionId);
    BigEndian.Field8(p, 12, h.chunkIndex);
    BigEndian.Field8(p, 20, h.byteOffset);
    BigEndian.Field4(p, 28, h.payloadSize);
  }
}
